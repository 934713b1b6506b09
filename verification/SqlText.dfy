/** Query text as the database server reads it: words, signs and `$k` placeholders. */
module SqlText {

  datatype Token = Word(word: string) | Param(k: nat) | Sign(sign: char)

  predicate Blank(c: char) { c == ' ' || c == '\n' || c == '\t' }

  predicate Digit(c: char) { '0' <= c <= '9' }

  /** A character that continues a word or a placeholder; a dot joins a table and its column. */
  predicate Glue(c: char) {
    'a' <= c <= 'z' || 'A' <= c <= 'Z' || Digit(c) || c == '_' || c == '.' || c == '$'
  }

  /** The length of the longest prefix of s whose characters are all p. */
  function Span(s: string, p: char -> bool): (n: nat)
    ensures n <= |s|
  {
    if s == "" || !p(s[0]) then 0 else 1 + Span(s[1..], p)
  }

  lemma {:induction false} SpanEnds(s: string, p: char -> bool)
    ensures forall i :: 0 <= i < Span(s, p) ==> p(s[i])
    ensures Span(s, p) < |s| ==> !p(s[Span(s, p)])
  {
    if s != "" && p(s[0]) {
      SpanEnds(s[1..], p);
      forall i | 0 <= i < Span(s, p)
        ensures p(s[i])
      {
        if i > 0 { assert s[i] == s[1..][i - 1]; }
      }
    }
  }

  function DigitValue(c: char): nat { if Digit(c) then c as nat - '0' as nat else 0 }

  function Number(digits: string): nat {
    if digits == "" then 0
    else 10 * Number(digits[..|digits| - 1]) + DigitValue(digits[|digits| - 1])
  }

  /** How many characters the first token of s, or its leading blank, takes. */
  function Cut(s: string): (n: nat)
    requires s != ""
    ensures 1 <= n <= |s|
  {
    if s[0] == '$' && Span(s[1..], Digit) > 0 then 1 + Span(s[1..], Digit)
    else if Glue(s[0]) then Span(s, Glue)
    else 1
  }

  /** The first token of s, or nothing for a blank. */
  function First(s: string): seq<Token>
    requires s != ""
  {
    if Blank(s[0]) then []
    else if s[0] == '$' && Span(s[1..], Digit) > 0 then [Param(Number(s[1..Cut(s)]))]
    else if Glue(s[0]) then [Word(s[..Cut(s)])]
    else [Sign(s[0])]
  }

  function Tokens(s: string): seq<Token>
    decreases |s|
  {
    if s == "" then [] else First(s) + Tokens(s[Cut(s)..])
  }

  /** fmt's %d. */
  function Decimal(n: nat): (s: string)
    ensures s != "" && forall i :: 0 <= i < |s| ==> Digit(s[i])
  {
    if n < 10 then [('0' as int + n) as char] else Decimal(n / 10) + [('0' as int + n % 10) as char]
  }

  lemma {:induction false} NumberOfDecimal(n: nat)
    ensures Number(Decimal(n)) == n
  {
    if n >= 10 {
      NumberOfDecimal(n / 10);
      assert Decimal(n)[..|Decimal(n)| - 1] == Decimal(n / 10);
    }
  }

  // --------------------------------------------------------------- reading pieces

  lemma {:induction false} SpanIs(s: string, p: char -> bool, n: nat)
    requires n <= |s| && (forall i :: 0 <= i < n ==> p(s[i])) && (n < |s| ==> !p(s[n]))
    ensures Span(s, p) == n
  {
    if n > 0 { SpanIs(s[1..], p, n - 1); }
  }

  /** No word or placeholder runs across the joint of a and b. */
  predicate Apart(a: string, b: string) {
    a == "" || b == "" || !Glue(a[|a| - 1]) || !Glue(b[0])
  }

  /** A span that ends before b starts is the same with b behind it. */
  lemma {:induction false} SpanApart(a: string, b: string, p: char -> bool)
    requires Span(a, p) < |a| || b == "" || !p(b[0])
    ensures Span(a + b, p) == Span(a, p)
  {
    SpanEnds(a, p);
    SpanIs(a + b, p, Span(a, p));
  }

  lemma {:induction false} DigitsApart(a: string, b: string)
    requires a != "" && Apart(a, b) && a[0] == '$'
    ensures Span((a + b)[1..], Digit) == Span(a[1..], Digit)
  {
    var n := Span(a[1..], Digit);
    SpanEnds(a[1..], Digit);
    assert n == |a[1..]| > 0 ==> Digit(a[1..][n - 1]);
    SpanApart(a[1..], b, Digit);
    assert (a + b)[1..] == a[1..] + b;
  }

  lemma {:induction false} WordApart(a: string, b: string)
    requires a != "" && Apart(a, b)
    ensures Span(a + b, Glue) == Span(a, Glue)
  {
    var n := Span(a, Glue);
    SpanEnds(a, Glue);
    assert n == |a| ==> Glue(a[n - 1]);
    SpanApart(a, b, Glue);
  }

  lemma {:induction false} FirstApart(a: string, b: string)
    requires a != "" && Apart(a, b)
    ensures Cut(a + b) == Cut(a) && First(a + b) == First(a)
  {
    var s := a + b;
    if a[0] == '$' {
      DigitsApart(a, b);
    }
    WordApart(a, b);
    assert s[..Cut(a)] == a[..Cut(a)];
    assert s[1..Cut(a)] == a[1..Cut(a)];
  }

  /** What is left after a's first token, and how the text divides there. */
  lemma {:induction false} RestApart(a: string, b: string, n: nat)
    requires a != "" && Apart(a, b) && 1 <= n <= |a|
    ensures Apart(a[n..], b) && (a + b)[n..] == a[n..] + b
  {
    assert a[n..] != "" ==> a[n..][|a[n..]| - 1] == a[|a| - 1];
  }

  lemma {:induction false} Step(s: string, first: seq<Token>, rest: string)
    requires s != "" && first == First(s) && rest == s[Cut(s)..]
    ensures Tokens(s) == first + Tokens(rest)
  {
  }

  lemma {:induction false} FirstOfBoth(a: string, b: string) returns (first: seq<Token>, rest: string)
    requires a != "" && Apart(a, b)
    ensures |rest| < |a| && Apart(rest, b)
    ensures Tokens(a) == first + Tokens(rest) && Tokens(a + b) == first + Tokens(rest + b)
  {
    first, rest := First(a), a[Cut(a)..];
    FirstApart(a, b);
    RestApart(a, b, Cut(a));
    Step(a, first, rest);
    Step(a + b, first, rest + b);
  }

  lemma {:induction false} Joint(first: seq<Token>, x: seq<Token>, y: seq<Token>, whole: seq<Token>)
    requires whole == first + (x + y)
    ensures whole == (first + x) + y
  {
  }

  /** Texts that are apart are read one after the other. */
  lemma {:induction false} ReadInTurn(a: string, b: string)
    requires Apart(a, b)
    ensures Tokens(a + b) == Tokens(a) + Tokens(b)
    decreases |a|
  {
    if a == "" {
      assert a + b == b;
    } else {
      var first, rest := FirstOfBoth(a, b);
      ReadInTurn(rest, b);
      Joint(first, Tokens(rest), Tokens(b), Tokens(a + b));
    }
  }

  predicate IsWord(w: string) {
    w != "" && w[0] != '$' && forall i :: 0 <= i < |w| ==> Glue(w[i])
  }

  lemma {:induction false} ReadWord(w: string)
    requires IsWord(w)
    ensures Tokens(w) == [Word(w)]
  {
    SpanIs(w, Glue, |w|);
    assert w[..|w|] == w && w[|w|..] == "";
  }

  function Placeholder(k: nat): string { "$" + Decimal(k) }

  lemma {:induction false} ReadPlaceholder(k: nat)
    ensures Tokens(Placeholder(k)) == [Param(k)]
  {
    var d := Decimal(k);
    assert Placeholder(k)[1..] == d;
    SpanIs(d, Digit, |d|);
    assert Placeholder(k)[1..|d| + 1] == d && Placeholder(k)[|d| + 1..] == "";
    NumberOfDecimal(k);
  }

  /** The placeholders of a token sequence, in order. */
  function Params(ts: seq<Token>): seq<nat> {
    if ts == [] then []
    else Params(ts[..|ts| - 1]) + match ts[|ts| - 1] { case Param(k) => [k] case _ => [] }
  }

  lemma {:induction false} ParamsInTurn(a: seq<Token>, b: seq<Token>)
    ensures Params(a + b) == Params(a) + Params(b)
  {
    if b == [] {
      assert a + b == a;
    } else {
      var n := |b| - 1;
      assert (a + b)[..|a| + n] == a + b[..n];
      ParamsInTurn(a, b[..n]);
    }
  }

  /** Without a dollar sign there is no placeholder. */
  lemma {:induction false} NoDollarNoParams(s: string)
    requires '$' !in s
    ensures Params(Tokens(s)) == []
    decreases |s|
  {
    if s != "" {
      assert s[0] in s;
      NoDollarNoParams(s[Cut(s)..]);
      ParamsInTurn(First(s), Tokens(s[Cut(s)..]));
      assert First(s) != [] ==> First(s)[..|First(s)| - 1] == [];
    }
  }
}
