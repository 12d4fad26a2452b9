/** String helpers the source takes from the .NET base library:
    ordinal `StartsWith`, `Split(char)`, the seedless `Aggregate` join, and
    the decimal rendering of integers used inside "stream.version" ids. */
module Text {

  /** Ordinal prefix test, as `string.StartsWith`. */
  predicate StartsWith(s: string, prefix: string)
  {
    |prefix| <= |s| && s[..|prefix|] == prefix
  }

  /** `s.Split(c)`: the maximal pieces of `s` between occurrences of `c`;
      never empty ("" splits into [""]). */
  function Split(s: string, c: char): (r: seq<string>)
    ensures |r| > 0
    decreases |s|
  {
    if |s| == 0 then [""]
    else
      var rest := Split(s[1..], c);
      if s[0] == c then [""] + rest else [[s[0]] + rest[0]] + rest[1..]
  }

  /** The seedless fold `xs.Aggregate((a, b) => a + c + b)`; only defined on
      a non-empty sequence, the empty case being an exception in the source. */
  function Join(xs: seq<string>, c: char): string
    requires |xs| > 0
  {
    if |xs| == 1 then xs[0] else xs[0] + [c] + Join(xs[1..], c)
  }

  /** `s.Split(c).First()`: the text before the first `c`, or all of `s`. */
  function FirstToken(s: string, c: char): (r: string)
    ensures StartsWith(s, r)
    ensures c !in r
    ensures |r| < |s| ==> s[|r|] == c
  {
    SplitHeadIsFirstToken(s, c);
    Split(s, c)[0]
  }

  lemma {:induction false} SplitHeadIsFirstToken(s: string, c: char)
    ensures StartsWith(s, Split(s, c)[0])
    ensures c !in Split(s, c)[0]
    ensures |Split(s, c)[0]| < |s| ==> s[|Split(s, c)[0]|] == c
    decreases |s|
  {
    if |s| > 0 {
      SplitHeadIsFirstToken(s[1..], c);
      if s[0] != c {
        var h := Split(s[1..], c)[0];
        assert Split(s, c)[0] == [s[0]] + h;
        assert s[..|h| + 1] == [s[0]] + s[1..][..|h|];
      }
    }
  }

  /** The first token is decided by the text up to the first `c`: any
      extension of a string that contains `c` has the same first token. */
  lemma {:induction false} FirstTokenOfExtension(s: string, t: string, c: char)
    requires c in s
    requires StartsWith(t, s)
    ensures Split(t, c)[0] == Split(s, c)[0]
    decreases |s|
  {
    assert t[0] == s[0];
    if s[0] != c {
      assert s[1..] == s[..][1..];
      assert c in s[1..];
      assert t[1..][..|s[1..]|] == s[1..];
      FirstTokenOfExtension(s[1..], t[1..], c);
    }
  }

  /** Splitting a piece free of `c`, followed by `c` and a tail, yields the
      piece then the split of the tail. */
  lemma {:induction false} SplitAfterPiece(a: string, b: string, c: char)
    requires c !in a
    ensures Split(a + [c] + b, c) == [a] + Split(b, c)
    decreases |a|
  {
    if |a| == 0 {
      assert a + [c] + b == [c] + b;
      assert ([c] + b)[1..] == b;
    } else {
      SplitAfterPiece(a[1..], b, c);
      assert (a + [c] + b)[1..] == a[1..] + [c] + b;
      assert [a[0]] + a[1..] == a;
    }
  }

  /** A piece free of `c` splits into itself. */
  lemma {:induction false} SplitOfPiece(a: string, c: char)
    requires c !in a
    ensures Split(a, c) == [a]
    decreases |a|
  {
    if |a| > 0 {
      SplitOfPiece(a[1..], c);
      assert [a[0]] + a[1..] == a;
    }
  }

  /** Round trip: splitting a join of `c`-free pieces returns the pieces. */
  lemma {:induction false} SplitJoin(xs: seq<string>, c: char)
    requires |xs| > 0
    requires forall i :: 0 <= i < |xs| ==> c !in xs[i]
    ensures Split(Join(xs, c), c) == xs
    decreases |xs|
  {
    if |xs| == 1 {
      SplitOfPiece(xs[0], c);
    } else {
      SplitJoin(xs[1..], c);
      SplitAfterPiece(xs[0], Join(xs[1..], c), c);
      assert [xs[0]] + xs[1..] == xs;
    }
  }

  /** In `a + c + b` with a `c`-free `b`, the last `c` sits at index |a|. */
  lemma LastSeparator(a: string, b: string, c: char)
    requires c !in b
    ensures (a + [c] + b)[|a|] == c
    ensures forall j :: |a| < j < |a + [c] + b| ==> (a + [c] + b)[j] != c
  {
    forall j | |a| < j < |a + [c] + b|
      ensures (a + [c] + b)[j] != c
    {
      assert (a + [c] + b)[j] == b[j - |a| - 1];
    }
  }

  /** Two strings built as `a + c + b` with `c`-free tails agree on both parts
      when they agree as strings: the last `c` fixes the split point. */
  lemma SeparatedInjective(a1: string, b1: string, a2: string, b2: string, c: char)
    requires c !in b1 && c !in b2
    requires a1 + [c] + b1 == a2 + [c] + b2
    ensures a1 == a2 && b1 == b2
  {
    var x := a1 + [c] + b1;
    LastSeparator(a1, b1, c);
    LastSeparator(a2, b2, c);
    assert |a1| == |a2|;
    assert a1 == x[..|a1|] == a2;
    assert b1 == x[|a1| + 1..] == b2;
  }

  // ---------------------------------------------------------------------
  // Decimal rendering of integers (`long.ToString()` with invariant culture)

  function DigitChar(d: nat): char
    requires d < 10
  {
    ('0' as int + d) as char
  }

  predicate IsDigit(ch: char)
  {
    '0' <= ch <= '9'
  }

  function NatToString(n: nat): (r: string)
    ensures |r| > 0
    ensures forall i :: 0 <= i < |r| ==> IsDigit(r[i])
    decreases n
  {
    if n < 10 then [DigitChar(n)] else NatToString(n / 10) + [DigitChar(n % 10)]
  }

  /** Decimal text of `i`, with a leading '-' for negatives. */
  function IntToString(i: int): (r: string)
    ensures '.' !in r
    ensures |r| > 0 && (r[0] == '-' <==> i < 0)
  {
    if i < 0 then "-" + NatToString(-i) else NatToString(i)
  }

  lemma {:induction false} NatToStringInjective(a: nat, b: nat)
    requires NatToString(a) == NatToString(b)
    ensures a == b
    decreases a
  {
    var ra, rb := NatToString(a), NatToString(b);
    if a < 10 && b < 10 {
      assert ra[0] == DigitChar(a) && rb[0] == DigitChar(b);
    } else if a < 10 || b < 10 {
      assert false;
    } else {
      assert ra[|ra| - 1] == DigitChar(a % 10);
      assert rb[|rb| - 1] == DigitChar(b % 10);
      assert ra[..|ra| - 1] == NatToString(a / 10);
      assert rb[..|rb| - 1] == NatToString(b / 10);
      NatToStringInjective(a / 10, b / 10);
    }
  }

  /** Distinct integers render to distinct text. */
  lemma IntToStringInjective(a: int, b: int)
    requires IntToString(a) == IntToString(b)
    ensures a == b
  {
    if a < 0 {
      assert IntToString(a)[1..] == NatToString(-a);
      assert IntToString(b)[1..] == NatToString(-b);
      NatToStringInjective(-a, -b);
    } else {
      NatToStringInjective(a, b);
    }
  }
}
