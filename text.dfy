/** Decimal rendering of integers and space-separated integer lists, as the
    netlist printer and the AAG writer produce them with `operator<<`. */
module Text {

  predicate IsDigit(c: char) {
    '0' <= c <= '9'
  }

  function DigitChar(d: nat): (c: char)
    requires d < 10
    ensures IsDigit(c) && c as int - '0' as int == d
  {
    (d + '0' as int) as char
  }

  /** Value of a decimal digit; any other character reads as 0. */
  function DigitVal(c: char): nat {
    if IsDigit(c) then c as int - '0' as int else 0
  }

  /** Shortest decimal rendering of a natural number. */
  function NatToString(n: nat): (s: string)
    ensures |s| >= 1
    ensures forall i :: 0 <= i < |s| ==> IsDigit(s[i])
    decreases n
  {
    if n < 10 then [DigitChar(n)] else NatToString(n / 10) + [DigitChar(n % 10)]
  }

  /** What `ostream << int` prints: a minus sign for negative values. */
  function IntToString(i: int): string {
    if i < 0 then "-" + NatToString(-i) else NatToString(i)
  }

  function ParseNat(s: string): nat
    decreases |s|
  {
    if s == [] then 0 else ParseNat(s[..|s| - 1]) * 10 + DigitVal(s[|s| - 1])
  }

  function ParseInt(s: string): int {
    if |s| > 0 && s[0] == '-' then -(ParseNat(s[1..]) as int) else ParseNat(s)
  }

  lemma {:induction false} NatRoundTrip(n: nat)
    ensures ParseNat(NatToString(n)) == n
    decreases n
  {
    if n >= 10 {
      var s := NatToString(n);
      assert s[..|s| - 1] == NatToString(n / 10);
      NatRoundTrip(n / 10);
    }
  }

  /** Reading back a printed integer gives the integer. */
  lemma IntRoundTrip(i: int)
    ensures ParseInt(IntToString(i)) == i
  {
    if i < 0 {
      assert ("-" + NatToString(-i))[1..] == NatToString(-i);
      NatRoundTrip(-i);
    } else {
      assert IsDigit(NatToString(i)[0]);
      NatRoundTrip(i);
    }
  }

  lemma NoSpaceInInt(i: int)
    ensures forall k :: 0 <= k < |IntToString(i)| ==> IntToString(i)[k] != ' '
  {
    if i < 0 {
      var s := NatToString(-i);
      assert forall k :: 1 <= k < |"-" + s| ==> ("-" + s)[k] == s[k - 1];
    }
  }

  /** Integers separated by single spaces with no trailing space: the loop
      shape of `printPIs`/`printPOs` and of the header and AIG lines. */
  function JoinInts(xs: seq<int>): (s: string)
    ensures |xs| > 0 ==> |s| > 0 && IsDigit(s[|s| - 1])
  {
    if |xs| == 0 then ""
    else if |xs| == 1 then IntToString(xs[0])
    else IntToString(xs[0]) + " " + JoinInts(xs[1..])
  }

  /** Index of the first space, or |s| when there is none. */
  function FirstSpace(s: string): (k: nat)
    ensures k <= |s|
    ensures k < |s| ==> s[k] == ' '
    ensures forall j :: 0 <= j < k ==> s[j] != ' '
  {
    if s == [] then 0 else if s[0] == ' ' then 0 else 1 + FirstSpace(s[1..])
  }

  function SplitSpaces(s: string): (parts: seq<string>)
    ensures |parts| >= 1
    decreases |s|
  {
    var k := FirstSpace(s);
    if k == |s| then [s] else [s[..k]] + SplitSpaces(s[k + 1..])
  }

  function ParseInts(s: string): seq<int> {
    var parts := SplitSpaces(s);
    seq(|parts|, i requires 0 <= i < |parts| => ParseInt(parts[i]))
  }

  lemma FirstSpaceAfterInt(i: int, rest: string)
    ensures FirstSpace(IntToString(i) + " " + rest) == |IntToString(i)|
  {
    var a := IntToString(i);
    var s := a + " " + rest;
    NoSpaceInInt(i);
    assert forall j :: 0 <= j < |a| ==> s[j] == a[j];
    assert s[|a|] == ' ';
  }

  lemma SplitSingle(i: int)
    ensures SplitSpaces(IntToString(i)) == [IntToString(i)]
  {
    NoSpaceInInt(i);
    assert FirstSpace(IntToString(i)) == |IntToString(i)|;
  }

  lemma SplitCons(i: int, rest: string)
    ensures SplitSpaces(IntToString(i) + " " + rest) == [IntToString(i)] + SplitSpaces(rest)
  {
    var a := IntToString(i);
    var s := a + " " + rest;
    FirstSpaceAfterInt(i, rest);
    assert s[..|a|] == a;
    assert s[|a| + 1..] == rest;
  }

  lemma {:induction false} SplitJoin(xs: seq<int>)
    requires |xs| > 0
    ensures |SplitSpaces(JoinInts(xs))| == |xs|
    ensures forall i :: 0 <= i < |xs| ==> SplitSpaces(JoinInts(xs))[i] == IntToString(xs[i])
    decreases |xs|
  {
    if |xs| == 1 {
      SplitSingle(xs[0]);
    } else {
      var rest := JoinInts(xs[1..]);
      SplitCons(xs[0], rest);
      SplitJoin(xs[1..]);
      var parts := SplitSpaces(JoinInts(xs));
      assert parts == [IntToString(xs[0])] + SplitSpaces(rest);
      forall i | 1 <= i < |xs| ensures parts[i] == IntToString(xs[i]) {
        assert xs[1..][i - 1] == xs[i];
      }
    }
  }

  /** A space-joined list of integers parses back to the same list. */
  lemma JoinRoundTrip(xs: seq<int>)
    requires |xs| > 0
    ensures ParseInts(JoinInts(xs)) == xs
  {
    SplitJoin(xs);
    var parts := SplitSpaces(JoinInts(xs));
    forall i | 0 <= i < |xs| ensures ParseInt(parts[i]) == xs[i] {
      IntRoundTrip(xs[i]);
    }
  }
}
