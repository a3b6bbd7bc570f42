/** The text of `printFloatGates`: the floating-fanin list and the list of
    IDs that are defined but not used, each ID followed by a space. */
module Report {
  import opened Text
  import opened Keys

  /** The titles of the two report lines. */
  const FloatTitle: string := "Gates with floating fanin(s): "
  const UnusedTitle: string := "Gates defined but not used  : "

  /** Every integer followed by one space, as the report loops print them. */
  function SpaceAfterEach(xs: seq<int>): string {
    if xs == [] then "" else SpaceAfterEach(xs[..|xs| - 1]) + IntToString(xs[|xs| - 1]) + " "
  }

  lemma SpaceSnoc(xs: seq<int>, x: int)
    ensures SpaceAfterEach(xs + [x]) == SpaceAfterEach(xs) + IntToString(x) + " "
  {
    assert (xs + [x])[..|xs|] == xs;
  }

  /** Printing one more ID after a report prefix. */
  lemma PrintOneMore(title: string, xs: seq<int>, x: int, line: string)
    requires line == title + SpaceAfterEach(xs)
    ensures line + IntToString(x) + " " == title + SpaceAfterEach(xs + [x])
  {
    SpaceSnoc(xs, x);
    Regroup(title, SpaceAfterEach(xs), IntToString(x), " ");
  }

  lemma Regroup<T>(a: seq<T>, b: seq<T>, c: seq<T>, d: seq<T>)
    ensures a + (b + c + d) == a + b + c + d
  {
  }

  lemma {:induction false} JoinSnoc(xs: seq<int>, x: int)
    requires |xs| > 0
    ensures JoinInts(xs + [x]) == JoinInts(xs) + " " + IntToString(x)
    decreases |xs|
  {
    var ys := xs + [x];
    var a := IntToString(xs[0]);
    if |xs| == 1 {
      assert ys[1..] == [x];
      assert JoinInts(ys) == a + " " + JoinInts([x]);
    } else {
      assert ys[1..] == xs[1..] + [x];
      JoinSnoc(xs[1..], x);
      var t, b := JoinInts(xs[1..]), IntToString(x);
      assert JoinInts(ys) == a + " " + (t + " " + b);
      assert JoinInts(xs) == a + " " + t;
    }
  }

  /** The report form is the joined form plus one trailing space. */
  lemma {:induction false} SpaceAfterJoin(xs: seq<int>)
    requires |xs| > 0
    ensures SpaceAfterEach(xs) == JoinInts(xs) + " "
    decreases |xs|
  {
    var n := |xs|;
    var p, x := xs[..n - 1], xs[n - 1];
    assert xs == p + [x];
    SpaceSnoc(p, x);
    if n == 1 {
      assert xs == [x];
      SpaceAfterOne(x);
    } else {
      SpaceAfterJoin(p);
      JoinSnoc(p, x);
      var a, b := JoinInts(p), IntToString(x);
      assert SpaceAfterEach(p + [x]) == a + " " + b + " ";
      assert JoinInts(p + [x]) + " " == a + " " + b + " ";
    }
  }

  lemma SpaceAfterOne(x: int)
    ensures SpaceAfterEach([x]) == JoinInts([x]) + " "
  {
    assert [x][..0] == [];
  }

  /** Dropping the trailing space, a report list reads back as the IDs. */
  lemma SpaceAfterRoundTrip(xs: seq<int>)
    requires |xs| > 0
    ensures |SpaceAfterEach(xs)| > 0
    ensures ParseInts(SpaceAfterEach(xs)[..|SpaceAfterEach(xs)| - 1]) == xs
  {
    SpaceAfterJoin(xs);
    var s := JoinInts(xs);
    assert (s + " ")[..|s|] == s;
    JoinRoundTrip(xs);
  }

  /** The IDs below n that are defined but not used, in increasing order. */
  function UnusedBelow(undef: seq<(bool, bool)>, n: nat): seq<int>
    requires n <= |undef|
  {
    if n == 0 then []
    else UnusedBelow(undef, n - 1) + if undef[n - 1] == (true, false) then [n - 1] else []
  }

  /** Exactly the IDs below n marked (defined, not used), each once, in
      increasing order. */
  lemma {:induction false} UnusedBelowExact(undef: seq<(bool, bool)>, n: nat)
    requires n <= |undef|
    ensures forall x :: x in UnusedBelow(undef, n) <==> 0 <= x < n && undef[x] == (true, false)
    ensures StrictlyAscending(UnusedBelow(undef, n))
    ensures forall j :: 0 <= j < |UnusedBelow(undef, n)| ==> 0 <= UnusedBelow(undef, n)[j] < n
  {
    if n > 0 {
      UnusedBelowExact(undef, n - 1);
    }
  }

  lemma UnusedStep(undef: seq<(bool, bool)>, n: nat)
    requires n < |undef|
    ensures UnusedBelow(undef, n + 1) == UnusedBelow(undef, n) + if undef[n].0 && !undef[n].1 then [n] else []
  {
  }

  /** The two report lines, each only when its list is not empty. */
  function FloatReport(floats: seq<int>, undef: seq<(bool, bool)>): seq<string> {
    var unused := UnusedBelow(undef, |undef|);
    (if floats == [] then [] else [FloatTitle + SpaceAfterEach(floats)])
    + (if unused == [] then [] else [UnusedTitle + SpaceAfterEach(unused)])
  }

  /** The first loop of `printFloatGates`: every floating-fanin ID
      followed by a space, after the title. */
  lemma FloatStep(floats: seq<int>, i: nat, s: string)
    requires i < |floats| && s == FloatTitle + SpaceAfterEach(floats[..i])
    ensures s + IntToString(floats[i]) + " " == FloatTitle + SpaceAfterEach(floats[..i + 1])
  {
    assert floats[..i + 1] == floats[..i] + [floats[i]];
    PrintOneMore(FloatTitle, floats[..i], floats[i], s);
  }

  method PrintFloating(floats: seq<int>) returns (s: string)
    ensures s == FloatTitle + SpaceAfterEach(floats)
  {
    s := FloatTitle;
    var i := 0;
    while i < |floats|
      invariant 0 <= i <= |floats|
      invariant s == FloatTitle + SpaceAfterEach(floats[..i])
    {
      FloatStep(floats, i, s);
      s := s + IntToString(floats[i]) + " ";
      i := i + 1;
    }
    assert floats[..i] == floats;
  }

  /** What the second loop of `printFloatGates` has printed so far for the
      IDs in `ids`: nothing while `flag` is down, otherwise the title and
      each ID followed by a space. */
  predicate UnusedLine(ids: seq<int>, flag: bool, line: string) {
    (flag <==> ids != []) && (flag ==> line == UnusedTitle + SpaceAfterEach(ids))
  }

  /** One more defined-but-unused ID: the title first if none was printed. */
  lemma UnusedAppend(ids: seq<int>, j: int, flag: bool, line: string)
    requires UnusedLine(ids, flag, line)
    ensures UnusedLine(ids + [j], true, (if flag then line else UnusedTitle) + IntToString(j) + " ")
  {
    if flag {
      PrintOneMore(UnusedTitle, ids, j, line);
    } else {
      assert SpaceAfterEach(ids) == "";
      PrintOneMore(UnusedTitle, ids, j, UnusedTitle);
    }
  }

  /** One pass of the second loop of `printFloatGates` over entry `j`. */
  method UnusedVisit(undef: seq<(bool, bool)>, j: nat, flag: bool, line: string, count: nat, ghost ids: seq<int>)
    returns (flag': bool, line': string, count': nat, ghost ids': seq<int>)
    requires j < |undef| && ids == UnusedBelow(undef, j)
    requires UnusedLine(ids, flag, line) && count == |ids|
    ensures ids' == UnusedBelow(undef, j + 1)
    ensures UnusedLine(ids', flag', line') && count' == |ids'|
  {
    UnusedStep(undef, j);
    flag', line', count', ids' := flag, line, count, ids;
    if undef[j].0 && !undef[j].1 {
      UnusedAppend(ids, j, flag, line);
      if !flag' {
        line' := UnusedTitle;
        flag' := true;
      }
      line' := line' + IntToString(j) + " ";
      count' := count' + 1;
      ids' := ids + [j];
    }
  }

  /** The second loop of `printFloatGates`: the title once the first
      defined-but-unused ID is met, then every such ID followed by a space;
      `count` is how much `flAIG` grows. */
  method PrintUnused(undef: seq<(bool, bool)>) returns (flag: bool, line: string, count: nat)
    ensures flag <==> UnusedBelow(undef, |undef|) != []
    ensures flag ==> line == UnusedTitle + SpaceAfterEach(UnusedBelow(undef, |undef|))
    ensures count == |UnusedBelow(undef, |undef|)|
  {
    flag, line, count := false, "", 0;
    var j := 0;
    ghost var ids: seq<int> := [];
    while j < |undef|
      invariant 0 <= j <= |undef| && ids == UnusedBelow(undef, j)
      invariant UnusedLine(ids, flag, line) && count == |ids|
    {
      flag, line, count, ids := UnusedVisit(undef, j, flag, line, count, ids);
      j := j + 1;
    }
  }
}
