/** Assignment maps (gate ID -> 0 false, 1 true, 2 free) and dependent-gate
    lists, with the helpers of the mandatory-assignment engine that only
    touch their arguments: `clear_MA`, `combineMAs`, `compareTwogds`. */
module AssignMaps {
  import opened Keys

  /** Reading `m[k]` through `std::map::operator[]`: a missing key reads 0. */
  function Get(m: map<int, int>, k: int): int {
    if k in m then m[k] else 0
  }

  /** The side effect of that read: a missing key is inserted with value 0. */
  function Touch(m: map<int, int>, k: int): (r: map<int, int>)
    ensures r.Keys == m.Keys + {k}
    ensures forall j :: j in m ==> r[j] == m[j]
    ensures Get(r, k) == Get(m, k) && forall j :: Get(r, j) == Get(m, j)
  {
    if k in m then m else m[k := 0]
  }

  predicate Ternary(m: map<int, int>) {
    forall k :: k in m ==> 0 <= m[k] <= 2
  }

  /** The keys still free. */
  ghost function FreeSet(m: map<int, int>): set<int> {
    set k | k in m && m[k] == 2
  }

  /** An input term `value XOR inverted` that is known true / known false. */
  predicate TermTrue(v: int, inv: bool) {
    (v == 1 && !inv) || (v == 0 && inv)
  }

  predicate TermFalse(v: int, inv: bool) {
    (v == 1 && inv) || (v == 0 && !inv)
  }

  /** The fanin value that makes its term true / false. */
  function TrueVal(inv: bool): (v: int)
    ensures TermTrue(v, inv) && !TermFalse(v, inv)
  {
    if inv then 0 else 1
  }

  function FalseVal(inv: bool): (v: int)
    ensures TermFalse(v, inv) && !TermTrue(v, inv)
  {
    if inv then 1 else 0
  }

  /** One map says true where the other says false. */
  predicate Clash(a: int, b: int) {
    (a == 1 && b == 0) || (a == 0 && b == 1)
  }

  /** The value `combineMAs` stores for a key without a clash. */
  function Join(a: int, b: int): (r: int)
    ensures 0 <= a <= 2 && 0 <= b <= 2 && !Clash(a, b) ==>
              0 <= r <= 2 && (a != 2 ==> r == a) && (b != 2 ==> r == b) && (r == 2 <==> a == 2 && b == 2)
  {
    if a == 1 || b == 1 then 1 else if a == 0 || b == 0 then 0 else 2
  }

  /** `clear_MA`: every entry becomes free, no key is added or removed. */
  method ClearMA(m: map<int, int>) returns (r: map<int, int>)
    ensures r.Keys == m.Keys
    ensures forall k :: k in r ==> r[k] == 2
  {
    var keys := KeyOrder(m.Keys);
    r := m;
    var i := 0;
    while i < |keys|
      invariant 0 <= i <= |keys|
      invariant forall k :: k in r <==> k in m
      invariant forall j :: 0 <= j < i ==> keys[j] in r && r[keys[j]] == 2
    {
      r := r[keys[i] := 2];
      i := i + 1;
    }
    forall k | k in r ensures r[k] == 2 {
      var j := IndexOf(keys, k);
    }
    assert forall k :: k in r.Keys <==> k in m.Keys;
  }

  /** The position of a member of a key sequence. */
  lemma IndexOf(keys: seq<int>, k: int) returns (j: nat)
    requires k in keys
    ensures j < |keys| && keys[j] == k
  {
    j :| 0 <= j < |keys| && keys[j] == k;
  }

  /** What `combineMAs` has established once it has handled the first i
      keys of MA1's visiting order without a clash. */
  ghost predicate CombineInv(keys: seq<int>, i: nat, ma1: map<int, int>, ma2: map<int, int>, r1: map<int, int>, r2: map<int, int>)
    requires forall j :: 0 <= j < |keys| ==> keys[j] in ma1
  {
    && i <= |keys|
    && (forall k :: k in r1 <==> k in ma1)
    && (forall k :: k in r2 ==> k in ma2 || k in ma1)
    && (forall k :: k in ma2 ==> k in r2)
    && (forall j :: 0 <= j < i ==> keys[j] in r2)
    && (forall k :: Get(r2, k) == Get(ma2, k))
    && (forall j :: 0 <= j < i ==> !Clash(ma1[keys[j]], Get(ma2, keys[j])))
    && (forall j :: 0 <= j < i ==> r1[keys[j]] == Join(ma1[keys[j]], Get(ma2, keys[j])))
    && (forall j :: i <= j < |keys| ==> r1[keys[j]] == ma1[keys[j]])
  }

  /** A clash-free step of `combineMAs` at position i keeps its invariant. */
  lemma CombineStep(keys: seq<int>, i: nat, ma1: map<int, int>, ma2: map<int, int>, r1: map<int, int>, r2: map<int, int>)
    requires StrictlyAscending(keys) && i < |keys|
    requires forall j :: 0 <= j < |keys| ==> keys[j] in ma1
    requires CombineInv(keys, i, ma1, ma2, r1, r2)
    requires !Clash(ma1[keys[i]], Get(ma2, keys[i]))
    ensures CombineInv(keys, i + 1, ma1, ma2, r1[keys[i] := Join(ma1[keys[i]], Get(ma2, keys[i]))], Touch(r2, keys[i]))
  {
  }

  /** `combineMAs`: walks MA1's keys in ascending order; stops with false at
      the first key where the maps clash, otherwise stores the join in MA1.
      Reading MA2 inserts 0 for each visited key it lacks. */
  method CombineMAs(ma1: map<int, int>, ma2: map<int, int>) returns (ok: bool, r1: map<int, int>, r2: map<int, int>)
    ensures ok <==> forall k :: k in ma1 ==> !Clash(ma1[k], Get(ma2, k))
    ensures forall k :: k in r1 <==> k in ma1
    ensures ok ==> forall k :: k in ma1 ==> r1[k] == Join(ma1[k], Get(ma2, k))
    ensures ok ==> forall k :: k in r2 <==> k in ma2 || k in ma1
    ensures forall k :: Get(r2, k) == Get(ma2, k)
    ensures !ok ==> exists c :: c in ma1 && Clash(ma1[c], Get(ma2, c))
                              && (forall k :: k in ma1 && k < c ==> r1[k] == Join(ma1[k], Get(ma2, k)))
                              && (forall k :: k in ma1 && k >= c ==> r1[k] == ma1[k])
  {
    var keys := KeyOrder(ma1.Keys);
    r1, r2 := ma1, ma2;
    var i := 0;
    while i < |keys|
      invariant CombineInv(keys, i, ma1, ma2, r1, r2)
    {
      var k := keys[i];
      ghost var before := r2;
      r2 := Touch(r2, k);
      var v1, v2 := r1[k], r2[k];
      if (v1 == 1 && v2 == 0) || (v1 == 0 && v2 == 1) {
        // both branches of the source return false here
        ok := false;
        CombineClash(keys, i, ma1, ma2, r1);
        return;
      }
      CombineStep(keys, i, ma1, ma2, r1, before);
      r1 := r1[k := Join(v1, v2)];
      i := i + 1;
    }
    ok := true;
    CombineDone(keys, ma1, ma2, r1, r2);
  }

  /** A walk that handled every key without a clash joined every key. */
  lemma CombineDone(keys: seq<int>, ma1: map<int, int>, ma2: map<int, int>, r1: map<int, int>, r2: map<int, int>)
    requires forall k :: k in ma1 ==> k in keys
    requires forall j :: 0 <= j < |keys| ==> keys[j] in ma1 && keys[j] in r1 && keys[j] in r2
    requires forall j :: 0 <= j < |keys| ==> !Clash(ma1[keys[j]], Get(ma2, keys[j]))
    requires forall j :: 0 <= j < |keys| ==> r1[keys[j]] == Join(ma1[keys[j]], Get(ma2, keys[j]))
    ensures forall k :: k in ma1 ==> !Clash(ma1[k], Get(ma2, k)) && r1[k] == Join(ma1[k], Get(ma2, k)) && k in r2
  {
    forall k | k in ma1 ensures !Clash(ma1[k], Get(ma2, k)) && r1[k] == Join(ma1[k], Get(ma2, k)) && k in r2 {
      var j := IndexOf(keys, k);
    }
  }

  /** A clash at position i of the key order is the first clash, with MA1
      joined below it and untouched from it on. */
  lemma CombineClash(keys: seq<int>, i: nat, ma1: map<int, int>, ma2: map<int, int>, r1: map<int, int>)
    requires StrictlyAscending(keys) && i < |keys|
    requires forall j :: 0 <= j < |keys| ==> keys[j] in ma1
    requires forall k :: k in ma1 ==> k in keys
    requires forall k :: k in r1 <==> k in ma1
    requires forall j :: 0 <= j < i ==> r1[keys[j]] == Join(ma1[keys[j]], Get(ma2, keys[j]))
    requires forall j :: i <= j < |keys| ==> keys[j] in r1 && r1[keys[j]] == ma1[keys[j]]
    requires Clash(ma1[keys[i]], Get(ma2, keys[i]))
    ensures exists c :: c in ma1 && Clash(ma1[c], Get(ma2, c))
                     && (forall k :: k in ma1 && k < c ==> r1[k] == Join(ma1[k], Get(ma2, k)))
                     && (forall k :: k in ma1 && k >= c ==> r1[k] == ma1[k])
  {
    var c := keys[i];
    forall k | k in ma1 && k < c ensures r1[k] == Join(ma1[k], Get(ma2, k)) {
      var j := IndexOf(keys, k);
    }
    forall k | k in ma1 && k >= c ensures r1[k] == ma1[k] {
      var j := IndexOf(keys, k);
    }
  }

  /** Some pair of `gds` has first component x. */
  predicate InFirsts(x: int, gds: seq<(int, int)>) {
    exists j :: 0 <= j < |gds| && gds[j].0 == x
  }

  /** The pairs of gds1 whose gate ID occurs in gds2, in gds1's order. */
  function KeepShared(gds1: seq<(int, int)>, gds2: seq<(int, int)>): seq<(int, int)> {
    if gds1 == [] then []
    else (if InFirsts(gds1[0].0, gds2) then [gds1[0]] else []) + KeepShared(gds1[1..], gds2)
  }

  lemma {:induction false} KeepSharedAppend(a: seq<(int, int)>, b: seq<(int, int)>, gds2: seq<(int, int)>)
    ensures KeepShared(a + b, gds2) == KeepShared(a, gds2) + KeepShared(b, gds2)
    decreases |a|
  {
    if a != [] {
      assert (a + b)[1..] == a[1..] + b;
      KeepSharedAppend(a[1..], b, gds2);
    } else {
      assert a + b == b;
    }
  }

  /** A pair survives exactly when it was in gds1 and its ID is in gds2. */
  lemma {:induction false} KeepSharedMembers(gds1: seq<(int, int)>, gds2: seq<(int, int)>, p: (int, int))
    ensures p in KeepShared(gds1, gds2) <==> p in gds1 && InFirsts(p.0, gds2)
    decreases |gds1|
  {
    if gds1 != [] {
      KeepSharedMembers(gds1[1..], gds2, p);
      assert gds1 == [gds1[0]] + gds1[1..];
    }
  }

  /** Filtering twice by the same list is filtering once. */
  lemma {:induction false} KeepSharedIdempotent(gds1: seq<(int, int)>, gds2: seq<(int, int)>)
    ensures KeepShared(KeepShared(gds1, gds2), gds2) == KeepShared(gds1, gds2)
    decreases |gds1|
  {
    if gds1 != [] {
      KeepSharedIdempotent(gds1[1..], gds2);
      var rest := KeepShared(gds1[1..], gds2);
      if InFirsts(gds1[0].0, gds2) {
        assert ([gds1[0]] + rest)[1..] == rest;
      } else {
        assert [] + rest == rest;
      }
    }
  }

  /** `compareTwogds`: erases in place from gds1 every pair whose gate ID
      appears in no pair of gds2; gds2 is only read. */
  method CompareTwoGds(gds1: seq<(int, int)>, gds2: seq<(int, int)>) returns (r: seq<(int, int)>)
    ensures r == KeepShared(gds1, gds2)
  {
    r := gds1;
    var i, tmp := 0, 0;
    ghost var j := 0;
    while i < |r|
      invariant 0 <= i <= |r| && 0 <= j <= |gds1|
      invariant r[..i] == KeepShared(gds1[..j], gds2)
      invariant r[i..] == gds1[j..]
      invariant tmp == 0
      decreases |r| - i
    {
      var n := 0;
      while n < |gds2|
        invariant 0 <= n <= |gds2|
        invariant tmp == 1 <==> exists m :: 0 <= m < n && gds2[m].0 == r[i].0
        invariant tmp == 0 || tmp == 1
      {
        if r[i].0 == gds2[n].0 {
          tmp := 1;
        }
        n := n + 1;
      }
      assert gds1[..j + 1] == gds1[..j] + [gds1[j]];
      KeepSharedAppend(gds1[..j], [gds1[j]], gds2);
      assert r[i] == gds1[j];
      if tmp == 0 {
        r := r[..i] + r[i + 1..];
      } else {
        i := i + 1;
        tmp := 0;
      }
      j := j + 1;
    }
    assert gds1[..j] == gds1;
  }

  /** Appending the next key of an ascending walk keeps a list of earlier
      keys ascending. */
  lemma AscendingPush(result: seq<int>, order: seq<int>, i: nat)
    requires StrictlyAscending(order) && i < |order|
    requires StrictlyAscending(result) && forall x :: x in result ==> x in order[..i]
    ensures StrictlyAscending(result + [order[i]])
  {
    forall x | x in result ensures x < order[i] {
      var j :| 0 <= j < i && order[..i][j] == x;
    }
    var r := result + [order[i]];
    forall a, b | 0 <= a < b < |r| ensures r[a] < r[b] {
      if b == |result| {
        assert r[a] in result;
      } else {
        assert r[a] == result[a] && r[b] == result[b];
      }
    }
  }

  /** `isConflict(MA1, MA2)` as written: walks the keys of `GateMap` in
      ascending order and reports k when MA1[k] is 1 and MA2[k] is 0; its
      second test repeats the first, so a key set to 0 in MA1 and 1 in MA2
      is never reported. Every visited key is read from MA1 through
      `operator[]`, and from MA2 when MA1 holds 1 there. */
  method IsConflict(keys: set<int>, ma1: map<int, int>, ma2: map<int, int>) returns (result: seq<int>, m1: map<int, int>, m2: map<int, int>)
    ensures StrictlyAscending(result)
    ensures forall k :: k in result <==> k in keys && Get(ma1, k) == 1 && Get(ma2, k) == 0
    ensures forall k :: (k in m1 <==> k in ma1 || k in keys) && Get(m1, k) == Get(ma1, k)
    ensures forall k :: (k in m2 <==> k in ma2 || (k in keys && Get(ma1, k) == 1)) && Get(m2, k) == Get(ma2, k)
  {
    var order := KeyOrder(keys);
    result, m1, m2 := [], ma1, ma2;
    for i := 0 to |order|
      invariant forall x :: x in result ==> x in order[..i]
      invariant StrictlyAscending(result)
      invariant forall j :: 0 <= j < i ==> (order[j] in result <==> Get(ma1, order[j]) == 1 && Get(ma2, order[j]) == 0)
      invariant forall k :: (k in m1 <==> k in ma1 || k in order[..i]) && Get(m1, k) == Get(ma1, k)
      invariant forall k :: (k in m2 <==> k in ma2 || (k in order[..i] && Get(ma1, k) == 1)) && Get(m2, k) == Get(ma2, k)
    {
      var k := order[i];
      assert order[..i + 1] == order[..i] + [k];
      m1 := Touch(m1, k);
      var hit := false;
      if m1[k] == 1 {
        m2 := Touch(m2, k);
        hit := m2[k] == 0;
      }
      if !hit && m1[k] == 1 {
        m2 := Touch(m2, k);
        hit := m2[k] == 0;
      }
      if hit {
        AscendingPush(result, order, i);
        result := result + [k];
      }
    }
    assert order[..|order|] == order;
  }

  /** A key MA1 sets to 0 and MA2 to 1 is a clash that `isConflict` as
      written does not report. */
  lemma IsConflictMissesZeroOne(k: int)
    ensures Clash(Get(map[k := 0], k), Get(map[k := 1], k))
    ensures !(Get(map[k := 0], k) == 1 && Get(map[k := 1], k) == 0)
  {
  }

  /** `isConflict` as evidently intended: report every key of `GateMap`
      on which the two maps clash, in either direction, as `combineMAs`
      does. MA2 is read when MA1 holds 0 or 1 there. */
  method ReportClashes(keys: set<int>, ma1: map<int, int>, ma2: map<int, int>) returns (result: seq<int>, m1: map<int, int>, m2: map<int, int>)
    ensures StrictlyAscending(result)
    ensures forall k :: k in result <==> k in keys && Clash(Get(ma1, k), Get(ma2, k))
    ensures forall k :: (k in m1 <==> k in ma1 || k in keys) && Get(m1, k) == Get(ma1, k)
    ensures forall k :: (k in m2 <==> k in ma2 || (k in keys && (Get(ma1, k) == 1 || Get(ma1, k) == 0))) && Get(m2, k) == Get(ma2, k)
  {
    var order := KeyOrder(keys);
    result, m1, m2 := [], ma1, ma2;
    for i := 0 to |order|
      invariant forall x :: x in result ==> x in order[..i]
      invariant StrictlyAscending(result)
      invariant forall j :: 0 <= j < i ==> (order[j] in result <==> Clash(Get(ma1, order[j]), Get(ma2, order[j])))
      invariant forall k :: (k in m1 <==> k in ma1 || k in order[..i]) && Get(m1, k) == Get(ma1, k)
      invariant forall k :: (k in m2 <==> k in ma2 || (k in order[..i] && (Get(ma1, k) == 1 || Get(ma1, k) == 0))) && Get(m2, k) == Get(ma2, k)
    {
      var k := order[i];
      assert order[..i + 1] == order[..i] + [k];
      m1 := Touch(m1, k);
      var hit := false;
      if m1[k] == 1 {
        m2 := Touch(m2, k);
        hit := m2[k] == 0;
      }
      if !hit && m1[k] == 0 {
        m2 := Touch(m2, k);
        hit := m2[k] == 1;
      }
      if hit {
        AscendingPush(result, order, i);
        result := result + [k];
      }
    }
    assert order[..|order|] == order;
  }

  /** The corrected report is empty over MA1's keys exactly when
      `combineMAs` accepts the pair. */
  lemma ClashFreeIffCombines(keys: set<int>, ma1: map<int, int>, ma2: map<int, int>, result: seq<int>)
    requires ma1.Keys <= keys
    requires forall k :: k in result <==> k in keys && Clash(Get(ma1, k), Get(ma2, k))
    ensures (forall k :: k in result ==> k !in ma1) <==> (forall k :: k in ma1 ==> !Clash(ma1[k], Get(ma2, k)))
  {
    if forall k :: k in result ==> k !in ma1 {
      forall k | k in ma1 ensures !Clash(ma1[k], Get(ma2, k)) {
        assert k !in result;
      }
    }
  }
}
