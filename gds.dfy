/** The dominator-candidate ("Gd") lists of `satRAR`: `findAllgd` collects
    the AND gates in the fanout cone of a gate as (gate ID, input slot)
    pairs, the Gd-set construction keeps the pairs of the first fanout's
    cone that also lie in another fanout's cone, and each kept pair yields
    one side-input assumption. */
module Gds {
  import opened CirGate
  import opened Circuit
  import opened Netlist
  import opened AssignMaps
  import opened Engine
  import opened Keys

  /** pr is the pair `findAllgd` records for fanout f of the gate stored
      under `parent`: f's ID, and slot 0 exactly when f's fanin 0 is the
      parent. */
  predicate FanoutPair(gates: seq<GateRec>, table: map<int, Ptr>, parent: int, f: nat, pr: (int, int)) {
    && parent in table && table[parent].Ref? && table[parent].h < |gates|
    && f in gates[table[parent].h].fanout && f < |gates| && gates[f].variant.AigGate?
    && pr == (GetID(gates[f]), if Id0(gates, f) == parent then 0 else 1)
  }

  /** `added` lists fanout-cone pairs below `root` in cone order: entry j
      is the pair of fanout gate via[j] of its parent, the parent being the
      root (pix[j] == -1) or the gate of an earlier entry pix[j]. */
  predicate ConeList(gates: seq<GateRec>, table: map<int, Ptr>, root: int, added: seq<(int, int)>, via: seq<nat>, pix: seq<int>) {
    && |via| == |added| && |pix| == |added|
    && forall j :: 0 <= j < |added| ==>
         -1 <= pix[j] < j && FanoutPair(gates, table, if pix[j] < 0 then root else added[pix[j]].0, via[j], added[j])
  }

  /** The entries added were free (2) in `check0` and are 1 in `ch`. */
  ghost predicate Marked(check0: map<int, int>, ch: map<int, int>, added: seq<(int, int)>) {
    forall j :: 0 <= j < |added| ==> Get(check0, added[j].0) == 2 && Get(ch, added[j].0) == 1
  }

  /** No entry other than an added one changed. */
  ghost predicate OnlyAdded(check0: map<int, int>, ch: map<int, int>, added: seq<(int, int)>) {
    forall k :: Get(ch, k) != Get(check0, k) ==> InFirsts(k, added)
  }

  /** No gate ID is listed twice. */
  predicate DistinctIds(added: seq<(int, int)>) {
    forall i, j :: 0 <= i < j < |added| ==> added[i].0 != added[j].0
  }

  /** The entries added were taken from free to 1, each ID once, and no
      other entry changed. */
  ghost predicate Flipped(check0: map<int, int>, ch: map<int, int>, added: seq<(int, int)>) {
    Marked(check0, ch, added) && OnlyAdded(check0, ch, added) && DistinctIds(added)
  }

  /** Every AND fanout of the gate under u is no longer free in ch. */
  ghost predicate Explored(gates: seq<GateRec>, table: map<int, Ptr>, u: int, ch: map<int, int>) {
    && u in table && table[u].Ref? && table[u].h < |gates|
    && forall j :: 0 <= j < |gates[table[u].h].fanout| ==>
         gates[table[u].h].fanout[j] < |gates| && gates[gates[table[u].h].fanout[j]].variant.AigGate? ==>
           Get(ch, GetID(gates[gates[table[u].h].fanout[j]])) != 2
  }

  /** Every AND gate of the arena is free (2) in the visit map, as it is
      after the map is filled with 2 for every key of `GateMap`. */
  predicate AllFree(gates: seq<GateRec>, check: map<int, int>) {
    forall h :: 0 <= h < |gates| && gates[h].variant.AigGate? ==> Get(check, GetID(gates[h])) == 2
  }

  /** Some AND gate's ID has no non-null entry in `GateMap`: a search
      that reaches it dereferences null. */
  predicate MissingAig(gates: seq<GateRec>, table: map<int, Ptr>) {
    exists h :: 0 <= h < |gates| && gates[h].variant.AigGate? && Lookup(table, GetID(gates[h])).Null?
  }

  /** A map whose keys include those of an all-free map, all of them 2, is
      all free too. */
  lemma AllFreeKeep(gates: seq<GateRec>, c0: map<int, int>, c1: map<int, int>)
    requires c0.Keys <= c1.Keys && (forall k :: k in c1 ==> c1[k] == 2) && AllFree(gates, c0)
    ensures AllFree(gates, c1)
  {
    forall h | 0 <= h < |gates| && gates[h].variant.AigGate? ensures Get(c1, GetID(gates[h])) == 2 {
      assert Get(c0, GetID(gates[h])) == 2;
    }
  }

  /** Every AND fanout of the gate under u is listed. */
  predicate ClosedAt(gates: seq<GateRec>, table: map<int, Ptr>, u: int, list: seq<(int, int)>) {
    && u in table && table[u].Ref? && table[u].h < |gates|
    && forall j :: 0 <= j < |gates[table[u].h].fanout| ==>
         gates[table[u].h].fanout[j] < |gates| && gates[gates[table[u].h].fanout[j]].variant.AigGate? ==>
           InFirsts(GetID(gates[gates[table[u].h].fanout[j]]), list)
  }

  /** The list is closed under AND fanouts: from the root and from every
      listed gate. */
  predicate Closed(gates: seq<GateRec>, table: map<int, Ptr>, root: int, list: seq<(int, int)>) {
    ClosedAt(gates, table, root, list) && forall j :: 0 <= j < |list| ==> ClosedAt(gates, table, list[j].0, list)
  }

  /** What a `findAllgd` run from root has done to the list (from gds0 to
      r) and to the visit map (from check0 to ch). */
  ghost predicate GdRun(gates: seq<GateRec>, table: map<int, Ptr>, root: int, gds0: seq<(int, int)>, check0: map<int, int>,
                        r: seq<(int, int)>, ch: map<int, int>, via: seq<nat>, pix: seq<int>) {
    && Grows(check0, ch)
    && |gds0| <= |r| && r[..|gds0|] == gds0
    && ConeList(gates, table, root, r[|gds0|..], via, pix)
    && Flipped(check0, ch, r[|gds0|..])
    && (forall j :: |gds0| <= j < |r| ==> Explored(gates, table, r[j].0, ch))
  }

  /** Parent indices of a list appended after n entries; its root becomes
      entry k (or stays the root when k is -1). */
  function Rebase(pix: seq<int>, n: nat, k: int): (r: seq<int>)
    ensures |r| == |pix|
    ensures forall j :: 0 <= j < |pix| ==> r[j] == if pix[j] < 0 then k else pix[j] + n
  {
    seq(|pix|, j requires 0 <= j < |pix| => if pix[j] < 0 then k else pix[j] + n)
  }

  /** A cone list whose root is entry k of another cone list (or the same
      root, k = -1) extends it. */
  lemma ConeJoin(gates: seq<GateRec>, table: map<int, Ptr>, root: int, a: seq<(int, int)>, viaA: seq<nat>, pixA: seq<int>,
                 k: int, b: seq<(int, int)>, viaB: seq<nat>, pixB: seq<int>)
    requires ConeList(gates, table, root, a, viaA, pixA) && -1 <= k < |a|
    requires ConeList(gates, table, if k < 0 then root else a[k].0, b, viaB, pixB)
    ensures ConeList(gates, table, root, a + b, viaA + viaB, pixA + Rebase(pixB, |a|, k))
  {
    var ab, pix := a + b, pixA + Rebase(pixB, |a|, k);
    forall j | |a| <= j < |ab|
      ensures -1 <= pix[j] < j
      ensures FanoutPair(gates, table, if pix[j] < 0 then root else ab[pix[j]].0, (viaA + viaB)[j], ab[j])
    {
      var i := j - |a|;
      assert ab[j] == b[i] && pix[j] == Rebase(pixB, |a|, k)[i] && (viaA + viaB)[j] == viaB[i];
      if pixB[i] >= 0 {
        assert ab[pix[j]] == b[pixB[i]];
      }
    }
  }

  /** Reading the visit map through `operator[]` keeps a run a run. */
  lemma GdTouch(gates: seq<GateRec>, table: map<int, Ptr>, root: int, gds0: seq<(int, int)>, check0: map<int, int>,
                r: seq<(int, int)>, ch: map<int, int>, via: seq<nat>, pix: seq<int>, k: int)
    requires GdRun(gates, table, root, gds0, check0, r, ch, via, pix)
    ensures GdRun(gates, table, root, gds0, check0, r, Touch(ch, k), via, pix)
  {
    var ch' := Touch(ch, k);
    assert Grows(ch, ch');
    GrowsTrans(check0, ch, ch');
    forall j | |gds0| <= j < |r| ensures Explored(gates, table, r[j].0, ch') {
      assert Explored(gates, table, r[j].0, ch);
    }
  }

  /** An entry that is not free stays not free. */
  lemma StaysTaken(a: map<int, int>, b: map<int, int>, k: int)
    requires Grows(a, b) && Get(a, k) != 2
    ensures Get(b, k) != 2
  {
  }

  lemma ExploredKeep(gates: seq<GateRec>, table: map<int, Ptr>, u: int, a: map<int, int>, b: map<int, int>)
    requires Explored(gates, table, u, a) && Grows(a, b)
    ensures Explored(gates, table, u, b)
  {
    var fo := gates[table[u].h].fanout;
    forall j | 0 <= j < |fo| && fo[j] < |gates| && gates[fo[j]].variant.AigGate?
      ensures Get(b, GetID(gates[fo[j]])) != 2
    {
      StaysTaken(a, b, GetID(gates[fo[j]]));
    }
  }

  /** The visit-map side of one recursive step: the entries flipped before
      it, the fanout t flipped at it, and those flipped below t. */
  lemma FlipJoin(check0: map<int, int>, ch0: map<int, int>, ch2: map<int, int>, a: seq<(int, int)>, t: int, slot: int, c: seq<(int, int)>)
    requires Flipped(check0, ch0, a) && Get(ch0, t) == 2
    requires Flipped(ch0[t := 1], ch2, c)
    ensures Flipped(check0, ch2, a + [(t, slot)] + c)
  {
    MarkJoin(check0, ch0, ch2, a, t, slot, c);
    OnlyJoin(check0, ch0, ch2, a, t, slot, c);
    DistinctJoin(ch0, a, t, slot, c);
  }

  lemma MarkJoin(check0: map<int, int>, ch0: map<int, int>, ch2: map<int, int>, a: seq<(int, int)>, t: int, slot: int, c: seq<(int, int)>)
    requires Marked(check0, ch0, a) && OnlyAdded(check0, ch0, a) && Get(ch0, t) == 2
    requires Marked(ch0[t := 1], ch2, c) && OnlyAdded(ch0[t := 1], ch2, c)
    ensures Marked(check0, ch2, a + [(t, slot)] + c)
  {
    var ch1 := ch0[t := 1];
    var all := a + [(t, slot)] + c;
    // the entries taken before t are 1 and t is 2 in ch0; below t they are 2 and t is 1 in ch1
    assert !InFirsts(t, a) && !InFirsts(t, c);
    forall j | 0 <= j < |all| ensures Get(check0, all[j].0) == 2 && Get(ch2, all[j].0) == 1 {
      if j < |a| {
        assert all[j] == a[j];
        assert !InFirsts(a[j].0, c);
      } else if j > |a| {
        assert all[j] == c[j - |a| - 1];
        assert !InFirsts(all[j].0, a);
      }
    }
  }

  lemma OnlyJoin(check0: map<int, int>, ch0: map<int, int>, ch2: map<int, int>, a: seq<(int, int)>, t: int, slot: int, c: seq<(int, int)>)
    requires OnlyAdded(check0, ch0, a) && OnlyAdded(ch0[t := 1], ch2, c)
    ensures OnlyAdded(check0, ch2, a + [(t, slot)] + c)
  {
    var ch1 := ch0[t := 1];
    var all := a + [(t, slot)] + c;
    forall k | Get(ch2, k) != Get(check0, k) ensures InFirsts(k, all) {
      if InFirsts(k, c) {
        var i :| 0 <= i < |c| && c[i].0 == k;
        assert all[|a| + 1 + i] == c[i];
      } else if k == t {
        assert all[|a|].0 == k;
      } else {
        assert InFirsts(k, a);
        var j :| 0 <= j < |a| && a[j].0 == k;
        assert all[j] == a[j];
      }
    }
  }

  lemma DistinctJoin(ch0: map<int, int>, a: seq<(int, int)>, t: int, slot: int, c: seq<(int, int)>)
    requires DistinctIds(a) && DistinctIds(c) && Get(ch0, t) == 2
    requires forall j :: 0 <= j < |a| ==> Get(ch0, a[j].0) == 1
    requires forall j :: 0 <= j < |c| ==> Get(ch0[t := 1], c[j].0) == 2
    ensures DistinctIds(a + [(t, slot)] + c)
  {
    var all := a + [(t, slot)] + c;
    forall i, j | 0 <= i < j < |all| ensures all[i].0 != all[j].0 {
      if j < |a| {
        assert all[i] == a[i] && all[j] == a[j];
      } else if j == |a| {
        assert all[i] == a[i];
      } else if i < |a| {
        assert all[i] == a[i] && all[j] == c[j - |a| - 1];
      } else if i == |a| {
        assert all[j] == c[j - |a| - 1];
      } else {
        assert all[i] == c[i - |a| - 1] && all[j] == c[j - |a| - 1];
      }
    }
  }

  /** One recursive step of `findAllgd` extends the caller's run: push the
      pair of fanout f (gate t, newly taken) and then everything the call
      on t collected. */
  lemma GdPush(gates: seq<GateRec>, table: map<int, Ptr>, root: int, gds0: seq<(int, int)>, check0: map<int, int>,
               r0: seq<(int, int)>, ch0: map<int, int>, via: seq<nat>, pix: seq<int>,
               f: nat, t: int, slot: int, r2: seq<(int, int)>, ch2: map<int, int>, viaC: seq<nat>, pixC: seq<int>)
    requires GdRun(gates, table, root, gds0, check0, r0, ch0, via, pix)
    requires t in ch0 && ch0[t] == 2 && FanoutPair(gates, table, root, f, (t, slot))
    requires GdRun(gates, table, t, r0 + [(t, slot)], ch0[t := 1], r2, ch2, viaC, pixC) && Explored(gates, table, t, ch2)
    ensures GdRun(gates, table, root, gds0, check0, r2, ch2, via + [f] + viaC, pix + [-1] + Rebase(pixC, |via| + 1, |via|))
    ensures Grows(ch0, ch2)
  {
    var r1, ch1 := r0 + [(t, slot)], ch0[t := 1];
    var a, c := r0[|gds0|..], r2[|r1|..];
    assert Grows(ch0, ch1);
    GrowsTrans(ch0, ch1, ch2);
    GrowsTrans(check0, ch0, ch2);
    assert r2[..|r1|] == r1;
    assert r2[..|gds0|] == r1[..|gds0|] == gds0;
    assert r2[|gds0|..] == a + [(t, slot)] + c by {
      assert r2 == r1 + c;
    }
    assert Rebase([-1], |a|, -1) == [-1];
    ConeJoin(gates, table, root, a, via, pix, -1, [(t, slot)], [f], [-1]);
    ConeJoin(gates, table, root, a + [(t, slot)], via + [f], pix + [-1], |a|, c, viaC, pixC);
    FlipJoin(check0, ch0, ch2, a, t, slot, c);
    forall j | |gds0| <= j < |r2| ensures Explored(gates, table, r2[j].0, ch2) {
      if j < |r0| {
        ExploredKeep(gates, table, r0[j].0, ch0, ch2);
        assert r2[j] == r0[j];
      } else if j == |r0| {
        assert r2[j].0 == t;
      }
    }
  }

  /** A fanout that is no longer free was taken during the run, so it is
      listed. */
  lemma ExploredClosed(gates: seq<GateRec>, table: map<int, Ptr>, u: int, check0: map<int, int>, ch: map<int, int>, added: seq<(int, int)>)
    requires ArenaOk(gates) && Explored(gates, table, u, ch) && OnlyAdded(check0, ch, added) && AllFree(gates, check0)
    ensures ClosedAt(gates, table, u, added)
  {
    var fo := gates[table[u].h].fanout;
    forall j | 0 <= j < |fo| && fo[j] < |gates| && gates[fo[j]].variant.AigGate?
      ensures InFirsts(GetID(gates[fo[j]]), added)
    {
      assert Get(check0, GetID(gates[fo[j]])) == 2;
    }
  }

  /** `findAllgd` from a map in which every AND gate is free lists the
      whole AND fanout cone of its root. */
  lemma GdClosed(gates: seq<GateRec>, table: map<int, Ptr>, root: int, gds0: seq<(int, int)>, check0: map<int, int>,
                 r: seq<(int, int)>, ch: map<int, int>, via: seq<nat>, pix: seq<int>)
    requires ArenaOk(gates) && AllFree(gates, check0)
    requires GdRun(gates, table, root, gds0, check0, r, ch, via, pix) && Explored(gates, table, root, ch)
    ensures Closed(gates, table, root, r[|gds0|..])
  {
    var added := r[|gds0|..];
    ExploredClosed(gates, table, root, check0, ch, added);
    forall j | 0 <= j < |added| ensures ClosedAt(gates, table, added[j].0, added) {
      assert added[j] == r[|gds0| + j];
      ExploredClosed(gates, table, added[j].0, check0, ch, added);
    }
  }

  /** Listing more keeps a gate's fanouts listed. */
  lemma ClosedGrow(gates: seq<GateRec>, table: map<int, Ptr>, u: int, pre: seq<(int, int)>, list: seq<(int, int)>, post: seq<(int, int)>)
    requires ClosedAt(gates, table, u, list)
    ensures ClosedAt(gates, table, u, pre + list + post)
  {
    var all := pre + list + post;
    var fo := gates[table[u].h].fanout;
    forall j | 0 <= j < |fo| && fo[j] < |gates| && gates[fo[j]].variant.AigGate?
      ensures InFirsts(GetID(gates[fo[j]]), all)
    {
      var i :| 0 <= i < |list| && list[i].0 == GetID(gates[fo[j]]);
      assert all[|pre| + i] == list[i];
    }
  }

  /** `findAllgd(Id, gds, check_gd)`: depth first over the fanouts of the
      gate under Id, every AND fanout still free (2) in the visit map is
      marked 1, recorded with the input slot Id drives, and explored in
      turn. A null or missing `GateMap[Id]` is dereferenced: !ok. */
  method FindAllGd(gates: seq<GateRec>, table: map<int, Ptr>, id: int, gds: seq<(int, int)>, check: map<int, int>)
    returns (r: seq<(int, int)>, ch: map<int, int>, ok: bool, ghost via: seq<nat>, ghost pix: seq<int>)
    requires Circ(gates, table)
    ensures Lookup(table, id).Null? ==> !ok
    ensures !ok ==> Lookup(table, id).Null? || MissingAig(gates, table)
    ensures ok ==> GdRun(gates, table, id, gds, check, r, ch, via, pix) && Explored(gates, table, id, ch)
    ensures ok && AllFree(gates, check) ==> Closed(gates, table, id, r[|gds|..])
    decreases |FreeSet(check)|
  {
    r, ch, ok, via, pix := gds, check, true, [], [];
    var p := Lookup(table, id);
    if p.Null? {
      ok := false;
      return;
    }
    var fo := gates[p.h].fanout;
    assert r[|gds|..] == [];
    for i := 0 to |fo|
      invariant GdRun(gates, table, id, gds, check, r, ch, via, pix)
      invariant forall j :: 0 <= j < i && gates[fo[j]].variant.AigGate? ==> Get(ch, GetID(gates[fo[j]])) != 2
    {
      var f := fo[i];
      if gates[f].variant.AigGate? {
        var t := GetID(gates[f]);
        GdTouch(gates, table, id, gds, check, r, ch, via, pix, t);
        ch := Touch(ch, t);
        if ch[t] == 2 {
          var slot := if GetID(gates[gates[f].fanin0.h]) == id then 0 else 1;
          FreeCard(check, ch);
          FreeDrop(ch, ch[t := 1], t);
          var r2, ch2, ok2, viaC, pixC := FindAllGd(gates, table, t, r + [(t, slot)], ch[t := 1]);
          if !ok2 {
            assert f < |gates| && gates[f].variant.AigGate? && GetID(gates[f]) == t;
            ok := false;
            return;
          }
          GdPush(gates, table, id, gds, check, r, ch, via, pix, f, t, slot, r2, ch2, viaC, pixC);
          forall j | 0 <= j < i && gates[fo[j]].variant.AigGate? ensures Get(ch2, GetID(gates[fo[j]])) != 2 {
            StaysTaken(ch, ch2, GetID(gates[fo[j]]));
          }
          r, ch, via, pix := r2, ch2, via + [f] + viaC, pix + [-1] + Rebase(pixC, |via| + 1, |via|);
        }
      }
    }
    if AllFree(gates, check) {
      GdClosed(gates, table, id, gds, check, r, ch, via, pix);
    }
  }

  /** The block `satRAR` runs for one fanout f of the target id: the pair
      of f when it is an AND gate, then `findAllgd` from f's ID, then
      `clear_MA` on the visit map. */
  method FanoutCone(gates: seq<GateRec>, table: map<int, Ptr>, id: int, f: nat, gds: seq<(int, int)>, check: map<int, int>)
    returns (r: seq<(int, int)>, ch: map<int, int>, ok: bool, ghost seg: seq<(int, int)>, ghost via: seq<nat>, ghost pix: seq<int>)
    requires Circ(gates, table) && id in table && table[id].Ref? && table[id].h < |gates| && f in gates[table[id].h].fanout
    ensures f < |gates|
    ensures !ok ==> Lookup(table, GetID(gates[f])).Null? || MissingAig(gates, table)
    ensures ok ==> r == gds + seg
    ensures ok ==> check.Keys <= ch.Keys && forall k :: k in ch ==> ch[k] == 2
    ensures ok && gates[f].variant.AigGate? ==> |seg| >= 1 && seg[0] == (GetID(gates[f]), if Id0(gates, f) == id then 0 else 1)
    ensures ok && gates[f].variant.AigGate? ==> ConeList(gates, table, id, seg, via, pix)
    ensures ok && AllFree(gates, check) ==> ClosedAt(gates, table, GetID(gates[f]), seg)
    ensures ok && AllFree(gates, check) ==> forall j :: 0 <= j < |seg| ==> ClosedAt(gates, table, seg[j].0, seg)
  {
    var head: seq<(int, int)> := [];
    assert f < |gates| && GateOk(|gates|, gates[f]);
    var t := GetID(gates[f]);
    if gates[f].variant.AigGate? {
      var slot := if GetID(gates[gates[f].fanin0.h]) == id then 0 else 1;
      head := [(t, slot)];
    }
    var r1, ch1, ok1, via1, pix1 := FindAllGd(gates, table, t, gds + head, check);
    ok := ok1;
    if !ok {
      r, ch, seg, via, pix := r1, ch1, [], [], [];
      return;
    }
    var added := r1[|gds + head|..];
    RunShape(gates, table, t, gds + head, check, r1, ch1, via1, pix1);
    r, seg := r1, head + added;
    ch := ClearMA(ch1);
    if gates[f].variant.AigGate? {
      HeadCone(gates, table, id, f, head, added, via1, pix1);
      via, pix := [f] + via1, [-1] + Rebase(pix1, 1, 0);
    } else {
      via, pix := via1, pix1;
    }
    if AllFree(gates, check) {
      SegClosed(gates, table, t, head, added);
    }
  }

  /** The parts of a run a caller needs: the list only grew at its end, the
      visit map kept its keys, and the cone list. */
  lemma RunShape(gates: seq<GateRec>, table: map<int, Ptr>, root: int, gds0: seq<(int, int)>, check0: map<int, int>,
                 r: seq<(int, int)>, ch: map<int, int>, via: seq<nat>, pix: seq<int>)
    requires GdRun(gates, table, root, gds0, check0, r, ch, via, pix)
    ensures r == gds0 + r[|gds0|..] && check0.Keys <= ch.Keys
    ensures ConeList(gates, table, root, r[|gds0|..], via, pix)
  {
    assert r == r[..|gds0|] + r[|gds0|..];
    assert Grows(check0, ch);
    assert forall k :: k in check0.Keys ==> k in ch.Keys;
  }

  /** The pair of fanout f of id followed by the cone list below f. */
  lemma HeadCone(gates: seq<GateRec>, table: map<int, Ptr>, id: int, f: nat, head: seq<(int, int)>,
                 added: seq<(int, int)>, via: seq<nat>, pix: seq<int>)
    requires ArenaOk(gates) && Linked(gates) && id in table && table[id].Ref? && table[id].h < |gates|
    requires f in gates[table[id].h].fanout && f < |gates| && gates[f].variant.AigGate?
    requires head == [(GetID(gates[f]), if GetID(gates[gates[f].fanin0.h]) == id then 0 else 1)]
    requires ConeList(gates, table, GetID(gates[f]), added, via, pix)
    ensures ConeList(gates, table, id, head + added, [f] + via, [-1] + Rebase(pix, 1, 0))
  {
    assert ConeList(gates, table, id, head, [f], [-1]);
    ConeJoin(gates, table, id, head, [f], [-1], 0, added, via, pix);
  }

  /** The head pair (gate t) and the list below t, each closed, are closed
      together. */
  lemma SegClosed(gates: seq<GateRec>, table: map<int, Ptr>, t: int, head: seq<(int, int)>, added: seq<(int, int)>)
    requires Closed(gates, table, t, added)
    requires forall j :: 0 <= j < |head| ==> head[j].0 == t
    ensures ClosedAt(gates, table, t, head + added)
    ensures forall j :: 0 <= j < |head + added| ==> ClosedAt(gates, table, (head + added)[j].0, head + added)
  {
    var seg := head + added;
    assert head + added + [] == seg;
    ClosedGrow(gates, table, t, head, added, []);
    forall j | 0 <= j < |seg| ensures ClosedAt(gates, table, seg[j].0, seg) {
      if j < |head| {
        ClosedGrow(gates, table, t, head, added, []);
      } else {
        assert seg[j] == added[j - |head|];
        ClosedGrow(gates, table, seg[j].0, head, added, []);
      }
    }
  }

  /** Every fanout of the gate under id is an AND gate. */
  predicate AigFanouts(gates: seq<GateRec>, table: map<int, Ptr>, id: int)
    requires id in table && table[id].Ref? && table[id].h < |gates|
  {
    forall j :: 0 <= j < |gates[table[id].h].fanout| ==>
      gates[table[id].h].fanout[j] < |gates| && gates[gates[table[id].h].fanout[j]].variant.AigGate?
  }

  /** What the lists of fanouts 1 to n-1 of a target, joined, hold: the
      pair of each such fanout that is an AND gate and, from an all-free
      visit map, every AND fanout of each such fanout and of each listed
      gate. */
  predicate OthersCover(gates: seq<GateRec>, table: map<int, Ptr>, fo: seq<nat>, n: nat, others: seq<(int, int)>, free: bool) {
    && (forall i :: 1 <= i < n && i < |fo| && fo[i] < |gates| && gates[fo[i]].variant.AigGate? ==>
          InFirsts(GetID(gates[fo[i]]), others))
    && (free ==>
          && (forall i :: 1 <= i < n && i < |fo| && fo[i] < |gates| ==> ClosedAt(gates, table, GetID(gates[fo[i]]), others))
          && (forall j :: 0 <= j < |others| ==> ClosedAt(gates, table, others[j].0, others)))
  }

  /** Appending the list of fanout n extends the cover. */
  lemma OthersStep(gates: seq<GateRec>, table: map<int, Ptr>, fo: seq<nat>, n: nat, others: seq<(int, int)>,
                   seg: seq<(int, int)>, free: bool)
    requires 1 <= n < |fo| && fo[n] < |gates| && OthersCover(gates, table, fo, n, others, free)
    requires gates[fo[n]].variant.AigGate? ==> |seg| >= 1 && seg[0].0 == GetID(gates[fo[n]])
    requires free ==> ClosedAt(gates, table, GetID(gates[fo[n]]), seg)
    requires free ==> forall j :: 0 <= j < |seg| ==> ClosedAt(gates, table, seg[j].0, seg)
    ensures OthersCover(gates, table, fo, n + 1, others + seg, free)
  {
    var all := others + seg;
    forall i | 1 <= i < n + 1 && i < |fo| && fo[i] < |gates| && gates[fo[i]].variant.AigGate?
      ensures InFirsts(GetID(gates[fo[i]]), all)
    {
      if i < n {
        var j :| 0 <= j < |others| && others[j].0 == GetID(gates[fo[i]]);
        assert all[j] == others[j];
      } else {
        assert all[|others|] == seg[0];
      }
    }
    if free {
      assert [] + others + seg == all && others + seg + [] == all;
      forall i | 1 <= i < n + 1 && i < |fo| && fo[i] < |gates| ensures ClosedAt(gates, table, GetID(gates[fo[i]]), all) {
        if i < n {
          ClosedGrow(gates, table, GetID(gates[fo[i]]), [], others, seg);
        } else {
          ClosedGrow(gates, table, GetID(gates[fo[i]]), others, seg, []);
        }
      }
      forall j | 0 <= j < |all| ensures ClosedAt(gates, table, all[j].0, all) {
        if j < |others| {
          assert all[j] == others[j];
          ClosedGrow(gates, table, all[j].0, [], others, seg);
        } else {
          assert all[j] == seg[j - |others|];
          ClosedGrow(gates, table, all[j].0, others, seg, []);
        }
      }
    }
  }

  /** The Gd set of the AND gate id in `satRAR`: the cone list of its
      first fanout, cut down by `compareTwogds` to the pairs whose gate also
      lies in the cone of one of its other fanouts. A target without
      fanouts has its first fanout dereferenced out of range: !ok. */
  method GdSet(gates: seq<GateRec>, table: map<int, Ptr>, id: int, check: map<int, int>)
    returns (gds1: seq<(int, int)>, ch: map<int, int>, ok: bool,
             ghost first: seq<(int, int)>, ghost others: seq<(int, int)>,
             ghost viaF: seq<nat>, ghost pixF: seq<int>, ghost viaO: seq<nat>, ghost pixO: seq<int>)
    requires Circ(gates, table) && IsAigKey(gates, table, id)
    ensures gates[table[id].h].fanout == [] ==> !ok
    ensures !ok ==> || gates[table[id].h].fanout == []
                    || (exists i :: 0 <= i < |gates[table[id].h].fanout| && gates[table[id].h].fanout[i] < |gates| &&
                                    Lookup(table, GetID(gates[gates[table[id].h].fanout[i]])).Null?)
                    || MissingAig(gates, table)
    ensures ok ==> gds1 == if |gates[table[id].h].fanout| > 1 then KeepShared(first, others) else first
    ensures ok ==> check.Keys <= ch.Keys && forall k :: k in ch ==> ch[k] == 2
    ensures ok && AigFanouts(gates, table, id) ==> ConeList(gates, table, id, first, viaF, pixF) && ConeList(gates, table, id, others, viaO, pixO)
    ensures ok && gates[gates[table[id].h].fanout[0]].variant.AigGate? ==>
              |first| >= 1 && first[0].0 == GetID(gates[gates[table[id].h].fanout[0]])
    ensures ok && AllFree(gates, check) ==> ClosedAt(gates, table, GetID(gates[gates[table[id].h].fanout[0]]), first)
    ensures ok && AllFree(gates, check) ==> forall j :: 0 <= j < |first| ==> ClosedAt(gates, table, first[j].0, first)
    ensures ok ==> OthersCover(gates, table, gates[table[id].h].fanout, |gates[table[id].h].fanout|, others, AllFree(gates, check))
  {
    var fo := gates[table[id].h].fanout;
    others, viaO, pixO := [], [], [];
    if |fo| == 0 {
      gds1, ch, ok, first, viaF, pixF := [], check, false, [], [], [];
      return;
    }
    gds1, ch, ok, first, viaF, pixF := FanoutCone(gates, table, id, fo[0], [], check);
    if !ok {
      return;
    }
    assert gds1 == first;
    ghost var free := AllFree(gates, check);
    if |fo| > 1 {
      var gds2: seq<(int, int)> := [];
      for i := 1 to |fo|
        invariant gds2 == others
        invariant check.Keys <= ch.Keys && forall k :: k in ch ==> ch[k] == 2
        invariant free ==> AllFree(gates, ch)
        invariant AigFanouts(gates, table, id) ==> ConeList(gates, table, id, others, viaO, pixO)
        invariant OthersCover(gates, table, fo, i, others, free)
      {
        ghost var seg, via, pix;
        ghost var chI := ch;
        gds2, ch, ok, seg, via, pix := FanoutCone(gates, table, id, fo[i], gds2, ch);
        if !ok {
          return;
        }
        if AigFanouts(gates, table, id) {
          ConeJoin(gates, table, id, others, viaO, pixO, -1, seg, via, pix);
        }
        if free {
          AllFreeKeep(gates, chI, ch);
        }
        OthersStep(gates, table, fo, i, others, seg, free);
        others, viaO, pixO := others + seg, viaO + via, pixO + Rebase(pix, |others|, -1);
      }
      gds1 := CompareTwoGds(gds1, gds2);
    }
  }

  /** The side input of Gd pair pr can be read: `GateMap[pr.first]` and the
      fanin the slot does not name are both non-null. */
  predicate SideKnown(gates: seq<GateRec>, table: map<int, Ptr>, pr: (int, int)) {
    && Lookup(table, pr.0).Ref? && Lookup(table, pr.0).h < |gates|
    && var g := gates[Lookup(table, pr.0).h];
       if pr.1 == 1 then g.fanin0.Ref? && g.fanin0.h < |gates| else g.fanin1.Ref? && g.fanin1.h < |gates|
  }

  /** The side-input assumption of pr: the ID of the other fanin, and the
      value `!inv` that sets its literal to 1, the non-controlling value of
      an AND gate. */
  function Side(gates: seq<GateRec>, table: map<int, Ptr>, pr: (int, int)): (int, bool)
    requires SideKnown(gates, table, pr)
  {
    var g := gates[Lookup(table, pr.0).h];
    if pr.1 == 1 then (GetID(gates[g.fanin0.h]), !g.inv0) else (GetID(gates[g.fanin1.h]), !g.inv1)
  }

  function Bit(b: bool): int {
    if b then 1 else 0
  }

  /** The assumption vectors `vv`/`vb` that `satRAR` hands the solver for
      target id: the target itself set to true, then one side-input
      assumption per Gd pair, in list order. A null gate or fanin on the way
      is dereferenced: !ok. Gates are named by ID (the solver variable of
      gate i is the one `genAigModel` gives it). */
  method SideAssumptions(gates: seq<GateRec>, table: map<int, Ptr>, id: int, gds: seq<(int, int)>)
    returns (vv: seq<int>, vb: seq<bool>, ok: bool)
    ensures ok <==> forall j :: 0 <= j < |gds| ==> SideKnown(gates, table, gds[j])
    ensures ok ==> |vv| == |gds| + 1 && |vb| == |gds| + 1 && vv[0] == id && vb[0]
    ensures ok ==> forall j :: 0 <= j < |gds| ==> (vv[j + 1], vb[j + 1]) == Side(gates, table, gds[j])
  {
    vv, vb, ok := [id], [true], true;
    for i := 0 to |gds|
      invariant forall j :: 0 <= j < i ==> SideKnown(gates, table, gds[j])
      invariant |vv| == i + 1 && |vb| == i + 1 && vv[0] == id && vb[0]
      invariant forall j :: 0 <= j < i ==> (vv[j + 1], vb[j + 1]) == Side(gates, table, gds[j])
    {
      var p := Lookup(table, gds[i].0);
      if p.Null? || p.h >= |gates| {
        ok := false;
        return;
      }
      var g := gates[p.h];
      if gds[i].1 == 1 {
        if g.fanin0.Null? || g.fanin0.h >= |gates| {
          ok := false;
          return;
        }
        vv, vb := vv + [GetID(gates[g.fanin0.h])], vb + [!g.inv0];
      } else {
        if g.fanin1.Null? || g.fanin1.h >= |gates| {
          ok := false;
          return;
        }
        vv, vb := vv + [GetID(gates[g.fanin1.h])], vb + [!g.inv1];
      }
    }
  }

  /** For a Gd pair recorded by `findAllgd` on a gate stored under its own
      ID, the assumption names the input the parent does not drive through
      fanin 0 and sets that input's literal to 1. */
  lemma SideNonControlling(gates: seq<GateRec>, table: map<int, Ptr>, parent: int, f: nat, pr: (int, int))
    requires Circ(gates, table) && FanoutPair(gates, table, parent, f, pr) && Stored(gates, table, f)
    ensures SideKnown(gates, table, pr)
    ensures pr.1 == 0 ==> Id0(gates, f) == parent && Side(gates, table, pr).0 == Id1(gates, f)
                          && TermTrue(Bit(Side(gates, table, pr).1), gates[f].inv1)
    ensures pr.1 == 1 ==> Id0(gates, f) != parent && Side(gates, table, pr).0 == Id0(gates, f)
                          && TermTrue(Bit(Side(gates, table, pr).1), gates[f].inv0)
  {
  }
}
