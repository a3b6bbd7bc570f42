/** The mandatory-assignment engine of the manager: `traverseWt` propagates
    three-valued assignments (0 false, 1 true, 2 free) through the AND gates
    of the circuit, backward to the fanins of a gate and forward to its
    fanouts, until nothing more follows or a conflict shows. The engine only
    reads the gate arena and `GateMap`; they are passed in as values. */
module Engine {
  import opened CirGate
  import opened Circuit
  import opened Netlist
  import opened AssignMaps
  import opened Keys

  /** The arena and table `traverseWt` walks: pointers in range, every AND
      gate with both fanins, every table entry in range. */
  predicate Circ(gates: seq<GateRec>, table: map<int, Ptr>) {
    ArenaOk(gates) && Linked(gates) && TableOk(gates, table)
  }

  /** Some gate's ID has no non-null entry in `GateMap`: a run that
      reaches it dereferences null. */
  predicate MissingId(gates: seq<GateRec>, table: map<int, Ptr>) {
    exists h :: 0 <= h < |gates| && Lookup(table, GetID(gates[h])).Null?
  }

  /** `GateMap[k]` holds an AND gate. */
  predicate IsAigKey(gates: seq<GateRec>, table: map<int, Ptr>, k: int) {
    k in table && table[k].Ref? && table[k].h < |gates| && gates[table[k].h].variant.AigGate?
  }

  /** The ID of the gate behind fanin 0 / fanin 1 of gate h. */
  function Id0(gates: seq<GateRec>, h: nat): int
    requires h < |gates|
  {
    if gates[h].fanin0.Ref? && gates[h].fanin0.h < |gates| then GetID(gates[gates[h].fanin0.h]) else 0
  }

  function Id1(gates: seq<GateRec>, h: nat): int
    requires h < |gates|
  {
    if gates[h].fanin1.Ref? && gates[h].fanin1.h < |gates| then GetID(gates[gates[h].fanin1.h]) else 0
  }

  /** ID k is stored non-null, and s holds what a run from k goes on to:
      the fanin IDs when k holds an AND gate, and the ID of every AND
      fanout. */
  predicate Closes(gates: seq<GateRec>, table: map<int, Ptr>, s: set<int>, k: int) {
    && k in table && table[k].Ref? && table[k].h < |gates|
    && (gates[table[k].h].variant.AigGate? ==> Id0(gates, table[k].h) in s && Id1(gates, table[k].h) in s)
    && (forall j :: (0 <= j < |gates[table[k].h].fanout| && gates[table[k].h].fanout[j] < |gates| &&
                     gates[gates[table[k].h].fanout[j]].variant.AigGate?) ==>
                    GetID(gates[gates[table[k].h].fanout[j]]) in s)
  }

  /** Every ID a run from x can reach through fanins and AND fanouts is
      stored non-null: there is a set holding x that is closed under both
      steps and has no missing entry. */
  ghost predicate Reachable(gates: seq<GateRec>, table: map<int, Ptr>, x: int) {
    exists s: set<int> {:trigger Closed(gates, table, s)} :: x in s && Closed(gates, table, s)
  }

  ghost predicate Closed(gates: seq<GateRec>, table: map<int, Ptr>, s: set<int>) {
    forall k :: k in s ==> Closes(gates, table, s, k)
  }

  /** Every AND fanout of gate h has a reachable ID. */
  ghost predicate FanoutsReachable(gates: seq<GateRec>, table: map<int, Ptr>, h: nat)
    requires h < |gates|
  {
    forall j :: 0 <= j < |gates[h].fanout| && gates[h].fanout[j] < |gates| && gates[gates[h].fanout[j]].variant.AigGate? ==>
      Reachable(gates, table, GetID(gates[gates[h].fanout[j]]))
  }

  function RankOf(rank: map<int, nat>, k: int): nat {
    if k in rank then rank[k] else 0
  }

  /** The circuit is acyclic through the table: each AND gate stored under
      k has fanin IDs of smaller rank than k. */
  ghost predicate IdRanked(gates: seq<GateRec>, table: map<int, Ptr>, rank: map<int, nat>) {
    forall k :: IsAigKey(gates, table, k) ==>
      RankOf(rank, Id0(gates, table[k].h)) < RankOf(rank, k) && RankOf(rank, Id1(gates, table[k].h)) < RankOf(rank, k)
  }

  /** Every value `traverseWt` stores is 0 or 1: keys are only added, and an
      entry that changed holds 0 or 1. */
  predicate Grows(e0: map<int, int>, e: map<int, int>) {
    && (forall k :: k in e0 ==> k in e)
    && (forall k :: k in e ==> (k in e0 && e[k] == e0[k]) || e[k] == 0 || e[k] == 1)
  }

  /** No known value (0 or 1; a missing key reads 0) was overwritten. */
  ghost predicate Stable(e0: map<int, int>, e: map<int, int>) {
    forall k :: (Get(e0, k) == 0 || Get(e0, k) == 1) ==> Get(e, k) == Get(e0, k)
  }

  ghost predicate SameGets(e0: map<int, int>, e: map<int, int>) {
    forall k :: Get(e, k) == Get(e0, k)
  }

  /** An AND gate that became 1 had no input term known false at the start. */
  ghost predicate Up(gates: seq<GateRec>, table: map<int, Ptr>, e0: map<int, int>, e: map<int, int>) {
    forall k :: IsAigKey(gates, table, k) && Get(e0, k) != 1 && Get(e, k) == 1 ==>
      && !TermFalse(Get(e0, Id0(gates, table[k].h)), gates[table[k].h].inv0)
      && !TermFalse(Get(e0, Id1(gates, table[k].h)), gates[table[k].h].inv1)
  }

  /** An AND gate that became 0 did not have both input terms known true at
      the start. */
  ghost predicate Down(gates: seq<GateRec>, table: map<int, Ptr>, e0: map<int, int>, e: map<int, int>) {
    forall k :: IsAigKey(gates, table, k) && Get(e0, k) != 0 && Get(e, k) == 0 ==>
      !(TermTrue(Get(e0, Id0(gates, table[k].h)), gates[table[k].h].inv0)
        && TermTrue(Get(e0, Id1(gates, table[k].h)), gates[table[k].h].inv1))
  }

  /** What a run from e0 to e guarantees: only 0/1 written and, without a
      conflict, no known value overwritten and no AND gate set against an
      input known at the start. */
  ghost predicate Progress(gates: seq<GateRec>, table: map<int, Ptr>, e0: map<int, int>, e: map<int, int>, c: bool) {
    Grows(e0, e) && (!c ==> Stable(e0, e) && Up(gates, table, e0, e) && Down(gates, table, e0, e))
  }

  /** The backward rules of one `traverseWt` call on the AND gate under wt,
      from the entry map e0 to the final map e with final conflict flag c:
      a 1 output forces both input terms true (and an input already false is
      a conflict); otherwise a true fanin-1 term forces the fanin-0 term
      false, and a true fanin-0 term forces the fanin-1 term false unless the
      output ended 1; with no input term known true, nothing is written. */
  ghost predicate BackRules(gates: seq<GateRec>, table: map<int, Ptr>, wt: int, iswt: bool,
                      e0: map<int, int>, e: map<int, int>, c: bool) {
    IsAigKey(gates, table, wt) ==>
      var h := table[wt].h;
      var a0, a1 := Get(e0, Id0(gates, h)), Get(e0, Id1(gates, h));
      var b0, b1 := Get(e, Id0(gates, h)), Get(e, Id1(gates, h));
      && (Get(e0, wt) == 1 ==> c || (TermTrue(b0, gates[h].inv0) && TermTrue(b1, gates[h].inv1)))
      && (Get(e0, wt) == 1 && (TermFalse(a0, gates[h].inv0) || TermFalse(a1, gates[h].inv1)) ==> c)
      && (Get(e0, wt) != 1 && TermTrue(a1, gates[h].inv1) ==> c || TermFalse(b0, gates[h].inv0))
      && (Get(e0, wt) != 1 && TermTrue(a0, gates[h].inv0) && Get(e, wt) != 1 ==> c || TermFalse(b1, gates[h].inv1))
      && (iswt && Get(e0, wt) != 1 && !TermTrue(a0, gates[h].inv0) && !TermTrue(a1, gates[h].inv1) ==>
            !c && SameGets(e0, e))
  }

  /** Gate f is the gate stored under its own ID. */
  predicate Stored(gates: seq<GateRec>, table: map<int, Ptr>, f: nat) {
    f < |gates| && GetID(gates[f]) in table && table[GetID(gates[f])] == Ref(f)
  }

  /** The forward rule for fanout gate f between ea and eb: a free AND
      fanout becomes 0 when an input term is known false and 1 when both are
      known true. */
  predicate FanoutRule(gates: seq<GateRec>, table: map<int, Ptr>, f: nat, ea: map<int, int>, eb: map<int, int>) {
    Stored(gates, table, f) && gates[f].variant.AigGate? && Get(ea, GetID(gates[f])) == 2 ==>
      var a0, a1 := Get(ea, Id0(gates, f)), Get(ea, Id1(gates, f));
      && (TermFalse(a0, gates[f].inv0) || TermFalse(a1, gates[f].inv1) ==> Get(eb, GetID(gates[f])) == 0)
      && (TermTrue(a0, gates[f].inv0) && TermTrue(a1, gates[f].inv1) ==> Get(eb, GetID(gates[f])) == 1)
  }

  predicate FwdRules(gates: seq<GateRec>, table: map<int, Ptr>, h: nat, ea: map<int, int>, eb: map<int, int>)
    requires h < |gates|
  {
    forall j :: 0 <= j < |gates[h].fanout| ==> FanoutRule(gates, table, gates[h].fanout[j], ea, eb)
  }

  // ----- lemmas about runs -----

  lemma GrowsTrans(e0: map<int, int>, e1: map<int, int>, e2: map<int, int>)
    requires Grows(e0, e1) && Grows(e1, e2)
    ensures Grows(e0, e2)
  {
  }

  /** A run never frees a key, so the free keys only shrink. */
  lemma FreeCard(e0: map<int, int>, e: map<int, int>)
    requires Grows(e0, e)
    ensures FreeSet(e) <= FreeSet(e0) && |FreeSet(e)| <= |FreeSet(e0)|
  {
    forall k | k in FreeSet(e) ensures k in FreeSet(e0) {
      assert k in e && e[k] == 2;
    }
    SubsetCard(FreeSet(e), FreeSet(e0));
  }

  /** A key free at e0 and no longer free at e makes the free set smaller. */
  lemma FreeDrop(e0: map<int, int>, e: map<int, int>, t: int)
    requires Grows(e0, e) && t in e0 && e0[t] == 2 && t in e && e[t] != 2
    ensures |FreeSet(e)| < |FreeSet(e0)|
  {
    FreeCard(e0, e);
    assert t in FreeSet(e0) - FreeSet(e);
    SubsetCard(FreeSet(e), FreeSet(e0) - {t});
  }

  lemma ProgressTrans(gates: seq<GateRec>, table: map<int, Ptr>, e0: map<int, int>, e1: map<int, int>, c1: bool,
                      e2: map<int, int>, c2: bool)
    requires Progress(gates, table, e0, e1, c1) && Progress(gates, table, e1, e2, c2) && (c1 ==> c2)
    ensures Progress(gates, table, e0, e2, c2)
  {
    GrowsTrans(e0, e1, e2);
  }

  /** Reading through `operator[]` inserts 0 for a missing key, which
      changes no value as `Get` reads it. */
  lemma TouchProgress(gates: seq<GateRec>, table: map<int, Ptr>, e: map<int, int>, k: int, c: bool)
    ensures Progress(gates, table, e, Touch(e, k), c) && SameGets(e, Touch(e, k))
  {
  }

  /** Known values survive a write of the same value. */
  lemma WriteKeeps(pre: map<int, int>, x: int, v: int, k: int)
    requires (Get(pre, x) == 0 || Get(pre, x) == 1) ==> Get(pre, x) == v
    requires Get(pre, k) == 0 || Get(pre, k) == 1
    ensures Get(pre[x := v], k) == Get(pre, k)
  {
  }

  /** Writing v (0 or 1) into x and then running `traverseWt` from x is a
      run from the map before the write: the write agrees with any known
      value of x unless the conflict flag c0 was already raised, and the
      call's backward rules at x justify x's new value. */
  lemma WriteThen(gates: seq<GateRec>, table: map<int, Ptr>, rank: map<int, nat>, pre: map<int, int>, x: int, v: int,
                  post: map<int, int>, c0: bool, c: bool)
    requires Circ(gates, table) && IdRanked(gates, table, rank)
    requires v == 0 || v == 1
    requires (Get(pre, x) == 0 || Get(pre, x) == 1) && Get(pre, x) != v ==> c0
    requires c0 ==> c
    requires Progress(gates, table, pre[x := v], post, c)
    requires !c0 ==> BackRules(gates, table, x, false, pre[x := v], post, c)
    ensures Progress(gates, table, pre, post, c)
  {
    var mid := pre[x := v];
    assert Grows(pre, mid);
    GrowsTrans(pre, mid, post);
    if !c {
      forall k | Get(pre, k) == 0 || Get(pre, k) == 1 ensures Get(post, k) == Get(pre, k) {
        WriteKeeps(pre, x, v, k);
      }
      forall k | IsAigKey(gates, table, k) && Get(pre, k) != 1 && Get(post, k) == 1
        ensures !TermFalse(Get(pre, Id0(gates, table[k].h)), gates[table[k].h].inv0)
        ensures !TermFalse(Get(pre, Id1(gates, table[k].h)), gates[table[k].h].inv1)
      {
        var h := table[k].h;
        var i0, i1 := Id0(gates, h), Id1(gates, h);
        if TermFalse(Get(pre, i0), gates[h].inv0) {
          WriteKeeps(pre, x, v, i0);
        }
        if TermFalse(Get(pre, i1), gates[h].inv1) {
          WriteKeeps(pre, x, v, i1);
        }
      }
      forall k | IsAigKey(gates, table, k) && Get(pre, k) != 0 && Get(post, k) == 0
        ensures !(TermTrue(Get(pre, Id0(gates, table[k].h)), gates[table[k].h].inv0)
                  && TermTrue(Get(pre, Id1(gates, table[k].h)), gates[table[k].h].inv1))
      {
        var h := table[k].h;
        var i0, i1 := Id0(gates, h), Id1(gates, h);
        if TermTrue(Get(pre, i0), gates[h].inv0) && TermTrue(Get(pre, i1), gates[h].inv1) {
          WriteKeeps(pre, x, v, i0);
          WriteKeeps(pre, x, v, i1);
        }
      }
    }
  }

  /** The fanin-0 half of the backward step (the first `if` on wt's value):
      with wt at 1 the fanin-0 term is forced true, and a term already
      false stops the call with a conflict before anything is written;
      otherwise, when the fanin-1 term is known true, the fanin-0 term is
      forced false, and a term already true raises the conflict but is
      still overwritten, without stopping. */
  ghost predicate Part0Rules(gates: seq<GateRec>, h: nat, wt: int, e0: map<int, int>, e: map<int, int>, c: bool, stop: bool)
    requires h < |gates|
  {
    var i0, i1 := Id0(gates, h), Id1(gates, h);
    && (stop ==> c && SameGets(e0, e))
    && (Get(e0, wt) == 1 ==> (c || TermTrue(Get(e, i0), gates[h].inv0)) && (stop <==> TermFalse(Get(e0, i0), gates[h].inv0)))
    && (Get(e0, wt) != 1 ==> !stop)
    && (Get(e0, wt) != 1 && TermTrue(Get(e0, i1), gates[h].inv1) ==> c || TermFalse(Get(e, i0), gates[h].inv0))
    && (Get(e0, wt) != 1 && TermTrue(Get(e0, i1), gates[h].inv1) && TermTrue(Get(e0, i0), gates[h].inv0) ==>
          c && TermFalse(Get(e, i0), gates[h].inv0))
    && (Get(e0, wt) != 1 && !TermTrue(Get(e0, i1), gates[h].inv1) ==> !c && SameGets(e0, e))
  }

  /** The fanin-1 half, entered with conflict flag c0: the same with the
      fanins swapped, except that every clash stops the call before
      anything is written. */
  ghost predicate Part1Rules(gates: seq<GateRec>, h: nat, wt: int, e0: map<int, int>, e: map<int, int>, c0: bool, c: bool, stop: bool)
    requires h < |gates|
  {
    var i0, i1 := Id0(gates, h), Id1(gates, h);
    && (stop ==> c && SameGets(e0, e))
    && (Get(e0, wt) == 1 ==> (c || TermTrue(Get(e, i1), gates[h].inv1)) && (stop <==> TermFalse(Get(e0, i1), gates[h].inv1)))
    && (Get(e0, wt) != 1 ==> (stop <==> TermTrue(Get(e0, i0), gates[h].inv0) && TermTrue(Get(e0, i1), gates[h].inv1)))
    && (Get(e0, wt) != 1 && TermTrue(Get(e0, i0), gates[h].inv0) ==> c || TermFalse(Get(e, i1), gates[h].inv1))
    && (Get(e0, wt) != 1 && !TermTrue(Get(e0, i0), gates[h].inv0) ==> c == c0 && SameGets(e0, e))
  }

  /** `traverseWt(wt, excite, iswt, conflict)`. Returns at once when
      `conflict` is set. Otherwise looks wt up in `GateMap` (a missing or
      null entry is dereferenced: `ok` false); for an AND gate applies the
      backward rules to fanin 0 and then fanin 1, recursing into each fanin
      it writes; then, unless `iswt`, applies the forward rules to every
      fanout. Values are read through `operator[]`, so a missing key reads
      (and is stored as) 0. */
  method TraverseWt(gates: seq<GateRec>, table: map<int, Ptr>, wt: int, excite: map<int, int>, iswt: bool, conflict: bool,
                    ghost rank: map<int, nat>)
    returns (e: map<int, int>, c: bool, ok: bool)
    requires Circ(gates, table) && IdRanked(gates, table, rank)
    ensures conflict ==> ok && c && e == excite
    ensures !ok ==> Lookup(table, wt).Null? || MissingId(gates, table)
    ensures Reachable(gates, table, wt) ==> ok
    ensures ok && !conflict && iswt && !IsAigKey(gates, table, wt) ==> e == excite && !c
    ensures ok ==> Progress(gates, table, excite, e, c)
    ensures ok && !conflict ==> BackRules(gates, table, wt, iswt, excite, e, c)
    ensures ok && !conflict && !iswt && !c && wt in table && table[wt].Ref? && table[wt].h < |gates| ==>
              FwdRules(gates, table, table[wt].h, excite, e)
    decreases if conflict then 0 else 1, |FreeSet(excite)|, RankOf(rank, wt), 4
  {
    if conflict {
      return excite, conflict, true;
    }
    var p := Lookup(table, wt);
    if p.Null? {
      ReachableFanouts(gates, table, wt);
      return excite, conflict, false;
    }
    var h := p.h;
    e, c, ok := excite, false, true;
    ghost var e1, c1, e2, c2 := excite, false, excite, false;
    if gates[h].variant.AigGate? {
      var stop;
      e, c, stop, ok := Fanin0Part(gates, table, wt, h, excite, rank);
      if !ok {
        return;
      }
      e1, c1 := e, c;
      if stop {
        return;
      }
      e, c, stop, ok := Fanin1Part(gates, table, wt, h, e, c, rank, excite);
      if !ok {
        return;
      }
      ProgressTrans(gates, table, excite, e1, c1, e, c);
      e2, c2 := e, c;
      if stop {
        return;
      }
    }
    if !iswt {
      GrowsTrans(excite, e2, e);
      e, c, ok := ForwardPass(gates, table, wt, h, e, c, rank, excite);
      if !ok {
        ReachableFanouts(gates, table, wt);
        return;
      }
      ProgressTrans(gates, table, excite, e2, c2, e, c);
      if !c {
        FwdLift(gates, table, h, excite, e2, e);
      }
    }
    if gates[h].variant.AigGate? {
      BackAssemble(gates, table, wt, h, iswt, excite, e1, c1, e2, c2, e, c);
    }
  }

  method Fanin0Part(gates: seq<GateRec>, table: map<int, Ptr>, wt: int, h: nat, excite: map<int, int>, ghost rank: map<int, nat>)
    returns (e: map<int, int>, c: bool, stop: bool, ok: bool)
    requires Circ(gates, table) && IdRanked(gates, table, rank)
    requires wt in table && table[wt] == Ref(h) && h < |gates| && gates[h].variant.AigGate?
    ensures stop ==> c
    ensures !ok ==> MissingId(gates, table)
    ensures Reachable(gates, table, wt) ==> ok
    ensures ok ==> Progress(gates, table, excite, e, c) && Part0Rules(gates, h, wt, excite, e, c, stop)
    decreases 1, |FreeSet(excite)|, RankOf(rank, wt), 3
  {
    var g := gates[h];
    var i0, i1 := GetID(gates[g.fanin0.h]), GetID(gates[g.fanin1.h]);
    assert IsAigKey(gates, table, wt) && i0 == Id0(gates, h) && i1 == Id1(gates, h);
    FaninRanks(gates, table, rank, wt);
    c, stop, ok := false, false, true;
    e := Touch(excite, wt);
    var go, v, halt := true, TrueVal(g.inv0), true;
    if e[wt] != 1 {
      e := Touch(e, i1);
      go, v, halt := TermTrue(e[i1], g.inv1), FalseVal(g.inv0), false;
    }
    if go {
      e := Touch(e, i0);
      ghost var pre := e;
      e, c, stop, ok := Force(gates, table, wt, i0, v, halt, e, false, rank, excite);
      if ok {
        ProgressTrans(gates, table, excite, pre, false, e, c);
      } else {
        IdMissing(gates, table, g.fanin0.h);
        ReachableFanins(gates, table, wt);
      }
    }
  }

  method Fanin1Part(gates: seq<GateRec>, table: map<int, Ptr>, wt: int, h: nat, excite: map<int, int>, conflict: bool,
                    ghost rank: map<int, nat>, ghost e0: map<int, int>)
    returns (e: map<int, int>, c: bool, stop: bool, ok: bool)
    requires Circ(gates, table) && IdRanked(gates, table, rank)
    requires wt in table && table[wt] == Ref(h) && h < |gates| && gates[h].variant.AigGate?
    requires Grows(e0, excite)
    ensures conflict ==> c
    ensures stop ==> c
    ensures !ok ==> MissingId(gates, table)
    ensures Reachable(gates, table, wt) ==> ok
    ensures ok ==> Progress(gates, table, excite, e, c) && Part1Rules(gates, h, wt, excite, e, conflict, c, stop)
    decreases 1, |FreeSet(e0)|, RankOf(rank, wt), 3
  {
    var g := gates[h];
    var i0, i1 := GetID(gates[g.fanin0.h]), GetID(gates[g.fanin1.h]);
    assert IsAigKey(gates, table, wt) && i0 == Id0(gates, h) && i1 == Id1(gates, h);
    FaninRanks(gates, table, rank, wt);
    c, stop, ok := conflict, false, true;
    e := Touch(excite, wt);
    var go, v := true, TrueVal(g.inv1);
    if e[wt] != 1 {
      e := Touch(e, i0);
      go, v := TermTrue(e[i0], g.inv0), FalseVal(g.inv1);
    }
    if go {
      e := Touch(e, i1);
      ghost var pre := e;
      GrowsTrans(e0, excite, e);
      e, c, stop, ok := Force(gates, table, wt, i1, v, true, e, c, rank, e0);
      if ok {
        ProgressTrans(gates, table, excite, pre, conflict, e, c);
      } else {
        IdMissing(gates, table, g.fanin1.h);
        ReachableFanins(gates, table, wt);
      }
    }
  }

  /** One write of `traverseWt` and the call that follows it: when x holds
      the opposite value the conflict flag is raised, and with `halt` the
      call stops there; otherwise x is set to v and `traverseWt` runs from
      x. x is a fanin of wt or a fanout that was free. */
  method Force(gates: seq<GateRec>, table: map<int, Ptr>, wt: int, x: int, v: int, halt: bool, excite: map<int, int>,
               conflict: bool, ghost rank: map<int, nat>, ghost e0: map<int, int>)
    returns (e: map<int, int>, c: bool, stop: bool, ok: bool)
    requires Circ(gates, table) && IdRanked(gates, table, rank)
    requires (v == 0 || v == 1) && x in excite && Grows(e0, excite)
    requires RankOf(rank, x) < RankOf(rank, wt) || (x in e0 && e0[x] == 2)
    ensures conflict ==> c
    ensures excite[x] == 1 - v ==> c
    ensures stop <==> halt && excite[x] == 1 - v
    ensures stop ==> e == excite
    ensures !stop && (conflict || excite[x] == 1 - v) ==> ok && e == excite[x := v]
    ensures !ok ==> Lookup(table, x).Null? || MissingId(gates, table)
    ensures Reachable(gates, table, x) ==> ok
    ensures ok ==> Progress(gates, table, excite, e, c)
    ensures ok && !c ==> Get(e, x) == v
    decreases 1, |FreeSet(e0)|, RankOf(rank, wt), 0
  {
    c, stop, ok := conflict, false, true;
    if excite[x] == 1 - v {
      c := true;
      if halt {
        stop := true;
        e := excite;
        assert Grows(excite, e);
        return;
      }
    }
    e := excite[x := v];
    GrowsTrans(e0, excite, e);
    FreeCard(e0, e);
    if x in e0 && e0[x] == 2 {
      FreeDrop(e0, e, x);
    }
    ghost var c0 := c;
    e, c, ok := TraverseWt(gates, table, x, e, false, c, rank);
    if ok {
      WriteThen(gates, table, rank, excite, x, v, e, c0, c);
    }
  }

  /** The fanout loop of `traverseWt`: every fanout in list order; a
      conflict met there ends the call. */
  method ForwardPass(gates: seq<GateRec>, table: map<int, Ptr>, wt: int, h: nat, excite: map<int, int>, conflict: bool,
                     ghost rank: map<int, nat>, ghost e0: map<int, int>)
    returns (e: map<int, int>, c: bool, ok: bool)
    requires Circ(gates, table) && IdRanked(gates, table, rank) && h < |gates|
    requires Grows(e0, excite)
    ensures conflict ==> c
    ensures !ok ==> MissingId(gates, table)
    ensures FanoutsReachable(gates, table, h) ==> ok
    ensures ok ==> Progress(gates, table, excite, e, c)
    ensures ok && !c ==> FwdRules(gates, table, h, excite, e)
    decreases 1, |FreeSet(e0)|, RankOf(rank, wt), 3
  {
    var fo := gates[h].fanout;
    e, c, ok := excite, conflict, true;
    var i := 0;
    while i < |fo|
      invariant 0 <= i <= |fo| && ok
      invariant conflict ==> c
      invariant Progress(gates, table, excite, e, c) && Grows(e0, e)
      invariant !c ==> forall j :: 0 <= j < i ==> FanoutRule(gates, table, fo[j], excite, e)
    {
      ghost var eb, cb := e, c;
      var stop;
      e, c, stop, ok := ForwardStep(gates, table, wt, fo[i], e, c, rank, e0);
      if !ok {
        return;
      }
      ProgressTrans(gates, table, excite, eb, cb, e, c);
      GrowsTrans(e0, eb, e);
      if !c {
        forall j | 0 <= j < i ensures FanoutRule(gates, table, fo[j], excite, e) {
          FanoutKeep(gates, table, fo[j], excite, eb, e);
        }
        FanoutLift(gates, table, fo[i], excite, eb, cb, e);
      }
      if stop {
        return;
      }
      i := i + 1;
    }
  }

  /** One fanout f of the loop: skipped unless it is a free AND gate. */
  method ForwardStep(gates: seq<GateRec>, table: map<int, Ptr>, wt: int, f: nat, excite: map<int, int>, conflict: bool,
                     ghost rank: map<int, nat>, ghost e0: map<int, int>)
    returns (e: map<int, int>, c: bool, stop: bool, ok: bool)
    requires Circ(gates, table) && IdRanked(gates, table, rank) && f < |gates|
    requires Grows(e0, excite)
    ensures conflict ==> c
    ensures stop ==> c
    ensures !ok ==> MissingId(gates, table)
    ensures (gates[f].variant.AigGate? ==> Reachable(gates, table, GetID(gates[f]))) ==> ok
    ensures ok ==> Progress(gates, table, excite, e, c)
    ensures ok && !c ==> FanoutRule(gates, table, f, excite, e)
    decreases 1, |FreeSet(e0)|, RankOf(rank, wt), 2
  {
    var t := GetID(gates[f]);
    e, c, stop, ok := Touch(excite, t), conflict, false, true;
    TouchProgress(gates, table, excite, t, c);
    if e[t] != 2 || !gates[f].variant.AigGate? {
      return;
    }
    var g := gates[f];
    var i0, i1 := GetID(gates[g.fanin0.h]), GetID(gates[g.fanin1.h]);
    e := Touch(e, i0);
    var down := TermFalse(e[i0], g.inv0);
    if !down {
      e := Touch(e, i1);
      down := TermFalse(e[i1], g.inv1);
    }
    assert Progress(gates, table, excite, e, c) && SameGets(excite, e) && Grows(e0, e);
    ghost var pre := e;
    e, c, stop, ok := ForwardFree(gates, table, wt, f, t, down, e, c, rank, e0);
    if ok {
      ProgressTrans(gates, table, excite, pre, conflict, e, c);
    }
  }

  /** A free AND fanout f with ID t: set to 0 when `down` (an input term is
      false), then to 1 when both input terms are true, each write followed
      by a call from t; a write against the value t already holds is a
      conflict that ends the call. */
  method ForwardFree(gates: seq<GateRec>, table: map<int, Ptr>, wt: int, f: nat, t: int, down: bool,
                     excite: map<int, int>, conflict: bool, ghost rank: map<int, nat>, ghost e0: map<int, int>)
    returns (e: map<int, int>, c: bool, stop: bool, ok: bool)
    requires Circ(gates, table) && IdRanked(gates, table, rank) && f < |gates| && gates[f].variant.AigGate?
    requires t == GetID(gates[f]) && t in excite && excite[t] == 2 && Grows(e0, excite)
    requires down <==> TermFalse(Get(excite, Id0(gates, f)), gates[f].inv0) || TermFalse(Get(excite, Id1(gates, f)), gates[f].inv1)
    ensures conflict ==> c
    ensures stop ==> c
    ensures !ok ==> MissingId(gates, table)
    ensures Reachable(gates, table, t) ==> ok
    ensures ok ==> Progress(gates, table, excite, e, c)
    ensures ok && !c && down ==> Get(e, t) == 0
    ensures ok && !c && TermTrue(Get(excite, Id0(gates, f)), gates[f].inv0) && TermTrue(Get(excite, Id1(gates, f)), gates[f].inv1) ==>
              Get(e, t) == 1
    decreases 1, |FreeSet(e0)|, RankOf(rank, wt), 1
  {
    assert t in e0 && e0[t] == 2;
    var g := gates[f];
    var i0, i1 := GetID(gates[g.fanin0.h]), GetID(gates[g.fanin1.h]);
    e, c, stop, ok := excite, conflict, false, true;
    if down {
      e, c, stop, ok := Force(gates, table, wt, t, 0, true, e, c, rank, e0);
      if !ok {
        IdMissing(gates, table, f);
        return;
      }
      if stop {
        return;
      }
    }
    ghost var eM, cM := e, c;
    GrowsTrans(e0, excite, e);
    e := Touch(e, i0);
    if TermTrue(e[i0], g.inv0) {
      e := Touch(e, i1);
      if TermTrue(e[i1], g.inv1) {
        ghost var pre := e;
        e, c, stop, ok := Force(gates, table, wt, t, 1, true, e, c, rank, e0);
        if ok {
          ProgressTrans(gates, table, eM, pre, cM, e, c);
        } else {
          IdMissing(gates, table, f);
        }
      }
    }
    if ok {
      ProgressTrans(gates, table, excite, eM, cM, e, c);
    }
  }

  /** The fanins of an AND gate stored under a reachable ID are reachable. */
  lemma ReachableFanins(gates: seq<GateRec>, table: map<int, Ptr>, x: int)
    requires IsAigKey(gates, table, x)
    ensures Reachable(gates, table, x) ==>
              Reachable(gates, table, Id0(gates, table[x].h)) && Reachable(gates, table, Id1(gates, table[x].h))
  {
    if Reachable(gates, table, x) {
      var s :| x in s && Closed(gates, table, s);
      assert Closes(gates, table, s, x);
      var h := table[x].h;
      assert Id0(gates, h) in s && Closed(gates, table, s);
      assert Id1(gates, h) in s && Closed(gates, table, s);
    }
  }

  /** A reachable ID is stored, and its AND fanouts are reachable. */
  lemma ReachableFanouts(gates: seq<GateRec>, table: map<int, Ptr>, x: int)
    ensures Reachable(gates, table, x) ==>
              x in table && table[x].Ref? && table[x].h < |gates| && FanoutsReachable(gates, table, table[x].h)
  {
    if Reachable(gates, table, x) {
      var s :| x in s && Closed(gates, table, s);
      assert Closes(gates, table, s, x);
      var h := table[x].h;
      forall j | 0 <= j < |gates[h].fanout| && gates[h].fanout[j] < |gates| && gates[gates[h].fanout[j]].variant.AigGate?
        ensures Reachable(gates, table, GetID(gates[gates[h].fanout[j]]))
      {
        assert GetID(gates[gates[h].fanout[j]]) in s && Closed(gates, table, s);
      }
    }
  }

  /** A small circuit as `readCircuit` leaves it: the constant gate (never
      stored in `GateMap`), inputs 1 and 2, and AND gate 3 over them. */
  function SampleGates(): seq<GateRec> {
    [ MakeConst(),
      MakePi(1, 1).(fanout := [3]),
      MakePi(2, 2).(fanout := [3]),
      MakeAig(1, 2, 3, false, false, 3).(fanin0 := Ref(1), fanin1 := Ref(2)) ]
  }

  function SampleTable(): map<int, Ptr> {
    map[1 := Ref(1), 2 := Ref(2), 3 := Ref(3)]
  }

  /** On that circuit some ID (the constant's) has no entry, yet every run
      from gate 3 is promised to succeed. */
  lemma SampleReachable()
    ensures MissingId(SampleGates(), SampleTable())
    ensures Reachable(SampleGates(), SampleTable(), 3)
  {
    var gates, table := SampleGates(), SampleTable();
    assert Lookup(table, GetID(gates[0])).Null?;
    var s := {1, 2, 3};
    assert Closes(gates, table, s, 1) && Closes(gates, table, s, 2) && Closes(gates, table, s, 3);
    assert Closed(gates, table, s);
  }

  /** The fanins of the AND gate under wt rank below wt. */
  lemma FaninRanks(gates: seq<GateRec>, table: map<int, Ptr>, rank: map<int, nat>, wt: int)
    requires IdRanked(gates, table, rank) && IsAigKey(gates, table, wt)
    ensures RankOf(rank, Id0(gates, table[wt].h)) < RankOf(rank, wt) && RankOf(rank, Id1(gates, table[wt].h)) < RankOf(rank, wt)
  {
  }

  /** A run from gate h's ID that failed met a missing ID. */
  lemma IdMissing(gates: seq<GateRec>, table: map<int, Ptr>, h: nat)
    requires h < |gates| && (Lookup(table, GetID(gates[h])).Null? || MissingId(gates, table))
    ensures MissingId(gates, table)
  {
  }

  /** A fanout rule, once met, survives a later run without conflict. */
  lemma FanoutKeep(gates: seq<GateRec>, table: map<int, Ptr>, f: nat, ea: map<int, int>, e1: map<int, int>, e2: map<int, int>)
    requires FanoutRule(gates, table, f, ea, e1) && Progress(gates, table, e1, e2, false)
    ensures FanoutRule(gates, table, f, ea, e2)
  {
  }

  /** A fanout rule met from e1 holds from any earlier e0 of the same run:
      a fanout free at e0 and set before e1 was set consistently with the
      inputs known at e0. */
  lemma FanoutLift(gates: seq<GateRec>, table: map<int, Ptr>, f: nat, e0: map<int, int>, e1: map<int, int>, c1: bool,
                   e2: map<int, int>)
    requires Progress(gates, table, e0, e1, c1) && !c1 && Progress(gates, table, e1, e2, false)
    requires FanoutRule(gates, table, f, e1, e2)
    ensures FanoutRule(gates, table, f, e0, e2)
  {
    if Stored(gates, table, f) && gates[f].variant.AigGate? && Get(e0, GetID(gates[f])) == 2 {
      var t := GetID(gates[f]);
      assert IsAigKey(gates, table, t);
    }
  }

  lemma FwdLift(gates: seq<GateRec>, table: map<int, Ptr>, h: nat, e0: map<int, int>, e2: map<int, int>, e: map<int, int>)
    requires h < |gates|
    requires Progress(gates, table, e0, e2, false) && Progress(gates, table, e2, e, false)
    requires FwdRules(gates, table, h, e2, e)
    ensures FwdRules(gates, table, h, e0, e)
  {
    forall j | 0 <= j < |gates[h].fanout| ensures FanoutRule(gates, table, gates[h].fanout[j], e0, e) {
      FanoutLift(gates, table, gates[h].fanout[j], e0, e2, false, e);
    }
  }

  /** The two halves of the backward step and the forward loop give the
      backward rules of the whole call. */
  lemma BackAssemble(gates: seq<GateRec>, table: map<int, Ptr>, wt: int, h: nat, iswt: bool,
                     e0: map<int, int>, e1: map<int, int>, c1: bool, e2: map<int, int>, c2: bool, e: map<int, int>, c: bool)
    requires wt in table && table[wt] == Ref(h) && h < |gates| && gates[h].variant.AigGate?
    requires Progress(gates, table, e0, e1, c1) && Progress(gates, table, e1, e2, c2) && Progress(gates, table, e2, e, c)
    requires c1 ==> c2
    requires c2 ==> c
    requires Part0Rules(gates, h, wt, e0, e1, c1, false)
    requires Part1Rules(gates, h, wt, e1, e2, c1, c2, false)
    requires iswt ==> e == e2 && c == c2
    ensures BackRules(gates, table, wt, iswt, e0, e, c)
  {
  }
}
