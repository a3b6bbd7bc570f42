/** The gate heap of the manager as values: `gates` is the arena every
    `CirGate*` points into (a pointer is an arena handle), `table` is
    `GateMap`. This module holds the facts about that pair that `connect`
    and the walks rely on, and the step functions `connect` is proved
    against. */
module Circuit {
  import opened CirGate

  predicate ValidPtr(gates: seq<GateRec>, p: Ptr) {
    p.Null? || p.h < |gates|
  }

  /** Every pointer stored in a gate names a gate of the arena. */
  predicate GateOk(n: nat, g: GateRec) {
    && (g.fanin0.Null? || g.fanin0.h < n)
    && (g.fanin1.Null? || g.fanin1.h < n)
    && (forall j :: 0 <= j < |g.fanout| ==> g.fanout[j] < n)
  }

  predicate ArenaOk(gates: seq<GateRec>) {
    forall h :: 0 <= h < |gates| ==> GateOk(|gates|, gates[h])
  }

  predicate TableOk(gates: seq<GateRec>, table: map<int, Ptr>) {
    forall k :: k in table ==> ValidPtr(gates, table[k])
  }

  /** `GateMap[k]` holds a gate whose ID is k. */
  predicate KeyedById(gates: seq<GateRec>, table: map<int, Ptr>) {
    forall k :: k in table && table[k].Ref? && table[k].h < |gates| ==> GetID(gates[table[k].h]) == k
  }

  /** No gate object sits under two keys. */
  predicate Injective(table: map<int, Ptr>) {
    forall i, j :: i in table && j in table && table[i].Ref? && table[i] == table[j] ==> i == j
  }

  /** `GateMap.find(k)`: the entry, or null when k is absent. */
  function Lookup(table: map<int, Ptr>, k: int): (p: Ptr)
    ensures k !in table ==> p == Null
    ensures k in table ==> p == table[k]
  {
    if k in table then table[k] else Null
  }

  /** `GateMap[k]` used as a value: `operator[]` inserts a null entry for a
      missing key. */
  function Index(table: map<int, Ptr>, k: int): (r: map<int, Ptr>)
    ensures k in r && r[k] == Lookup(table, k)
    ensures forall j :: j in table ==> j in r && r[j] == table[j]
    ensures forall j :: j in r ==> j in table || j == k
  {
    if k in table then table else table[k := Null]
  }

  /** The gates that `connect` wires: outputs and AND gates. */
  predicate IsOwner(g: GateRec) {
    g.variant.PoGate? || g.variant.AigGate?
  }

  /** The state `connect` works on: arena, `GateMap`, `_floatlist`. */
  datatype Wiring = Wiring(gates: seq<GateRec>, table: map<int, Ptr>, floats: seq<int>)

  predicate WiringOk(s: Wiring) {
    ArenaOk(s.gates) && TableOk(s.gates, s.table)
  }

  /** Everything but the fanin pointers, inversion flags and fanout list. */
  predicate SameShape(g: GateRec, g': GateRec) {
    g'.variant == g.variant && g'.symbol == g.symbol && g'.lineNo == g.lineNo && g'.isprint == g.isprint
  }

  /** A new gate without pointers keeps the arena closed. */
  lemma AppendOk(gates: seq<GateRec>, g: GateRec)
    requires ArenaOk(gates) && g.fanin0 == Null && g.fanin1 == Null && g.fanout == []
    ensures ArenaOk(gates + [g])
  {
    var r := gates + [g];
    forall h | 0 <= h < |r| ensures GateOk(|r|, r[h]) {
      if h < |gates| {
        assert GateOk(|gates|, gates[h]);
      }
    }
  }

  /** `owner->setFanin0(p, inv); p->pushFanout(owner)`. */
  function Wire0(gates: seq<GateRec>, o: nat, p: nat, inv: bool): (r: seq<GateRec>)
    requires o < |gates| && p < |gates|
    ensures |r| == |gates|
    ensures ArenaOk(gates) ==> ArenaOk(r)
    ensures forall x :: 0 <= x < |r| ==> SameShape(gates[x], r[x]) && r[x].fanin1 == gates[x].fanin1 && r[x].inv1 == gates[x].inv1
    ensures forall x :: 0 <= x < |r| ==> r[x].fanin0 == (if x == o then Ref(p) else gates[x].fanin0)
    ensures forall x :: 0 <= x < |r| ==> r[x].inv0 == (if x == o then inv else gates[x].inv0)
    ensures forall x :: 0 <= x < |r| ==> r[x].fanout == gates[x].fanout + (if x == p then [o] else [])
  {
    var g1 := gates[o := SetFanin0(gates[o], Ref(p), inv)];
    g1[p := PushFanout(g1[p], o)]
  }

  /** `owner->setFanin1(p, inv); p->pushFanout(owner)`. */
  function Wire1(gates: seq<GateRec>, o: nat, p: nat, inv: bool): (r: seq<GateRec>)
    requires o < |gates| && p < |gates|
    ensures |r| == |gates|
    ensures ArenaOk(gates) ==> ArenaOk(r)
    ensures forall x :: 0 <= x < |r| ==> SameShape(gates[x], r[x]) && r[x].fanin0 == gates[x].fanin0 && r[x].inv0 == gates[x].inv0
    ensures forall x :: 0 <= x < |r| ==> r[x].fanin1 == (if x == o then Ref(p) else gates[x].fanin1)
    ensures forall x :: 0 <= x < |r| ==> r[x].inv1 == (if x == o then inv else gates[x].inv1)
    ensures forall x :: 0 <= x < |r| ==> r[x].fanout == gates[x].fanout + (if x == p then [o] else [])
  {
    var g1 := gates[o := SetFanin1(gates[o], Ref(p), inv)];
    g1[p := PushFanout(g1[p], o)]
  }

  /** Resolving fanin 0 of owner o, declared as (f, inv): ID 0 is `const0`,
      a live `GateMap` entry is reused, anything else gets a new UNDEF
      placeholder that is stored in `GateMap` and listed as floating. */
  function Resolve0(s: Wiring, o: nat, f: int, inv: bool, c0: nat): (r: Wiring)
    requires WiringOk(s) && o < |s.gates| && c0 < |s.gates|
    ensures WiringOk(r) && |s.gates| <= |r.gates| <= |s.gates| + 1
  {
    if f == 0 then s.(gates := Wire0(s.gates, o, c0, inv))
    else if Lookup(s.table, f) == Null then
      var n := |s.gates|;
      AppendOk(s.gates, MakeUndef(f));
      Wiring(Wire0(s.gates + [MakeUndef(f)], o, n, inv), s.table[f := Ref(n)], s.floats + [f])
    else s.(gates := Wire0(s.gates, o, s.table[f].h, inv))
  }

  /** Resolving fanin 1 of AND gate o, declared as (f1, inv), whose fanin 0
      was declared with ID f0. The placeholder is not stored: `GateMap[f1]`
      keeps the null entry the test inserted, and the float-list push
      depends on `GateMap[f0]` (which inserts a null entry when f0 is
      absent). */
  function Resolve1(s: Wiring, o: nat, f1: int, inv: bool, f0: int, c0: nat): (r: Wiring)
    requires WiringOk(s) && o < |s.gates| && c0 < |s.gates|
    ensures WiringOk(r) && |s.gates| <= |r.gates| <= |s.gates| + 1
  {
    if f1 == 0 then s.(gates := Wire1(s.gates, o, c0, inv))
    else if Lookup(s.table, f1) == Null then
      var n := |s.gates|;
      var t := Index(Index(s.table, f1), f0);
      AppendOk(s.gates, MakeUndef(f1));
      Wiring(Wire1(s.gates + [MakeUndef(f1)], o, n, inv), t, if t[f0] != Null then s.floats + [f1] else s.floats)
    else s.(gates := Wire1(s.gates, o, s.table[f1].h, inv))
  }

  /** Where resolving fanin 0 points the owner: at `const0` for ID 0, at
      the live `GateMap` entry, or at a fresh UNDEF placeholder that
      `GateMap` now holds under f and that is listed as floating. */
  lemma Resolve0Target(s: Wiring, o: nat, f: int, inv: bool, c0: nat) returns (r: Wiring)
    requires WiringOk(s) && o < |s.gates| && c0 < |s.gates|
    ensures r == Resolve0(s, o, f, inv, c0)
    ensures r.gates[o].fanin0.Ref? && r.gates[o].inv0 == inv
    ensures f == 0 ==> r.gates[o].fanin0 == Ref(c0) && r.table == s.table && r.floats == s.floats && |r.gates| == |s.gates|
    ensures f != 0 && Lookup(s.table, f) != Null ==>
              r.gates[o].fanin0 == s.table[f] && r.table == s.table && r.floats == s.floats && |r.gates| == |s.gates|
    ensures f != 0 && Lookup(s.table, f) == Null ==>
              && r.gates[o].fanin0 == Ref(|s.gates|) && |r.gates| == |s.gates| + 1
              && r.gates[|s.gates|].variant == UndefGate(f)
              && r.table == s.table[f := Ref(|s.gates|)] && r.floats == s.floats + [f]
  {
    r := Resolve0(s, o, f, inv, c0);
  }

  /** What resolving fanin 0 leaves alone and what it pushes: kinds,
      fanin 1 and every other gate's fanin 0 are kept, a new gate has no
      fanins, and exactly one back-reference to the owner is pushed, onto
      the gate fanin 0 now points at. */
  lemma Resolve0Frame(s: Wiring, o: nat, f: int, inv: bool, c0: nat) returns (r: Wiring)
    requires WiringOk(s) && o < |s.gates| && c0 < |s.gates|
    ensures r == Resolve0(s, o, f, inv, c0)
    ensures |s.gates| <= |r.gates| <= |s.gates| + 1
    ensures r.gates[o].fanin0.Ref? && r.gates[o].fanin0.h < |r.gates|
    ensures forall x :: |s.gates| <= x < |r.gates| ==> r.gates[o].fanin0 == Ref(x) && r.gates[x].fanin0 == Null && r.gates[x].fanin1 == Null
    ensures forall x :: 0 <= x < |s.gates| ==> SameShape(s.gates[x], r.gates[x])
    ensures forall x :: 0 <= x < |s.gates| ==> r.gates[x].fanin1 == s.gates[x].fanin1 && r.gates[x].inv1 == s.gates[x].inv1
    ensures forall x :: 0 <= x < |s.gates| && x != o ==> r.gates[x].fanin0 == s.gates[x].fanin0 && r.gates[x].inv0 == s.gates[x].inv0
    ensures forall x :: 0 <= x < |r.gates| ==>
              r.gates[x].fanout == (if x < |s.gates| then s.gates[x].fanout else []) + (if r.gates[o].fanin0 == Ref(x) then [o] else [])
  {
    if f == 0 || Lookup(s.table, f) != Null {
      r := Resolve0FrameReuse(s, o, f, inv, c0);
    } else {
      r := Resolve0FrameFresh(s, o, f, inv, c0);
    }
  }

  lemma Resolve0FrameReuse(s: Wiring, o: nat, f: int, inv: bool, c0: nat) returns (r: Wiring)
    requires WiringOk(s) && o < |s.gates| && c0 < |s.gates|
    requires f == 0 || Lookup(s.table, f) != Null
    ensures r == Resolve0(s, o, f, inv, c0)
    ensures |r.gates| == |s.gates|
    ensures r.gates[o].fanin0.Ref? && r.gates[o].fanin0.h < |r.gates|
    ensures forall x :: 0 <= x < |s.gates| ==> SameShape(s.gates[x], r.gates[x])
    ensures forall x :: 0 <= x < |s.gates| ==> r.gates[x].fanin1 == s.gates[x].fanin1 && r.gates[x].inv1 == s.gates[x].inv1
    ensures forall x :: 0 <= x < |s.gates| && x != o ==> r.gates[x].fanin0 == s.gates[x].fanin0 && r.gates[x].inv0 == s.gates[x].inv0
    ensures forall x :: 0 <= x < |r.gates| ==>
              r.gates[x].fanout == s.gates[x].fanout + (if r.gates[o].fanin0 == Ref(x) then [o] else [])
  {
    r := Resolve0(s, o, f, inv, c0);
    var p := if f == 0 then c0 else s.table[f].h;
    assert r.gates == Wire0(s.gates, o, p, inv);
  }

  lemma Resolve0FrameFresh(s: Wiring, o: nat, f: int, inv: bool, c0: nat) returns (r: Wiring)
    requires WiringOk(s) && o < |s.gates| && c0 < |s.gates|
    requires f != 0 && Lookup(s.table, f) == Null
    ensures r == Resolve0(s, o, f, inv, c0)
    ensures |s.gates| <= |r.gates| <= |s.gates| + 1
    ensures r.gates[o].fanin0.Ref? && r.gates[o].fanin0.h < |r.gates|
    ensures forall x :: |s.gates| <= x < |r.gates| ==> r.gates[o].fanin0 == Ref(x) && r.gates[x].fanin0 == Null && r.gates[x].fanin1 == Null
    ensures forall x :: 0 <= x < |s.gates| ==> SameShape(s.gates[x], r.gates[x])
    ensures forall x :: 0 <= x < |s.gates| ==> r.gates[x].fanin1 == s.gates[x].fanin1 && r.gates[x].inv1 == s.gates[x].inv1
    ensures forall x :: 0 <= x < |s.gates| && x != o ==> r.gates[x].fanin0 == s.gates[x].fanin0 && r.gates[x].inv0 == s.gates[x].inv0
    ensures forall x :: 0 <= x < |r.gates| ==>
              r.gates[x].fanout == (if x < |s.gates| then s.gates[x].fanout else []) + (if r.gates[o].fanin0 == Ref(x) then [o] else [])
  {
    r := Resolve0(s, o, f, inv, c0);
    var u := s.gates + [MakeUndef(f)];
    assert r.gates == Wire0(u, o, |s.gates|, inv);
    assert forall x :: 0 <= x < |s.gates| ==> u[x] == s.gates[x];
  }



  /** Where resolving fanin 1 points the owner: as for fanin 0, except
      that a fresh placeholder is not stored (the table only gains null
      entries, under f1 and f0) and is listed as floating only when
      `GateMap[f0]` is non-null. */
  lemma Resolve1Target(s: Wiring, o: nat, f1: int, inv: bool, f0: int, c0: nat) returns (r: Wiring)
    requires WiringOk(s) && o < |s.gates| && c0 < |s.gates|
    ensures r == Resolve1(s, o, f1, inv, f0, c0)
    ensures r.gates[o].fanin1.Ref? && r.gates[o].inv1 == inv
    ensures f1 == 0 ==> r.gates[o].fanin1 == Ref(c0) && r.table == s.table && r.floats == s.floats && |r.gates| == |s.gates|
    ensures f1 != 0 && Lookup(s.table, f1) != Null ==>
              r.gates[o].fanin1 == s.table[f1] && r.table == s.table && r.floats == s.floats && |r.gates| == |s.gates|
    ensures f1 != 0 && Lookup(s.table, f1) == Null ==>
              && r.gates[o].fanin1 == Ref(|s.gates|) && |r.gates| == |s.gates| + 1
              && r.gates[|s.gates|].variant == UndefGate(f1)
              && r.table == Index(Index(s.table, f1), f0)
              && r.floats == s.floats + (if r.table[f0] != Null then [f1] else [])
  {
    r := Resolve1(s, o, f1, inv, f0, c0);
  }

  /** What resolving fanin 1 leaves alone and what it pushes. */
  lemma Resolve1Frame(s: Wiring, o: nat, f1: int, inv: bool, f0: int, c0: nat) returns (r: Wiring)
    requires WiringOk(s) && o < |s.gates| && c0 < |s.gates|
    ensures r == Resolve1(s, o, f1, inv, f0, c0)
    ensures |s.gates| <= |r.gates| <= |s.gates| + 1
    ensures r.gates[o].fanin1.Ref? && r.gates[o].fanin1.h < |r.gates|
    ensures forall x :: |s.gates| <= x < |r.gates| ==> r.gates[o].fanin1 == Ref(x) && r.gates[x].fanin0 == Null && r.gates[x].fanin1 == Null
    ensures forall x :: 0 <= x < |s.gates| ==> SameShape(s.gates[x], r.gates[x])
    ensures forall x :: 0 <= x < |s.gates| ==> r.gates[x].fanin0 == s.gates[x].fanin0 && r.gates[x].inv0 == s.gates[x].inv0
    ensures forall x :: 0 <= x < |s.gates| && x != o ==> r.gates[x].fanin1 == s.gates[x].fanin1 && r.gates[x].inv1 == s.gates[x].inv1
    ensures forall x :: 0 <= x < |r.gates| ==>
              r.gates[x].fanout == (if x < |s.gates| then s.gates[x].fanout else []) + (if r.gates[o].fanin1 == Ref(x) then [o] else [])
  {
    if f1 == 0 || Lookup(s.table, f1) != Null {
      r := Resolve1FrameReuse(s, o, f1, inv, f0, c0);
    } else {
      r := Resolve1FrameFresh(s, o, f1, inv, f0, c0);
    }
  }

  lemma Resolve1FrameReuse(s: Wiring, o: nat, f1: int, inv: bool, f0: int, c0: nat) returns (r: Wiring)
    requires WiringOk(s) && o < |s.gates| && c0 < |s.gates|
    requires f1 == 0 || Lookup(s.table, f1) != Null
    ensures r == Resolve1(s, o, f1, inv, f0, c0)
    ensures |r.gates| == |s.gates|
    ensures r.gates[o].fanin1.Ref? && r.gates[o].fanin1.h < |r.gates|
    ensures forall x :: 0 <= x < |s.gates| ==> SameShape(s.gates[x], r.gates[x])
    ensures forall x :: 0 <= x < |s.gates| ==> r.gates[x].fanin0 == s.gates[x].fanin0 && r.gates[x].inv0 == s.gates[x].inv0
    ensures forall x :: 0 <= x < |s.gates| && x != o ==> r.gates[x].fanin1 == s.gates[x].fanin1 && r.gates[x].inv1 == s.gates[x].inv1
    ensures forall x :: 0 <= x < |r.gates| ==>
              r.gates[x].fanout == s.gates[x].fanout + (if r.gates[o].fanin1 == Ref(x) then [o] else [])
  {
    r := Resolve1(s, o, f1, inv, f0, c0);
    var p := if f1 == 0 then c0 else s.table[f1].h;
    assert r.gates == Wire1(s.gates, o, p, inv);
  }

  lemma Resolve1FrameFresh(s: Wiring, o: nat, f1: int, inv: bool, f0: int, c0: nat) returns (r: Wiring)
    requires WiringOk(s) && o < |s.gates| && c0 < |s.gates|
    requires f1 != 0 && Lookup(s.table, f1) == Null
    ensures r == Resolve1(s, o, f1, inv, f0, c0)
    ensures |s.gates| <= |r.gates| <= |s.gates| + 1
    ensures r.gates[o].fanin1.Ref? && r.gates[o].fanin1.h < |r.gates|
    ensures forall x :: |s.gates| <= x < |r.gates| ==> r.gates[o].fanin1 == Ref(x) && r.gates[x].fanin0 == Null && r.gates[x].fanin1 == Null
    ensures forall x :: 0 <= x < |s.gates| ==> SameShape(s.gates[x], r.gates[x])
    ensures forall x :: 0 <= x < |s.gates| ==> r.gates[x].fanin0 == s.gates[x].fanin0 && r.gates[x].inv0 == s.gates[x].inv0
    ensures forall x :: 0 <= x < |s.gates| && x != o ==> r.gates[x].fanin1 == s.gates[x].fanin1 && r.gates[x].inv1 == s.gates[x].inv1
    ensures forall x :: 0 <= x < |r.gates| ==>
              r.gates[x].fanout == (if x < |s.gates| then s.gates[x].fanout else []) + (if r.gates[o].fanin1 == Ref(x) then [o] else [])
  {
    r := Resolve1(s, o, f1, inv, f0, c0);
    var u := s.gates + [MakeUndef(f1)];
    assert r.gates == Wire1(u, o, |s.gates|, inv);
    assert forall x :: 0 <= x < |s.gates| ==> u[x] == s.gates[x];
  }

}
