/** One pass of `connect`: the per-gate step and the facts the pass keeps,
    stated against the state `s0` it started from. */
module Connect {
  import opened CirGate
  import opened Circuit

  /** The work `connect` does for the gate at handle o: outputs resolve
      fanin 0, AND gates resolve fanin 0 and then fanin 1; inputs, UNDEF
      placeholders and the constant are left alone. */
  function ConnectGate(s: Wiring, o: nat, c0: nat): (r: Wiring)
    requires WiringOk(s) && o < |s.gates| && c0 < |s.gates|
    ensures WiringOk(r) && |s.gates| <= |r.gates| <= |s.gates| + 2
  {
    var g := s.gates[o];
    if g.variant.PoGate? then Resolve0(s, o, GetPair0(g).0, GetPair0(g).1, c0)
    else if g.variant.AigGate? then
      var s1 := Resolve0(s, o, GetPair0(g).0, GetPair0(g).1, c0);
      Resolve1(s1, o, GetPair1(g).0, GetPair1(g).1, GetPair0(g).0, c0)
    else s
  }

  /** Every ID `connect` can put into `GateMap`: the keys it starts with and
      the fanin IDs the gates were declared with. */
  function Universe(s0: Wiring): set<int> {
    s0.table.Keys
      + (set x | 0 <= x < |s0.gates| :: GetPair0(s0.gates[x]).0)
      + (set x | 0 <= x < |s0.gates| :: GetPair1(s0.gates[x]).0)
  }

  /** What `connect` keeps while it runs, relative to the state s0 it
      started from: pointers stay inside the arena, old gates keep their
      kind, new gates are UNDEF placeholders, non-null entries are never
      replaced, a non-null entry is either an old one or a placeholder
      carrying its key as ID, and keys come only from the universe. */
  predicate Kept(s0: Wiring, s: Wiring) {
    && WiringOk(s0) && WiringOk(s) && |s0.gates| <= |s.gates|
    && (forall x :: 0 <= x < |s0.gates| ==> SameShape(s0.gates[x], s.gates[x]))
    && (forall x :: |s0.gates| <= x < |s.gates| ==> s.gates[x].variant.UndefGate?)
    && (forall k :: k in s0.table && s0.table[k].Ref? ==> k in s.table && s.table[k] == s0.table[k])
    && (forall k :: k in s.table && s.table[k].Ref? ==>
          if s.table[k].h < |s0.gates| then k in s0.table && s0.table[k] == s.table[k]
          else s.gates[s.table[k].h].variant == UndefGate(k))
    && s.table.Keys <= Universe(s0)
  }

  /** Where a fanin declared with ID f ends: `const0` for ID 0, the gate
      `GateMap` held under f when `connect` started, or else a placeholder
      created by this pass that carries ID f. */
  predicate Resolved(s0: Wiring, gates: seq<GateRec>, p: Ptr, f: int, c0: nat) {
    if f == 0 then p == Ref(c0)
    else if Lookup(s0.table, f) != Null then p == Lookup(s0.table, f)
    else p.Ref? && |s0.gates| <= p.h < |gates| && gates[p.h].variant == UndefGate(f)
  }

  /** Owner o has every declared fanin resolved, with the declared
      inversion flag. */
  predicate Wired(s0: Wiring, gates: seq<GateRec>, o: nat, c0: nat) {
    && o < |gates|
    && Resolved(s0, gates, gates[o].fanin0, GetPair0(gates[o]).0, c0)
    && gates[o].inv0 == GetPair0(gates[o]).1
    && (gates[o].variant.AigGate? ==>
          && Resolved(s0, gates, gates[o].fanin1, GetPair1(gates[o]).0, c0)
          && gates[o].inv1 == GetPair1(gates[o]).1)
  }

  /** A resolution stays valid while the arena only grows and keeps kinds. */
  lemma ResolvedGrows(s0: Wiring, g: seq<GateRec>, g': seq<GateRec>, p: Ptr, f: int, c0: nat)
    requires Resolved(s0, g, p, f, c0)
    requires |g| <= |g'| && forall x :: 0 <= x < |g| ==> g'[x].variant == g[x].variant
    ensures Resolved(s0, g', p, f, c0)
  {
  }

  lemma Resolve0Keeps(s0: Wiring, s: Wiring, o: nat, f: int, inv: bool, c0: nat) returns (r: Wiring)
    requires Kept(s0, s) && o < |s0.gates| && c0 < |s0.gates| && f in Universe(s0)
    ensures r == Resolve0(s, o, f, inv, c0) && Kept(s0, r)
    ensures Resolved(s0, r.gates, r.gates[o].fanin0, f, c0) && r.gates[o].inv0 == inv
  {
    if f == 0 || Lookup(s.table, f) != Null {
      r := Resolve0Reuse(s0, s, o, f, inv, c0);
    } else {
      r := Resolve0Fresh(s0, s, o, f, inv, c0);
    }
  }

  /** Resolving to `const0` or to a live entry: only the arena changes. */
  lemma Resolve0Reuse(s0: Wiring, s: Wiring, o: nat, f: int, inv: bool, c0: nat) returns (r: Wiring)
    requires Kept(s0, s) && o < |s0.gates| && c0 < |s0.gates|
    requires f == 0 || Lookup(s.table, f) != Null
    ensures r == Resolve0(s, o, f, inv, c0) && Kept(s0, r)
    ensures Resolved(s0, r.gates, r.gates[o].fanin0, f, c0) && r.gates[o].inv0 == inv
  {
    r := Resolve0Target(s, o, f, inv, c0);
    var r' := Resolve0Frame(s, o, f, inv, c0);
    KeptArena(s0, s, r);
    if f != 0 {
      var h := s.table[f].h;
      if h >= |s0.gates| && Lookup(s0.table, f) != Null {
        assert false;
      }
    }
  }

  /** A step that changes only pointers and fanout lists keeps `Kept`. */
  lemma KeptArena(s0: Wiring, s: Wiring, r: Wiring)
    requires Kept(s0, s) && WiringOk(r) && r.table == s.table && |r.gates| == |s.gates|
    requires forall x :: 0 <= x < |s.gates| ==> SameShape(s.gates[x], r.gates[x])
    ensures Kept(s0, r)
  {
  }

  /** Resolving to a fresh placeholder stored under f. */
  lemma Resolve0Fresh(s0: Wiring, s: Wiring, o: nat, f: int, inv: bool, c0: nat) returns (r: Wiring)
    requires Kept(s0, s) && o < |s0.gates| && c0 < |s0.gates| && f in Universe(s0)
    requires f != 0 && Lookup(s.table, f) == Null
    ensures r == Resolve0(s, o, f, inv, c0) && Kept(s0, r)
    ensures Resolved(s0, r.gates, r.gates[o].fanin0, f, c0) && r.gates[o].inv0 == inv
  {
    r := Resolve0Target(s, o, f, inv, c0);
    var r' := Resolve0Frame(s, o, f, inv, c0);
    assert forall k :: k in s0.table && s0.table[k].Ref? ==> k != f;
  }

  lemma Resolve1Keeps(s0: Wiring, s: Wiring, o: nat, f1: int, inv: bool, f0: int, c0: nat) returns (r: Wiring)
    requires Kept(s0, s) && o < |s0.gates| && c0 < |s0.gates| && f1 in Universe(s0) && f0 in Universe(s0)
    ensures r == Resolve1(s, o, f1, inv, f0, c0) && Kept(s0, r)
    ensures Resolved(s0, r.gates, r.gates[o].fanin1, f1, c0) && r.gates[o].inv1 == inv
    ensures r.gates[o].fanin0 == s.gates[o].fanin0 && r.gates[o].inv0 == s.gates[o].inv0
    ensures |s.gates| <= |r.gates| && forall x :: 0 <= x < |s.gates| ==> r.gates[x].variant == s.gates[x].variant
  {
    var r' := Resolve1Frame(s, o, f1, inv, f0, c0);
    if f1 == 0 || Lookup(s.table, f1) != Null {
      r := Resolve1Target(s, o, f1, inv, f0, c0);
      var r' := Resolve1Frame(s, o, f1, inv, f0, c0);
      KeptArena(s0, s, r);
      if f1 != 0 {
        var h := s.table[f1].h;
        if h >= |s0.gates| && Lookup(s0.table, f1) != Null {
          assert false;
        }
      }
    } else {
      r := Resolve1Fresh(s0, s, o, f1, inv, f0, c0);
    }
  }

  /** A fresh fanin-1 placeholder: the table only gains null entries. */
  /** The entries `operator[]` inserts for fanin 1 and fanin 0 are null:
      every non-null entry is an old one, and every key comes from the
      IDs `connect` may meet. */
  lemma NullsOnly(s0: Wiring, s: Wiring, t: map<int, Ptr>, f1: int, f0: int)
    requires Kept(s0, s) && f1 in Universe(s0) && f0 in Universe(s0)
    requires t == Index(Index(s.table, f1), f0)
    ensures forall k :: k in t && t[k].Ref? ==> k in s.table && t[k] == s.table[k]
    ensures forall k :: k in s.table ==> k in t && t[k] == s.table[k]
    ensures t.Keys <= Universe(s0)
  {
  }

  lemma Resolve1Fresh(s0: Wiring, s: Wiring, o: nat, f1: int, inv: bool, f0: int, c0: nat) returns (r: Wiring)
    requires Kept(s0, s) && o < |s0.gates| && c0 < |s0.gates| && f1 in Universe(s0) && f0 in Universe(s0)
    requires f1 != 0 && Lookup(s.table, f1) == Null
    ensures r == Resolve1(s, o, f1, inv, f0, c0) && Kept(s0, r)
    ensures Resolved(s0, r.gates, r.gates[o].fanin1, f1, c0) && r.gates[o].inv1 == inv
  {
    r := Resolve1Target(s, o, f1, inv, f0, c0);
    var r' := Resolve1Frame(s, o, f1, inv, f0, c0);
    NullsOnly(s0, s, r.table, f1, f0);
    assert forall k :: k in s0.table && s0.table[k].Ref? ==> k != f1;
  }

  /** The back-references to owner o (whose record is g) that gate t holds
      once o is wired: one per fanin of o that points at t. */
  function EdgesTo(g: GateRec, o: nat, t: nat): seq<nat> {
    (if IsOwner(g) && g.fanin0 == Ref(t) then [o] else [])
      + (if g.variant.AigGate? && g.fanin1 == Ref(t) then [o] else [])
  }

  /** `connect` on one gate: a non-owner is left alone; for an owner, the
      kinds of all gates and the pointers of every other gate are kept,
      and each gate's fanout list gains exactly the back-references to o
      that o's new fanins call for, appended in fanin order. */
  lemma ConnectGateEffect(s: Wiring, o: nat, c0: nat) returns (r: Wiring)
    requires WiringOk(s) && o < |s.gates| && c0 < |s.gates|
    ensures r == ConnectGate(s, o, c0)
    ensures !IsOwner(s.gates[o]) ==> r == s
    ensures forall x :: 0 <= x < |s.gates| ==> SameShape(s.gates[x], r.gates[x])
    ensures forall x :: 0 <= x < |s.gates| && x != o ==>
              r.gates[x].fanin0 == s.gates[x].fanin0 && r.gates[x].inv0 == s.gates[x].inv0 &&
              r.gates[x].fanin1 == s.gates[x].fanin1 && r.gates[x].inv1 == s.gates[x].inv1
    ensures forall t :: 0 <= t < |r.gates| ==>
              r.gates[t].fanout == (if t < |s.gates| then s.gates[t].fanout else []) + EdgesTo(r.gates[o], o, t)
  {
    var g := s.gates[o];
    if g.variant.PoGate? {
      r := ConnectPoEffect(s, o, c0);
    } else if g.variant.AigGate? {
      r := ConnectAigEffect(s, o, c0);
    } else {
      r := s;
    }
  }

  lemma ConnectPoEffect(s: Wiring, o: nat, c0: nat) returns (r: Wiring)
    requires WiringOk(s) && o < |s.gates| && c0 < |s.gates| && s.gates[o].variant.PoGate?
    ensures r == ConnectGate(s, o, c0)
    ensures forall x :: 0 <= x < |s.gates| ==> SameShape(s.gates[x], r.gates[x])
    ensures forall x :: 0 <= x < |s.gates| && x != o ==>
              r.gates[x].fanin0 == s.gates[x].fanin0 && r.gates[x].inv0 == s.gates[x].inv0 &&
              r.gates[x].fanin1 == s.gates[x].fanin1 && r.gates[x].inv1 == s.gates[x].inv1
    ensures forall t :: 0 <= t < |r.gates| ==>
              r.gates[t].fanout == (if t < |s.gates| then s.gates[t].fanout else []) + EdgesTo(r.gates[o], o, t)
  {
    var g := s.gates[o];
    r := Resolve0Frame(s, o, GetPair0(g).0, GetPair0(g).1, c0);
    assert forall t :: EdgesTo(r.gates[o], o, t) == (if r.gates[o].fanin0 == Ref(t) then [o] else []);
  }

  lemma ConnectAigEffect(s: Wiring, o: nat, c0: nat) returns (r: Wiring)
    requires WiringOk(s) && o < |s.gates| && c0 < |s.gates| && s.gates[o].variant.AigGate?
    ensures r == ConnectGate(s, o, c0)
    ensures forall x :: 0 <= x < |s.gates| ==> SameShape(s.gates[x], r.gates[x])
    ensures forall x :: 0 <= x < |s.gates| && x != o ==>
              r.gates[x].fanin0 == s.gates[x].fanin0 && r.gates[x].inv0 == s.gates[x].inv0 &&
              r.gates[x].fanin1 == s.gates[x].fanin1 && r.gates[x].inv1 == s.gates[x].inv1
    ensures forall t :: 0 <= t < |r.gates| ==>
              r.gates[t].fanout == (if t < |s.gates| then s.gates[t].fanout else []) + EdgesTo(r.gates[o], o, t)
  {
    var g := s.gates[o];
    var s1 := Resolve0Frame(s, o, GetPair0(g).0, GetPair0(g).1, c0);
    r := Resolve1Frame(s1, o, GetPair1(g).0, GetPair1(g).1, GetPair0(g).0, c0);
    assert SameShape(s1.gates[o], r.gates[o]) && SameShape(g, s1.gates[o]);
    AigFanouts(s, s1, r, o);
    forall x | 0 <= x < |s.gates|
      ensures SameShape(s.gates[x], r.gates[x])
    {
      assert SameShape(s.gates[x], s1.gates[x]) && SameShape(s1.gates[x], r.gates[x]);
    }
  }

  /** The two pushes of an AND gate, fanin 0's first. */
  lemma AigFanouts(s: Wiring, s1: Wiring, r: Wiring, o: nat)
    requires o < |s.gates| && |s.gates| <= |s1.gates| <= |r.gates|
    requires r.gates[o].variant.AigGate? && r.gates[o].fanin0 == s1.gates[o].fanin0
    requires forall x :: 0 <= x < |s1.gates| ==>
               s1.gates[x].fanout == (if x < |s.gates| then s.gates[x].fanout else []) + (if s1.gates[o].fanin0 == Ref(x) then [o] else [])
    requires forall x :: 0 <= x < |r.gates| ==>
               r.gates[x].fanout == (if x < |s1.gates| then s1.gates[x].fanout else []) + (if r.gates[o].fanin1 == Ref(x) then [o] else [])
    requires forall x :: |s.gates| <= x < |s1.gates| ==> s1.gates[o].fanin0 == Ref(x)
    requires s1.gates[o].fanin0.Ref? && s1.gates[o].fanin0.h < |s1.gates|
    ensures forall t :: 0 <= t < |r.gates| ==>
              r.gates[t].fanout == (if t < |s.gates| then s.gates[t].fanout else []) + EdgesTo(r.gates[o], o, t)
  {
    forall t | 0 <= t < |r.gates|
      ensures r.gates[t].fanout == (if t < |s.gates| then s.gates[t].fanout else []) + EdgesTo(r.gates[o], o, t)
    {
      var a := if t < |s.gates| then s.gates[t].fanout else [];
      var e0: seq<nat> := if r.gates[o].fanin0 == Ref(t) then [o] else [];
      var e1: seq<nat> := if r.gates[o].fanin1 == Ref(t) then [o] else [];
      assert EdgesTo(r.gates[o], o, t) == e0 + e1;
      if t < |s1.gates| {
        assert r.gates[t].fanout == (a + e0) + e1;
      } else {
        assert e0 == [];
      }
    }
  }

  /** `connect` on one old gate keeps `Kept`, and an owner comes out with
      every declared fanin resolved. */
  lemma ConnectGateKeeps(s0: Wiring, s: Wiring, o: nat, c0: nat) returns (r: Wiring)
    requires Kept(s0, s) && o < |s0.gates| && c0 < |s0.gates|
    ensures r == ConnectGate(s, o, c0) && Kept(s0, r)
    ensures IsOwner(s.gates[o]) ==> Wired(s0, r.gates, o, c0)
  {
    var g := s.gates[o];
    if g.variant.PoGate? {
      r := ConnectPoKeeps(s0, s, o, c0);
    } else if g.variant.AigGate? {
      r := ConnectAigKeeps(s0, s, o, c0);
    } else {
      r := s;
    }
  }

  /** The declared fanin IDs of an old gate are in the universe. */
  lemma PairsInUniverse(s0: Wiring, s: Wiring, o: nat)
    requires Kept(s0, s) && o < |s0.gates|
    ensures GetPair0(s.gates[o]).0 in Universe(s0) && GetPair1(s.gates[o]).0 in Universe(s0)
  {
    assert SameShape(s0.gates[o], s.gates[o]);
    assert GetPair0(s.gates[o]) == GetPair0(s0.gates[o]);
    assert GetPair1(s.gates[o]) == GetPair1(s0.gates[o]);
  }

  lemma ConnectPoKeeps(s0: Wiring, s: Wiring, o: nat, c0: nat) returns (r: Wiring)
    requires Kept(s0, s) && o < |s0.gates| && c0 < |s0.gates| && s.gates[o].variant.PoGate?
    ensures r == ConnectGate(s, o, c0) && Kept(s0, r)
    ensures Wired(s0, r.gates, o, c0)
  {
    var g := s.gates[o];
    PairsInUniverse(s0, s, o);
    r := Resolve0Keeps(s0, s, o, GetPair0(g).0, GetPair0(g).1, c0);
    assert SameShape(s0.gates[o], r.gates[o]) && SameShape(s0.gates[o], g);
  }

  lemma ConnectAigKeeps(s0: Wiring, s: Wiring, o: nat, c0: nat) returns (r: Wiring)
    requires Kept(s0, s) && o < |s0.gates| && c0 < |s0.gates| && s.gates[o].variant.AigGate?
    ensures r == ConnectGate(s, o, c0) && Kept(s0, r)
    ensures Wired(s0, r.gates, o, c0)
  {
    var g := s.gates[o];
    PairsInUniverse(s0, s, o);
    var s1 := Resolve0Keeps(s0, s, o, GetPair0(g).0, GetPair0(g).1, c0);
    assert SameShape(s0.gates[o], g) && SameShape(s0.gates[o], s1.gates[o]);
    r := Resolve1Keeps(s0, s1, o, GetPair1(g).0, GetPair1(g).1, GetPair0(g).0, c0);
    ResolvedGrows(s0, s1.gates, r.gates, r.gates[o].fanin0, GetPair0(g).0, c0);
    assert r.gates[o].variant == g.variant;
    assert GetPair0(r.gates[o]) == GetPair0(g) && GetPair1(r.gates[o]) == GetPair1(g);
  }

  /** The fanout list gate t had before `connect`. */
  function Base(g0: seq<GateRec>, t: nat): seq<nat> {
    if t < |g0| then g0[t].fanout else []
  }

  /** The back-references to t that wiring `owners`, in that order, pushes. */
  function Pushes(gates: seq<GateRec>, owners: seq<nat>, t: nat): seq<nat>
    decreases |owners|
  {
    if owners == [] then []
    else
      var n := |owners| - 1;
      Pushes(gates, owners[..n], t) + (if owners[n] < |gates| then EdgesTo(gates[owners[n]], owners[n], t) else [])
  }

  /** `Pushes` reads only the owners' kinds and fanins. */
  lemma {:induction false} PushesFrame(g: seq<GateRec>, g': seq<GateRec>, owners: seq<nat>, t: nat)
    requires forall i :: 0 <= i < |owners| ==> owners[i] < |g| && owners[i] < |g'|
    requires forall i :: 0 <= i < |owners| ==>
               g'[owners[i]].variant == g[owners[i]].variant &&
               g'[owners[i]].fanin0 == g[owners[i]].fanin0 && g'[owners[i]].fanin1 == g[owners[i]].fanin1
    ensures Pushes(g', owners, t) == Pushes(g, owners, t)
    decreases |owners|
  {
    if owners != [] {
      PushesFrame(g, g', owners[..|owners| - 1], t);
    }
  }

  /** No owner points at t, so nothing was pushed onto it. */
  lemma {:induction false} PushesNone(g: seq<GateRec>, owners: seq<nat>, t: nat)
    requires forall i :: 0 <= i < |owners| ==> owners[i] < |g|
    requires forall i :: 0 <= i < |owners| ==> g[owners[i]].fanin0 != Ref(t) && g[owners[i]].fanin1 != Ref(t)
    ensures Pushes(g, owners, t) == []
    decreases |owners|
  {
    if owners != [] {
      PushesNone(g, owners[..|owners| - 1], t);
    }
  }

  /** A resolved owner stays resolved while the arena grows, kinds are
      kept and its own pointers and flags do not change. */
  lemma WiredGrows(s0: Wiring, g: seq<GateRec>, g': seq<GateRec>, o: nat, c0: nat)
    requires Wired(s0, g, o, c0)
    requires |g| <= |g'| && forall x :: 0 <= x < |g| ==> g'[x].variant == g[x].variant
    requires g'[o].fanin0 == g[o].fanin0 && g'[o].inv0 == g[o].inv0
    requires g'[o].fanin1 == g[o].fanin1 && g'[o].inv1 == g[o].inv1
    ensures Wired(s0, g', o, c0)
  {
    ResolvedGrows(s0, g, g', g[o].fanin0, GetPair0(g[o]).0, c0);
    if g[o].variant.AigGate? {
      ResolvedGrows(s0, g, g', g[o].fanin1, GetPair1(g[o]).0, c0);
    }
  }

  /** The invariant of the `connect` loop after the iterator has visited
      every key up to k: `owners` are the outputs and AND gates met so far,
      in visiting order, found under the strictly increasing keys `okeys`;
      each is wired; every other old gate keeps its pointers; every fanout
      list is its old contents followed by the pushes of the owners; and
      every old owner entry at or below k has been met. */
  predicate ConnectInv(s0: Wiring, s: Wiring, owners: seq<nat>, okeys: seq<int>, k: int, c0: nat) {
    && Kept(s0, s) && c0 < |s0.gates|
    && |okeys| == |owners|
    && (forall i :: 0 <= i < |owners| ==>
          && okeys[i] <= k && okeys[i] in s0.table && s0.table[okeys[i]] == Ref(owners[i])
          && owners[i] < |s0.gates| && IsOwner(s0.gates[owners[i]]))
    && (forall i, j :: 0 <= i < j < |okeys| ==> okeys[i] < okeys[j])
    && (forall i :: 0 <= i < |owners| ==> Wired(s0, s.gates, owners[i], c0))
    && (forall x :: 0 <= x < |s0.gates| && x !in owners ==>
          && s.gates[x].fanin0 == s0.gates[x].fanin0 && s.gates[x].inv0 == s0.gates[x].inv0
          && s.gates[x].fanin1 == s0.gates[x].fanin1 && s.gates[x].inv1 == s0.gates[x].inv1)
    && (forall t :: 0 <= t < |s.gates| ==> s.gates[t].fanout == Base(s0.gates, t) + Pushes(s.gates, owners, t))
    && (forall k' :: k' in s0.table && k' <= k && s0.table[k'].Ref? && IsOwner(s0.gates[s0.table[k'].h]) ==>
          s0.table[k'].h in owners)
  }

  /** The iterator's next key after k: the least key above k. */
  predicate NextKey(s: Wiring, k: int, m: int) {
    m in s.table && k < m && forall x :: x in s.table && k < x ==> m <= x
  }

  /** The least of the keys above k is the next key. */
  lemma MinAbove(s: Wiring, k: int, above: set<int>, m: int)
    requires above == set x | x in s.table.Keys && x > k
    requires m in above && forall x :: x in above ==> m <= x
    ensures NextKey(s, k, m)
  {
    forall x | x in s.table && k < x ensures m <= x {
      assert x in above;
    }
  }

  /** No key above k is left: the iteration is over. */
  lemma NoneAbove(s: Wiring, k: int, above: set<int>)
    requires above == set x | x in s.table.Keys && x > k
    requires above == {}
    ensures forall x :: x in s.table ==> x <= k
  {
    forall x | x in s.table ensures x <= k {
      assert x > k ==> x in above;
    }
  }

  /** One iteration of the `connect` loop, at the next key m, whose entry is
      not null. */
  lemma ConnectStep(s0: Wiring, s: Wiring, owners: seq<nat>, okeys: seq<int>, k: int, m: int, c0: nat)
      returns (r: Wiring, owners': seq<nat>, okeys': seq<int>)
    requires ConnectInv(s0, s, owners, okeys, k, c0) && Injective(s0.table)
    requires NextKey(s, k, m) && s.table[m].Ref?
    ensures s.table[m].h < |s.gates| && c0 < |s.gates|
    ensures r == ConnectGate(s, s.table[m].h, c0)
    ensures ConnectInv(s0, r, owners', okeys', m, c0)
  {
    var o := s.table[m].h;
    if IsOwner(s.gates[o]) {
      r := StepOwner(s0, s, owners, okeys, k, m, c0);
      owners', okeys' := owners + [o], okeys + [m];
    } else {
      r, owners', okeys' := s, owners, okeys;
      StepSkip(s0, s, owners, okeys, k, m, c0);
    }
  }

  /** The iterator is at key m, the next key after k, whose entry is an
      output or AND gate. */
  predicate AtOwner(s0: Wiring, s: Wiring, owners: seq<nat>, okeys: seq<int>, k: int, m: int, c0: nat) {
    && ConnectInv(s0, s, owners, okeys, k, c0) && Injective(s0.table)
    && NextKey(s, k, m) && s.table[m].Ref? && IsOwner(s.gates[s.table[m].h])
  }

  /** Meeting an owner: it is wired and joins `owners`. */
  lemma StepOwner(s0: Wiring, s: Wiring, owners: seq<nat>, okeys: seq<int>, k: int, m: int, c0: nat) returns (r: Wiring)
    requires AtOwner(s0, s, owners, okeys, k, m, c0)
    ensures s.table[m].h < |s.gates| && c0 < |s.gates|
    ensures r == ConnectGate(s, s.table[m].h, c0)
    ensures ConnectInv(s0, r, owners + [s.table[m].h], okeys + [m], m, c0)
  {
    var o := s.table[m].h;
    r := ConnectGateKeeps(s0, s, o, c0);
    OwnerWired(s0, s, owners, okeys, k, m, c0);
    OwnerFrame(s0, s, owners, okeys, k, m, c0);
    OwnerFanout(s0, s, owners, okeys, k, m, c0);
    OwnerFacts(s0, s, owners, okeys, k, m, c0);
    StepKeys(s0, s, owners, okeys, k, m, c0);
  }

  lemma OwnerWired(s0: Wiring, s: Wiring, owners: seq<nat>, okeys: seq<int>, k: int, m: int, c0: nat)
    requires AtOwner(s0, s, owners, okeys, k, m, c0)
    ensures s.table[m].h < |s.gates| && c0 < |s.gates|
    ensures forall i :: 0 <= i < |owners + [s.table[m].h]| ==>
              Wired(s0, ConnectGate(s, s.table[m].h, c0).gates, (owners + [s.table[m].h])[i], c0)
  {
    var o := s.table[m].h;
    OwnerFacts(s0, s, owners, okeys, k, m, c0);
    var r := ConnectGateKeeps(s0, s, o, c0);
    var r' := ConnectGateEffect(s, o, c0);
    StepWired(s0, s, r, owners, o, c0);
  }

  lemma OwnerFrame(s0: Wiring, s: Wiring, owners: seq<nat>, okeys: seq<int>, k: int, m: int, c0: nat)
    requires AtOwner(s0, s, owners, okeys, k, m, c0)
    ensures s.table[m].h < |s.gates| && c0 < |s.gates|
    ensures forall x :: 0 <= x < |s0.gates| && x !in owners + [s.table[m].h] ==>
              var g := ConnectGate(s, s.table[m].h, c0).gates;
              && g[x].fanin0 == s0.gates[x].fanin0 && g[x].inv0 == s0.gates[x].inv0
              && g[x].fanin1 == s0.gates[x].fanin1 && g[x].inv1 == s0.gates[x].inv1
  {
    var r' := ConnectGateEffect(s, s.table[m].h, c0);
  }

  lemma OwnerFanout(s0: Wiring, s: Wiring, owners: seq<nat>, okeys: seq<int>, k: int, m: int, c0: nat)
    requires AtOwner(s0, s, owners, okeys, k, m, c0)
    ensures s.table[m].h < |s.gates| && c0 < |s.gates|
    ensures var g := ConnectGate(s, s.table[m].h, c0).gates;
            forall t :: 0 <= t < |g| ==> g[t].fanout == Base(s0.gates, t) + Pushes(g, owners + [s.table[m].h], t)
  {
    var o := s.table[m].h;
    OwnerFacts(s0, s, owners, okeys, k, m, c0);
    var r := ConnectGateEffect(s, o, c0);
    forall i | 0 <= i < |owners|
      ensures ValidPtr(s.gates, s.gates[owners[i]].fanin0) && ValidPtr(s.gates, s.gates[owners[i]].fanin1)
    {
      assert GateOk(|s.gates|, s.gates[owners[i]]);
    }
    StepFanout(s0, s, r, owners, o);
  }

  /** The entry at the next key is an old owner that has not been met. */
  lemma OwnerFacts(s0: Wiring, s: Wiring, owners: seq<nat>, okeys: seq<int>, k: int, m: int, c0: nat)
    requires ConnectInv(s0, s, owners, okeys, k, c0) && Injective(s0.table)
    requires NextKey(s, k, m) && s.table[m].Ref? && IsOwner(s.gates[s.table[m].h])
    ensures s.table[m].h < |s0.gates| && m in s0.table && s0.table[m] == s.table[m]
    ensures IsOwner(s0.gates[s.table[m].h]) && s.table[m].h !in owners
  {
    var o := s.table[m].h;
    if o >= |s0.gates| {
      assert false;
    }
    assert SameShape(s0.gates[o], s.gates[o]);
    if o in owners {
      assert false;
    }
  }

  /** Owners met earlier stay wired when o is wired. */
  lemma StepWired(s0: Wiring, s: Wiring, r: Wiring, owners: seq<nat>, o: nat, c0: nat)
    requires forall i :: 0 <= i < |owners| ==> Wired(s0, s.gates, owners[i], c0) && owners[i] != o
    requires o < |s.gates| && |s.gates| <= |r.gates|
    requires forall x :: 0 <= x < |s.gates| ==> SameShape(s.gates[x], r.gates[x])
    requires forall x :: 0 <= x < |s.gates| && x != o ==>
               r.gates[x].fanin0 == s.gates[x].fanin0 && r.gates[x].inv0 == s.gates[x].inv0 &&
               r.gates[x].fanin1 == s.gates[x].fanin1 && r.gates[x].inv1 == s.gates[x].inv1
    requires Wired(s0, r.gates, o, c0)
    ensures forall i :: 0 <= i < |owners + [o]| ==> Wired(s0, r.gates, (owners + [o])[i], c0)
  {
    forall i | 0 <= i < |owners + [o]| ensures Wired(s0, r.gates, (owners + [o])[i], c0) {
      if i < |owners| {
        WiredGrows(s0, s.gates, r.gates, owners[i], c0);
      }
    }
  }

  /** Fanout lists after wiring o: old contents, then the pushes of the
      earlier owners, then those of o. */
  lemma StepFanout(s0: Wiring, s: Wiring, r: Wiring, owners: seq<nat>, o: nat)
    requires |s0.gates| <= |s.gates| <= |r.gates| && o < |s.gates|
    requires forall i :: 0 <= i < |owners| ==> owners[i] < |s.gates| && owners[i] != o
    requires forall i :: 0 <= i < |owners| ==>
               ValidPtr(s.gates, s.gates[owners[i]].fanin0) && ValidPtr(s.gates, s.gates[owners[i]].fanin1)
    requires forall t {:trigger s.gates[t].fanout} :: 0 <= t < |s.gates| ==> s.gates[t].fanout == Base(s0.gates, t) + Pushes(s.gates, owners, t)
    requires forall x :: 0 <= x < |s.gates| ==> SameShape(s.gates[x], r.gates[x])
    requires forall x :: 0 <= x < |s.gates| && x != o ==>
               r.gates[x].fanin0 == s.gates[x].fanin0 && r.gates[x].fanin1 == s.gates[x].fanin1
    requires forall t {:trigger r.gates[t].fanout} :: 0 <= t < |r.gates| ==>
               r.gates[t].fanout == (if t < |s.gates| then s.gates[t].fanout else []) + EdgesTo(r.gates[o], o, t)
    ensures forall t {:trigger r.gates[t].fanout} :: 0 <= t < |r.gates| ==> r.gates[t].fanout == Base(s0.gates, t) + Pushes(r.gates, owners + [o], t)
  {
    OwnersKept(s.gates, r.gates, owners, o);
    forall t | 0 <= t < |r.gates|
      ensures r.gates[t].fanout == Base(s0.gates, t) + Pushes(r.gates, owners + [o], t)
    {
      PushesFrame(s.gates, r.gates, owners, t);
      if t >= |s.gates| {
        OwnersMiss(s.gates, owners, t);
        PushesNone(s.gates, owners, t);
      }
      FanoutAt(s0.gates, s.gates, r.gates, owners, o, t);
    }
  }

  /** Owners other than o keep their kinds and fanins while o is wired. */
  lemma OwnersKept(g: seq<GateRec>, g': seq<GateRec>, owners: seq<nat>, o: nat)
    requires |g| <= |g'|
    requires forall i :: 0 <= i < |owners| ==> owners[i] < |g| && owners[i] != o
    requires forall x :: 0 <= x < |g| ==> SameShape(g[x], g'[x])
    requires forall x :: 0 <= x < |g| && x != o ==> g'[x].fanin0 == g[x].fanin0 && g'[x].fanin1 == g[x].fanin1
    ensures forall i :: 0 <= i < |owners| ==> owners[i] < |g| && owners[i] < |g'|
    ensures forall i :: 0 <= i < |owners| ==>
              g'[owners[i]].variant == g[owners[i]].variant &&
              g'[owners[i]].fanin0 == g[owners[i]].fanin0 && g'[owners[i]].fanin1 == g[owners[i]].fanin1
  {
    forall i | 0 <= i < |owners|
      ensures g'[owners[i]].variant == g[owners[i]].variant
    {
      assert SameShape(g[owners[i]], g'[owners[i]]);
    }
  }

  /** A gate beyond the arena is pointed at by no owner. */
  lemma OwnersMiss(g: seq<GateRec>, owners: seq<nat>, t: nat)
    requires |g| <= t
    requires forall i :: 0 <= i < |owners| ==> owners[i] < |g|
    requires forall i :: 0 <= i < |owners| ==> ValidPtr(g, g[owners[i]].fanin0) && ValidPtr(g, g[owners[i]].fanin1)
    ensures forall i :: 0 <= i < |owners| ==> g[owners[i]].fanin0 != Ref(t) && g[owners[i]].fanin1 != Ref(t)
  {
  }

  /** The step of `StepFanout` at one gate t. */
  lemma FanoutAt(g0: seq<GateRec>, g: seq<GateRec>, g': seq<GateRec>, owners: seq<nat>, o: nat, t: nat)
    requires |g0| <= |g| <= |g'| && o < |g| && t < |g'|
    requires t < |g| ==> g[t].fanout == Base(g0, t) + Pushes(g, owners, t)
    requires t >= |g| ==> Pushes(g, owners, t) == []
    requires Pushes(g', owners, t) == Pushes(g, owners, t)
    requires g'[t].fanout == (if t < |g| then g[t].fanout else []) + EdgesTo(g'[o], o, t)
    ensures g'[t].fanout == Base(g0, t) + Pushes(g', owners + [o], t)
  {
    PushesAppend(g', owners, o, t);
    AppendPushes(g'[t].fanout, if t < |g| then g[t].fanout else [],
      Base(g0, t), Pushes(g', owners, t), EdgesTo(g'[o], o, t), Pushes(g', owners + [o], t));
  }

  /** Appending pushes: (a + b) + e == a + (b + e). */
  lemma AppendPushes(f': seq<nat>, f: seq<nat>, a: seq<nat>, b: seq<nat>, e: seq<nat>, c: seq<nat>)
    requires f == a + b && f' == f + e && c == b + e
    ensures f' == a + c
  {
  }

  lemma PushesAppend(g: seq<GateRec>, owners: seq<nat>, o: nat, t: nat)
    requires o < |g|
    ensures Pushes(g, owners + [o], t) == Pushes(g, owners, t) + EdgesTo(g[o], o, t)
  {
    assert (owners + [o])[..|owners|] == owners;
  }

  /** The key bookkeeping after meeting owner o at key m. */
  lemma StepKeys(s0: Wiring, s: Wiring, owners: seq<nat>, okeys: seq<int>, k: int, m: int, c0: nat)
    requires ConnectInv(s0, s, owners, okeys, k, c0)
    requires NextKey(s, k, m) && s.table[m].Ref? && s.table[m].h < |s0.gates|
    requires m in s0.table && s0.table[m] == s.table[m] && IsOwner(s0.gates[s.table[m].h])
    ensures forall i :: 0 <= i < |owners + [s.table[m].h]| ==>
              && (okeys + [m])[i] <= m && (okeys + [m])[i] in s0.table
              && s0.table[(okeys + [m])[i]] == Ref((owners + [s.table[m].h])[i])
              && (owners + [s.table[m].h])[i] < |s0.gates| && IsOwner(s0.gates[(owners + [s.table[m].h])[i]])
    ensures forall i, j :: 0 <= i < j < |okeys + [m]| ==> (okeys + [m])[i] < (okeys + [m])[j]
    ensures forall k' :: k' in s0.table && k' <= m && s0.table[k'].Ref? && IsOwner(s0.gates[s0.table[k'].h]) ==>
              s0.table[k'].h in owners + [s.table[m].h]
  {
    KeysExtend(s0, owners, okeys, k, m, s.table[m].h);
    forall k' | k' in s0.table && k' <= m && s0.table[k'].Ref? && IsOwner(s0.gates[s0.table[k'].h])
      ensures s0.table[k'].h in owners + [s.table[m].h]
    {
      if k < k' {
        assert k' in s.table;
      }
    }
  }

  /** Owner h met at key m above every key met so far extends the
      key/owner pairing and keeps the keys ascending. */
  lemma KeysExtend(s0: Wiring, owners: seq<nat>, okeys: seq<int>, k: int, m: int, h: nat)
    requires |okeys| == |owners| && k < m
    requires forall i :: 0 <= i < |owners| ==>
               && okeys[i] <= k && okeys[i] in s0.table && s0.table[okeys[i]] == Ref(owners[i])
               && owners[i] < |s0.gates| && IsOwner(s0.gates[owners[i]])
    requires forall i, j :: 0 <= i < j < |okeys| ==> okeys[i] < okeys[j]
    requires m in s0.table && s0.table[m] == Ref(h) && h < |s0.gates| && IsOwner(s0.gates[h])
    ensures forall i :: 0 <= i < |owners + [h]| ==>
              && (okeys + [m])[i] <= m && (okeys + [m])[i] in s0.table
              && s0.table[(okeys + [m])[i]] == Ref((owners + [h])[i])
              && (owners + [h])[i] < |s0.gates| && IsOwner(s0.gates[(owners + [h])[i]])
    ensures forall i, j :: 0 <= i < j < |okeys + [m]| ==> (okeys + [m])[i] < (okeys + [m])[j]
  {
  }

  /** Meeting a gate that is not an owner changes nothing. */
  lemma StepSkip(s0: Wiring, s: Wiring, owners: seq<nat>, okeys: seq<int>, k: int, m: int, c0: nat)
    requires ConnectInv(s0, s, owners, okeys, k, c0)
    requires NextKey(s, k, m) && s.table[m].Ref? && !IsOwner(s.gates[s.table[m].h])
    ensures s.table[m].h < |s.gates| && ConnectGate(s, s.table[m].h, c0) == s
    ensures ConnectInv(s0, s, owners, okeys, m, c0)
  {
    forall k' | k' in s0.table && k' <= m && s0.table[k'].Ref? && IsOwner(s0.gates[s0.table[k'].h])
      ensures s0.table[k'].h in owners
    {
      if k < k' {
        assert false;
      }
    }
  }

  /** What a pass that started from s0 and wired `owners` leaves: the
      pass's own bookkeeping holds, each owner is an old output or AND gate
      and is wired, no gate is wired twice, every other old gate keeps its
      pointers, and every fanout list is its old contents followed by the
      back-references the owners pushed, in wiring order. */
  predicate Connected(s0: Wiring, s: Wiring, owners: seq<nat>, c0: nat) {
    && Kept(s0, s)
    && (forall i :: 0 <= i < |owners| ==>
          owners[i] < |s0.gates| && IsOwner(s0.gates[owners[i]]) && Wired(s0, s.gates, owners[i], c0))
    && (forall i, j :: 0 <= i < j < |owners| ==> owners[i] != owners[j])
    && (forall x :: 0 <= x < |s0.gates| && x !in owners ==>
          && s.gates[x].fanin0 == s0.gates[x].fanin0 && s.gates[x].inv0 == s0.gates[x].inv0
          && s.gates[x].fanin1 == s0.gates[x].fanin1 && s.gates[x].inv1 == s0.gates[x].inv1)
    && (forall t :: 0 <= t < |s.gates| ==> s.gates[t].fanout == Base(s0.gates, t) + Pushes(s.gates, owners, t))
  }

  /** Every output and AND gate `GateMap` held at the start was wired. */
  predicate AllMet(s0: Wiring, owners: seq<nat>) {
    forall k' :: k' in s0.table && s0.table[k'].Ref? && s0.table[k'].h < |s0.gates| && IsOwner(s0.gates[s0.table[k'].h]) ==>
      s0.table[k'].h in owners
  }

  /** What the loop invariant gives at any exit of the pass. */
  lemma InvFacts(s0: Wiring, s: Wiring, owners: seq<nat>, okeys: seq<int>, k: int, c0: nat)
    requires ConnectInv(s0, s, owners, okeys, k, c0) && Injective(s0.table)
    ensures Connected(s0, s, owners, c0)
  {
    forall i, j | 0 <= i < j < |owners| ensures owners[i] != owners[j] {
      assert okeys[i] < okeys[j];
    }
  }

  /** When no key above k is left, every old owner entry has been met. */
  lemma InvDone(s0: Wiring, s: Wiring, owners: seq<nat>, okeys: seq<int>, k: int, c0: nat)
    requires ConnectInv(s0, s, owners, okeys, k, c0)
    requires forall x :: x in s.table ==> x <= k
    ensures AllMet(s0, owners)
  {
    forall k' | k' in s0.table && s0.table[k'].Ref? && IsOwner(s0.gates[s0.table[k'].h])
      ensures s0.table[k'].h in owners
    {
      assert k' in s.table;
    }
  }
}
