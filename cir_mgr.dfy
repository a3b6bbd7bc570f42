/** The circuit manager: the gate arena with `GateMap`, the input, output
    and AND lists, the defined/used table, and the operations that build,
    list and write the circuit. */
module Manager {
  import opened Text
  import opened Keys
  import opened Literal
  import opened CirGate
  import opened Circuit
  import opened Connect
  import opened Netlist
  import opened Walk
  import opened Aag
  import opened Report

  /** What reading a circuit keeps: pointers inside the arena, each table
      entry holding a gate with that ID, no gate under two keys, and the
      three lists holding gates of their kind. */
  predicate BuiltOk(gates: seq<GateRec>, table: map<int, Ptr>, pis: seq<nat>, pos: seq<nat>, aigs: seq<nat>) {
    && ArenaOk(gates) && TableOk(gates, table) && Injective(table) && KeyedById(gates, table)
    && (forall i :: 0 <= i < |pis| ==> pis[i] < |gates| && gates[pis[i]].variant.PiGate?)
    && (forall i :: 0 <= i < |pos| ==> pos[i] < |gates| && gates[pos[i]].variant.PoGate?)
    && (forall i :: 0 <= i < |aigs| ==> aigs[i] < |gates| && gates[aigs[i]].variant.AigGate?)
  }

  /** A new gate without pointers stored under its ID k, replacing any
      earlier entry, and appended to the list of its kind keeps the circuit
      well formed. */
  lemma AddOk(gates: seq<GateRec>, table: map<int, Ptr>, pis: seq<nat>, pos: seq<nat>, aigs: seq<nat>, g: GateRec, k: int)
    requires BuiltOk(gates, table, pis, pos, aigs)
    requires g.fanin0 == Null && g.fanin1 == Null && g.fanout == [] && GetID(g) == k
    ensures
      var n := |gates|;
      BuiltOk(gates + [g], table[k := Ref(n)],
              pis + (if g.variant.PiGate? then [n] else []),
              pos + (if g.variant.PoGate? then [n] else []),
              aigs + (if g.variant.AigGate? then [n] else []))
  {
    AppendOk(gates, g);
    var t := table[k := Ref(|gates|)];
    forall i, j | i in t && j in t && t[i].Ref? && t[i] == t[j] ensures i == j {
      if i != k && j != k {
        assert table[i] == table[j];
      }
    }
  }

  /** Marks set on the first i entries of hs stay set, and entry i is now
      marked too. */
  lemma MarksGrow(g1: seq<GateRec>, g2: seq<GateRec>, hs: seq<nat>, i: nat)
    requires i < |hs| && |g1| == |g2| && forall j :: 0 <= j < |hs| ==> hs[j] < |g1|
    requires forall j :: 0 <= j < i ==> g1[hs[j]].isprint
    requires forall x :: 0 <= x < |g1| && g1[x].isprint ==> g2[x].isprint
    requires g2[hs[i]].isprint
    ensures forall j :: 0 <= j <= i ==> g2[hs[j]].isprint
  {
  }

  /** `int s = gid` for an unsigned 32-bit gid: values from 2^31 wrap to
      negative ones. */
  function Signed32(u: nat): (s: int)
    requires u < 0x1_0000_0000
    ensures -0x8000_0000 <= s < 0x8000_0000
    ensures (s - u) % 0x1_0000_0000 == 0
  {
    if u < 0x8000_0000 then u else u - 0x1_0000_0000
  }

  /** Some `GateMap` entry points at gate x. */
  predicate InTable(table: map<int, Ptr>, x: nat) {
    exists k :: k in table && table[k] == Ref(x)
  }

  /** After a walk that listed `listed` and a `resetprint`: a gate is
      marked iff it was marked or listed, is not the constant, and no table
      entry points at it. */
  predicate Cleared(g0: seq<GateRec>, g: seq<GateRec>, listed: seq<nat>, table: map<int, Ptr>, c0: nat) {
    |g| == |g0| &&
    forall x :: 0 <= x < |g| ==> (g[x].isprint <==> (g0[x].isprint || x in listed) && x != c0 && !InTable(table, x))
  }

  lemma ClearedAfterWalk(g0: seq<GateRec>, g2: seq<GateRec>, g: seq<GateRec>, listed: seq<nat>, table: map<int, Ptr>, c0: nat)
    requires Walked(g0, g2, listed, true) && |g| == |g2|
    requires forall x :: 0 <= x < |g| ==> (g[x].isprint <==> g2[x].isprint && x != c0 && !InTable(table, x))
    ensures Cleared(g0, g, listed, table, c0)
  {
  }

  /** A pass over every key meets exactly the gates the table points at. */
  lemma SeenAll(table: map<int, Ptr>, keys: seq<int>, x: nat)
    requires forall j :: 0 <= j < |keys| ==> keys[j] in table
    requires forall k :: k in table ==> k in keys
    ensures SeenIn(table, keys, |keys|, x) <==> InTable(table, x)
  {
    if InTable(table, x) {
      var k :| k in table && table[k] == Ref(x);
      assert k in keys;
      var j :| 0 <= j < |keys| && keys[j] == k;
      assert table[keys[j]] == Ref(x);
    }
    forall j | 0 <= j < |keys| && table[keys[j]] == Ref(x) ensures InTable(table, x) {
      var k := keys[j];
      assert k in table && table[k] == Ref(x);
    }
  }

  /** The loop of `connect` over the wiring state s0, with const0 at c0: it
      visits the keys in increasing order, re-reading the table after each
      step because wiring may insert keys, and wires every output and AND
      gate it meets (`Connect.ConnectGate`). It stops with `ok == false` at
      a null entry, which the source dereferences: one that a fanin 1
      lookup inserted ahead of the iterator. */
  method ConnectPass(s0: Wiring, c0: nat) returns (s: Wiring, ok: bool, ghost owners: seq<nat>)
    requires WiringOk(s0) && Injective(s0.table) && c0 < |s0.gates|
    ensures Connected(s0, s, owners, c0)
    ensures ok ==> AllMet(s0, owners)
    ensures !ok ==> exists k :: k in s.table && s.table[k] == Null
  {
    ghost var okeys: seq<int> := [];
    s := s0;
    owners := [];
    ok := true;
    var k := if s.table.Keys == {} then 0 else MinKey(s.table.Keys) - 1;
    while true
      invariant ConnectInv(s0, s, owners, okeys, k, c0)
      decreases |set x | x in Universe(s0) && x > k|
    {
      var above := set x | x in s.table.Keys && x > k;
      if above == {} {
        NoneAbove(s, k, above);
        InvDone(s0, s, owners, okeys, k, c0);
        break;
      }
      var m := MinKey(above);
      if s.table[m].Null? {
        ok := false;
        break;
      }
      MinAbove(s, k, above, m);
      ghost var owners', okeys';
      ghost var r;
      r, owners', okeys' := ConnectStep(s0, s, owners, okeys, k, m, c0);
      s := ConnectGate(s, s.table[m].h, c0);
      AboveShrinks(Universe(s0), k, m);
      owners, okeys, k := owners', okeys', m;
    }
    InvFacts(s0, s, owners, okeys, k, c0);
  }

  /** The loop of `resetprint` over the gates g0 and the table: clear the
      mark of every gate an entry points at, in key order. It stops with
      `ok == false` at a null entry, which the source dereferences. */
  method ResetPass(g0: seq<GateRec>, table: map<int, Ptr>) returns (gs: seq<GateRec>, ok: bool)
    requires TableOk(g0, table)
    ensures SameButMarks(g0, gs)
    ensures forall x :: 0 <= x < |gs| && gs[x].isprint ==> g0[x].isprint
    ensures ok ==> forall k :: k in table ==> table[k].Ref?
    ensures !ok ==> exists k :: k in table && table[k].Null?
    ensures ok ==> forall x :: 0 <= x < |gs| ==> (gs[x].isprint <==> g0[x].isprint && !InTable(table, x))
  {
    var keys := KeyOrder(table.Keys);
    gs := g0;
    var i := 0;
    ok := true;
    while i < |keys|
      invariant 0 <= i <= |keys|
      invariant TableOk(g0, table) && SameButMarks(g0, gs)
      invariant forall x :: 0 <= x < |gs| ==> (gs[x].isprint <==> g0[x].isprint && !SeenIn(table, keys, i, x))
      invariant forall j :: 0 <= j < i ==> table[keys[j]].Ref?
    {
      var k := keys[i];
      assert k in table;
      var e := table[k];
      assert ValidPtr(g0, e) && |gs| == |g0|;
      if e.Null? {
        ok := false;
        return;
      }
      gs := gs[e.h := CirGate.ResetPrint(gs[e.h])];
      i := i + 1;
    }
    forall k | k in table ensures table[k].Ref? {
      assert k in keys;
    }
    forall x | 0 <= x < |gs| ensures SeenIn(table, keys, |keys|, x) <==> InTable(table, x) {
      SeenAll(table, keys, x);
    }
  }

  /** Some of the first i keys visited point at gate x. */
  predicate SeenIn(table: map<int, Ptr>, keys: seq<int>, i: nat, x: nat)
    requires i <= |keys| && forall j :: 0 <= j < |keys| ==> keys[j] in table
  {
    exists j :: 0 <= j < i && table[keys[j]] == Ref(x)
  }

  class CirMgr {
    /** Every gate object created so far; a `CirGate*` is a handle into it. */
    var gates: seq<GateRec>
    var gateMap: map<int, Ptr>
    var piList: seq<nat>
    var poList: seq<nat>
    var aigList: seq<nat>
    var floatList: seq<int>
    /** Per ID: (defined, used). */
    var undef: seq<(bool, bool)>
    var printList: seq<string>
    var M: int
    var I: int
    var O: int
    var A: int
    var flAIG: int
    var const0: Ptr

    /** The part of the state `connect` works on. */
    function State(): Wiring
      reads this
    {
      Wiring(gates, gateMap, floatList)
    }

    /** See `BuiltOk`. */
    predicate Built()
      reads this
    {
      BuiltOk(gates, gateMap, piList, poList, aigList)
    }

    /** `CirMgr()`: no gates, no float count, and the defined/used table
        holding only the entry of ID 0, which counts as defined and used. */
    constructor()
      ensures gates == [] && gateMap == map[] && const0 == Null
      ensures piList == [] && poList == [] && aigList == [] && floatList == [] && printList == []
      ensures undef == [(true, true)] && flAIG == 0
      ensures Built()
    {
      gates, gateMap, const0 := [], map[], Null;
      piList, poList, aigList, floatList, printList := [], [], [], [], [];
      undef, flAIG := [(true, true)], 0;
    }

    /** The first step of `readCircuit`: `const0 = new CirConstGate()`, a
        constant gate added to the arena and kept out of `GateMap`. */
    method NewConst0()
      modifies this`gates, this`const0
      ensures gates == old(gates) + [MakeConst()] && const0 == Ref(|old(gates)|)
      ensures old(Built()) ==> Built()
    {
      if Built() {
        AppendOk(gates, MakeConst());
      }
      gates, const0 := gates + [MakeConst()], Ref(|gates|);
    }

    /** `getGate(gid)`: the gate stored under the ID, or null when the ID is
        absent; IDs of 2^31 and above are looked up as negative keys. */
    method GetGate(gid: nat) returns (p: Ptr)
      requires gid < 0x1_0000_0000
      ensures p == Lookup(gateMap, Signed32(gid))
      ensures gid < 0x8000_0000 ==> (p.Ref? <==> gid in gateMap && gateMap[gid].Ref?)
      ensures Built() && p.Ref? ==> p.h < |gates| && GetID(gates[p.h]) == Signed32(gid)
    {
      var s := Signed32(gid);
      if s in gateMap {
        p := gateMap[s];
      } else {
        p := Null;
      }
    }

    /** `readInput`: a new input gate for literal lit, with ID lit/2 and line
        l, stored under its ID and appended to the input list; the ID is
        marked defined. */
    method ReadInput(lit: nat, l: nat)
      requires Built() && LitId(lit) < |undef|
      modifies this`gates, this`gateMap, this`undef, this`piList
      ensures gates == old(gates) + [MakePi(LitId(lit), l)]
      ensures gateMap == old(gateMap)[LitId(lit) := Ref(|old(gates)|)]
      ensures piList == old(piList) + [|old(gates)|]
      ensures |undef| == |old(undef)|
      ensures forall x :: 0 <= x < |undef| ==> undef[x] == (old(undef)[x].0 || x == LitId(lit), old(undef)[x].1)
      ensures Built()
    {
      var id := LitId(lit);
      AddOk(gates, gateMap, piList, poList, aigList, MakePi(id, l), id);
      var h := |gates|;
      gates := gates + [MakePi(id, l)];
      gateMap := gateMap[id := Ref(h)];
      undef := undef[id := (true, undef[id].1)];
      piList := piList + [h];
    }

    /** `readOutput`: a new output gate on line l, with ID M+l-I-1, whose
        fanin is declared by literal lit; the fanin's ID is marked used. */
    method ReadOutput(lit: nat, l: nat)
      requires Built() && LitId(lit) < |undef|
      modifies this`gates, this`gateMap, this`undef, this`poList
      ensures gates == old(gates) + [MakePo(LitId(lit), M + l - I - 1, LitInv(lit), l)]
      ensures gateMap == old(gateMap)[M + l - I - 1 := Ref(|old(gates)|)]
      ensures poList == old(poList) + [|old(gates)|]
      ensures |undef| == |old(undef)|
      ensures forall x :: 0 <= x < |undef| ==> undef[x] == (old(undef)[x].0, old(undef)[x].1 || x == LitId(lit))
      ensures Built()
    {
      var id := M + l - I - 1;
      var g := MakePo(LitId(lit), id, LitInv(lit), l);
      AddOk(gates, gateMap, piList, poList, aigList, g, id);
      var h := |gates|;
      gates := gates + [g];
      gateMap := gateMap[id := Ref(h)];
      undef := undef[LitId(lit) := (undef[LitId(lit)].0, true)];
      poList := poList + [h];
    }

    /** `readAig`: a new AND gate `lit = f0 & f1` on line l, with ID lit/2;
        the gate's ID is marked defined and each fanin ID other than 0 used. */
    method ReadAig(lit: nat, f0: nat, f1: nat, l: nat)
      requires Built() && LitId(lit) < |undef|
      requires LitId(f0) != 0 ==> LitId(f0) < |undef|
      requires LitId(f1) != 0 ==> LitId(f1) < |undef|
      modifies this`gates, this`gateMap, this`undef, this`aigList
      ensures gates == old(gates) + [MakeAig(LitId(f0), LitId(f1), LitId(lit), LitInv(f0), LitInv(f1), l)]
      ensures gateMap == old(gateMap)[LitId(lit) := Ref(|old(gates)|)]
      ensures aigList == old(aigList) + [|old(gates)|]
      ensures |undef| == |old(undef)|
      ensures forall x :: 0 <= x < |undef| ==>
                undef[x] == (old(undef)[x].0 || x == LitId(lit),
                             old(undef)[x].1 || (x != 0 && (x == LitId(f0) || x == LitId(f1))))
      ensures Built()
    {
      var id := LitId(lit);
      var g := MakeAig(LitId(f0), LitId(f1), id, LitInv(f0), LitInv(f1), l);
      AddOk(gates, gateMap, piList, poList, aigList, g, id);
      var u := undef[id := (true, undef[id].1)];
      if LitId(f0) != 0 {
        u := u[LitId(f0) := (u[LitId(f0)].0, true)];
      }
      if LitId(f1) != 0 {
        u := u[LitId(f1) := (u[LitId(f1)].0, true)];
      }
      var h := |gates|;
      gates, gateMap, aigList, undef := gates + [g], gateMap[id := Ref(h)], aigList + [h], u;
    }

    /** `readSymbol`: `i<index> name` names an input, `o<index> name` an
        output; any other line changes nothing. */
    method ReadSymbol(kind: char, index: int, name: string)
      requires Built()
      requires kind == 'i' ==> 0 <= index < |piList|
      requires kind == 'o' ==> 0 <= index < |poList|
      modifies this`gates
      ensures kind == 'i' ==> gates == old(gates)[piList[index] := SetSymbol(old(gates)[piList[index]], name)]
      ensures kind == 'o' ==> gates == old(gates)[poList[index] := SetSymbol(old(gates)[poList[index]], name)]
      ensures kind != 'i' && kind != 'o' ==> gates == old(gates)
      ensures Built()
    {
      if kind == 'i' || kind == 'o' {
        var h := if kind == 'i' then piList[index] else poList[index];
        var gs := gates[h := SetSymbol(gates[h], name)];
        assert forall x :: 0 <= x < |gs| ==> GateOk(|gs|, gs[x]) by {
          forall x | 0 <= x < |gs| ensures GateOk(|gs|, gs[x]) {
            assert GateOk(|gates|, gates[x]);
          }
        }
        gates := gs;
      }
    }

    /** `connect`: one pass over `GateMap` in key order wiring every output
        and AND gate met to the gates its declared fanin IDs name (see
        `ConnectPass`). `owners` are the gates wired, in visiting order. */
    method Connect() returns (ok: bool, ghost owners: seq<nat>)
      requires WiringOk(State()) && Injective(gateMap)
      requires const0.Ref? && const0.h < |gates| && gates[const0.h].variant.ConstGate?
      modifies this`gates, this`gateMap, this`floatList
      ensures Connected(old(State()), State(), owners, const0.h)
      ensures ok ==> AllMet(old(State()), owners)
      ensures !ok ==> exists k :: k in gateMap && gateMap[k] == Null
    {
      var s;
      s, ok, owners := ConnectPass(State(), const0.h);
      gates, gateMap, floatList := s.gates, s.table, s.floats;
    }

    /** `DFS(p)`: list the fanin cone of p in post-order, once per gate.
        A null or marked gate is skipped; otherwise both fanins are walked
        first, and then, unless p got marked meanwhile, its line is added to
        `printList` and p is marked (UNDEF placeholders are neither listed
        nor marked). `listed` are the gates listed, in order; `rank` is a
        ghost witness that the fanin graph has no cycle. */
    method Dfs(p: Ptr, ghost rank: seq<nat>) returns (ghost listed: seq<nat>)
      requires ArenaOk(gates) && Linked(gates) && Ranked(gates, rank) && ValidPtr(gates, p)
      modifies this`gates, this`printList
      decreases if p.Ref? && p.h < |rank| then rank[p.h] + 1 else 0
      ensures DfsPost(old(gates), old(printList), gates, printList, listed, p, rank)
    {
      listed := [];
      if p.Null? || gates[p.h].isprint {
        DfsSkip(gates, printList, p, rank);
        return;
      }
      ghost var g0, pl0 := gates, printList;
      var o := p.h;
      assert GateOk(|gates|, gates[o]);
      var a := Dfs(gates[o].fanin0, rank);
      ghost var g1, pl1 := gates, printList;
      assert g1[o] == g0[o].(isprint := g1[o].isprint);
      var b := Dfs(gates[o].fanin1, rank);
      listed := DfsVisit(o, g0, pl0, g1, pl1, a, b, rank);
    }

    /** The end of a `DFS` visit of gate o, both fanin walks done: o is
        listed and marked unless a fanin walk marked it or it is an UNDEF
        placeholder. */
    method DfsVisit(o: nat, ghost g0: seq<GateRec>, ghost pl0: seq<string>, ghost g1: seq<GateRec>,
                    ghost pl1: seq<string>, ghost a: seq<nat>, ghost b: seq<nat>, ghost rank: seq<nat>)
      returns (ghost listed: seq<nat>)
      requires ArenaOk(g0) && Linked(g0) && Ranked(g0, rank) && o < |g0| && !g0[o].isprint
      requires DfsPost(g0, pl0, g1, pl1, a, g0[o].fanin0, rank)
      requires DfsPost(g1, pl1, gates, printList, b, g0[o].fanin1, rank)
      modifies this`gates, this`printList
      ensures DfsPost(g0, pl0, gates, printList, listed, Ref(o), rank)
    {
      if gates[o].isprint || !Listable(gates[o], false) {
        DfsJoinSkip(g0, pl0, g1, pl1, gates, printList, a, b, o, rank);
        listed := a + b;
        return;
      }
      DfsJoinList(g0, pl0, g1, pl1, gates, printList, a, b, o, rank);
      var line, marked := GateLine(gates, o), gates[o := SetPrint(gates[o])];
      printList, gates := printList + [line], marked;
      listed := a + b + [o];
    }

    /** `writeDFS(p)`: the AND lines of the fanin cone of p in post-order,
        once per gate. A null or marked gate is skipped; otherwise both
        fanins are walked first and, when p is an AND gate, p is marked and
        its line written. Other gates are never marked. */
    method WriteDfs(p: Ptr, ghost rank: seq<nat>) returns (out: seq<string>, ghost listed: seq<nat>)
      requires ArenaOk(gates) && Linked(gates) && Ranked(gates, rank) && ValidPtr(gates, p)
      modifies this`gates
      decreases if p.Ref? && p.h < |rank| then rank[p.h] + 1 else 0
      ensures WritePost(old(gates), gates, out, listed, p, rank)
    {
      out, listed := [], [];
      if p.Null? || gates[p.h].isprint {
        WriteSkip(gates, p, rank);
        return;
      }
      ghost var g0 := gates;
      var o := p.h;
      assert GateOk(|gates|, gates[o]);
      var x, a := WriteDfs(gates[o].fanin0, rank);
      ghost var g1 := gates;
      assert g1[o] == g0[o].(isprint := g1[o].isprint);
      var y, b := WriteDfs(gates[o].fanin1, rank);
      if !gates[o].variant.AigGate? {
        WriteThrough(g0, g1, gates, x, y, a, b, o, rank);
        out, listed := x + y, a + b;
        return;
      }
      WriteAnd(g0, g1, gates, x, y, a, b, o, rank);
      out := x + y + [AigLine(gates, o)];
      gates := gates[o := SetPrint(gates[o])];
      listed := a + b + [o];
    }

    /** `resetprint`: clear the print mark of every gate `GateMap` holds, in
        key order, and then of `const0`. A null entry is dereferenced:
        that ends the pass with `ok == false`, the gates before it already
        cleared. Gates outside `GateMap` keep their marks. */
    method ResetPrint() returns (ok: bool)
      requires TableOk(gates, gateMap) && const0.Ref? && const0.h < |gates| && gates[const0.h].variant.ConstGate?
      modifies this`gates
      ensures SameButMarks(old(gates), gates)
      ensures forall x :: 0 <= x < |gates| && gates[x].isprint ==> old(gates)[x].isprint
      ensures ok ==> forall k :: k in gateMap ==> gateMap[k].Ref?
      ensures !ok ==> exists k :: k in gateMap && gateMap[k].Null?
      ensures ok ==> forall x :: 0 <= x < |gates| ==>
                (gates[x].isprint <==> old(gates)[x].isprint && x != const0.h && !InTable(gateMap, x))
    {
      var gs;
      gs, ok := ResetPass(gates, gateMap);
      if ok {
        gs := gs[const0.h := CirGate.ResetPrint(gs[const0.h])];
      }
      gates := gs;
      assert !ok ==> exists k :: k in gateMap && gateMap[k].Null?;
    }

    /** The walks of `printNetlist`: `DFS` from every output in list
        order. Every output ends up marked. */
    method DfsOutputs(ghost rank: seq<nat>) returns (ghost listed: seq<nat>)
      requires Built() && Linked(gates) && Ranked(gates, rank)
      modifies this`gates, this`printList
      ensures ListingPost(old(gates), old(printList), gates, printList, listed, rank)
      ensures RunCone(old(gates), gates, listed, poList, |poList|, false, rank)
      ensures forall j :: 0 <= j < |poList| ==> poList[j] < |gates| && gates[poList[j]].isprint
    {
      ghost var g0, pl0 := gates, printList;
      ListingStart(gates, printList, rank);
      RunConeStart(gates, poList, false, rank);
      listed := [];
      var i := 0;
      while i < |poList|
        invariant 0 <= i <= |poList|
        invariant forall j :: 0 <= j < |poList| ==> poList[j] < |g0| && g0[poList[j]].variant.PoGate?
        invariant ListingPost(g0, pl0, gates, printList, listed, rank)
        invariant RunCone(g0, gates, listed, poList, i, false, rank)
        invariant forall j :: 0 <= j < i ==> gates[poList[j]].isprint
      {
        listed := DfsOutput(i, g0, pl0, listed, rank);
        i := i + 1;
      }
    }

    /** One round of the loop over the outputs: the walk from output i
        extends the run. */
    method DfsOutput(i: nat, ghost g0: seq<GateRec>, ghost pl0: seq<string>, ghost listed: seq<nat>, ghost rank: seq<nat>)
      returns (ghost listed': seq<nat>)
      requires i < |poList|
      requires forall j :: 0 <= j < |poList| ==> poList[j] < |g0| && g0[poList[j]].variant.PoGate?
      requires ListingPost(g0, pl0, gates, printList, listed, rank)
      requires RunCone(g0, gates, listed, poList, i, false, rank)
      requires forall j :: 0 <= j < i ==> gates[poList[j]].isprint
      modifies this`gates, this`printList
      ensures ListingPost(g0, pl0, gates, printList, listed', rank)
      ensures RunCone(g0, gates, listed', poList, i + 1, false, rank)
      ensures forall j :: 0 <= j < i + 1 ==> gates[poList[j]].isprint
    {
      ghost var g1, pl1 := gates, printList;
      var o := poList[i];
      assert g1[o] == g0[o].(isprint := g1[o].isprint);
      var b := Dfs(Ref(o), rank);
      ListingJoin(g0, pl0, g1, pl1, listed, gates, printList, b, Ref(o), rank);
      RunConeJoin(g0, g1, gates, listed, b, poList, i, false, rank);
      assert gates[o] == g1[o].(isprint := gates[o].isprint);
      MarksGrow(g1, gates, poList, i);
      listed' := listed + b;
    }

    /** `printNetlist`: walk from every output in list order, then clear
        the marks, write an empty line, and number every line of
        `printList`. `printList` is never cleared, so lines of earlier calls
        come first. `listed` are the gates listed by this call: in
        post-order, all inside the outputs' fanin cones, every output that
        was unmarked among them and, when the marks were closed at entry
        (as they are with no marks at all), every non-UNDEF gate of those
        cones that was not marked already. */
    method PrintNetlist(ghost rank: seq<nat>) returns (ok: bool, out: seq<string>, ghost listed: seq<nat>)
      requires Built() && Linked(gates) && Ranked(gates, rank) && const0.Ref? && const0.h < |gates|
      requires gates[const0.h].variant.ConstGate?
      modifies this`gates, this`printList
      ensures SameButMarks(old(gates), gates) && PostOrder(old(gates), listed, false)
      ensures forall i :: 0 <= i < |poList| ==> old(gates)[poList[i]].isprint || poList[i] in listed
      ensures ConeListing(old(gates), listed, poList, false, rank)
      ensures ArenaOk(gates) && Linked(gates) && Ranked(gates, rank)
      ensures forall i :: 0 <= i < |listed| ==> listed[i] < |gates|
      ensures printList == old(printList) + Lines(gates, listed)
      ensures out == [""] + Numbered(printList)
      ensures ok ==> forall k :: k in gateMap ==> gateMap[k].Ref?
      ensures !ok ==> exists k :: k in gateMap && gateMap[k].Null?
      ensures ok ==> forall x :: 0 <= x < |gates| ==>
                (gates[x].isprint <==> (old(gates)[x].isprint || x in listed) && x != const0.h && !InTable(gateMap, x))
    {
      ghost var g0, pl0 := gates, printList;
      listed := DfsOutputs(rank);
      RunCovers(g0, gates, listed, poList, false, rank);
      forall j | 0 <= j < |poList| ensures g0[poList[j]].isprint || poList[j] in listed {
        assert gates[poList[j]].isprint;
      }
      ghost var g2 := gates;
      ok := ResetPrint();
      ListingMarks(g0, pl0, g2, printList, listed, gates, rank);
      out := [""] + Numbered(printList);
    }

    /** `printPIs`: the title and the IDs of `piList` in list order,
        separated by single spaces; the IDs read back from the line. */
    function PrintPIs(): (line: string)
      reads this
      requires Built()
      ensures |line| >= 20 && line[..20] == "PIs of the circuit: "
      ensures piList == [] ==> line == "PIs of the circuit: "
      ensures piList != [] ==> ParseInts(line[20..]) == Ids(gates, piList)
    {
      IdListRoundTrip("PIs of the circuit: ", gates, piList);
      IdListLine("PIs of the circuit: ", gates, piList)
    }

    /** `printPOs`: the title and the IDs of `poList` in list order,
        separated by single spaces; the IDs read back from the line. */
    function PrintPOs(): (line: string)
      reads this
      requires Built()
      ensures |line| >= 20 && line[..20] == "POs of the circuit: "
      ensures poList == [] ==> line == "POs of the circuit: "
      ensures poList != [] ==> ParseInts(line[20..]) == Ids(gates, poList)
    {
      IdListRoundTrip("POs of the circuit: ", gates, poList);
      IdListLine("POs of the circuit: ", gates, poList)
    }

    /** `printFloatGates`: the floating-fanin IDs in list order, then the
        IDs marked defined but not used in increasing order; `flAIG` grows
        by the number of the latter on every call. */
    method PrintFloatGates() returns (out: seq<string>)
      modifies this`flAIG
      ensures out == FloatReport(floatList, undef)
      ensures flAIG == old(flAIG) + |UnusedBelow(undef, |undef|)|
    {
      out := [];
      if |floatList| != 0 {
        var s := PrintFloating(floatList);
        out := [s];
      }
      var flag, line, count := PrintUnused(undef);
      if flag {
        out := out + [line];
      }
      flAIG := flAIG + count;
    }

    /** The walks of `writeAag`: `writeDFS` from every output in list
        order; `ands` are the AND lines written. */
    method WriteOutputs(ghost rank: seq<nat>) returns (ands: seq<string>, ghost listed: seq<nat>)
      requires Built() && Linked(gates) && Ranked(gates, rank)
      modifies this`gates
      ensures WriteRun(old(gates), gates, ands, listed, rank)
      ensures RunCone(old(gates), gates, listed, poList, |poList|, true, rank)
    {
      ghost var g0 := gates;
      WriteRunStart(gates, rank);
      RunConeStart(gates, poList, true, rank);
      ands, listed := [], [];
      var i := 0;
      while i < |poList|
        invariant 0 <= i <= |poList|
        invariant forall j :: 0 <= j < |poList| ==> poList[j] < |g0|
        invariant WriteRun(g0, gates, ands, listed, rank)
        invariant RunCone(g0, gates, listed, poList, i, true, rank)
      {
        ands, listed := WriteOutput(i, g0, ands, listed, rank);
        i := i + 1;
      }
    }

    /** One round of the loop over the outputs: the walk from output i
        extends the run. */
    method WriteOutput(i: nat, ghost g0: seq<GateRec>, ands: seq<string>, ghost listed: seq<nat>, ghost rank: seq<nat>)
      returns (ands': seq<string>, ghost listed': seq<nat>)
      requires i < |poList| && forall j :: 0 <= j < |poList| ==> poList[j] < |g0|
      requires WriteRun(g0, gates, ands, listed, rank)
      requires RunCone(g0, gates, listed, poList, i, true, rank)
      modifies this`gates
      ensures WriteRun(g0, gates, ands', listed', rank)
      ensures RunCone(g0, gates, listed', poList, i + 1, true, rank)
    {
      ghost var g1 := gates;
      var y, b := WriteDfs(Ref(poList[i]), rank);
      WriteRunJoin(g0, g1, ands, listed, gates, y, b, Ref(poList[i]), rank);
      RunConeJoin(g0, g1, gates, listed, b, poList, i, true, rank);
      ands', listed' := ands + y, listed + b;
    }

    /** The middle of `writeAag`: the walks from every output, then
        `resetprint`. The AND gates written are those of the outputs' fanin
        cones; from closed marks, every one of them not marked already. */
    method WriteAndReset(ghost rank: seq<nat>) returns (ok: bool, ands: seq<string>, ghost listed: seq<nat>)
      requires Built() && Linked(gates) && Ranked(gates, rank)
      requires const0.Ref? && const0.h < |gates| && gates[const0.h].variant.ConstGate?
      modifies this`gates
      ensures AagWalked(old(gates), gates, listed) && Ranked(gates, rank)
      ensures ConeListing(old(gates), listed, poList, true, rank)
      ensures ands == AigLines(gates, listed)
      ensures ok ==> forall k :: k in gateMap ==> gateMap[k].Ref?
      ensures !ok ==> exists k :: k in gateMap && gateMap[k].Null?
      ensures ok ==> Cleared(old(gates), gates, listed, gateMap, const0.h)
    {
      ghost var g0 := gates;
      ands, listed := WriteOutputs(rank);
      RunCovers(g0, gates, listed, poList, true, rank);
      ghost var g2 := gates;
      ok := ResetPrint();
      WriteRunMarks(g0, g2, ands, listed, gates, rank);
      if ok {
        ClearedAfterWalk(g0, g2, gates, listed, gateMap, const0.h);
      }
    }

    /** `writeAag`: the header, the input literals, the output fanin
        literals, the AND lines in the order the walks from the outputs
        reach them (from closed marks: every AND gate of the outputs' cones
        not marked already, each once), the marks cleared, then the input
        and output symbols
        and the comment trailer. The header's last number is A-flAIG,
        whatever earlier `printFloatGates` calls added to flAIG. */
    method WriteAag(ghost rank: seq<nat>) returns (ok: bool, out: seq<string>, ghost listed: seq<nat>)
      requires Built() && Linked(gates) && Ranked(gates, rank) && OutputsLinked(gates, poList)
      requires const0.Ref? && const0.h < |gates| && gates[const0.h].variant.ConstGate?
      modifies this`gates
      ensures AagWalked(old(gates), gates, listed) && Ranked(gates, rank)
      ensures ConeListing(old(gates), listed, poList, true, rank)
      ensures forall j :: 0 <= j < |piList| ==> piList[j] < |old(gates)|
      ensures out == AagText(M, I, O, A, flAIG, old(gates), gates, piList, poList, listed)
      ensures ok ==> forall k :: k in gateMap ==> gateMap[k].Ref?
      ensures !ok ==> exists k :: k in gateMap && gateMap[k].Null?
      ensures ok ==> Cleared(old(gates), gates, listed, gateMap, const0.h)
    {
      var g0, pis, pos := gates, piList, poList;
      var head := Header(M, I, O, A, flAIG);
      var ins := InputLines(g0, pis);
      var outs := OutputLines(g0, pos);
      var ands;
      ok, ands, listed := WriteAndReset(rank);
      var g := gates;
      var isyms := SymbolLines(g, pis, "i");
      var osyms := SymbolLines(g, pos, "o");
      out := [head] + ins + outs + ands + isyms + osyms + ["c", "AAG file output by Bing-Jia Chen."];
      AagTextParts(M, I, O, A, flAIG, g0, g, pis, pos, listed, head, ins, outs, ands, isyms, osyms);
    }
  }
}
