/** The ASCII AIGER ("aag") text `writeAag` produces: the header, the input
    and output literal lines, one `lhs rhs0 rhs1` line per AND gate in the
    order `writeDFS` reaches them, the symbol lines and the comment
    trailer. */
module Aag {
  import opened Text
  import opened Literal
  import opened CirGate
  import opened Circuit
  import opened Netlist
  import opened Walk
  import opened Keys

  /** The literal written for a pointer to gate p with inversion flag inv:
      twice the gate's ID, plus one when inverted. */
  function OutLit(gates: seq<GateRec>, p: Ptr, inv: bool): (lit: int)
    requires p.Ref? && p.h < |gates|
    ensures GetID(gates[p.h]) >= 0 ==> lit >= 0 && LitId(lit) == GetID(gates[p.h]) && LitInv(lit) == inv
  {
    2 * GetID(gates[p.h]) + if inv then 1 else 0
  }

  /** The line written for AND gate h. */
  function AigLine(gates: seq<GateRec>, h: nat): string
    requires ArenaOk(gates) && Linked(gates) && h < |gates| && gates[h].variant.AigGate?
  {
    var g := gates[h];
    assert GateOk(|gates|, g);
    JoinInts([2 * GetID(g), OutLit(gates, g.fanin0, g.inv0), OutLit(gates, g.fanin1, g.inv1)])
  }

  /** An AND line reads back as three literals naming the gate and its two
      fanins with their inversion flags. */
  lemma AigLineRoundTrip(gates: seq<GateRec>, h: nat)
    requires ArenaOk(gates) && Linked(gates) && h < |gates| && gates[h].variant.AigGate?
    ensures GateOk(|gates|, gates[h])
    ensures
      var g := gates[h];
      var xs := ParseInts(AigLine(gates, h));
      && |xs| == 3 && xs[0] == 2 * GetID(g)
      && (GetID(g) >= 0 ==> LitId(xs[0]) == GetID(g) && !LitInv(xs[0]))
      && (GetID(gates[g.fanin0.h]) >= 0 ==>
            xs[1] >= 0 && LitId(xs[1]) == GetID(gates[g.fanin0.h]) && LitInv(xs[1]) == g.inv0)
      && (GetID(gates[g.fanin1.h]) >= 0 ==>
            xs[2] >= 0 && LitId(xs[2]) == GetID(gates[g.fanin1.h]) && LitInv(xs[2]) == g.inv1)
  {
    var g := gates[h];
    assert GateOk(|gates|, g);
    JoinRoundTrip([2 * GetID(g), OutLit(gates, g.fanin0, g.inv0), OutLit(gates, g.fanin1, g.inv1)]);
  }

  /** The lines of the AND gates `hs`, in order. */
  function AigLines(gates: seq<GateRec>, hs: seq<nat>): (r: seq<string>)
    requires ArenaOk(gates) && Linked(gates)
    requires forall i :: 0 <= i < |hs| ==> hs[i] < |gates| && gates[hs[i]].variant.AigGate?
    ensures |r| == |hs| && forall i :: 0 <= i < |hs| ==> r[i] == AigLine(gates, hs[i])
  {
    seq(|hs|, i requires 0 <= i < |hs| => AigLine(gates, hs[i]))
  }

  /** Changing marks changes no AND line. */
  lemma AigLineKeep(g: seq<GateRec>, g': seq<GateRec>, h: nat)
    requires SameButMarks(g, g') && ArenaOk(g) && Linked(g) && ArenaOk(g') && Linked(g')
    requires h < |g| && g[h].variant.AigGate?
    ensures g'[h].variant.AigGate? && AigLine(g', h) == AigLine(g, h)
  {
    assert GateOk(|g|, g[h]);
    assert g'[h] == g[h].(isprint := g'[h].isprint);
    var q0, q1 := g[h].fanin0, g[h].fanin1;
    assert g'[q0.h] == g[q0.h].(isprint := g'[q0.h].isprint);
    assert g'[q1.h] == g[q1.h].(isprint := g'[q1.h].isprint);
  }

  /** The AND lines of two walks in a row are those of the joined walk. */
  lemma AigLinesJoin(g: seq<GateRec>, g': seq<GateRec>, a: seq<nat>, b: seq<nat>, rank: seq<nat>)
    requires SameButMarks(g, g') && ArenaOk(g) && Linked(g) && Ranked(g, rank)
    requires forall i :: 0 <= i < |a| ==> a[i] < |g| && g[a[i]].variant.AigGate?
    requires forall i :: 0 <= i < |b| ==> b[i] < |g'| && g'[b[i]].variant.AigGate?
    ensures ArenaOk(g') && Linked(g')
    ensures forall i :: 0 <= i < |a + b| ==> (a + b)[i] < |g'| && g'[(a + b)[i]].variant.AigGate?
    ensures AigLines(g, a) + AigLines(g', b) == AigLines(g', a + b)
  {
    MarksKeep(g, g', rank);
    forall i | 0 <= i < |a| ensures g'[a[i]].variant.AigGate? && AigLine(g', a[i]) == AigLine(g, a[i]) {
      AigLineKeep(g, g', a[i]);
    }
  }

  /** What one `writeDFS(p)` call does: it keeps the arena linked and
      ranked, it is a walk over AND gates that listed `listed`, `out` is
      exactly their lines, it leaves p marked when p is an AND gate, it
      lists no gate ranked above p, and it keeps to p's fanin cone and
      (from closed marks) marks every AND gate of it. */
  predicate WritePost(g0: seq<GateRec>, g: seq<GateRec>, out: seq<string>, listed: seq<nat>, p: Ptr, rank: seq<nat>) {
    WriteBody(g0, g, out, listed, p, rank) && ConePost(g0, g, listed, p, true, rank)
  }

  /** WritePost without the cone part. */
  predicate WriteBody(g0: seq<GateRec>, g: seq<GateRec>, out: seq<string>, listed: seq<nat>, p: Ptr, rank: seq<nat>) {
    && ArenaOk(g) && Linked(g) && Ranked(g, rank)
    && Walked(g0, g, listed, true)
    && (forall i :: 0 <= i < |listed| ==> listed[i] < |g| && g[listed[i]].variant.AigGate?)
    && out == AigLines(g, listed)
    && (p.Ref? && p.h < |g| && g[p.h].variant.AigGate? ==> g[p.h].isprint)
    && (forall i :: 0 <= i < |listed| ==> p.Ref? && p.h < |rank| && rank[listed[i]] <= rank[p.h])
  }

  /** A null or already marked start writes nothing. */
  lemma WriteSkip(g: seq<GateRec>, p: Ptr, rank: seq<nat>)
    requires ArenaOk(g) && Linked(g) && Ranked(g, rank) && ValidPtr(g, p)
    requires p.Null? || g[p.h].isprint
    ensures WritePost(g, g, [], [], p, rank)
  {
    WalkedNone(g, true);
    assert AigLines(g, []) == [];
    ConeSkip(g, p, true, rank);
  }

  /** Both fanin walks of gate o, joined: a walk whose gates all rank below
      o, so o itself is still unmarked. */
  lemma WriteChildren(g0: seq<GateRec>, g1: seq<GateRec>, g2: seq<GateRec>, x: seq<string>, y: seq<string>,
                      a: seq<nat>, b: seq<nat>, o: nat, rank: seq<nat>)
    requires ArenaOk(g0) && Linked(g0) && Ranked(g0, rank) && o < |g0| && !g0[o].isprint
    requires WritePost(g0, g1, x, a, g0[o].fanin0, rank)
    requires WritePost(g1, g2, y, b, g0[o].fanin1, rank)
    ensures Walked(g0, g2, a + b, true) && !g2[o].isprint && g2[o].variant == g0[o].variant
    ensures forall i :: 0 <= i < |a + b| ==> (a + b)[i] < |g2| && g2[(a + b)[i]].variant.AigGate?
    ensures x + y == AigLines(g2, a + b)
    ensures forall i :: 0 <= i < |a + b| ==> rank[(a + b)[i]] < rank[o]
    ensures Listable(g2[o], true) ==>
              Done(g0, g0[o].fanin0, a + b, true) && Done(g0, g0[o].fanin1, a + b, true)
  {
    assert GateOk(|g0|, g0[o]);
    assert forall i :: 0 <= i < |a| ==> a[i] < |rank| && rank[a[i]] < rank[o];
    assert forall i :: 0 <= i < |b| ==> b[i] < |rank| && rank[b[i]] < rank[o];
    BelowBoth(a, b, rank, rank[o]);
    WalkedJoin(g0, g1, g2, a, b, true);
    AigLinesJoin(g1, g2, a, b, rank);
    assert g1[o] == g0[o].(isprint := g1[o].isprint);
    assert g2[o] == g0[o].(isprint := g2[o].isprint);
    if Listable(g2[o], true) {
      DoneReached(g0, g1, a, g0[o].fanin0, true);
      DoneMore(g0, g0[o].fanin0, a, b, true);
      DoneReached(g1, g2, b, g1[o].fanin1, true);
      DoneAfter(g0, g1, a, b, g0[o].fanin1, true);
    }
  }

  /** A gate other than an AND gate is walked through but neither written
      nor marked. */
  lemma WriteThrough(g0: seq<GateRec>, g1: seq<GateRec>, g2: seq<GateRec>, x: seq<string>, y: seq<string>,
                     a: seq<nat>, b: seq<nat>, o: nat, rank: seq<nat>)
    requires ArenaOk(g0) && Linked(g0) && Ranked(g0, rank) && o < |g0| && !g0[o].isprint
    requires WritePost(g0, g1, x, a, g0[o].fanin0, rank)
    requires WritePost(g1, g2, y, b, g0[o].fanin1, rank)
    requires !g2[o].variant.AigGate?
    ensures WritePost(g0, g2, x + y, a + b, Ref(o), rank)
  {
    WriteChildren(g0, g1, g2, x, y, a, b, o, rank);
    ConeJoin(g0, g1, g2, g2, a, b, a + b, o, true, rank);
  }

  /** An AND gate is written after its fanins and marked. */
  lemma WriteAnd(g0: seq<GateRec>, g1: seq<GateRec>, g2: seq<GateRec>, x: seq<string>, y: seq<string>,
                 a: seq<nat>, b: seq<nat>, o: nat, rank: seq<nat>)
    requires ArenaOk(g0) && Linked(g0) && Ranked(g0, rank) && o < |g0| && !g0[o].isprint
    requires WritePost(g0, g1, x, a, g0[o].fanin0, rank)
    requires WritePost(g1, g2, y, b, g0[o].fanin1, rank)
    requires g2[o].variant.AigGate?
    ensures WritePost(g0, g2[o := SetPrint(g2[o])], x + y + [AigLine(g2, o)], a + b + [o], Ref(o), rank)
  {
    WriteChildren(g0, g1, g2, x, y, a, b, o, rank);
    WriteLast(g0, g2, x + y, a + b, o, rank);
    ConeJoin(g0, g1, g2, g2[o := SetPrint(g2[o])], a, b, a + b + [o], o, true, rank);
  }

  /** Writing gate o after a walk that settled both its fanins. */
  lemma WriteLast(g0: seq<GateRec>, g2: seq<GateRec>, out: seq<string>, c: seq<nat>, o: nat, rank: seq<nat>)
    requires ArenaOk(g2) && Linked(g2) && Ranked(g2, rank) && Walked(g0, g2, c, true)
    requires o < |g2| && !g2[o].isprint && g2[o].variant.AigGate? && g2[o].variant == g0[o].variant
    requires forall i :: 0 <= i < |c| ==> c[i] < |g2| && g2[c[i]].variant.AigGate?
    requires forall i :: 0 <= i < |c| ==> rank[c[i]] < rank[o]
    requires Done(g0, g0[o].fanin0, c, true) && Done(g0, g0[o].fanin1, c, true)
    requires out == AigLines(g2, c)
    ensures WriteBody(g0, g2[o := SetPrint(g2[o])], out + [AigLine(g2, o)], c + [o], Ref(o), rank)
  {
    assert g2[o] == g0[o].(isprint := g2[o].isprint);
    WalkedPush(g0, g2, c, o, true);
    MarkAig(g2, c, o, rank);
  }

  /** Marking AND gate o keeps the arena linked and ranked, and the lines
      of c followed by o's line are the lines of c + [o] read after. */
  lemma MarkAig(g2: seq<GateRec>, c: seq<nat>, o: nat, rank: seq<nat>)
    requires ArenaOk(g2) && Linked(g2) && Ranked(g2, rank)
    requires o < |g2| && g2[o].variant.AigGate?
    requires forall i :: 0 <= i < |c| ==> c[i] < |g2| && g2[c[i]].variant.AigGate?
    ensures var g3 := g2[o := SetPrint(g2[o])];
      && ArenaOk(g3) && Linked(g3) && Ranked(g3, rank)
      && (forall i :: 0 <= i < |c + [o]| ==> (c + [o])[i] < |g3| && g3[(c + [o])[i]].variant.AigGate?)
      && AigLines(g2, c) + [AigLine(g2, o)] == AigLines(g3, c + [o])
  {
    var g3 := g2[o := SetPrint(g2[o])];
    assert SameButMarks(g2, g3);
    MarksKeep(g2, g3, rank);
    AigLineKeep(g2, g3, o);
    assert AigLines(g3, [o]) == [AigLine(g2, o)];
    AigLinesJoin(g2, g3, c, [o], rank);
  }

  /** The header line `aag M I 0 O A-flAIG`; its five numbers read back. */
  function Header(m: int, i: int, o: int, a: int, flAIG: int): (line: string)
    ensures |line| >= 4 && line[..4] == "aag "
    ensures ParseInts(line[4..]) == [m, i, 0, o, a - flAIG]
  {
    var xs := [m, i, 0, o, a - flAIG];
    JoinRoundTrip(xs);
    assert ("aag " + JoinInts(xs))[4..] == JoinInts(xs);
    "aag " + JoinInts(xs)
  }

  /** One line per input: twice its ID. */
  function InputLines(gates: seq<GateRec>, pis: seq<nat>): (r: seq<string>)
    requires forall i :: 0 <= i < |pis| ==> pis[i] < |gates|
  {
    seq(|pis|, i requires 0 <= i < |pis| => IntToString(2 * GetID(gates[pis[i]])))
  }

  /** Each input line reads back as the non-inverted literal of its gate. */
  lemma InputLinesRead(gates: seq<GateRec>, pis: seq<nat>)
    requires forall i :: 0 <= i < |pis| ==> pis[i] < |gates|
    ensures |InputLines(gates, pis)| == |pis|
    ensures forall i :: 0 <= i < |pis| ==> ParseInt(InputLines(gates, pis)[i]) == 2 * GetID(gates[pis[i]])
    ensures forall i :: 0 <= i < |pis| && GetID(gates[pis[i]]) >= 0 ==>
              LitId(2 * GetID(gates[pis[i]])) == GetID(gates[pis[i]]) && !LitInv(2 * GetID(gates[pis[i]]))
  {
    forall i | 0 <= i < |pis| ensures ParseInt(InputLines(gates, pis)[i]) == 2 * GetID(gates[pis[i]]) {
      IntRoundTrip(2 * GetID(gates[pis[i]]));
    }
  }

  /** Every output has its fanin set. */
  predicate OutputsLinked(gates: seq<GateRec>, pos: seq<nat>) {
    forall i :: 0 <= i < |pos| ==> pos[i] < |gates| && gates[pos[i]].fanin0.Ref? && gates[pos[i]].fanin0.h < |gates|
  }

  /** One line per output: the literal of its fanin. */
  function OutputLines(gates: seq<GateRec>, pos: seq<nat>): (r: seq<string>)
    requires OutputsLinked(gates, pos)
  {
    seq(|pos|, i requires 0 <= i < |pos| => IntToString(OutLit(gates, gates[pos[i]].fanin0, gates[pos[i]].inv0)))
  }

  /** Each output line reads back as its fanin's ID and inversion flag. */
  lemma OutputLinesRead(gates: seq<GateRec>, pos: seq<nat>)
    requires OutputsLinked(gates, pos)
    ensures |OutputLines(gates, pos)| == |pos|
    ensures forall i :: 0 <= i < |pos| ==>
              var g := gates[pos[i]];
              var lit := ParseInt(OutputLines(gates, pos)[i]);
              GetID(gates[g.fanin0.h]) >= 0 ==>
                lit >= 0 && LitId(lit) == GetID(gates[g.fanin0.h]) && LitInv(lit) == g.inv0
  {
    forall i | 0 <= i < |pos|
      ensures ParseInt(OutputLines(gates, pos)[i]) == OutLit(gates, gates[pos[i]].fanin0, gates[pos[i]].inv0)
    {
      IntRoundTrip(OutLit(gates, gates[pos[i]].fanin0, gates[pos[i]].inv0));
    }
  }

  /** The positions below n in `hs` whose gate has a symbol, in order. */
  function NamedBelow(gates: seq<GateRec>, hs: seq<nat>, n: nat): seq<nat>
    requires n <= |hs| && forall i :: 0 <= i < |hs| ==> hs[i] < |gates|
  {
    if n == 0 then []
    else NamedBelow(gates, hs, n - 1) + if gates[hs[n - 1]].symbol != "" then [n - 1] else []
  }

  /** Exactly the positions whose gate has a symbol, each once, in
      increasing order. */
  lemma {:induction false} NamedBelowExact(gates: seq<GateRec>, hs: seq<nat>, n: nat)
    requires n <= |hs| && forall i :: 0 <= i < |hs| ==> hs[i] < |gates|
    ensures forall x: nat :: x in NamedBelow(gates, hs, n) <==> x < n && gates[hs[x]].symbol != ""
    ensures forall j :: 0 <= j < |NamedBelow(gates, hs, n)| ==> NamedBelow(gates, hs, n)[j] < n
    ensures forall j, k :: 0 <= j < k < |NamedBelow(gates, hs, n)| ==>
              NamedBelow(gates, hs, n)[j] < NamedBelow(gates, hs, n)[k]
  {
    if n > 0 {
      NamedBelowExact(gates, hs, n - 1);
    }
  }

  /** `i<pos> name` (or `o<pos> name`) for every listed gate with a symbol. */
  function SymbolLines(gates: seq<GateRec>, hs: seq<nat>, tag: string): (r: seq<string>)
    requires forall i :: 0 <= i < |hs| ==> hs[i] < |gates|
  {
    var ix := NamedBelow(gates, hs, |hs|);
    NamedBelowExact(gates, hs, |hs|);
    seq(|ix|, k requires 0 <= k < |ix| => tag + IntToString(ix[k]) + " " + gates[hs[ix[k]]].symbol)
  }

  /** A run of AAG walks from g0: arena linked and ranked, one walk overall
      that listed `listed`, and `out` their AND lines. */
  predicate WriteRun(g0: seq<GateRec>, g: seq<GateRec>, out: seq<string>, listed: seq<nat>, rank: seq<nat>) {
    && ArenaOk(g) && Linked(g) && Ranked(g, rank)
    && Walked(g0, g, listed, true)
    && (forall i :: 0 <= i < |listed| ==> listed[i] < |g| && g[listed[i]].variant.AigGate?)
    && out == AigLines(g, listed)
  }

  lemma WriteRunStart(g: seq<GateRec>, rank: seq<nat>)
    requires ArenaOk(g) && Linked(g) && Ranked(g, rank)
    ensures WriteRun(g, g, [], [], rank)
  {
    WalkedNone(g, true);
    assert AigLines(g, []) == [];
  }

  /** One more walk extends the run. */
  lemma WriteRunJoin(g0: seq<GateRec>, g1: seq<GateRec>, x: seq<string>, a: seq<nat>,
                     g2: seq<GateRec>, y: seq<string>, b: seq<nat>, p: Ptr, rank: seq<nat>)
    requires WriteRun(g0, g1, x, a, rank) && WritePost(g1, g2, y, b, p, rank)
    ensures WriteRun(g0, g2, x + y, a + b, rank)
  {
    WalkedJoin(g0, g1, g2, a, b, true);
    AigLinesJoin(g1, g2, a, b, rank);
  }

  /** What `writeAag` leaves behind: only marks changed, the AND gates
      `listed` in walk order, the arena still linked. */
  predicate AagWalked(g0: seq<GateRec>, g: seq<GateRec>, listed: seq<nat>) {
    && SameButMarks(g0, g) && PostOrder(g0, listed, true) && ArenaOk(g) && Linked(g)
    && (forall i :: 0 <= i < |listed| ==> listed[i] < |g| && g[listed[i]].variant.AigGate?)
  }

  /** The whole AAG file: header, input literals, output literals, AND
      lines, input symbols, output symbols and the comment trailer. */
  function AagText(m: int, i: int, o: int, a: int, flAIG: int, g0: seq<GateRec>, g: seq<GateRec>,
                   pis: seq<nat>, pos: seq<nat>, listed: seq<nat>): seq<string>
    requires AagWalked(g0, g, listed) && OutputsLinked(g0, pos)
    requires forall j :: 0 <= j < |pis| ==> pis[j] < |g0|
  {
    [Header(m, i, o, a, flAIG)] + InputLines(g0, pis) + OutputLines(g0, pos) + AigLines(g, listed)
    + SymbolLines(g, pis, "i") + SymbolLines(g, pos, "o") + ["c", "AAG file output by Bing-Jia Chen."]
  }

  /** The file assembled from its parts is `AagText`. */
  lemma AagTextParts(m: int, i: int, o: int, a: int, flAIG: int, g0: seq<GateRec>, g: seq<GateRec>,
                     pis: seq<nat>, pos: seq<nat>, listed: seq<nat>,
                     head: string, ins: seq<string>, outs: seq<string>, ands: seq<string>, isyms: seq<string>, osyms: seq<string>)
    requires AagWalked(g0, g, listed) && OutputsLinked(g0, pos)
    requires forall j :: 0 <= j < |pis| ==> pis[j] < |g0|
    requires head == Header(m, i, o, a, flAIG) && ins == InputLines(g0, pis) && outs == OutputLines(g0, pos)
    requires ands == AigLines(g, listed) && isyms == SymbolLines(g, pis, "i") && osyms == SymbolLines(g, pos, "o")
    ensures AagText(m, i, o, a, flAIG, g0, g, pis, pos, listed)
            == [head] + ins + outs + ands + isyms + osyms + ["c", "AAG file output by Bing-Jia Chen."]
  {
  }

  /** Marks changed after the run leave its lines as they were. */
  lemma WriteRunMarks(g0: seq<GateRec>, g: seq<GateRec>, out: seq<string>, listed: seq<nat>, g': seq<GateRec>, rank: seq<nat>)
    requires WriteRun(g0, g, out, listed, rank) && SameButMarks(g, g')
    ensures AagWalked(g0, g', listed) && Ranked(g', rank)
    ensures out == AigLines(g', listed)
  {
    MarksKeep(g, g', rank);
    AigLinesJoin(g, g', [], listed, rank);
    assert AigLines(g, []) == [];
  }
}
