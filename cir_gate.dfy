/** The gate record of an And-Inverter Graph: the base `CirGate` fields and
    the five variants (PI, PO, AIG, UNDEF placeholder, constant 0). */
module CirGate {

  /** A gate pointer: null, or a handle into the manager's gate arena. */
  datatype Ptr = Null | Ref(h: nat)

  /** The data each variant's constructor fixes: its own ID and the
      (fanin ID, inverted) pairs it was declared with. */
  datatype Variant =
    | PiGate(gid: int)
    | PoGate(gid: int, f: int, i: bool)
    | AigGate(gid: int, f0: int, f1: int, i1: bool, i2: bool)
    | UndefGate(gid: int)
    | ConstGate

  /** The base-class fields: symbol, line number, fanout list (handles of the
      gates that use this one), resolved fanin pointers with their
      inversion flags, and the print marker. */
  datatype GateRec = GateRec(
    variant: Variant,
    symbol: string,
    lineNo: nat,
    fanout: seq<nat>,
    fanin0: Ptr,
    fanin1: Ptr,
    inv0: bool,
    inv1: bool,
    isprint: bool)

  /** What the base constructor leaves: null fanins, no inversion, line 0,
      empty symbol, unmarked, no fanouts. */
  predicate IsPristine(g: GateRec) {
    && g.fanin0 == Null && g.fanin1 == Null
    && !g.inv0 && !g.inv1
    && g.symbol == "" && !g.isprint && g.fanout == []
  }

  function TypeStr(g: GateRec): string {
    match g.variant
    case PiGate(_) => "Pi"
    case PoGate(_, _, _) => "Po"
    case AigGate(_, _, _, _, _) => "Aig"
    case UndefGate(_) => "UNDEF"
    case ConstGate => "const"
  }

  function GetID(g: GateRec): int {
    match g.variant
    case PiGate(id) => id
    case PoGate(id, _, _) => id
    case AigGate(id, _, _, _, _) => id
    case UndefGate(id) => id
    case ConstGate => 0
  }

  function GetPair0(g: GateRec): (int, bool) {
    match g.variant
    case PoGate(_, f, i) => (f, i)
    case AigGate(_, f0, _, i1, _) => (f0, i1)
    case _ => (0, false)
  }

  function GetPair1(g: GateRec): (int, bool) {
    match g.variant
    case AigGate(_, _, f1, _, i2) => (f1, i2)
    case _ => (0, false)
  }

  function Pristine(v: Variant, lineNo: nat): GateRec {
    GateRec(v, "", lineNo, [], Null, Null, false, false, false)
  }

  function MakePi(id: int, lineNo: nat): (g: GateRec)
    ensures IsPristine(g) && g.lineNo == lineNo
    ensures TypeStr(g) == "Pi" && GetID(g) == id
    ensures GetPair0(g) == (0, false) && GetPair1(g) == (0, false)
  {
    Pristine(PiGate(id), lineNo)
  }

  function MakePo(f: int, id: int, i: bool, lineNo: nat): (g: GateRec)
    ensures IsPristine(g) && g.lineNo == lineNo
    ensures TypeStr(g) == "Po" && GetID(g) == id
    ensures GetPair0(g) == (f, i) && GetPair1(g) == (0, false)
  {
    Pristine(PoGate(id, f, i), lineNo)
  }

  function MakeAig(f0: int, f1: int, id: int, i1: bool, i2: bool, lineNo: nat): (g: GateRec)
    ensures IsPristine(g) && g.lineNo == lineNo
    ensures TypeStr(g) == "Aig" && GetID(g) == id
    ensures GetPair0(g) == (f0, i1) && GetPair1(g) == (f1, i2)
  {
    Pristine(AigGate(id, f0, f1, i1, i2), lineNo)
  }

  function MakeUndef(id: int): (g: GateRec)
    ensures IsPristine(g) && g.lineNo == 0
    ensures TypeStr(g) == "UNDEF" && GetID(g) == id
    ensures GetPair0(g) == (0, false) && GetPair1(g) == (0, false)
  {
    Pristine(UndefGate(id), 0)
  }

  function MakeConst(): (g: GateRec)
    ensures IsPristine(g) && g.lineNo == 0
    ensures TypeStr(g) == "const" && GetID(g) == 0
    ensures GetPair0(g) == (0, false) && GetPair1(g) == (0, false)
  {
    Pristine(ConstGate, 0)
  }

  /** `setFanin0(p, i)`: only `_fanin0` and `_inv0` change. */
  function SetFanin0(g: GateRec, p: Ptr, i: bool): (r: GateRec)
    ensures r.fanin0 == p && r.inv0 == i
    ensures r.(fanin0 := g.fanin0, inv0 := g.inv0) == g
  {
    g.(fanin0 := p, inv0 := i)
  }

  /** `setFanin1(p, i)`: only `_fanin1` and `_inv1` change. */
  function SetFanin1(g: GateRec, p: Ptr, i: bool): (r: GateRec)
    ensures r.fanin1 == p && r.inv1 == i
    ensures r.(fanin1 := g.fanin1, inv1 := g.inv1) == g
  {
    g.(fanin1 := p, inv1 := i)
  }

  function SetSymbol(g: GateRec, s: string): (r: GateRec)
    ensures r.symbol == s
    ensures r.(symbol := g.symbol) == g
  {
    g.(symbol := s)
  }

  predicate CheckPrint(g: GateRec) {
    g.isprint
  }

  function SetPrint(g: GateRec): (r: GateRec)
    ensures CheckPrint(r)
    ensures r.(isprint := g.isprint) == g
  {
    g.(isprint := true)
  }

  function ResetPrint(g: GateRec): (r: GateRec)
    ensures !CheckPrint(r)
    ensures r.(isprint := g.isprint) == g
  {
    g.(isprint := false)
  }

  /** `pushFanout(p)`: `p` lands at the end, earlier entries keep their order. */
  function PushFanout(g: GateRec, p: nat): (r: GateRec)
    ensures |r.fanout| == |g.fanout| + 1
    ensures r.fanout[..|g.fanout|] == g.fanout && r.fanout[|g.fanout|] == p
    ensures r.(fanout := g.fanout) == g
  {
    g.(fanout := g.fanout + [p])
  }
}
