/** The lines `printNetlist` lists: one per gate, with each fanin written as
    a marker followed by the fanin's ID. */
module Netlist {
  import opened Text
  import opened CirGate
  import opened Circuit

  /** Every pointer the listing dereferences is set: both fanins of an AND
      gate and the fanin of an output. */
  predicate Linked(gates: seq<GateRec>) {
    forall h :: 0 <= h < |gates| ==>
      && (gates[h].variant.AigGate? ==> gates[h].fanin0.Ref? && gates[h].fanin1.Ref?)
      && (gates[h].variant.PoGate? ==> gates[h].fanin0.Ref?)
  }

  /** The marker in front of a fanin ID: `*` for an UNDEF fanin, `!` for an
      inverted one, both for both, nothing for neither. */
  function FaninMark(undef: bool, inv: bool): string {
    if undef && inv then " *!"
    else if inv then " !"
    else if undef then " *"
    else " "
  }

  /** The marker as the listing code writes it: an UNDEF fanin that is not
      inverted gets `!`, the marker of an inverted defined fanin. */
  function FaninMarkAsWritten(undef: bool, inv: bool): string {
    if undef && inv then " *!"
    else if inv then " !"
    else if undef then " !"
    else " "
  }

  /** The listing code and the intended marker part ways on exactly one
      case: an UNDEF fanin that is not inverted. */
  lemma MarkAsWrittenDiffers(undef: bool, inv: bool)
    ensures FaninMarkAsWritten(undef, inv) != FaninMark(undef, inv) <==> undef && !inv
  {
  }

  function FaninText(undef: bool, inv: bool, id: int): string {
    FaninMark(undef, inv) + IntToString(id)
  }

  function FaninTextAsWritten(undef: bool, inv: bool, id: int): string {
    FaninMarkAsWritten(undef, inv) + IntToString(id)
  }

  /** Reading a fanin field back: the UNDEF flag, the inversion flag and
      the ID. */
  function DecodeFanin(t: string): (bool, bool, int) {
    var undef := |t| >= 2 && t[1] == '*';
    var r1 := if undef then t[2..] else if |t| >= 1 then t[1..] else [];
    var inv := |r1| >= 1 && r1[0] == '!';
    var r2 := if inv then r1[1..] else r1;
    (undef, inv, ParseInt(r2))
  }

  /** A printed integer starts with a digit or a minus sign. */
  lemma IntStart(id: int)
    ensures |IntToString(id)| >= 1
    ensures IntToString(id)[0] != '*' && IntToString(id)[0] != '!'
  {
    if id >= 0 {
      assert IsDigit(NatToString(id)[0]);
    }
  }

  /** The intended marker loses nothing: flags and ID read back. */
  lemma FaninRoundTrip(undef: bool, inv: bool, id: int)
    ensures DecodeFanin(FaninText(undef, inv, id)) == (undef, inv, id)
  {
    var s := IntToString(id);
    var t := FaninText(undef, inv, id);
    IntStart(id);
    IntRoundTrip(id);
    var m := FaninMark(undef, inv);
    assert t == m + s;
    assert t[|m|..] == s;
    if undef && inv {
      assert t[2..][1..] == s;
    } else if inv {
      assert t[1..][1..] == s;
    } else if undef {
      assert t[2..] == s;
    } else {
      assert t[1..] == s;
    }
  }

  /** As written, a defined inverted fanin and an UNDEF non-inverted fanin
      with the same ID print the same text, so no reader can tell them
      apart. */
  lemma AsWrittenAmbiguous(id: int)
    ensures FaninTextAsWritten(true, false, id) == FaninTextAsWritten(false, true, id)
    ensures FaninText(true, false, id) != FaninText(false, true, id)
  {
    FaninRoundTrip(true, false, id);
    FaninRoundTrip(false, true, id);
  }

  /** The fanin field for pointer p with inversion flag inv. */
  function FaninField(gates: seq<GateRec>, p: Ptr, inv: bool): string
    requires p.Ref? && p.h < |gates|
  {
    FaninText(gates[p.h].variant.UndefGate?, inv, GetID(gates[p.h]))
  }

  /** ` (symbol)` when a symbol is set. */
  function SymbolSuffix(sym: string): string {
    if sym != "" then " (" + sym + ")" else ""
  }

  /** The listing line of gate h: kind tag, ID, fanin fields and symbol. */
  function GateLine(gates: seq<GateRec>, h: nat): (line: string)
    requires ArenaOk(gates) && Linked(gates) && h < |gates|
    ensures gates[h].variant.PiGate? ==> |line| >= 4 && line[..4] == "PI  "
    ensures gates[h].variant.AigGate? ==> |line| >= 4 && line[..4] == "AIG "
    ensures gates[h].variant.PoGate? ==> |line| >= 4 && line[..4] == "PO  "
    ensures gates[h].variant.ConstGate? ==> line == "CONST0"
  {
    var g := gates[h];
    assert GateOk(|gates|, g);
    match g.variant
    case PiGate(_) => "PI  " + IntToString(GetID(g)) + SymbolSuffix(g.symbol)
    case AigGate(_, _, _, _, _) =>
      "AIG " + IntToString(GetID(g)) + FaninField(gates, g.fanin0, g.inv0) + FaninField(gates, g.fanin1, g.inv1)
    case PoGate(_, _, _) =>
      "PO  " + IntToString(GetID(g)) + FaninField(gates, g.fanin0, g.inv0) + SymbolSuffix(g.symbol)
    case ConstGate => "CONST0"
    case UndefGate(_) => ""
  }

  /** The lines of the gates `hs`, in order. */
  function Lines(gates: seq<GateRec>, hs: seq<nat>): (r: seq<string>)
    requires ArenaOk(gates) && Linked(gates)
    requires forall i :: 0 <= i < |hs| ==> hs[i] < |gates|
    ensures |r| == |hs| && forall i :: 0 <= i < |hs| ==> r[i] == GateLine(gates, hs[i])
  {
    seq(|hs|, i requires 0 <= i < |hs| => GateLine(gates, hs[i]))
  }

  /** `[i] line`, the numbered form `printNetlist` writes. */
  function Numbered(lines: seq<string>): (r: seq<string>)
    ensures |r| == |lines|
    ensures forall i :: 0 <= i < |lines| ==> r[i] == "[" + NatToString(i) + "] " + lines[i]
  {
    seq(|lines|, i requires 0 <= i < |lines| => "[" + NatToString(i) + "] " + lines[i])
  }

  /** The IDs of the gates `hs`, in order. */
  function Ids(gates: seq<GateRec>, hs: seq<nat>): (r: seq<int>)
    requires forall i :: 0 <= i < |hs| ==> hs[i] < |gates|
    ensures |r| == |hs| && forall i :: 0 <= i < |hs| ==> r[i] == GetID(gates[hs[i]])
  {
    seq(|hs|, i requires 0 <= i < |hs| => GetID(gates[hs[i]]))
  }

  /** `printPIs`/`printPOs`: the title, then the IDs separated by single
      spaces with none after the last. */
  function IdListLine(title: string, gates: seq<GateRec>, hs: seq<nat>): string
    requires forall i :: 0 <= i < |hs| ==> hs[i] < |gates|
  {
    title + JoinInts(Ids(gates, hs))
  }

  /** The ID list reads back in order after the title. */
  lemma IdListRoundTrip(title: string, gates: seq<GateRec>, hs: seq<nat>)
    requires forall i :: 0 <= i < |hs| ==> hs[i] < |gates|
    ensures var line := IdListLine(title, gates, hs);
      && |line| >= |title| && line[..|title|] == title
      && (hs == [] ==> line == title)
      && (hs != [] ==> ParseInts(line[|title|..]) == Ids(gates, hs))
  {
    var ids := Ids(gates, hs);
    assert (title + JoinInts(ids))[|title|..] == JoinInts(ids);
    if hs != [] {
      JoinRoundTrip(ids);
    }
  }
}
