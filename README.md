# SATRAR circuit manager — a Dafny model

SATRAR reads a combinational circuit in the ASCII AIGER ("aag") format into an
And-Inverter Graph. The graph holds primary inputs, primary outputs, two-input
AND gates, the constant-0 gate and UNDEF placeholders for IDs that are used but
never defined. From this graph it:

- prints a post-order netlist;
- writes the circuit back as aag;
- runs a three-valued mandatory-assignment engine (`traverseWt`);
- collects the dominator-like "Gd" sets and the side-input assumptions that its
  SAT-based redundancy-addition-and-removal loop uses.

This project models that core: the manager `CirMgr` (`src/cir/cirMgr.cpp`,
`src/cir/cirMgr.h`) and the gate record `CirGate` (`src/cir/cirGate.h`).

How the model is laid out:

- **Gates live in an arena.** Gate objects are elements of `gates: seq<GateRec>`
  in class `Manager.CirMgr`. A `CirGate*` is a `Ptr`: either `Null` or `Ref(h)`,
  where `h` is an index into the arena.
- **`GateMap` is a map.** It is a `map<int, Ptr>`. A `find` is `Circuit.Lookup`.
  A read through `operator[]` is `Circuit.Index`, which inserts a null entry
  when the key is missing, as the source does.
- **The assignment maps are `map<int, int>`.** These are `excite`, `MA1`/`MA2`
  and `check_gd`. Their `operator[]` reads are `AssignMaps.Touch` and
  `AssignMaps.Get`: a missing key reads 0 and is inserted.
- **Null dereferences become an error result.** Where the source would
  dereference a null pointer or a missing entry, the model returns `ok == false`
  instead.

Modules:

| module | what it holds |
|---|---|
| `Literal` | AIGER literal decoding and encoding |
| `CirGate` | the gate record, its five variants, and its setters as record updates |
| `Circuit`, `Connect` | the arena, the table, and fanin resolution in `connect` |
| `Walk`, `Netlist`, `Aag`, `Report`, `Text` | the netlist and aag walks, and the text they produce |
| `Manager` | class `CirMgr` and its state-changing operations |
| `Keys` | ascending iteration over `std::map` keys |
| `AssignMaps` | `clear_MA`, `combineMAs`, `isConflict` and `compareTwogds` |
| `Engine` | `traverseWt` |
| `Gds` | `findAllgd`, the Gd-set construction and the side-input assumptions |

## Model

| member | source | states |
|---|---|---|
| Literal.EncodeLit | src/cir/cirMgr.cpp:552-557 | the literal 2·id+inv decodes back to the gate ID and the inversion flag |
| Literal.DecodeEncode | src/cir/cirMgr.cpp:340-346 | decoding a literal as lit/2 and lit%2 and re-encoding it gives the literal back |
| CirGate.MakePi | src/cir/cirGate.h:78-103 | an input gate is pristine (null fanins, no inversion, empty symbol, unmarked, no fanouts); it has its line number, type "Pi", its ID, and (0,false) for both pairs |
| CirGate.MakePo | src/cir/cirGate.h:110-140 | an output gate is pristine, has type "Po" and its ID, reports its declared fanin (f,i) as pair 0 and (0,false) as pair 1 |
| CirGate.MakeAig | src/cir/cirGate.h:147-179 | an AND gate is pristine, has type "Aig" and its ID, and reports (f0,i1) and (f1,i2) as its pairs |
| CirGate.MakeUndef | src/cir/cirGate.h:186-211 | an UNDEF gate is pristine, has line 0, type "UNDEF", its ID and (0,false) pairs |
| CirGate.MakeConst | src/cir/cirGate.h:218-232 | the constant gate is pristine, has line 0, type "const", ID 0 and (0,false) pairs |
| CirGate.SetFanin0 | src/cir/cirGate.h:41 | fanin 0 and its inversion take the new values; every other field is unchanged |
| CirGate.SetFanin1 | src/cir/cirGate.h:42 | fanin 1 and its inversion take the new values; every other field is unchanged |
| CirGate.SetSymbol | src/cir/cirGate.h:35 | the symbol takes the new value; every other field is unchanged |
| CirGate.SetPrint | src/cir/cirGate.h:45-47 | `checkprint` is true afterwards; every other field is unchanged |
| CirGate.ResetPrint | src/cir/cirGate.h:46-47 | `checkprint` is false afterwards; every other field is unchanged |
| CirGate.PushFanout | src/cir/cirGate.h:57-58 | the fanout list grows by one, with p at the end and the earlier entries in order; every other field is unchanged |
| Manager.CirMgr.constructor | src/cir/cirMgr.h:29 | a new manager has no gates, an empty table and empty lists, flAIG 0, and `_undef` holding only (true,true) for ID 0 |
| Manager.CirMgr.NewConst0 | src/cir/cirMgr.cpp:159 | `readCircuit` starts by adding the constant gate to the arena, outside `GateMap`, as `const0`; the circuit stays well formed |
| Manager.CirMgr.GetGate | src/cir/cirMgr.h:34-39 | the result is null exactly when the ID (converted to a 32-bit signed key) is absent or maps to null; otherwise it is the stored gate, whose ID is that key; the table is not changed |
| Manager.Signed32 | src/cir/cirMgr.h:35 | the unsigned-to-int conversion: identity below 2^31, minus 2^32 above |
| Manager.AddOk | src/cir/cirMgr.cpp:330-332 | storing a new pointer-free gate under its own ID keeps the arena, the table and the gate lists well formed |
| Manager.CirMgr.ReadInput | src/cir/cirMgr.cpp:324-336 | the input gate with ID lit/2 is appended, stored under its ID and listed as an input; only that ID becomes defined |
| Manager.CirMgr.ReadOutput | src/cir/cirMgr.cpp:337-350 | the output gate on line l gets ID M+l-I-1 and the decoded fanin; it is stored and listed; only the fanin's ID becomes used |
| Manager.CirMgr.ReadAig | src/cir/cirMgr.cpp:351-380 | the AND gate with ID lit/2 and its decoded fanins is appended and stored; its ID becomes defined, and each non-zero fanin ID becomes used |
| Manager.CirMgr.ReadSymbol | src/cir/cirMgr.cpp:381-404 | an `i`/`o` line sets the symbol of the indexed input or output; any other line changes nothing |
| Manager.CirMgr.Connect | src/cir/cirMgr.cpp:407-451 | the pass wires every output and AND gate it meets, each exactly once; gates it does not meet keep their pointers; every fanout list becomes its old contents plus the back-references pushed in wiring order; without a null entry it meets every owner in the table; `!ok` only when a null entry was reached |
| Manager.ConnectPass | src/cir/cirMgr.cpp:407-451 | the key loop of `connect` on values: every output and AND gate met is wired exactly once; when no null entry is met, every owner in the table was wired; `!ok` only when a null entry was reached |
| Connect.ConnectGateEffect | src/cir/cirMgr.cpp:409-449 | wiring one gate changes only that gate's fanins; a non-owner is untouched; each target's fanout list gains exactly one back-reference per edge |
| Connect.ConnectGateKeeps | src/cir/cirMgr.cpp:409-449 | wiring one gate keeps the earlier gates' variants and the table's existing entries |
| Connect.InvFacts | src/cir/cirMgr.cpp:407-451 | the loop invariant of the pass implies its postcondition, including that no gate is wired twice |
| Circuit.Lookup | src/cir/cirMgr.h:36-38 | `find`: null for a missing key, the stored pointer otherwise |
| Circuit.Index | src/cir/cirMgr.cpp:416 | `operator[]`: the key is present afterwards and reads what `find` gave; the other entries are unchanged; nothing else is added |
| Circuit.Wire0 | src/cir/cirMgr.cpp:413-421 | `setFanin0` plus `pushFanout`: only the owner's fanin 0 changes, and only the target's fanout list grows, by the owner |
| Circuit.Wire1 | src/cir/cirMgr.cpp:437-445 | the same for fanin 1 |
| Circuit.Resolve0Target | src/cir/cirMgr.cpp:413-436 | fanin 0 of ID 0 resolves to const0; a stored ID resolves to its gate; a missing or null ID resolves to a fresh UNDEF placeholder that is stored and recorded as floating |
| Circuit.Resolve0Frame | src/cir/cirMgr.cpp:413-436 | resolving fanin 0 changes no other pointer and adds at most the placeholder, with null fanins |
| Circuit.Resolve1Target | src/cir/cirMgr.cpp:437-445 | fanin 1 resolves as fanin 0 does, except that a fresh placeholder is not stored: `operator[]` leaves null entries for the fanin-1 and fanin-0 IDs, and the fanin-1 ID is recorded as floating only when fanin 0's entry is not null |
| Circuit.Resolve1Frame | src/cir/cirMgr.cpp:437-445 | resolving fanin 1 changes no other pointer and adds at most the placeholder |
| Manager.CirMgr.Dfs | src/cir/cirMgr.cpp:453-534 | the walk from p lists only gates of p's fanin cone: each unmarked non-UNDEF gate it reaches, once, after both its fanins (post-order). It marks exactly the listed gates, appends exactly their lines to `printList`, and changes nothing but marks. When the marks at entry are closed downwards (as with no marks at all), every non-UNDEF gate of p's cone ends marked and the marks stay closed |
| Manager.CirMgr.DfsVisit | src/cir/cirMgr.cpp:461-532 | after both fanin walks, a gate marked meanwhile or an UNDEF placeholder is left alone, and any other gate is listed last and marked; either way the visit is a complete walk of the gate, with the cone facts of Dfs |
| Netlist.GateLine | src/cir/cirMgr.cpp:462-529 | an input line starts "PI  ", an AND line "AIG ", an output line "PO  ", and the constant line is "CONST0" |
| Netlist.FaninRoundTrip | src/cir/cirMgr.cpp:483-486 | with the corrected fanin marks, the undefined flag, the inversion flag and the ID all read back from the fanin field |
| Netlist.AsWrittenAmbiguous | src/cir/cirMgr.cpp:483-486 | with the marks as written, an undefined non-inverted fanin prints the same as a defined inverted one |
| Netlist.MarkAsWrittenDiffers | src/cir/cirMgr.cpp:483-486 | the marker as written and the corrected marker differ exactly for an UNDEF fanin that is not inverted |
| Walk.ListingJoin | src/cir/cirMgr.cpp:217-219 | one more `DFS` call after a run of them is still a single post-order walk, and marks already set stay set |
| Walk.DfsJoinList | src/cir/cirMgr.cpp:515-522 | listing a gate after walking both its fanins completes the walk of that gate |
| Walk.ConeJoin | src/cir/cirMgr.cpp:457-461 | a visit of a gate lists only gates of its fanin cone, and from closed marks it leaves that cone marked and the marks closed, given the same of both fanin walks |
| Manager.CirMgr.DfsOutputs | src/cir/cirMgr.cpp:217-219 | walking from every output in list order is one post-order walk that lists only gates of the outputs' fanin cones, appends their lines and leaves every output marked; from marks closed at entry, every non-UNDEF gate of those cones ends marked |
| Manager.CirMgr.DfsOutput | src/cir/cirMgr.cpp:217-219 | one round of the loop: the walk from output i extends the run, which stays inside the cones of outputs 0..i and, from closed marks, covers them; outputs 0..i are marked |
| Walk.RunCovers | src/cir/cirMgr.cpp:217-219 | after walks from every root that started from closed marks, every listable gate of a root's fanin cone was either marked already or listed |
| Manager.ResetPass | src/cir/cirMgr.cpp:539-541 | the key loop of `resetprint` on values: only marks change, and none is set; with no null entry every gate the table points at ends unmarked and every other gate keeps its mark; `!ok` when a null entry is reached |
| Manager.CirMgr.ResetPrint | src/cir/cirMgr.cpp:536-543 | only marks change, and none is set; with no null entry in the table, every gate stored in the table, and const0, ends unmarked; `!ok` when a null entry is reached |
| Manager.ClearedAfterWalk | src/cir/cirMgr.cpp:536-543 | after a walk followed by `resetprint`, every listed gate is unmarked again |
| Manager.CirMgr.PrintNetlist | src/cir/cirMgr.cpp:214-225 | the printed lines are an empty line and then `printList` numbered from 0. `printList` grows by the post-order lines of the gates listed, which lie in the outputs' fanin cones and, from marks closed at entry, are every non-UNDEF gate of those cones not marked already. Every output ends listed or was marked |
| Netlist.Numbered | src/cir/cirMgr.cpp:222-224 | line i reads "[i] " followed by the i-th listed line |
| Manager.CirMgr.PrintPIs | src/cir/cirMgr.cpp:227-236 | the line starts with the title and the rest parses back to the input gates' IDs in list order; with no inputs, it is just the title |
| Manager.CirMgr.PrintPOs | src/cir/cirMgr.cpp:238-247 | the same for the outputs |
| Netlist.IdListRoundTrip | src/cir/cirMgr.cpp:229-235 | an ID line, with spaces between the IDs and none after the last, parses back to the IDs |
| Text.JoinRoundTrip | src/cir/cirMgr.cpp:231-232 | space-joined integers split and parse back to the same list |
| Text.IntRoundTrip | src/cir/cirMgr.cpp:482-483 | an integer printed in decimal parses back to itself |
| Manager.CirMgr.PrintFloatGates | src/cir/cirMgr.cpp:249-267 | the report is the floating list and the defined-but-unused IDs; flAIG grows by the number of defined-but-unused IDs |
| Report.PrintFloating | src/cir/cirMgr.cpp:251-258 | the line is the title followed by each floating ID and a space |
| Report.UnusedVisit | src/cir/cirMgr.cpp:261-264 | one pass of the loop over ID j: the title is printed before the first defined-but-unused ID, and the line, the flag and the count stay in step with the IDs met so far |
| Report.PrintUnused | src/cir/cirMgr.cpp:259-266 | the flag is set iff some ID is defined but unused; the line lists those IDs; the count equals their number |
| Report.UnusedBelowExact | src/cir/cirMgr.cpp:260-262 | the IDs listed are exactly those whose entry is (defined, not used), in ascending order |
| Report.SpaceAfterRoundTrip | src/cir/cirMgr.cpp:255-257 | a space-terminated ID list parses back to the IDs |
| Manager.CirMgr.WriteDfs | src/cir/cirMgr.cpp:545-559 | the walk writes only AND gates of p's fanin cone: each unmarked one it reaches, once, after its fanins. It marks exactly those, and the output is their "2·id F0 F1" lines. From marks closed at entry, every AND gate of p's cone ends marked |
| Aag.AigLineRoundTrip | src/cir/cirMgr.cpp:550-557 | an AND line parses back to the gate literal and both fanin literals; each literal decodes to the fanin's ID and inversion |
| Aag.OutLit | src/cir/cirMgr.cpp:276-277 | an output literal decodes to the fanin's ID and inversion |
| Aag.Header | src/cir/cirMgr.cpp:272 | the header starts "aag " and parses to M, I, 0, O, A-flAIG |
| Aag.InputLinesRead | src/cir/cirMgr.cpp:273-275 | input line i is 2·ID of the i-th input, a literal that decodes to that ID, not inverted |
| Aag.OutputLinesRead | src/cir/cirMgr.cpp:276-279 | output line i is the literal of the i-th output's fanin and its inversion |
| Aag.NamedBelowExact | src/cir/cirMgr.cpp:284-289 | symbol lines are written exactly for the list positions with a non-empty symbol, in increasing order |
| Aag.WriteRunMarks | src/cir/cirMgr.cpp:280-283 | clearing the marks after the output walks keeps the walked AND lines |
| Manager.CirMgr.WriteOutputs | src/cir/cirMgr.cpp:280-282 | walking from every output is one AAG walk over the outputs' fanin cones; its text is the AND lines of the gates it listed; from closed marks every AND gate of those cones ends marked |
| Manager.CirMgr.WriteOutput | src/cir/cirMgr.cpp:280-282 | one round of the loop: the walk from output i extends the run and its cone facts to outputs 0..i |
| Manager.CirMgr.WriteAndReset | src/cir/cirMgr.cpp:280-283 | the AND lines come out in post-order, one per AND gate listed; the listed gates lie in the outputs' fanin cones and, from closed marks, are every AND gate of those cones not marked already; afterwards every listed gate is unmarked again |
| Manager.CirMgr.WriteAag | src/cir/cirMgr.cpp:269-292 | the text is the header, the input lines, the output lines, the AND lines in post-order, the symbol lines and the two trailer lines. The AND lines are those of AND gates in the outputs' fanin cones and, from closed marks, of every such gate not marked already, each once. Marks are cleared afterwards |
| Keys.KeyOrder | src/cir/cirMgr.cpp:705 | `std::map` iteration visits every key once, in strictly ascending order |
| Engine.TraverseWt | src/cir/cirMgr.cpp:566-701 | given a conflict, returns at once. Otherwise it writes only 0 or 1, and without conflict keeps every known value and sets no AND gate against an input known at entry. The backward rules: a 1 output forces both input terms true, or conflict; an input term already false under a 1 output is a conflict; a true term on one side forces the other side's term false; with no term known, nothing is written. With `!iswt` and no conflict, the forward rules hold for every fanout; with `iswt` a non-AND gate changes nothing. The call succeeds (`ok`) whenever every ID a run from wt can reach, through the fanins of AND gates and through AND fanouts, has a non-null entry in the table; a failed call therefore met a missing or null entry on that reach, where the source dereferences null |
| Engine.Fanin0Part | src/cir/cirMgr.cpp:574-608 | the fanin-0 half of the backward rules. Under a 1 output the fanin-0 term is forced true, and the call stops, with conflict and nothing written, exactly when that term is already false. Under any other output the call never stops here; with a true fanin-1 term the fanin-0 term is forced false, and when it was true the conflict is raised and the false value is still written; with no true fanin-1 term nothing changes. It succeeds whenever everything reachable from wt is stored |
| Engine.Fanin1Part | src/cir/cirMgr.cpp:610-646 | the fanin-1 half of the backward rules, with the fanins swapped; it runs even after the fanin-0 half raised conflict, and keeps the conflict. Every clash stops the call with nothing written: under a 1 output exactly when the fanin-1 term is false, otherwise exactly when both terms are true. It succeeds whenever everything reachable from wt is stored |
| Engine.Force | src/cir/cirMgr.cpp:592-606 | one write and recursion site: the opposite value raises conflict, and the call stops there, unchanged, exactly when asked to halt; a conflict that does not halt (or one raised earlier) still writes the value and the recursive call then returns at once; without conflict the entry ends with the forced value; only 0/1 are written. It succeeds whenever everything reachable from x is stored |
| Engine.ForwardPass | src/cir/cirMgr.cpp:649-700 | the forward rule holds for every fanout: a free AND fanout becomes 0 when an input term is false, and 1 when both terms are true. It succeeds whenever everything reachable from each AND fanout is stored |
| Engine.SampleReachable | src/cir/cirMgr.cpp:159 | on a circuit holding the constant gate, which `GateMap` never holds, some ID has no entry, and still a run from an AND gate over two inputs is promised to succeed |
| Engine.ForwardStep | src/cir/cirMgr.cpp:650-699 | the forward rule for one fanout; non-free and non-AND fanouts are skipped |
| Engine.ForwardFree | src/cir/cirMgr.cpp:654-697 | the forward rule for one free AND fanout |
| Engine.ProgressTrans | src/cir/cirMgr.cpp:566-701 | the guarantees of consecutive calls compose |
| Engine.FwdLift | src/cir/cirMgr.cpp:649-699 | forward rules shown against the state after the backward part also hold against the entry state |
| Engine.BackAssemble | src/cir/cirMgr.cpp:574-646 | the two halves together give the backward rules of the whole call |
| AssignMaps.ClearMA | src/cir/cirMgr.cpp:892-896 | the keys are unchanged and every value becomes 2 |
| AssignMaps.CombineMAs | src/cir/cirMgr.cpp:715-734 | ok holds iff no MA1 key clashes (1 against 0, either way); when ok, each MA1 entry becomes the ternary join; on failure a clashing key exists; MA2 reads the same as before |
| AssignMaps.CombineDone | src/cir/cirMgr.cpp:717-733 | a loop that met no clash has joined every MA1 key |
| AssignMaps.CombineClash | src/cir/cirMgr.cpp:719-722 | an early exit happens at a clashing key |
| AssignMaps.CompareTwoGds | src/cir/cirMgr.cpp:736-751 | the result is `KeepShared(gds1, gds2)`; gds2 is not changed |
| AssignMaps.KeepSharedMembers | src/cir/cirMgr.cpp:736-751 | a pair is kept iff it is in gds1 and its ID is the first component of some pair of gds2; the order of gds1 is kept |
| AssignMaps.KeepSharedIdempotent | src/cir/cirMgr.cpp:736-751 | filtering twice equals filtering once |
| AssignMaps.IsConflict | src/cir/cirMgr.cpp:703-713 | as written: the result, in key order, holds exactly the keys with MA1=1 and MA2=0; both maps only gain the keys that `operator[]` inserts |
| AssignMaps.IsConflictMissesZeroOne | src/cir/cirMgr.cpp:708 | a key with MA1=0 and MA2=1 clashes but is not reported |
| AssignMaps.ReportClashes | src/cir/cirMgr.cpp:703-713 | corrected: the result holds exactly the keys that clash in either direction, in key order |
| AssignMaps.ClashFreeIffCombines | src/cir/cirMgr.cpp:715-734 | the corrected report names no MA1 key iff `combineMAs` succeeds |
| Gds.FindAllGd | src/cir/cirMgr.cpp:898-911 | the search appends only AND fanouts that were 2, with slot 0 iff their fanin 0 is the parent. It flips each appended one to 1 and appends no ID twice. Every appended pair lies in the parent's fanout cone, and gds and the other keys are kept. A missing or null entry for the start ID gives !ok, and !ok happens only then or when some AND gate's ID has no non-null entry |
| Gds.GdClosed | src/cir/cirMgr.cpp:898-911 | starting from an all-free visit map, every AND fanout of the start gate and of every appended gate is appended |
| Gds.FanoutCone | src/cir/cirMgr.cpp:989-998 | the block for one fanout f. For an AND fanout the segment starts with f's pair (slot 0 iff f's fanin 0 is the target) and is a cone list of the target. From an all-free visit map, every AND fanout of f and of every listed gate is listed. The visit map ends all 2. `!ok` only when f's ID or some AND gate's ID has no non-null entry |
| Gds.GdSet | src/cir/cirMgr.cpp:989-1016 | the Gd set is the first fanout's list, which starts with that fanout's ID when it is an AND gate; with more than one fanout it is filtered by the union of the other fanouts' lists, which holds the pair of every other AND fanout. From an all-free visit map each list holds every AND fanout of its fanouts and of its own gates. A target without fanouts gives !ok; otherwise !ok only when an ID is missing from the table. The visit map ends all 2. With AND fanouts only, each list lies in the target's fanout cone |
| Gds.SideAssumptions | src/cir/cirMgr.cpp:1031-1044 | the first assumption is the target, true. Then each Gd pair contributes, in order, its side input: fanin 0 with ¬inv0 for slot 1, and fanin 1 with ¬inv1 otherwise. `!ok` iff some pair names no stored AND gate |
| Gds.SideNonControlling | src/cir/cirMgr.cpp:1031-1040 | for a pair produced by the Gd search, the side input is the fanin the path does not enter, and the assumed value makes that input term true, the non-controlling value of the AND |

## Left out

- File and console I/O are not modelled: `readCircuit`, the streams, `cout`/`cerr`, `printSummary` column widths, and the `printGate`/`reportGate`/`reportFanin`/`reportFanout` banners. Printing operations return the lines they would print.
- `stringstream` tokenising in `readHeader` and the `read*` functions is not modelled. The read operations take the integers already parsed.
- `readHeader`'s own checks are not modelled, and neither is `parseError` with its message table (`src/cir/cirMgr.cpp:33-151`): that is diagnostic text and is never called.
- The external SAT solver is left out, because its source is not part of this model. This covers:
  - `genAigModel`;
  - the solver variable of each gate: `getVar` is taken to be the gate's ID;
  - `assumeVec`, `assumpRARSolve`, `assumeRelease`, `resetAssign`;
  - the query and report loop of `satRAR` around the two modelled fragments.
- The `MA_wt` write at `src/cir/cirMgr.cpp:1043` is keyed by solver variable, so it is not modelled.
- `satRARtest` (`src/cir/cirMgr.cpp:782-890`) is commented out and is not modelled.
- `src/sat/test/satTest.cpp` is a solver driver and is not part of this model.
- Heap allocation with `new` is modelled as appending to the arena. Deletion does not occur in the source.
- `printList` is never cleared by the source, so repeated `printNetlist` calls keep appending. The model keeps this behaviour.
- `flAIG` grows on every `printFloatGates` call, and the model keeps that as well.
- Manager.CirMgr.Dfs: a ghost rank witnessing that the fanin graph is acyclic is a precondition. AIGER circuits are acyclic, and the source would not terminate on a cycle. The same holds for WriteDfs, DfsOutputs, PrintNetlist, WriteOutputs, WriteAndReset and WriteAag.
- Engine.TraverseWt: acyclicity through the table, as a ghost rank over IDs, is a precondition, for the same reason.
- Engine.TraverseWt: the forward rules are stated only for fanouts stored in the table under their own ID. A fanout that is not stored there (an UNDEF placeholder cannot be one) is not described.
- Engine.TraverseWt: a run that ends in conflict is only said to write 0 or 1. The values it writes after the conflict are not described.
- Gds.FindAllGd: closure under AND fanouts (Gds.GdClosed) is stated only when the visit map starts all free, which is how `satRAR` calls it.
- Gds.GdSet: the cone-list statement assumes that every fanout of the target is an AND gate. Closure is stated only from an all-free visit map, which is how `satRAR` calls it.
- Gds.FanoutCone: the cone-list statement is made only when the fanout is an AND gate. Otherwise only closure is stated.
- Gds.SideAssumptions: the statement is about gate IDs, not solver variables.
- Manager.CirMgr.Dfs: the fanin fields of the lines it appends carry the corrected marker: ` *` for an UNDEF fanin that is not inverted, where `src/cir/cirMgr.cpp:485`, `:493` and `:514` print ` !` (see Findings). The marker as written is Netlist.FaninMarkAsWritten, and Netlist.MarkAsWrittenDiffers names the one case where the two differ.
- Manager.CirMgr.DfsOutputs: its lines carry the corrected marker, as for Dfs.
- Manager.CirMgr.PrintNetlist: its lines carry the corrected marker, as for Dfs.
- Netlist.GateLine: it writes the corrected marker, as for Dfs. Its contract states each line's kind tag and the constant line; the ID, the fanin fields and the symbol suffix are given by its definition only.
- Manager.CirMgr.Dfs: that the whole fanin cone ends marked is stated only when the marks at entry are closed downwards (Walk.MarksClosed; Walk.UnmarkedClosed shows that no marks at all qualifies). A walk stops at a marked gate, so a gate below a gate marked earlier is not reached, in the source as in the model. The same holds for WriteDfs, DfsOutputs, PrintNetlist, WriteOutputs, WriteAndReset and WriteAag.
- Manager.CirMgr.ReadInput: it requires the ID lit/2 to index `_undef`, which `readCircuit` sizes to M+1 entries. The source writes `_undef[ID/2]` (`src/cir/cirMgr.cpp:332`) with no check, so an ID above M is out of range there; the model does not describe that case.
- Manager.CirMgr.ReadOutput: it requires the fanin ID to index `_undef`, for the same reason (`src/cir/cirMgr.cpp:344`).
- Manager.CirMgr.ReadAig: it requires the gate ID and each non-zero fanin ID to index `_undef`, for the same reason (`src/cir/cirMgr.cpp:374-376`).
- Manager.CirMgr.ReadSymbol: it requires the index to lie within `_pilist` or `_polist`. The source indexes them with no check (`src/cir/cirMgr.cpp:393`, `:400`), so a bad index is out of range there; the model does not describe that case.
- `mysort` (`src/cir/cirMgr.cpp:561-563`) is not modelled. Its only use, the sort of the floating list at `src/cir/cirMgr.cpp:254`, is commented out.
- Manager.CirMgr.Connect: it requires `const0` to hold the constant gate, which `readCircuit` creates before anything else (Manager.CirMgr.NewConst0); the rest of `readCircuit` is file input and is not modelled. The same holds for ResetPrint, PrintNetlist, WriteAndReset and WriteAag.
- Engine.TraverseWt: success is promised only when every ID the run can reach is stored. The constant gate is never stored (`src/cir/cirMgr.cpp:159`, `:414`, `:428`, `:438`), so a run that reaches an AND gate with a constant fanin is not promised to succeed; the source dereferences `GateMap[0]`, which is null, if the run writes that fanin.
- Manager.CirMgr.WriteAag: the output lists are required to be wired (`OutputsLinked`), which `connect` establishes. A null fanin on an output would crash the source.

## Findings

| source | as written | input that shows it | evidently intended | confidence | as-written member | corrected member |
|---|---|---|---|---|---|---|
| src/cir/cirMgr.cpp:708 | the `else if` repeats the first test (MA1=1 and MA2=0) | a key with MA1=0 and MA2=1 clashes but is not reported | report clashes in both directions, matching what `combineMAs` rejects | high, not executed | AssignMaps.IsConflict, AssignMaps.IsConflictMissesZeroOne | AssignMaps.ReportClashes, AssignMaps.ClashFreeIffCombines |
| src/cir/cirMgr.cpp:485 | an UNDEF fanin that is not inverted is printed with " !" (the same at lines 493 and 514) | an AND gate whose fanin 0 is UNDEF and not inverted prints the same as a defined, inverted fanin 0 | a mark that tells undefined apart from inverted, " *" for undefined alone | medium, not executed | Netlist.AsWrittenAmbiguous | Netlist.FaninRoundTrip |
