/** The depth-first walks over fanins (`DFS`, `writeDFS`): what a walk may
    change (print marks only), which gates it lists, and the order it lists
    them in. */
module Walk {
  import opened CirGate
  import opened Circuit
  import opened Netlist

  /** A ghost rank that strictly drops from a gate to each of its fanins:
      the fanin graph has no cycle. */
  predicate Ranked(gates: seq<GateRec>, rank: seq<nat>) {
    && |rank| == |gates|
    && (forall h :: 0 <= h < |gates| && gates[h].fanin0.Ref? && gates[h].fanin0.h < |gates| ==>
          rank[gates[h].fanin0.h] < rank[h])
    && (forall h :: 0 <= h < |gates| && gates[h].fanin1.Ref? && gates[h].fanin1.h < |gates| ==>
          rank[gates[h].fanin1.h] < rank[h])
  }

  /** g' is g with only print marks changed. */
  predicate SameButMarks(g: seq<GateRec>, g': seq<GateRec>) {
    |g'| == |g| && forall x :: 0 <= x < |g| ==> g'[x] == g[x].(isprint := g'[x].isprint)
  }

  /** The gates a walk lists: every non-UNDEF gate for the netlist walk,
      AND gates only for the AAG walk. */
  predicate Listable(g: GateRec, aigOnly: bool) {
    if aigOnly then g.variant.AigGate? else !g.variant.UndefGate?
  }

  /** Fanin q is settled before the gates `before` have been listed: null,
      a gate the walk never lists, one marked when the walk began, or one
      listed earlier. */
  predicate Done(g0: seq<GateRec>, q: Ptr, before: seq<nat>, aigOnly: bool) {
    || q.Null?
    || (q.h < |g0| && (!Listable(g0[q.h], aigOnly) || g0[q.h].isprint))
    || q.h in before
  }

  /** A walk from g0 to g that listed `hs`: only marks changed, exactly
      the listed gates were newly marked, and `hs` is in post-order. */
  predicate Walked(g0: seq<GateRec>, g: seq<GateRec>, hs: seq<nat>, aigOnly: bool) {
    && SameButMarks(g0, g)
    && (forall x :: 0 <= x < |g| ==> (g[x].isprint <==> g0[x].isprint || x in hs))
    && PostOrder(g0, hs, aigOnly)
  }

  /** The order part of a walk from g0: each listed gate is listable, was
      unmarked, is listed once, and is listed after both its fanins. */
  predicate PostOrder(g0: seq<GateRec>, hs: seq<nat>, aigOnly: bool) {
    && (forall i :: 0 <= i < |hs| ==> hs[i] < |g0| && !g0[hs[i]].isprint && Listable(g0[hs[i]], aigOnly))
    && (forall i, j :: 0 <= i < j < |hs| ==> hs[i] != hs[j])
    && (forall i :: 0 <= i < |hs| ==>
          Done(g0, g0[hs[i]].fanin0, hs[..i], aigOnly) && Done(g0, g0[hs[i]].fanin1, hs[..i], aigOnly))
  }

  /** Changing marks keeps the arena, the links, the ranks and every
      listing line. */
  lemma MarksKeep(g: seq<GateRec>, g': seq<GateRec>, rank: seq<nat>)
    requires SameButMarks(g, g') && ArenaOk(g) && Linked(g) && Ranked(g, rank)
    ensures ArenaOk(g') && Linked(g') && Ranked(g', rank)
    ensures forall h :: 0 <= h < |g| ==> GateLine(g', h) == GateLine(g, h)
  {
    forall h | 0 <= h < |g'| ensures GateOk(|g'|, g'[h]) {
      assert GateOk(|g|, g[h]);
    }
    forall h | 0 <= h < |g| ensures GateLine(g', h) == GateLine(g, h) {
      LineKeep(g, g', h);
    }
  }

  lemma LineKeep(g: seq<GateRec>, g': seq<GateRec>, h: nat)
    requires SameButMarks(g, g') && ArenaOk(g) && Linked(g) && ArenaOk(g') && Linked(g') && h < |g|
    ensures GateLine(g', h) == GateLine(g, h)
  {
    assert GateOk(|g|, g[h]);
    var a, b := g[h], g'[h];
    assert b == a.(isprint := b.isprint);
    assert b.variant == a.variant && b.symbol == a.symbol;
    assert b.fanin0 == a.fanin0 && b.inv0 == a.inv0 && b.fanin1 == a.fanin1 && b.inv1 == a.inv1;
    if a.variant.AigGate? || a.variant.PoGate? {
      FieldKeep(g, g', a.fanin0, a.inv0);
    }
    if a.variant.AigGate? {
      FieldKeep(g, g', a.fanin1, a.inv1);
    }
  }

  /** A fanin field reads only the fanin's kind and ID. */
  lemma FieldKeep(g: seq<GateRec>, g': seq<GateRec>, p: Ptr, inv: bool)
    requires SameButMarks(g, g') && p.Ref? && p.h < |g|
    ensures FaninField(g', p, inv) == FaninField(g, p, inv)
  {
    assert g'[p.h] == g[p.h].(isprint := g'[p.h].isprint);
  }

  lemma WalkedNone(g: seq<GateRec>, aigOnly: bool)
    ensures Walked(g, g, [], aigOnly)
  {
  }

  /** Two walks in a row make one walk. */
  lemma WalkedJoin(g0: seq<GateRec>, g1: seq<GateRec>, g2: seq<GateRec>, a: seq<nat>, b: seq<nat>, aigOnly: bool)
    requires Walked(g0, g1, a, aigOnly) && Walked(g1, g2, b, aigOnly)
    ensures Walked(g0, g2, a + b, aigOnly)
  {
    var c := a + b;
    forall i | 0 <= i < |c|
      ensures c[i] < |g0| && !g0[c[i]].isprint && Listable(g0[c[i]], aigOnly)
      ensures Done(g0, g0[c[i]].fanin0, c[..i], aigOnly) && Done(g0, g0[c[i]].fanin1, c[..i], aigOnly)
    {
      if i < |a| {
        assert c[..i] == a[..i];
      } else {
        var j := i - |a|;
        assert c[i] == b[j] && c[..i] == a + b[..j];
        assert g1[b[j]] == g0[b[j]].(isprint := g1[b[j]].isprint);
        DoneAfter(g0, g1, a, b[..j], g1[b[j]].fanin0, aigOnly);
        DoneAfter(g0, g1, a, b[..j], g1[b[j]].fanin1, aigOnly);
      }
    }
    forall i, j | 0 <= i < j < |c| ensures c[i] != c[j] {
      if i < |a| && j >= |a| {
        assert g1[c[j]].isprint == false;
        assert c[i] in a;
      }
    }
  }

  /** Settled after the first walk means settled relative to the start,
      with the first walk's list in front. */
  lemma DoneAfter(g0: seq<GateRec>, g1: seq<GateRec>, a: seq<nat>, before: seq<nat>, q: Ptr, aigOnly: bool)
    requires Walked(g0, g1, a, aigOnly) && Done(g1, q, before, aigOnly)
    ensures Done(g0, q, a + before, aigOnly)
  {
    if q.Ref? && q.h in before {
      assert q.h in a + before;
    } else if q.Ref? && q.h < |g1| && g1[q.h].isprint && !g0[q.h].isprint {
      assert q.h in a + before;
    }
  }

  /** Listing gate p after a walk whose fanins are settled. */
  lemma WalkedPush(g0: seq<GateRec>, g: seq<GateRec>, c: seq<nat>, p: nat, aigOnly: bool)
    requires Walked(g0, g, c, aigOnly) && p < |g| && !g[p].isprint && Listable(g[p], aigOnly)
    requires Done(g0, g[p].fanin0, c, aigOnly) && Done(g0, g[p].fanin1, c, aigOnly)
    ensures Walked(g0, g[p := SetPrint(g[p])], c + [p], aigOnly)
  {
    var g' := g[p := SetPrint(g[p])];
    var c' := c + [p];
    assert c'[..|c|] == c;
    forall i | 0 <= i < |c'|
      ensures Done(g0, g0[c'[i]].fanin0, c'[..i], aigOnly) && Done(g0, g0[c'[i]].fanin1, c'[..i], aigOnly)
    {
      if i < |c| {
        assert c'[..i] == c[..i];
      } else {
        assert g[p] == g0[p].(isprint := g[p].isprint);
      }
    }
  }

  /** A fanin that the walk from it left marked (or unlistable) is settled. */
  lemma DoneReached(g0: seq<GateRec>, g: seq<GateRec>, c: seq<nat>, q: Ptr, aigOnly: bool)
    requires Walked(g0, g, c, aigOnly) && ValidPtr(g0, q)
    requires q.Ref? && Listable(g[q.h], aigOnly) ==> g[q.h].isprint
    ensures Done(g0, q, c, aigOnly)
  {
    if q.Ref? {
      assert g[q.h] == g0[q.h].(isprint := g[q.h].isprint);
    }
  }

  /** Settled stays settled when more gates are listed after. */
  lemma DoneMore(g0: seq<GateRec>, q: Ptr, a: seq<nat>, b: seq<nat>, aigOnly: bool)
    requires Done(g0, q, a, aigOnly)
    ensures Done(g0, q, a + b, aigOnly)
  {
    if q.Ref? && q.h in a {
      assert q.h in a + b;
    }
  }

  /** The lines of two walks in a row are the lines of the joined walk. */
  lemma LinesJoin(g: seq<GateRec>, g': seq<GateRec>, a: seq<nat>, b: seq<nat>, rank: seq<nat>)
    requires SameButMarks(g, g') && ArenaOk(g) && Linked(g) && Ranked(g, rank)
    requires forall i :: 0 <= i < |a| ==> a[i] < |g|
    requires forall i :: 0 <= i < |b| ==> b[i] < |g|
    ensures ArenaOk(g') && Linked(g')
    ensures Lines(g, a) + Lines(g', b) == Lines(g', a + b)
  {
    MarksKeep(g, g', rank);
  }

  /** Appending x and then y is appending their concatenation z. */
  lemma AppendJoin<T>(p0: seq<T>, p1: seq<T>, p2: seq<T>, x: seq<T>, y: seq<T>, z: seq<T>)
    requires p1 == p0 + x && p2 == p1 + y && x + y == z
    ensures p2 == p0 + z
  {
  }

  /** Fanin q of gate h is ranked strictly below h. */
  predicate Below(h: nat, q: Ptr, rank: seq<nat>) {
    q.Ref? && h < |rank| && q.h < |rank| && rank[q.h] < rank[h]
  }

  /** The rank bound that makes the recursion over a fanin cone finite. */
  function Height(q: Ptr, rank: seq<nat>): nat {
    if q.Ref? && q.h < |rank| then rank[q.h] + 1 else 0
  }

  /** Gate x lies in the fanin cone of q: it is q, or it lies in the cone of
      one of q's fanins. */
  predicate InCone(g: seq<GateRec>, q: Ptr, x: nat, rank: seq<nat>)
    decreases Height(q, rank)
  {
    && q.Ref? && q.h < |g|
    && (|| q.h == x
        || (Below(q.h, g[q.h].fanin0, rank) && InCone(g, g[q.h].fanin0, x, rank))
        || (Below(q.h, g[q.h].fanin1, rank) && InCone(g, g[q.h].fanin1, x, rank)))
  }

  /** Every gate of q's fanin cone that a walk lists is marked. */
  predicate ConeMarked(g: seq<GateRec>, q: Ptr, aigOnly: bool, rank: seq<nat>)
    decreases Height(q, rank)
  {
    || q.Null?
    || (&& q.h < |g|
        && (Listable(g[q.h], aigOnly) ==> g[q.h].isprint)
        && (Below(q.h, g[q.h].fanin0, rank) ==> ConeMarked(g, g[q.h].fanin0, aigOnly, rank))
        && (Below(q.h, g[q.h].fanin1, rank) ==> ConeMarked(g, g[q.h].fanin1, aigOnly, rank)))
  }

  /** The marks are closed downwards: below a marked gate, every gate a
      walk lists is marked too. This holds when nothing is marked, and a
      walk keeps it. */
  predicate MarksClosed(g: seq<GateRec>, aigOnly: bool, rank: seq<nat>) {
    forall x :: 0 <= x < |g| && g[x].isprint ==> ConeMarked(g, Ref(x), aigOnly, rank)
  }

  /** g' is g with marks only added. */
  predicate MoreMarks(g: seq<GateRec>, g': seq<GateRec>) {
    SameButMarks(g, g') && forall x :: 0 <= x < |g| && g[x].isprint ==> g'[x].isprint
  }

  /** The cone part of one walk from p: every listed gate lies in p's fanin
      cone, and a walk that starts from closed marks ends with closed marks
      and with p's whole cone marked. */
  predicate ConePost(g0: seq<GateRec>, g: seq<GateRec>, listed: seq<nat>, p: Ptr, aigOnly: bool, rank: seq<nat>) {
    && (forall i :: 0 <= i < |listed| ==> InCone(g0, p, listed[i], rank))
    && (MarksClosed(g0, aigOnly, rank) ==> MarksClosed(g, aigOnly, rank) && ConeMarked(g, p, aigOnly, rank))
  }

  /** With nothing marked, the marks are closed. */
  lemma UnmarkedClosed(g: seq<GateRec>, aigOnly: bool, rank: seq<nat>)
    requires forall x :: 0 <= x < |g| ==> !g[x].isprint
    ensures MarksClosed(g, aigOnly, rank)
  {
  }

  /** Adding marks keeps a cone marked. */
  lemma {:induction false} ConeMono(g: seq<GateRec>, g': seq<GateRec>, q: Ptr, aigOnly: bool, rank: seq<nat>)
    requires MoreMarks(g, g') && ConeMarked(g, q, aigOnly, rank)
    ensures ConeMarked(g', q, aigOnly, rank)
    decreases Height(q, rank)
  {
    if q.Ref? {
      assert g'[q.h] == g[q.h].(isprint := g'[q.h].isprint);
      if Below(q.h, g[q.h].fanin0, rank) {
        ConeMono(g, g', g[q.h].fanin0, aigOnly, rank);
      }
      if Below(q.h, g[q.h].fanin1, rank) {
        ConeMono(g, g', g[q.h].fanin1, aigOnly, rank);
      }
    }
  }

  /** Marks do not change a fanin cone. */
  lemma {:induction false} InConeSame(g: seq<GateRec>, g': seq<GateRec>, q: Ptr, x: nat, rank: seq<nat>)
    requires SameButMarks(g, g')
    ensures InCone(g', q, x, rank) == InCone(g, q, x, rank)
    decreases Height(q, rank)
  {
    if q.Ref? && q.h < |g| {
      assert g'[q.h] == g[q.h].(isprint := g'[q.h].isprint);
      if Below(q.h, g[q.h].fanin0, rank) {
        InConeSame(g, g', g[q.h].fanin0, x, rank);
      }
      if Below(q.h, g[q.h].fanin1, rank) {
        InConeSame(g, g', g[q.h].fanin1, x, rank);
      }
    }
  }

  /** A listable gate in a marked cone is marked. */
  lemma {:induction false} ConeMarkedHas(g: seq<GateRec>, q: Ptr, x: nat, aigOnly: bool, rank: seq<nat>)
    requires ConeMarked(g, q, aigOnly, rank) && InCone(g, q, x, rank) && x < |g| && Listable(g[x], aigOnly)
    ensures g[x].isprint
    decreases Height(q, rank)
  {
    if q.h != x {
      if Below(q.h, g[q.h].fanin0, rank) && InCone(g, g[q.h].fanin0, x, rank) {
        ConeMarkedHas(g, g[q.h].fanin0, x, aigOnly, rank);
      } else {
        ConeMarkedHas(g, g[q.h].fanin1, x, aigOnly, rank);
      }
    }
  }

  /** A walk from a null or marked start lists nothing and keeps the cone
      facts. */
  lemma ConeSkip(g: seq<GateRec>, p: Ptr, aigOnly: bool, rank: seq<nat>)
    requires ValidPtr(g, p) && (p.Null? || g[p.h].isprint)
    ensures ConePost(g, g, [], p, aigOnly, rank)
  {
    if MarksClosed(g, aigOnly, rank) && p.Ref? {
      assert ConeMarked(g, Ref(p.h), aigOnly, rank);
    }
  }

  /** The cone facts of a visit of gate o from those of its two fanin
      walks; o is then listed and marked (c ends with o) or left as it
      was because it is marked or unlistable. */
  lemma ConeJoin(g0: seq<GateRec>, g1: seq<GateRec>, g2: seq<GateRec>, g3: seq<GateRec>,
                 a: seq<nat>, b: seq<nat>, c: seq<nat>, o: nat, aigOnly: bool, rank: seq<nat>)
    requires ArenaOk(g0) && Ranked(g0, rank) && o < |g0|
    requires Walked(g0, g1, a, aigOnly) && Walked(g1, g2, b, aigOnly)
    requires ConePost(g0, g1, a, g0[o].fanin0, aigOnly, rank)
    requires ConePost(g1, g2, b, g0[o].fanin1, aigOnly, rank)
    requires || (g3 == g2 && c == a + b && (g2[o].isprint || !Listable(g2[o], aigOnly)))
             || (g3 == g2[o := SetPrint(g2[o])] && c == a + b + [o])
    ensures ConePost(g0, g3, c, Ref(o), aigOnly, rank)
  {
    var f0, f1 := g0[o].fanin0, g0[o].fanin1;
    assert GateOk(|g0|, g0[o]);
    assert g2[o] == g0[o].(isprint := g2[o].isprint);
    assert g3[o] == g0[o].(isprint := g3[o].isprint);
    forall i | 0 <= i < |c| ensures InCone(g0, Ref(o), c[i], rank) {
      if i < |a| {
        assert c[i] == a[i] && InCone(g0, f0, a[i], rank);
      } else if i < |a| + |b| {
        assert c[i] == b[i - |a|] && InCone(g1, f1, b[i - |a|], rank);
        InConeSame(g0, g1, f1, c[i], rank);
      }
    }
    if MarksClosed(g0, aigOnly, rank) {
      assert MoreMarks(g2, g3);
      ConeMono(g1, g2, f0, aigOnly, rank);
      ConeMono(g2, g3, f0, aigOnly, rank);
      ConeMono(g2, g3, f1, aigOnly, rank);
      assert ConeMarked(g3, Ref(o), aigOnly, rank);
      forall x | 0 <= x < |g3| && g3[x].isprint ensures ConeMarked(g3, Ref(x), aigOnly, rank) {
        if x != o {
          assert g2[x].isprint;
          ConeMono(g2, g3, Ref(x), aigOnly, rank);
        }
      }
    }
  }

  /** Gate x lies in the fanin cone of one of the first n roots. */
  predicate InSomeCone(g: seq<GateRec>, roots: seq<nat>, n: nat, x: nat, rank: seq<nat>)
    requires n <= |roots|
  {
    exists j :: 0 <= j < n && InCone(g, Ref(roots[j]), x, rank)
  }

  /** The cone part of a run of walks from the first n roots. */
  predicate RunCone(g0: seq<GateRec>, g: seq<GateRec>, listed: seq<nat>, roots: seq<nat>, n: nat,
                    aigOnly: bool, rank: seq<nat>)
    requires n <= |roots|
  {
    && (forall i :: 0 <= i < |listed| ==> InSomeCone(g0, roots, n, listed[i], rank))
    && (MarksClosed(g0, aigOnly, rank) ==>
          && MarksClosed(g, aigOnly, rank)
          && forall j :: 0 <= j < n ==> ConeMarked(g, Ref(roots[j]), aigOnly, rank))
  }

  lemma RunConeStart(g: seq<GateRec>, roots: seq<nat>, aigOnly: bool, rank: seq<nat>)
    ensures RunCone(g, g, [], roots, 0, aigOnly, rank)
  {
  }

  /** One more walk, from root n, extends the run's cone facts. */
  lemma RunConeJoin(g0: seq<GateRec>, g1: seq<GateRec>, g2: seq<GateRec>, a: seq<nat>, b: seq<nat>,
                    roots: seq<nat>, n: nat, aigOnly: bool, rank: seq<nat>)
    requires n < |roots|
    requires Walked(g0, g1, a, aigOnly) && Walked(g1, g2, b, aigOnly)
    requires RunCone(g0, g1, a, roots, n, aigOnly, rank)
    requires ConePost(g1, g2, b, Ref(roots[n]), aigOnly, rank)
    ensures RunCone(g0, g2, a + b, roots, n + 1, aigOnly, rank)
  {
    var c := a + b;
    forall i | 0 <= i < |c| ensures InSomeCone(g0, roots, n + 1, c[i], rank) {
      if i < |a| {
        assert c[i] == a[i] && InSomeCone(g0, roots, n, a[i], rank);
        var j :| 0 <= j < n && InCone(g0, Ref(roots[j]), a[i], rank);
      } else {
        assert c[i] == b[i - |a|] && InCone(g1, Ref(roots[n]), c[i], rank);
        InConeSame(g0, g1, Ref(roots[n]), c[i], rank);
      }
    }
    if MarksClosed(g0, aigOnly, rank) {
      forall j | 0 <= j < n ensures ConeMarked(g2, Ref(roots[j]), aigOnly, rank) {
        ConeMono(g1, g2, Ref(roots[j]), aigOnly, rank);
      }
    }
  }

  /** What a whole run from the roots listed: only gates of the roots'
      fanin cones, and, when the marks it started from were closed, every
      listable gate of those cones that was not marked already. */
  predicate ConeListing(g0: seq<GateRec>, listed: seq<nat>, roots: seq<nat>, aigOnly: bool, rank: seq<nat>) {
    && (forall i :: 0 <= i < |listed| ==> InSomeCone(g0, roots, |roots|, listed[i], rank))
    && (MarksClosed(g0, aigOnly, rank) ==>
          forall j, x :: 0 <= j < |roots| && 0 <= x < |g0| && InCone(g0, Ref(roots[j]), x, rank) && Listable(g0[x], aigOnly) ==>
            g0[x].isprint || x in listed)
  }

  lemma RunCovers(g0: seq<GateRec>, g: seq<GateRec>, listed: seq<nat>, roots: seq<nat>, aigOnly: bool, rank: seq<nat>)
    requires Walked(g0, g, listed, aigOnly) && RunCone(g0, g, listed, roots, |roots|, aigOnly, rank)
    ensures ConeListing(g0, listed, roots, aigOnly, rank)
  {
    if MarksClosed(g0, aigOnly, rank) {
      forall j, x | 0 <= j < |roots| && 0 <= x < |g0| && InCone(g0, Ref(roots[j]), x, rank) && Listable(g0[x], aigOnly)
        ensures g0[x].isprint || x in listed
      {
        InConeSame(g0, g, Ref(roots[j]), x, rank);
        assert g[x] == g0[x].(isprint := g[x].isprint);
        ConeMarkedHas(g, Ref(roots[j]), x, aigOnly, rank);
      }
    }
  }

  /** What one netlist walk from p does: it keeps the arena linked and
      ranked, it is a walk that listed `listed`, it appended exactly their
      lines to the print list, it leaves p marked unless p is an UNDEF
      placeholder, it lists no gate ranked above p, and it keeps to p's
      fanin cone and (from closed marks) marks all of it. */
  predicate DfsPost(g0: seq<GateRec>, pl0: seq<string>, g: seq<GateRec>, pl: seq<string>,
                    listed: seq<nat>, p: Ptr, rank: seq<nat>)
  {
    && ArenaOk(g) && Linked(g) && Ranked(g, rank)
    && Walked(g0, g, listed, false)
    && (forall i :: 0 <= i < |listed| ==> listed[i] < |g|)
    && pl == pl0 + Lines(g, listed)
    && (p.Ref? && p.h < |g| && Listable(g[p.h], false) ==> g[p.h].isprint)
    && (forall i :: 0 <= i < |listed| ==> p.Ref? && p.h < |rank| && rank[listed[i]] <= rank[p.h])
    && ConePost(g0, g, listed, p, false, rank)
  }

  /** A null or already marked start lists nothing. */
  lemma DfsSkip(g: seq<GateRec>, pl: seq<string>, p: Ptr, rank: seq<nat>)
    requires ArenaOk(g) && Linked(g) && Ranked(g, rank) && ValidPtr(g, p)
    requires p.Null? || g[p.h].isprint
    ensures DfsPost(g, pl, g, pl, [], p, rank)
  {
    WalkedNone(g, false);
    assert Lines(g, []) == [];
    ConeSkip(g, p, false, rank);
  }

  /** Both halves of a listing rank below `top`, so the whole does. */
  lemma BelowBoth(a: seq<nat>, b: seq<nat>, rank: seq<nat>, top: nat)
    requires forall i :: 0 <= i < |a| ==> a[i] < |rank| && rank[a[i]] < top
    requires forall i :: 0 <= i < |b| ==> b[i] < |rank| && rank[b[i]] < top
    ensures forall i :: 0 <= i < |a + b| ==> (a + b)[i] < |rank| && rank[(a + b)[i]] < top
  {
    forall i | 0 <= i < |a + b| ensures (a + b)[i] < |rank| && rank[(a + b)[i]] < top {
      if i >= |a| {
        assert (a + b)[i] == b[i - |a|];
      }
    }
  }

  /** The facts both endings of a visit of gate o share, once both fanin
      walks are done. */
  lemma DfsChildren(g0: seq<GateRec>, pl0: seq<string>, g1: seq<GateRec>, pl1: seq<string>,
                    g2: seq<GateRec>, pl2: seq<string>, a: seq<nat>, b: seq<nat>, o: nat, rank: seq<nat>)
    requires ArenaOk(g0) && Linked(g0) && Ranked(g0, rank) && o < |g0| && !g0[o].isprint
    requires DfsPost(g0, pl0, g1, pl1, a, g0[o].fanin0, rank)
    requires DfsPost(g1, pl1, g2, pl2, b, g0[o].fanin1, rank)
    ensures SameButMarks(g0, g2) && Walked(g0, g2, a + b, false)
    ensures pl2 == pl0 + Lines(g2, a + b)
    ensures forall i :: 0 <= i < |a + b| ==> (a + b)[i] < |g2| && rank[(a + b)[i]] < rank[o]
    ensures Listable(g2[o], false) && !g2[o].isprint ==>
              Done(g0, g0[o].fanin0, a + b, false) && Done(g0, g0[o].fanin1, a + b, false)
  {
    assert GateOk(|g0|, g0[o]);
    assert forall i :: 0 <= i < |a| ==> a[i] < |rank| && rank[a[i]] < rank[o];
    assert forall i :: 0 <= i < |b| ==> b[i] < |rank| && rank[b[i]] < rank[o];
    BelowBoth(a, b, rank, rank[o]);
    WalkedJoin(g0, g1, g2, a, b, false);
    LinesJoin(g1, g2, a, b, rank);
    AppendJoin(pl0, pl1, pl2, Lines(g1, a), Lines(g2, b), Lines(g2, a + b));
    assert g1[o] == g0[o].(isprint := g1[o].isprint);
    assert g2[o] == g0[o].(isprint := g2[o].isprint);
    if Listable(g2[o], false) && !g2[o].isprint {
      DoneReached(g0, g1, a, g0[o].fanin0, false);
      DoneMore(g0, g0[o].fanin0, a, b, false);
      DoneReached(g1, g2, b, g1[o].fanin1, false);
      DoneAfter(g0, g1, a, b, g0[o].fanin1, false);
    }
  }

  /** Gate o, found marked or unlistable after its fanin walks, is not
      listed again. */
  lemma DfsJoinSkip(g0: seq<GateRec>, pl0: seq<string>, g1: seq<GateRec>, pl1: seq<string>,
                    g2: seq<GateRec>, pl2: seq<string>, a: seq<nat>, b: seq<nat>, o: nat, rank: seq<nat>)
    requires ArenaOk(g0) && Linked(g0) && Ranked(g0, rank) && o < |g0| && !g0[o].isprint
    requires DfsPost(g0, pl0, g1, pl1, a, g0[o].fanin0, rank)
    requires DfsPost(g1, pl1, g2, pl2, b, g0[o].fanin1, rank)
    requires g2[o].isprint || !Listable(g2[o], false)
    ensures DfsPost(g0, pl0, g2, pl2, a + b, Ref(o), rank)
  {
    DfsChildren(g0, pl0, g1, pl1, g2, pl2, a, b, o, rank);
    ConeJoin(g0, g1, g2, g2, a, b, a + b, o, false, rank);
  }

  /** Gate o, still unmarked after its fanin walks, is listed last and
      marked. */
  lemma DfsJoinList(g0: seq<GateRec>, pl0: seq<string>, g1: seq<GateRec>, pl1: seq<string>,
                    g2: seq<GateRec>, pl2: seq<string>, a: seq<nat>, b: seq<nat>, o: nat, rank: seq<nat>)
    requires ArenaOk(g0) && Linked(g0) && Ranked(g0, rank) && o < |g0| && !g0[o].isprint
    requires DfsPost(g0, pl0, g1, pl1, a, g0[o].fanin0, rank)
    requires DfsPost(g1, pl1, g2, pl2, b, g0[o].fanin1, rank)
    requires !g2[o].isprint && Listable(g2[o], false)
    ensures DfsPost(g0, pl0, g2[o := SetPrint(g2[o])], pl2 + [GateLine(g2, o)], a + b + [o], Ref(o), rank)
  {
    DfsChildren(g0, pl0, g1, pl1, g2, pl2, a, b, o, rank);
    var g3 := g2[o := SetPrint(g2[o])];
    WalkedPush(g0, g2, a + b, o, false);
    assert SameButMarks(g2, g3);
    LinesJoin(g2, g3, a + b, [o], rank);
    MarksKeep(g2, g3, rank);
    AppendJoin(pl0, pl2, pl2 + [GateLine(g2, o)], Lines(g2, a + b), [GateLine(g2, o)], Lines(g3, a + b + [o]));
    ConeJoin(g0, g1, g2, g3, a, b, a + b + [o], o, false, rank);
  }

  /** A run of netlist walks from g0: arena linked and ranked, one walk
      overall that listed `listed`, and their lines appended to the print
      list. */
  predicate ListingPost(g0: seq<GateRec>, pl0: seq<string>, g: seq<GateRec>, pl: seq<string>,
                        listed: seq<nat>, rank: seq<nat>)
  {
    && ArenaOk(g) && Linked(g) && Ranked(g, rank)
    && Walked(g0, g, listed, false)
    && (forall i :: 0 <= i < |listed| ==> listed[i] < |g|)
    && pl == pl0 + Lines(g, listed)
  }

  lemma ListingStart(g: seq<GateRec>, pl: seq<string>, rank: seq<nat>)
    requires ArenaOk(g) && Linked(g) && Ranked(g, rank)
    ensures ListingPost(g, pl, g, pl, [], rank)
  {
    WalkedNone(g, false);
    assert Lines(g, []) == [];
  }

  /** One more walk extends the run; marks already set stay set. */
  lemma ListingJoin(g0: seq<GateRec>, pl0: seq<string>, g1: seq<GateRec>, pl1: seq<string>, a: seq<nat>,
                    g2: seq<GateRec>, pl2: seq<string>, b: seq<nat>, p: Ptr, rank: seq<nat>)
    requires ListingPost(g0, pl0, g1, pl1, a, rank) && DfsPost(g1, pl1, g2, pl2, b, p, rank)
    ensures ListingPost(g0, pl0, g2, pl2, a + b, rank)
    ensures forall x :: 0 <= x < |g1| && g1[x].isprint ==> g2[x].isprint
  {
    WalkedJoin(g0, g1, g2, a, b, false);
    LinesJoin(g1, g2, a, b, rank);
    AppendJoin(pl0, pl1, pl2, Lines(g1, a), Lines(g2, b), Lines(g2, a + b));
  }

  /** Marks changed after the run leave its lines as they were. */
  lemma ListingMarks(g0: seq<GateRec>, pl0: seq<string>, g: seq<GateRec>, pl: seq<string>,
                     listed: seq<nat>, g': seq<GateRec>, rank: seq<nat>)
    requires ListingPost(g0, pl0, g, pl, listed, rank) && SameButMarks(g, g')
    ensures ArenaOk(g') && Linked(g') && Ranked(g', rank)
    ensures forall i :: 0 <= i < |listed| ==> listed[i] < |g'|
    ensures pl == pl0 + Lines(g', listed)
  {
    MarksKeep(g, g', rank);
  }
}
