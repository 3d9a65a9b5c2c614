/**
  An LZMA encoder, and the proof that the decoder undoes it: whatever packets
  are coded, the machine writes what they stand for, and ends as it should.

  The machine is followed choice by choice, with its range decoder inside the
  interval of the encoder and its place in the packet known.
 */
module LzmaEncoding {
  import opened Arithmetic
  import opened Bytes
  import opened LzmaMachine
  import opened LzmaWindow
  import opened RangeCoding
  import opened RangeEncoding
  import opened Sequences
  import opened Wrappers
  import D = LzmaDecoding
  import P = LzmaPackets

  /** A stream, and the choices it is made of. */
  datatype Ground = Ground(p: Params, size: nat, rc: seq<byte>, events: seq<Event>)
  {
    ghost predicate Valid() {
      && p.Fits() && 1 <= size < TWO_32
      && InTable(events, NumProbs(p)) && IsStream(rc, NumProbs(p), events)
    }
  }

  function PropsOf(p: Params): P.Props {
    P.Props(p.lc, p.lp, p.pb)
  }

  // ─── One choice ──────────────────────────────────────────────────

  ghost predicate Synced(g: Ground, n: nat, c: Core)
    requires g.Valid() && n <= |g.events|
  {
    var coder := Pending(NumProbs(g.p), g.events[..n]);
    c.probs == coder.probs && Tracks(c.dec, g.rc, coder.interval) && !c.corrupted
  }

  /** The machine has come to `m` and decoded `n` choices. */
  ghost predicate At(g: Ground, n: nat, m: Machine) {
    && g.Valid() && n <= |g.events| && Legal(g.p, m)
    && Leads(g.p, g.rc, D.Fresh(g.p, g.size), m)
    && Synced(g, n, m.core)
  }

  /** The next choices are `e`. */
  ghost predicate Next(g: Ground, n: nat, e: seq<Event>) {
    n + |e| <= |g.events| && g.events[n..n + |e|] == e
  }

  lemma NextTwo(g: Ground, n: nat, a: seq<Event>, b: seq<Event>)
    requires Next(g, n, a + b)
    ensures Next(g, n, a) && Next(g, n + |a|, b)
  {
    var e := g.events[n..n + |a + b|];
    assert g.events[n..n + |a|] == e[..|a|] == a;
    assert g.events[n + |a|..n + |a| + |b|] == e[|a|..] == b;
  }

  lemma NextAt(g: Ground, n: nat, e: seq<Event>, j: nat)
    requires Next(g, n, e) && j < |e|
    ensures Next(g, n + j, [e[j]])
  {
    assert g.events[n + j] == g.events[n..n + |e|][j];
  }

  predicate SameButCoder(a: Core, b: Core) {
    b == a.(dec := b.dec, probs := b.probs)
  }

  predicate Choosing(p: Params, m: Machine) {
    Legal(p, m) && !m.phase.Finished? && !m.phase.Opening? && Move(p, m).None?
  }

  /** The choice the machine stands before, made as `bit`. */
  predicate Asks(p: Params, m: Machine, e: Event)
    requires Choosing(p, m)
  {
    if IsDirect(m.phase) then e.Direct? else e == Event(Index(p, m), e.bit)
  }

  lemma AdaptiveOn(g: Ground, n: nat, m: Machine, e: Event) returns (c: Core)
    requires At(g, n, m) && Choosing(g.p, m) && !IsDirect(m.phase) && Asks(g.p, m, e) && Next(g, n, [e])
    ensures SameButCoder(m.core, c) && n < |g.events| && Synced(g, n + 1, c)
    ensures c.win.Fits() && c.reps.r0 < |c.win.past|
    ensures Step(g.p, g.rc, m) == Some(AfterBit(g.p, c, m.phase, e.bit))
  {
    hide Leads, PhaseFits, Move, AfterBit, IsStream, Pending, Coded, Choose, Tracks, Normalise;
    assert g.events[n] == g.events[n..n + 1][0] == e;
    IndexInTable(g.p, m);
    DecodeTracks(m.core.dec, g.rc, NumProbs(g.p), g.events, n);
    var d := Normalise(m.core.dec, g.rc).value;
    var (next, bit) := DecodeWith(m.core, Index(g.p, m), d);
    c := next;
    PendingNext(g, n);
  }

  lemma PendingNext(g: Ground, n: nat)
    requires g.Valid() && n < |g.events|
    ensures var was, now := Pending(NumProbs(g.p), g.events[..n]), Pending(NumProbs(g.p), g.events[..n + 1]);
            now.probs == match g.events[n]
                         case Event(context, bit) => was.probs[context := Adapt(was.probs[context], bit)]
                         case Direct(_) => was.probs
  {
    assert g.events[..n + 1][..n] == g.events[..n];
  }

  lemma DirectOn(g: Ground, n: nat, m: Machine, e: Event) returns (c: Core)
    requires At(g, n, m) && Choosing(g.p, m) && IsDirect(m.phase) && Asks(g.p, m, e) && Next(g, n, [e])
    ensures SameButCoder(m.core, c) && n < |g.events| && Synced(g, n + 1, c)
    ensures c.win.Fits() && c.reps.r0 < |c.win.past|
    ensures Step(g.p, g.rc, m) == Some(AfterBit(g.p, c, m.phase, e.bit))
  {
    hide Leads, PhaseFits, Move, AfterBit, IsStream, Pending, Coded, ChooseDirect, Tracks, Normalise;
    assert g.events[n] == g.events[n..n + 1][0] == e;
    DecodeDirectTracks(m.core.dec, g.rc, NumProbs(g.p), g.events, n);
    var d := Normalise(m.core.dec, g.rc).value;
    var (next, bit) := DecodeDirect(m.core, d);
    c := next;
    PendingNext(g, n);
  }

  lemma BitOn(g: Ground, n: nat, m: Machine, e: Event) returns (c: Core)
    requires At(g, n, m) && Choosing(g.p, m) && Asks(g.p, m, e) && Next(g, n, [e])
    ensures SameButCoder(m.core, c) && c.win.Fits() && c.reps.r0 < |c.win.past|
    ensures At(g, n + 1, AfterBit(g.p, c, m.phase, e.bit))
  {
    hide Leads, Move, AfterBit, Asks, Synced, Step;
    if IsDirect(m.phase) {
      c := DirectOn(g, n, m, e);
    } else {
      c := AdaptiveOn(g, n, m, e);
    }
    SameCoder(g, n + 1, g.p, c, m.phase, e.bit);
    hide Legal;
    LeadsOn(g.p, g.rc, D.Fresh(g.p, g.size), m, AfterBit(g.p, c, m.phase, e.bit));
  }

  lemma SameCoder(g: Ground, n: nat, p: Params, c: Core, ph: Phase, bit: bool)
    requires p.Fits() && c.win.Fits() && c.reps.r0 < |c.win.past|
    requires g.Valid() && n <= |g.events| && Synced(g, n, c)
    ensures Synced(g, n, AfterBit(p, c, ph, bit).core)
  {
    hide Pending, Tracks, LitState, PosState;
  }

  lemma MoveOn(g: Ground, n: nat, m: Machine, next: Machine)
    requires At(g, n, m) && !m.phase.Finished? && !m.phase.Opening? && Move(g.p, m) == Some(next)
    ensures At(g, n, next)
  {
    MoveKeeps(g.p, m);
    hide Move, Legal, Leads, Pending, Tracks;
    MovesOn(g.p, g.rc, D.Fresh(g.p, g.size), m, next);
  }

  lemma MoveKeeps(p: Params, m: Machine)
    requires Legal(p, m) && Move(p, m).Some?
    ensures var a, b := m.core, Move(p, m).value.core;
            b.dec == a.dec && b.probs == a.probs && b.corrupted == a.corrupted
  {
    hide Pow2, Window.Get, LenFits, DistFits;
  }

  // ─── Numbers ─────────────────────────────────────────────────────

  /** Where the length coder stands in a tree, `j` bits of `x` known. */
  function LenPlace(t: P.Tree, x: nat, j: nat): LenPhase
    requires j <= P.Depth(t)
  {
    var node, left: nat := P.NodeAt(x, P.Depth(t), j), P.Depth(t) - j;
    match t
    case LowLen(_, _) => Low(node, left)
    case MidLen(_, _) => Mid(node, left)
    case _ => High(node, left)
  }

  predicate IsLenTree(t: P.Tree, rep: bool, pos: nat) {
    t == P.LowLen(rep, pos) || t == P.MidLen(rep, pos) || t == P.HighLen(rep)
  }

  lemma LenAsks(p: Params, m: Machine, t: P.Tree, x: nat, j: nat)
    requires Legal(p, m) && m.phase.Length? && IsLenTree(t, m.phase.isRep, m.phase.posState) && j < P.Depth(t)
    requires m.phase.len == LenPlace(t, x, j)
    ensures Choosing(p, m) && Asks(p, m, P.TreeEvent(t, x, j))
    ensures AfterLenBit(m.phase.len, P.BitAt(x, P.Depth(t) - 1 - j)) == LenPlace(t, x, j + 1)
  {
    P.NodeNext(x, P.Depth(t), j);
    hide Legal, P.NodeAt, P.BitAt;
  }

  lemma {:induction false} LenTreeOn(g: Ground, n: nat, m: Machine, t: P.Tree, x: nat, j: nat) returns (next: Machine)
    requires At(g, n + j, m) && m.phase.Length? && IsLenTree(t, m.phase.isRep, m.phase.posState) && j <= P.Depth(t)
    requires m.phase.len == LenPlace(t, x, j) && Next(g, n, P.TreeEvents(t, x))
    ensures At(g, n + P.Depth(t), next) && SameButCoder(m.core, next.core)
    ensures next.phase == m.phase.(len := LenPlace(t, x, P.Depth(t)))
    decreases P.Depth(t) - j
  {
    hide At, Legal, Choosing, Asks, LenPlace, AfterLenBit, P.TreeEvent, P.BitAt, Next;
    next := m;
    if j < P.Depth(t) {
      var bit := P.BitAt(x, P.Depth(t) - 1 - j);
      NextAt(g, n, P.TreeEvents(t, x), j);
      AtLegal(g, n + j, m);
      LenAsks(g.p, m, t, x, j);
      EventBit(t, x, j);
      var c := BitOn(g, n + j, m, P.TreeEvent(t, x, j));
      next := LenTreeOn(g, n, AfterBit(g.p, c, m.phase, bit), t, x, j + 1);
    }
  }

  lemma EventBit(t: P.Tree, x: nat, j: nat)
    requires j < P.Depth(t)
    ensures P.TreeEvents(t, x)[j] == P.TreeEvent(t, x, j)
    ensures P.TreeEvent(t, x, j).bit == P.BitAt(x, P.Depth(t) - 1 - j)
  {
  }

  lemma AtLegal(g: Ground, n: nat, m: Machine)
    requires At(g, n, m)
    ensures Legal(g.p, m) && g.p.Fits()
  {
  }

  /** A choice of two in the length coder, before any tree. */
  lemma LenChoiceOn(g: Ground, n: nat, m: Machine, bit: bool) returns (next: Machine)
    requires At(g, n, m) && m.phase.Length? && (m.phase.len.Choice? || m.phase.len.Choice2?)
    requires var rep := m.phase.isRep;
             Next(g, n, [P.Picked(if m.phase.len.Choice? then P.Choice(rep) else P.Choice2(rep), bit)])
    ensures At(g, n + 1, next) && SameButCoder(m.core, next.core)
    ensures next.phase == m.phase.(len := AfterLenBit(m.phase.len, bit))
  {
    hide At, Legal;
    AtLegal(g, n, m);
    var rep := m.phase.isRep;
    var e := P.Picked(if m.phase.len.Choice? then P.Choice(rep) else P.Choice2(rep), bit);
    var c := BitOn(g, n, m, e);
    next := AfterBit(g.p, c, m.phase, bit);
  }

  /** What the machine makes of the leaf of `x` in a tree. */
  lemma PlaceEnds(t: P.Tree, x: nat)
    requires x < Pow2(P.Depth(t)) && (t.LowLen? || t.MidLen? || t.HighLen?)
    ensures LenPlace(t, x, 0) == if t.LowLen? then Low(1, 3) else if t.MidLen? then Mid(1, 3) else High(1, 8)
    ensures var l := LenPlace(t, x, P.Depth(t));
            InTree(l) && l.bits == 0 && LenOf(l) == x + (if t.LowLen? then 0 else if t.MidLen? then 8 else 16)
  {
    SmallPowers();
    P.NodeEnds(x, P.Depth(t));
    hide P.NodeAt, Pow2;
  }

  lemma LenLeafOn(g: Ground, n: nat, m: Machine, t: P.Tree, x: nat) returns (next: Machine)
    requires At(g, n, m) && m.phase.Length? && IsLenTree(t, m.phase.isRep, m.phase.posState)
    requires x < Pow2(P.Depth(t)) && m.phase.len == LenPlace(t, x, 0) && Next(g, n, P.TreeEvents(t, x))
    ensures At(g, n + P.Depth(t), next) && SameButCoder(m.core, next.core) && next.core.win.Fits()
    ensures next == LengthDone(g.p, next.core, m.phase.kind,
                               x + if t.LowLen? then 0 else if t.MidLen? then 8 else 16)
  {
    hide At, Legal, LenPlace, Next, Move, LengthDone, P.TreeEvents;
    var leaf := LenTreeOn(g, n, m, t, x, 0);
    PlaceEnds(t, x);
    AtLegal(g, n + P.Depth(t), leaf);
    LengthMoves(g.p, leaf);
    next := LengthDone(g.p, leaf.core, m.phase.kind, LenOf(leaf.phase.len));
    MoveOn(g, n + P.Depth(t), leaf, next);
    DoneKeeps(g.p, leaf.core, m.phase.kind, LenOf(leaf.phase.len));
  }

  lemma DoneKeeps(p: Params, c: Core, kind: MatchType, len: nat)
    ensures LengthDone(p, c, kind, len).core == c
  {
  }

  /** A length is decoded as it was coded. */
  lemma LenOn(g: Ground, n: nat, m: Machine, len: nat) returns (next: Machine)
    requires At(g, n, m) && m.phase.Length? && m.phase.len.Choice? && 2 <= len <= 273
    requires Next(g, n, P.LenEvents(m.phase.isRep, m.phase.posState, len))
    ensures At(g, n + |P.LenEvents(m.phase.isRep, m.phase.posState, len)|, next)
    ensures SameButCoder(m.core, next.core) && next == LengthDone(g.p, next.core, m.phase.kind, len - 2)
  {
    hide At, Next, LengthDone, LenPlace, P.TreeEvents, P.Picked;
    SmallPowers();
    hide Pow2;
    var rep, pos, k := m.phase.isRep, m.phase.posState, m.phase.kind;
    var x := m;
    if len < 10 {
      var t := P.LowLen(rep, pos);
      NextTwo(g, n, [P.Picked(P.Choice(rep), false)], P.TreeEvents(t, len - 2));
      x := LenChoiceOn(g, n, m, false);
      PlaceEnds(t, len - 2);
      next := LenLeafOn(g, n + 1, x, t, len - 2);
    } else {
      var second := [P.Picked(P.Choice2(rep), len >= 18)];
      var t := if len < 18 then P.MidLen(rep, pos) else P.HighLen(rep);
      var leaf: nat := if len < 18 then len - 10 else len - 18;
      assert P.LenEvents(rep, pos, len) == [P.Picked(P.Choice(rep), true)] + (second + P.TreeEvents(t, leaf));
      NextTwo(g, n, [P.Picked(P.Choice(rep), true)], second + P.TreeEvents(t, leaf));
      NextTwo(g, n + 1, second, P.TreeEvents(t, leaf));
      x := LenChoiceOn(g, n, m, true);
      x := LenChoiceOn(g, n + 1, x, len >= 18);
      PlaceEnds(t, leaf);
      next := LenLeafOn(g, n + 2, x, t, leaf);
    }
  }

  // ─── Distances ───────────────────────────────────────────────────

  lemma SlotAsks(p: Params, m: Machine, t: P.Tree, x: nat, j: nat)
    requires Legal(p, m) && m.phase.Distance? && t == P.PosSlots(m.phase.lenState) && j < 6
    requires m.phase.dist == PosSlot(P.NodeAt(x, 6, j), 6 - j)
    ensures Choosing(p, m) && Asks(p, m, P.TreeEvent(t, x, j))
    ensures AfterDistBit(m.phase.dist, P.BitAt(x, 5 - j)) == PosSlot(P.NodeAt(x, 6, j + 1), 5 - j)
  {
    P.NodeNext(x, 6, j);
    hide Legal, P.NodeAt, P.BitAt;
  }

  lemma {:induction false} SlotOn(g: Ground, n: nat, m: Machine, x: nat, j: nat) returns (next: Machine)
    requires At(g, n + j, m) && m.phase.Distance? && j <= 6
    requires m.phase.dist == PosSlot(P.NodeAt(x, 6, j), 6 - j)
    requires Next(g, n, P.TreeEvents(P.PosSlots(m.phase.lenState), x))
    ensures At(g, n + 6, next) && SameButCoder(m.core, next.core)
    ensures next.phase == m.phase.(dist := PosSlot(P.NodeAt(x, 6, 6), 0))
    decreases 6 - j
  {
    hide At, Legal, Choosing, Asks, AfterDistBit, P.TreeEvent, P.BitAt, P.NodeAt, Next;
    next := m;
    if j < 6 {
      var t := P.PosSlots(m.phase.lenState);
      NextAt(g, n, P.TreeEvents(t, x), j);
      AtLegal(g, n + j, m);
      SlotAsks(g.p, m, t, x, j);
      EventBit(t, x, j);
      var c := BitOn(g, n + j, m, P.TreeEvent(t, x, j));
      next := SlotOn(g, n, AfterBit(g.p, c, m.phase, P.BitAt(x, 5 - j)), x, j + 1);
    }
  }

  /** The `bits` top bits of `x` below its head are known. */
  function DirectPlace(head: nat, x: nat, k: nat, j: nat): DistPhase
    requires j <= k
  {
    DirectBits(head * Pow2(j) + Quotient(x, Pow2(k - j)), k - j)
  }

  lemma DirectAsks(p: Params, m: Machine, head: nat, x: nat, k: nat, j: nat)
    requires Legal(p, m) && m.phase.Distance? && j < k
    requires m.phase.dist == DirectPlace(head, x, k, j)
    ensures Choosing(p, m) && Asks(p, m, Direct(P.BitAt(x, k - 1 - j)))
    ensures AfterDistBit(m.phase.dist, P.BitAt(x, k - 1 - j)) == DirectPlace(head, x, k, j + 1)
  {
    P.Halves(x, Pow2(k - 1 - j));
    P.Doubled(k - 1 - j);
    P.Doubled(j);
    MulSwap(head, 2, Pow2(j));
    hide Legal, Pow2, Quotient;
  }

  lemma {:induction false} DirectsOn(g: Ground, n: nat, m: Machine, head: nat, x: nat, k: nat, j: nat)
    returns (next: Machine)
    requires At(g, n + j, m) && m.phase.Distance? && j <= k
    requires m.phase.dist == DirectPlace(head, x, k, j) && Next(g, n, P.DirectEvents(x, k))
    ensures At(g, n + k, next) && SameButCoder(m.core, next.core)
    ensures next.phase == m.phase.(dist := DirectPlace(head, x, k, k))
    decreases k - j
  {
    hide At, Legal, Choosing, Asks, AfterDistBit, DirectPlace, P.BitAt, Next;
    next := m;
    if j < k {
      NextAt(g, n, P.DirectEvents(x, k), j);
      AtLegal(g, n + j, m);
      DirectAsks(g.p, m, head, x, k, j);
      var c := BitOn(g, n + j, m, Direct(P.BitAt(x, k - 1 - j)));
      next := DirectsOn(g, n, AfterBit(g.p, c, m.phase, P.BitAt(x, k - 1 - j)), head, x, k, j + 1);
    }
  }

  /** The low `i` bits of a number that are known. */
  function ReversePlace(t: P.Tree, dist: nat, offset: nat, x: nat, i: nat): DistPhase {
    var node, low := P.ReverseNodeAt(x, i), Remainder(x, Pow2(i));
    if t.Align? then AlignBits(dist, node, low, i) else SpecPosBits(dist, offset, node, low, i, P.Depth(t))
  }

  lemma LowNext(x: nat, i: nat)
    ensures Remainder(x, Pow2(i + 1)) == Remainder(x, Pow2(i)) + (if P.BitAt(x, i) then Pow2(i) else 0)
  {
    P.Doubled(i);
    P.Halves(x, Pow2(i));
  }

  lemma ReverseAsks(p: Params, m: Machine, t: P.Tree, dist: nat, offset: nat, x: nat, i: nat)
    requires Legal(p, m) && m.phase.Distance? && (t.Align? || t.SpecPos?) && i < P.Depth(t)
    requires m.phase.dist == ReversePlace(t, dist, offset, x, i) && (t.SpecPos? ==> offset == P.Root(t))
    ensures Choosing(p, m) && Asks(p, m, P.ReverseEvent(t, x, i))
    ensures AfterDistBit(m.phase.dist, P.BitAt(x, i)) == ReversePlace(t, dist, offset, x, i + 1)
  {
    LowNext(x, i);
    hide Legal, P.BitAt, Remainder, Pow2;
  }

  lemma {:induction false} ReverseOn(g: Ground, n: nat, m: Machine, t: P.Tree, dist: nat, offset: nat, x: nat, i: nat)
    returns (next: Machine)
    requires At(g, n + i, m) && m.phase.Distance? && (t.Align? || t.SpecPos?) && i <= P.Depth(t)
    requires m.phase.dist == ReversePlace(t, dist, offset, x, i) && (t.SpecPos? ==> offset == P.Root(t))
    requires Next(g, n, P.ReverseEvents(t, x))
    ensures At(g, n + P.Depth(t), next) && SameButCoder(m.core, next.core)
    ensures next.phase == m.phase.(dist := ReversePlace(t, dist, offset, x, P.Depth(t)))
    decreases P.Depth(t) - i
  {
    hide At, Legal, Choosing, Asks, AfterDistBit, ReversePlace, P.BitAt, P.ReverseNodeAt, P.Slot, Next;
    next := m;
    if i < P.Depth(t) {
      NextAt(g, n, P.ReverseEvents(t, x), i);
      AtLegal(g, n + i, m);
      ReverseAsks(g.p, m, t, dist, offset, x, i);
      var c := BitOn(g, n + i, m, P.ReverseEvent(t, x, i));
      next := ReverseOn(g, n, AfterBit(g.p, c, m.phase, P.BitAt(x, i)), t, dist, offset, x, i + 1);
    }
  }

  /** The head of a distance, which its slot names, and its footer. */
  lemma SlotParts(d: nat)
    requires 4 <= d < TWO_32
    ensures var k, slot := P.Log2(d) - 1, P.SlotOf(d);
            && k >= 1 && slot / 2 - 1 == k && P.FooterOf(d) < Pow2(k)
            && d == (2 + slot % 2) * Pow2(k) + P.FooterOf(d)
  {
    P.SlotBound(d);
    var k := P.Log2(d) - 1;
    P.Doubled(k);
    HeadOf(d, Pow2(k));
  }

  lemma HeadOf(d: nat, q: nat)
    requires q > 0 && 2 * q <= d < 4 * q
    ensures d == (2 + d / q % 2) * q + d % q
  {
    if d < 3 * q {
      DivModUnique(d, q, 2, d - 2 * q);
    } else {
      DivModUnique(d, q, 3, d - 3 * q);
    }
  }

  lemma SlotEnds(slot: nat)
    requires slot < 64
    ensures P.NodeAt(slot, 6, 0) == 1 && P.NodeAt(slot, 6, 6) == 64 + slot
  {
    SmallPowers();
    P.NodeEnds(slot, 6);
  }

  lemma SlotLeafOn(g: Ground, n: nat, m: Machine, len: nat, d: nat) returns (c: Core)
    requires At(g, n, m) && 2 <= len && d < TWO_32
    requires m.phase == Distance(len, Min(len - 2, 3), PosSlot(1, 6))
    requires Next(g, n, P.TreeEvents(P.PosSlots(Min(len - 2, 3)), P.SlotOf(d)))
    ensures SameButCoder(m.core, c) && At(g, n + 6, SlotDone(g.p, c, len, Min(len - 2, 3), P.SlotOf(d)))
  {
    hide At, Legal, Next, SlotDone, Move, P.TreeEvents, P.NodeAt, P.SlotOf;
    var ls, slot := Min(len - 2, 3), P.SlotOf(d);
    P.SlotBound(d);
    SlotEnds(slot);
    var leaf := SlotOn(g, n, m, slot, 0);
    AtLegal(g, n + 6, leaf);
    SlotMoves(g.p, leaf);
    c := leaf.core;
    MoveOn(g, n + 6, leaf, SlotDone(g.p, c, len, ls, slot));
  }

  lemma RemainderSame(x: nat, p: nat)
    requires x < p
    ensures Remainder(x, p) == x
  {
    DivModUnique(x, p, 0, x);
  }

  lemma ReverseEnds(t: P.Tree, dist: nat, offset: nat, x: nat)
    requires (t.Align? || t.SpecPos?) && x < Pow2(P.Depth(t))
    ensures var d := ReversePlace(t, dist, offset, x, P.Depth(t));
            if t.Align? then d.AlignBits? && d.i == 4 && d.dist == dist && d.symbol == x
            else d.SpecPosBits? && d.i == d.bits && d.dist == dist && d.symbol == x
  {
    RemainderSame(x, Pow2(P.Depth(t)));
  }

  /** The low bits of a distance, and with them the whole of it. */
  lemma ReverseLeafOn(g: Ground, n: nat, m: Machine, t: P.Tree, dist: nat, x: nat) returns (c: Core)
    requires At(g, n, m) && m.phase.Distance? && (t.Align? || t.SpecPos?) && x < Pow2(P.Depth(t))
    requires m.phase.dist == ReversePlace(t, dist, P.Root(t), x, 0) && Next(g, n, P.ReverseEvents(t, x))
    ensures SameButCoder(m.core, c) && At(g, n + P.Depth(t), DistanceDone(g.p, c, m.phase.length, dist + x))
  {
    hide At, Legal, Next, DistanceDone, ReversePlace, Move, P.ReverseEvents, P.Root, P.Depth, Pow2;
    ReverseEnds(t, dist, P.Root(t), x);
    var leaf := ReverseOn(g, n, m, t, dist, P.Root(t), x, 0);
    AtLegal(g, n + P.Depth(t), leaf);
    ReverseMoves(g.p, leaf);
    c := leaf.core;
    MoveOn(g, n + P.Depth(t), leaf, DistanceDone(g.p, c, m.phase.length, dist + x));
  }

  lemma SpecRoot(slot: nat)
    requires 4 <= slot < 14
    ensures var dist := (2 + slot % 2) * Pow2(slot / 2 - 1);
            dist >= slot && OFF_POS_DECODERS + dist - slot == P.Root(P.SpecPos(slot))
  {
    SmallPowers();
    hide Pow2;
    assert slot == 4 || slot == 5 || slot == 6 || slot == 7 || slot == 8 || slot == 9 || slot == 10 || slot == 11
           || slot == 12 || slot == 13;
  }

  lemma SpecPosStarts(p: Params, c: Core, len: nat, ls: nat, slot: nat, x: nat)
    requires 4 <= slot < 14
    ensures SlotDone(p, c, len, ls, slot)
         == Machine(c, Distance(len, ls, ReversePlace(P.SpecPos(slot), (2 + slot % 2) * Pow2(slot / 2 - 1),
                                                      P.Root(P.SpecPos(slot)), x, 0)))
  {
    hide P.Root;
    SpecRoot(slot);
    assert x % Pow2(0) == 0;
  }

  lemma SpecPosOn(g: Ground, n: nat, c: Core, len: nat, ls: nat, d: nat) returns (next: Core)
    requires 4 <= d < 128 && At(g, n, SlotDone(g.p, c, len, ls, P.SlotOf(d)))
    requires Next(g, n, P.ReverseEvents(P.SpecPos(P.SlotOf(d)), P.FooterOf(d)))
    ensures SameButCoder(c, next)
    ensures At(g, n + P.Depth(P.SpecPos(P.SlotOf(d))), DistanceDone(g.p, next, len, d))
  {
    hide At, Next, SlotDone, DistanceDone, ReversePlace, P.ReverseEvents, P.SlotOf, P.FooterOf, P.Log2, P.Root, Pow2;
    var slot, x := P.SlotOf(d), P.FooterOf(d);
    var t := P.SpecPos(slot);
    SlotParts(d);
    P.SlotBound(d);
    SpecPosStarts(g.p, c, len, ls, slot, x);
    next := ReverseLeafOn(g, n, SlotDone(g.p, c, len, ls, slot), t, (2 + slot % 2) * Pow2(slot / 2 - 1), x);
  }

  /** The bits of a long distance above its last four. */
  function TopOf(d: nat): nat
    requires d >= 128 && P.Log2(d) >= 5
  {
    (2 + P.SlotOf(d) % 2) * Pow2(P.Log2(d) - 5) + P.FooterOf(d) / 16
  }

  lemma TopIs(d: nat)
    requires 128 <= d < TWO_32
    ensures P.Log2(d) >= 7 && P.SlotOf(d) >= 14 && P.SlotOf(d) / 2 == P.Log2(d)
    ensures P.FooterOf(d) / 16 < Pow2(P.Log2(d) - 5) && 16 * TopOf(d) == d - P.FooterOf(d) % 16
  {
    hide P.SlotOf, P.FooterOf, P.Log2;
    P.SlotBound(d);
    SlotParts(d);
    var k, head := P.Log2(d) - 5, 2 + P.SlotOf(d) % 2;
    SixteenTimes(k, head);
    assert P.Log2(d) - 1 == k + 4;
  }

  lemma SixteenTimes(k: nat, head: nat)
    ensures Pow2(k + 4) == 16 * Pow2(k) && head * Pow2(k + 4) == 16 * (head * Pow2(k))
  {
    Pow2Add(k, 4);
    SmallPowers();
    MulSwap(head, 16, Pow2(k));
  }

  lemma DirectStarts(p: Params, c: Core, len: nat, ls: nat, slot: nat, x: nat)
    requires slot >= 14 && x < Pow2(slot / 2 - 5)
    ensures SlotDone(p, c, len, ls, slot)
         == Machine(c, Distance(len, ls, DirectPlace(2 + slot % 2, x, slot / 2 - 5, 0)))
  {
    hide Pow2;
    SmallPowers();
    DivModUnique(x, Pow2(slot / 2 - 5), 0, x);
  }

  lemma DirectEnds(head: nat, x: nat, k: nat)
    ensures DirectPlace(head, x, k, k) == DirectBits(head * Pow2(k) + x, 0)
  {
    SmallPowers();
    hide Pow2;
  }

  lemma AlignStarts(p: Params, m: Machine, top: nat, x: nat)
    requires Legal(p, m) && m.phase.Distance? && m.phase.dist == DirectBits(top, 0) && 16 * top < TWO_32
    ensures Move(p, m)
         == Some(m.(phase := m.phase.(dist := ReversePlace(P.Align, 16 * top, P.Root(P.Align), x, 0))))
  {
    hide Legal, Move;
    DirectMoves(p, m);
    assert x % Pow2(0) == 0;
  }

  lemma DirectOnly(g: Ground, n: nat, c: Core, len: nat, ls: nat, d: nat) returns (next: Machine)
    requires 128 <= d < TWO_32 && At(g, n, SlotDone(g.p, c, len, ls, P.SlotOf(d))) && P.Log2(d) >= 5
    requires Next(g, n, P.DirectEvents(P.FooterOf(d) / 16, P.Log2(d) - 5))
    ensures SameButCoder(c, next.core) && At(g, n + (P.Log2(d) - 5), next)
    ensures next.phase == Distance(len, ls, DirectBits(TopOf(d), 0))
  {
    hide At, Next, SlotDone, DirectPlace, P.DirectEvents, P.SlotOf, P.FooterOf, P.Log2, Pow2;
    var slot, x, k := P.SlotOf(d), P.FooterOf(d) / 16, P.Log2(d) - 5;
    TopIs(d);
    DirectStarts(g.p, c, len, ls, slot, x);
    DirectEnds(2 + slot % 2, x, k);
    next := DirectsOn(g, n, SlotDone(g.p, c, len, ls, slot), 2 + slot % 2, x, k, 0);
  }

  lemma DirectAndAlignOn(g: Ground, n: nat, c: Core, len: nat, ls: nat, d: nat) returns (next: Core)
    requires 128 <= d < TWO_32 && At(g, n, SlotDone(g.p, c, len, ls, P.SlotOf(d))) && P.Log2(d) >= 5
    requires Next(g, n, P.DirectEvents(P.FooterOf(d) / 16, P.Log2(d) - 5)
                        + P.ReverseEvents(P.Align, P.FooterOf(d) % 16))
    ensures SameButCoder(c, next) && At(g, n + (P.Log2(d) - 5) + 4, DistanceDone(g.p, next, len, d))
  {
    hide At, Legal, Next, SlotDone, DistanceDone, ReversePlace, Move, P.DirectEvents, P.ReverseEvents, P.SlotOf,
         P.FooterOf, P.Log2, P.Root, TopOf;
    var x, k := P.FooterOf(d) % 16, P.Log2(d) - 5;
    NextTwo(g, n, P.DirectEvents(P.FooterOf(d) / 16, k), P.ReverseEvents(P.Align, x));
    var m := DirectOnly(g, n, c, len, ls, d);
    TopIs(d);
    AtLegal(g, n + k, m);
    AlignStarts(g.p, m, TopOf(d), x);
    var root := m.(phase := m.phase.(dist := ReversePlace(P.Align, 16 * TopOf(d), P.Root(P.Align), x, 0)));
    MoveOn(g, n + k, m, root);
    SmallPowers();
    next := ReverseLeafOn(g, n + k, root, P.Align, 16 * TopOf(d), x);
  }

  lemma SmallSlot(p: Params, c: Core, len: nat, ls: nat, d: nat)
    requires d < 4
    ensures SlotDone(p, c, len, ls, P.SlotOf(d)) == DistanceDone(p, c, len, d)
  {
  }

  /** What follows the slot of a distance. */
  function AfterSlot(d: nat): seq<Event>
    requires d >= 128 ==> P.Log2(d) >= 5
  {
    if d < 4 then []
    else if d < 128 then P.ReverseEvents(P.SpecPos(P.SlotOf(d)), P.FooterOf(d))
    else P.DirectEvents(P.FooterOf(d) / 16, P.Log2(d) - 5) + P.ReverseEvents(P.Align, P.FooterOf(d) % 16)
  }

  lemma DistIs(len: nat, d: nat)
    requires 2 <= len && d < TWO_32
    ensures d >= 128 ==> P.Log2(d) >= 5
    ensures P.DistEvents(len, d) == P.TreeEvents(P.PosSlots(Min(len - 2, 3)), P.SlotOf(d)) + AfterSlot(d)
  {
    P.SlotBound(d);
  }

  lemma AfterSlotOn(g: Ground, n: nat, c: Core, len: nat, ls: nat, d: nat) returns (next: Core)
    requires d < TWO_32 && At(g, n, SlotDone(g.p, c, len, ls, P.SlotOf(d))) && (d >= 128 ==> P.Log2(d) >= 5)
    requires Next(g, n, AfterSlot(d))
    ensures SameButCoder(c, next) && At(g, n + |AfterSlot(d)|, DistanceDone(g.p, next, len, d))
  {
    hide At, Next, SlotDone, DistanceDone, P.DirectEvents, P.ReverseEvents, P.SlotOf, P.FooterOf, P.Log2;
    if d < 4 {
      next := c;
      SmallSlot(g.p, c, len, ls, d);
    } else if d < 128 {
      next := SpecPosOn(g, n, c, len, ls, d);
    } else {
      next := DirectAndAlignOn(g, n, c, len, ls, d);
    }
  }

  /** A distance is decoded as it was coded. */
  lemma DistOn(g: Ground, n: nat, m: Machine, len: nat, d: nat) returns (next: Core)
    requires At(g, n, m) && 2 <= len && d < TWO_32
    requires m.phase == Distance(len, Min(len - 2, 3), PosSlot(1, 6)) && Next(g, n, P.DistEvents(len, d))
    ensures SameButCoder(m.core, next) && At(g, n + |P.DistEvents(len, d)|, DistanceDone(g.p, next, len, d))
  {
    hide At, Next, SlotDone, DistanceDone, AfterSlot, P.DistEvents, P.TreeEvents, P.SlotOf, P.Log2;
    var ls := Min(len - 2, 3);
    DistIs(len, d);
    NextTwo(g, n, P.TreeEvents(P.PosSlots(ls), P.SlotOf(d)), AfterSlot(d));
    var c := SlotLeafOn(g, n, m, len, d);
    next := AfterSlotOn(g, n + 6, c, len, ls, d);
  }

  // ─── Literals ────────────────────────────────────────────────────

  /** The byte a literal is compared with, `j` bits of it used up. */
  function Shifted(mate: byte, j: nat): byte {
    if j > 0 then ShiftByte(Shifted(mate, j - 1)) else mate
  }

  lemma OneShift(p: nat, q: nat, r: nat, bit: bool, s: nat)
    requires p * q == 0x80 && r < q && s == p * (r + (if bit then q else 0))
    ensures s / 0x80 == (if bit then 1 else 0) && 2 * s % 0x100 == 2 * p * r
  {
    ShiftParts(p, q, r, bit);
    var low := p * r;
    assert 2 * p * r == 2 * low;
    ShiftOut(low, bit, s);
  }

  lemma ShiftParts(p: nat, q: nat, r: nat, bit: bool)
    requires p * q == 0x80 && r < q
    ensures p * r < 0x80 && p * (r + (if bit then q else 0)) == p * r + (if bit then 0x80 else 0)
  {
    MulMono(r + 1, q, p);
    assert (r + 1) * p == p * r + p && q * p == p * q;
    assert p * (r + q) == p * r + p * q;
  }

  lemma ShiftOut(low: nat, bit: bool, s: nat)
    requires low < 0x80 && s == low + (if bit then 0x80 else 0)
    ensures s / 0x80 == (if bit then 1 else 0) && 2 * s % 0x100 == 2 * low
  {
  }

  /** Its top bit is the next bit of the byte. */
  lemma {:induction false} ShiftedIs(mate: byte, j: nat)
    requires j < 8
    ensures Shifted(mate, j) == Pow2(j) * Remainder(mate, Pow2(8 - j))
    ensures Shifted(mate, j) / 0x80 == if P.BitAt(mate, 7 - j) then 1 else 0
    decreases j
  {
    if j > 0 {
      ShiftedIs(mate, j - 1);
      ShiftNext(mate, j - 1);
    } else {
      SmallPowers();
      RemainderSame(mate, 0x100);
    }
    hide Shifted;
    TopOfShifted(mate, j);
  }

  lemma ShiftNext(mate: byte, j: nat)
    requires j < 7 && Shifted(mate, j) == Pow2(j) * Remainder(mate, Pow2(8 - j))
    ensures Shifted(mate, j + 1) == Pow2(j + 1) * Remainder(mate, Pow2(7 - j))
  {
    Powers128(j);
    LowNext(mate, 7 - j);
    OneShift(Pow2(j), Pow2(7 - j), Remainder(mate, Pow2(7 - j)), P.BitAt(mate, 7 - j), Shifted(mate, j));
    P.Doubled(j);
  }

  lemma TopOfShifted(mate: byte, j: nat)
    requires j < 8 && Shifted(mate, j) == Pow2(j) * Remainder(mate, Pow2(8 - j))
    ensures Shifted(mate, j) / 0x80 == if P.BitAt(mate, 7 - j) then 1 else 0
  {
    hide Shifted;
    Powers128(j);
    LowNext(mate, 7 - j);
    OneShift(Pow2(j), Pow2(7 - j), Remainder(mate, Pow2(7 - j)), P.BitAt(mate, 7 - j), Shifted(mate, j));
  }

  lemma Powers128(j: nat)
    requires j < 8
    ensures Pow2(j) * Pow2(7 - j) == 0x80
  {
    Pow2Add(j, 7 - j);
    SmallPowers();
  }

  /** Whether the top `j` bits are those of the byte compared with. */
  predicate Alike(b: byte, mate: Option<byte>, j: nat)
    requires j <= 8
  {
    mate.Some? && Quotient(b, Pow2(8 - j)) == Quotient(mate.value, Pow2(8 - j))
  }

  /** The machine in a literal of which `j` bits are known. */
  predicate InLiteral(ph: Phase, lit: nat, b: byte, mate: Option<byte>, j: nat)
    requires j <= 8
  {
    && ph.Literal? && ph.litState == lit && ph.symbol == P.NodeAt(b, 8, j) && ph.matched == Alike(b, mate, j)
    && (ph.matched ==> ph.matchByte == Shifted(mate.value, j))
  }

  lemma AlikeNext(b: byte, mate: Option<byte>, j: nat)
    requires j < 8
    ensures Alike(b, mate, j + 1) <==>
              Alike(b, mate, j) && P.BitAt(b, 7 - j) == P.BitAt(mate.value, 7 - j)
    ensures Alike(b, mate, j) ==> mate.Some?
  {
    hide Pow2, Quotient;
    P.Doubled(7 - j);
    P.Halves(b, Pow2(7 - j));
    if mate.Some? {
      P.Halves(mate.value, Pow2(7 - j));
    }
  }

  lemma LitAsks(p: Params, m: Machine, lit: nat, b: byte, mate: Option<byte>, j: nat)
    requires j < 8 && Legal(p, m) && InLiteral(m.phase, lit, b, mate, j)
    ensures Choosing(p, m) && Asks(p, m, P.LitEvent(lit, b, mate, j))
    ensures P.LitEvent(lit, b, mate, j).bit == P.BitAt(b, 7 - j)
  {
    hide Legal, P.NodeAt, P.BitAt, Shifted, Pow2, Quotient;
    LitNode(b, j);
    if mate.Some? {
      ShiftedIs(mate.value, j);
    }
  }

  lemma LitNode(b: byte, j: nat)
    requires j < 8
    ensures P.NodeAt(b, 8, j) < 0x100
  {
    SmallPowers();
    P.NodeRange(b, 8, j);
  }

  lemma LitBit(p: Params, c: Core, ph: Phase, lit: nat, b: byte, mate: Option<byte>, j: nat)
    requires j < 8 && InLiteral(ph, lit, b, mate, j)
    requires p.Fits() && c.win.Fits() && c.reps.r0 < |c.win.past|
    ensures AfterBit(p, c, ph, P.BitAt(b, 7 - j)).core == c
    ensures InLiteral(AfterBit(p, c, ph, P.BitAt(b, 7 - j)).phase, lit, b, mate, j + 1)
  {
    hide P.NodeAt, P.BitAt, Alike;
    P.NodeNext(b, 8, j);
    AlikeNext(b, mate, j);
    if mate.Some? {
      ShiftedIs(mate.value, j);
    }
  }

  lemma {:induction false} LitBitsOn(g: Ground, n: nat, m: Machine, lit: nat, b: byte, mate: Option<byte>, j: nat)
    returns (next: Machine)
    requires j <= 8 && At(g, n + j, m) && InLiteral(m.phase, lit, b, mate, j) && Next(g, n, P.LitEvents(lit, b, mate))
    ensures At(g, n + 8, next) && SameButCoder(m.core, next.core) && InLiteral(next.phase, lit, b, mate, 8)
    decreases 8 - j
  {
    hide At, Legal, Choosing, Asks, AfterBit, InLiteral, P.LitEvent, P.BitAt, Next;
    next := m;
    if j < 8 {
      NextAt(g, n, P.LitEvents(lit, b, mate), j);
      AtLegal(g, n + j, m);
      LitAsks(g.p, m, lit, b, mate, j);
      var c := BitOn(g, n + j, m, P.LitEvent(lit, b, mate, j));
      LitBit(g.p, c, m.phase, lit, b, mate, j);
      next := LitBitsOn(g, n, AfterBit(g.p, c, m.phase, P.BitAt(b, 7 - j)), lit, b, mate, j + 1);
    }
  }

  /** A literal is decoded as it was coded. */
  lemma LitOn(g: Ground, n: nat, m: Machine, lit: nat, b: byte, mate: Option<byte>) returns (c: Core)
    requires At(g, n, m) && m.phase == Literal(1, lit, mate.Some?, if mate.Some? then mate.value else 0)
    requires Next(g, n, P.LitEvents(lit, b, mate))
    ensures SameButCoder(m.core, c) && c.win.Fits()
    ensures At(g, n + 8, Machine(PutByte(c, b).(state := AfterLiteral(c.state)), NewSymbol))
  {
    hide At, Legal, InLiteral, Next, Move, PutByte, P.LitEvents, AfterLiteral;
    LitStarts(m.phase, lit, b, mate);
    var leaf := LitBitsOn(g, n, m, lit, b, mate, 0);
    LitEnds(leaf.phase, lit, b, mate);
    AtLegal(g, n + 8, leaf);
    LiteralMoves(g.p, leaf);
    c := leaf.core;
    MoveOn(g, n + 8, leaf, Machine(PutByte(c, b).(state := AfterLiteral(c.state)), NewSymbol));
  }

  lemma LitStarts(ph: Phase, lit: nat, b: byte, mate: Option<byte>)
    requires ph == Literal(1, lit, mate.Some?, if mate.Some? then mate.value else 0)
    ensures InLiteral(ph, lit, b, mate, 0)
  {
    SmallPowers();
    P.NodeEnds(b, 8);
  }

  lemma LitEnds(ph: Phase, lit: nat, b: byte, mate: Option<byte>)
    requires InLiteral(ph, lit, b, mate, 8)
    ensures ph.Literal? && ph.symbol == 0x100 + b
  {
    SmallPowers();
    P.NodeEnds(b, 8);
  }

  // ─── What was written ────────────────────────────────────────────

  /** The window over all output so far. */
  function WindowOf(size: nat, out: seq<byte>): (w: Window)
    ensures |w.past| == size && (size > 0 ==> w.Fits())
  {
    Window((Zeros(size) + out)[|out|..], Min(|out|, size), |out|)
  }

  lemma WindowNext(size: nat, out: seq<byte>, b: byte)
    requires size > 0
    ensures WindowOf(size, out).Put(b) == WindowOf(size, out + [b])
  {
    var all := Zeros(size) + out;
    assert Zeros(size) + (out + [b]) == all + [b];
    assert (all[|out|..] + [b])[1..] == (all + [b])[|out| + 1..];
  }

  lemma WindowByte(size: nat, out: seq<byte>, dist: nat)
    requires 1 <= dist <= Min(|out|, size)
    ensures WindowOf(size, out).Get(dist) == out[|out| - dist]
  {
    var all := Zeros(size) + out;
    assert all[|out|..][size - dist] == all[|out| + size - dist];
  }

  function Wrote(c: Core, size: nat, out: seq<byte>): Core {
    c.(win := WindowOf(size, out), decoded := |out|, out := out)
  }

  lemma WroteNext(c: Core, size: nat, out: seq<byte>, b: byte)
    requires c == Wrote(c, size, out) && size > 0
    ensures PutByte(c, b) == Wrote(c, size, out + [b])
  {
    WindowNext(size, out, b);
  }

  lemma {:induction false} CopyOn(g: Ground, n: nat, c: Core, out: seq<byte>, back: nat, k: nat)
    requires k >= 1 && c == Wrote(c, g.size, out) && back < Min(|out|, g.size)
    requires At(g, n, Machine(c, CopyMatch(back, k)))
    ensures At(g, n, Machine(Wrote(c, g.size, P.Repeated(out, back + 1, k)), NewSymbol))
    decreases k
  {
    hide At, Legal, Move, WindowOf, PutByte;
    var b := out[|out| - (back + 1)];
    AtLegal(g, n, Machine(c, CopyMatch(back, k)));
    CopyMoves(g.p, Machine(c, CopyMatch(back, k)));
    WindowByte(g.size, out, back + 1);
    WroteNext(c, g.size, out, b);
    var next := PutByte(c, b);
    MoveOn(g, n, Machine(c, CopyMatch(back, k)),
           Machine(next, if k == 1 then NewSymbol else CopyMatch(back, k - 1)));
    if k > 1 {
      CopyOn(g, n, next, out + [b], back, k - 1);
    }
  }

  /** What the declared size leaves of output. */
  function Cut(p: Params, out: seq<byte>): seq<byte> {
    if p.unpack.Some? && p.unpack.value < |out| then out[..p.unpack.value] else out
  }

  lemma {:induction false} RepeatedCut(out: seq<byte>, dist: nat, k: nat, len: nat)
    requires k <= len && 1 <= dist <= |out|
    ensures |P.Repeated(out, dist, len)| == |out| + len
    ensures P.Repeated(out, dist, k) == P.Repeated(out, dist, len)[..|out| + k]
    decreases k
  {
    P.RepeatedIs(out, dist, len);
    if k > 0 {
      RepeatedCut(out + [out[|out| - dist]], dist, k - 1, len - 1);
    }
  }

  /** A match is copied as far as the declared size lets it. */
  lemma StartedCopyOn(g: Ground, n: nat, c: Core, out: seq<byte>, back: nat, len: nat)
    requires len >= 1 && c == Wrote(c, g.size, out) && back < Min(|out|, g.size)
    requires At(g, n, StartCopy(g.p, c, back, len))
    requires g.p.unpack.Some? ==> |out| < g.p.unpack.value
    ensures At(g, n, Machine(Wrote(c, g.size, Cut(g.p, P.Repeated(out, back + 1, len))), NewSymbol))
  {
    hide At, WindowOf;
    var room := if g.p.unpack.Some? then g.p.unpack.value - |out| else len;
    CopyOn(g, n, c, out, back, Min(room, len));
    P.RepeatedIs(out, back + 1, len);
    RepeatedCut(out, back + 1, Min(room, len), len);
  }

  // ─── Between packets ─────────────────────────────────────────────

  ghost predicate RepsAre(r: Reps, recent: seq<nat>)
    requires |recent| == 4
  {
    r.r0 + 1 == recent[0] && r.r1 + 1 == recent[1] && r.r2 + 1 == recent[2] && r.r3 + 1 == recent[3]
  }

  /** The core of a machine that has decoded `ps`. */
  ghost predicate Mirrors(size: nat, ps: seq<P.Packet>, c: Core) {
    && c.state == P.StateOf(ps) && RepsAre(c.reps, P.Recent(ps))
    && c == Wrote(c, size, P.Expansion(ps))
  }

  lemma StateNext(ps: seq<P.Packet>, x: P.Packet)
    ensures var s := P.StateOf(ps);
            P.StateOf(ps + [x]) == if x.Lit? then AfterLiteral(s) else if x.Match? then AfterMatch(s)
                                   else if x.ShortRep? then AfterShortRep(s) else AfterRep(s)
  {
    P.Last(ps, x);
    var n := |ps|;
    if n >= 1 {
      assert (ps + [x])[..n - 1] == ps[..n - 1];
    }
  }

  lemma StateOfCopy(ps: seq<P.Packet>)
    ensures P.StateOf(ps) >= 7 <==> P.AfterCopy(ps)
  {
  }

  lemma ExpansionNext(ps: seq<P.Packet>, x: P.Packet)
    ensures var out, recent, all := P.Expansion(ps), P.Recent(ps), P.Expansion(ps + [x]);
            && (x.Lit? ==> all == out + [x.b])
            && (x.Match? ==> all == P.Repeated(out, x.dist, x.len))
            && (x.ShortRep? ==> all == P.Repeated(out, recent[0], 1))
            && (x.Rep? ==> all == P.Repeated(out, recent[x.k], x.len))
    ensures var was, now := P.Recent(ps), P.Recent(ps + [x]);
            && (x.Match? ==> now == [x.dist] + was[..3])
            && (x.Rep? ==> now == [was[x.k]] + was[..x.k] + was[x.k + 1..])
            && (x.Lit? || x.ShortRep? ==> now == was)
  {
    P.Last(ps, x);
  }

  /** One choice by a context of its own. */
  lemma PickOn(g: Ground, n: nat, m: Machine, context: P.Context, bit: bool) returns (c: Core)
    requires At(g, n, m) && Choosing(g.p, m) && !IsDirect(m.phase) && Index(g.p, m) == P.Slot(context)
    requires Next(g, n, [P.Picked(context, bit)])
    ensures SameButCoder(m.core, c) && g.p.Fits() && c.win.Fits() && c.reps.r0 < |c.win.past|
    ensures At(g, n + 1, AfterBit(g.p, c, m.phase, bit))
  {
    hide At, Legal, Choosing, P.Slot, AfterBit, Index;
    AtLegal(g, n, m);
    c := BitOn(g, n, m, P.Picked(context, bit));
  }

  /** There is room for another byte. */
  predicate Room(p: Params, ps: seq<P.Packet>) {
    p.unpack.Some? ==> |P.Expansion(ps)| < p.unpack.value
  }

  /** The core of a machine that has decoded `ps`, the last of them perhaps cut
      short by the declared size. */
  ghost predicate Reaches(g: Ground, ps: seq<P.Packet>, c: Core) {
    if Cut(g.p, P.Expansion(ps)) == P.Expansion(ps) then Mirrors(g.size, ps, c)
    else c.out == Cut(g.p, P.Expansion(ps)) && c.decoded == |c.out|
  }

  /** Literal or copy. */
  lemma KindOn(g: Ground, n: nat, m: Machine, ps: seq<P.Packet>, bit: bool) returns (c: Core)
    requires At(g, n, m) && m.phase.NewSymbol? && Mirrors(g.size, ps, m.core) && Room(g.p, ps)
    requires var pos := P.PosBits(PropsOf(g.p), P.Expansion(ps));
             Next(g, n, [P.Picked(P.IsMatch(P.StateOf(ps), pos), bit)])
    ensures Mirrors(g.size, ps, c) && g.p.Fits() && c.win.Fits() && c.reps.r0 < |c.win.past|
    ensures At(g, n + 1, AfterBit(g.p, c, NewSymbol, bit))
  {
    hide At, Legal, P.StateOf, P.Recent, P.Expansion, WindowOf, AfterBit;
    var pos := P.PosBits(PropsOf(g.p), P.Expansion(ps));
    AtLegal(g, n, m);
    WindowTotal(g.size, P.Expansion(ps));
    c := PickOn(g, n, m, P.IsMatch(P.StateOf(ps), pos), bit);
  }

  lemma WindowTotal(size: nat, out: seq<byte>)
    ensures WindowOf(size, out).total == |out| && WindowOf(size, out).live == Min(|out|, size)
  {
  }

  // ─── Packets ─────────────────────────────────────────────────────

  lemma CopyHasOutput(ps: seq<P.Packet>, size: nat)
    requires P.Sound(ps, size) && P.AfterCopy(ps)
    ensures P.Expansion(ps) != []
  {
    assert |P.Expansion(ps[..|ps| - 1])| <= |P.Expansion(ps)|;
  }

  /** The byte a literal after a copy is compared with. */
  function MateOf(ps: seq<P.Packet>): Option<byte> {
    if P.AfterCopy(ps) then Some(P.ByteBack(P.Expansion(ps), P.Recent(ps)[0])) else None
  }

  lemma MateIs(size: nat, ps: seq<P.Packet>, c: Core)
    requires Mirrors(size, ps, c) && P.Sound(ps, size) && 1 <= size && P.AfterCopy(ps)
    ensures c.win.Fits() && c.reps.r0 < |c.win.past|
    ensures MateOf(ps) == Some(c.win.Get(c.reps.r0 + 1))
  {
    hide P.StateOf, WindowOf, P.AfterCopy;
    CopyHasOutput(ps, size);
    P.RecentReach(ps, size);
    WindowByte(size, P.Expansion(ps), c.reps.r0 + 1);
  }

  lemma LitStateIs(p: Params, size: nat, out: seq<byte>, c: Core)
    requires p.Fits() && c.win == WindowOf(size, out) && 1 <= size
    ensures LitState(p, c) == P.LitKind(PropsOf(p), out)
  {
    hide Pow2, WindowOf;
    WindowTotal(size, out);
    if out != [] {
      WindowByte(size, out, 1);
    }
  }

  lemma StartsLiteral(p: Params, size: nat, ps: seq<P.Packet>, c: Core)
    requires p.Fits() && Mirrors(size, ps, c) && P.Sound(ps, size) && 1 <= size
    requires c.win.Fits() && c.reps.r0 < |c.win.past|
    ensures var mate := MateOf(ps);
            StartLiteral(p, c)
            == Literal(1, P.LitKind(PropsOf(p), P.Expansion(ps)), mate.Some?, if mate.Some? then mate.value else 0)
  {
    hide P.StateOf, P.Recent, P.Expansion, P.Sound, P.AfterCopy, WindowOf, LitState, P.LitKind, P.ByteBack, Window.Get;
    StateOfCopy(ps);
    LitStateIs(p, size, P.Expansion(ps), c);
    if P.AfterCopy(ps) {
      MateIs(size, ps, c);
    }
  }

  /** A literal behind its first choice. */
  lemma LitRestOn(g: Ground, n: nat, c: Core, ps: seq<P.Packet>, b: byte) returns (d: Core)
    requires Mirrors(g.size, ps, c) && P.Sound(ps, g.size) && Room(g.p, ps) && 1 <= g.size
    requires g.p.Fits() && c.win.Fits() && c.reps.r0 < |c.win.past| && At(g, n, Machine(c, StartLiteral(g.p, c)))
    requires Next(g, n, P.LitEvents(P.LitKind(PropsOf(g.p), P.Expansion(ps)), b, MateOf(ps)))
    ensures At(g, n + 8, Machine(d, NewSymbol)) && Reaches(g, ps + [P.Lit(b)], d)
  {
    hide At, Next, Mirrors, Cut, P.StateOf, P.Recent, P.Expansion, P.Sound, P.AfterCopy, P.LitKind, P.LitEvents,
         P.PosBits, P.ByteBack, P.Picked, WindowOf, StartLiteral, PutByte, AfterLiteral;
    var lit := P.LitKind(PropsOf(g.p), P.Expansion(ps));
    StartsLiteral(g.p, g.size, ps, c);
    var e := LitOn(g, n, Machine(c, StartLiteral(g.p, c)), lit, b, MateOf(ps));
    d := PutByte(e, b).(state := AfterLiteral(e.state));
    LiteralMirrors(g.size, ps, b, c, e);
    MirrorsReaches(g, ps, b, d);
  }

  lemma MirrorsReaches(g: Ground, ps: seq<P.Packet>, b: byte, c: Core)
    requires Room(g.p, ps) && Mirrors(g.size, ps + [P.Lit(b)], c)
    ensures Reaches(g, ps + [P.Lit(b)], c)
  {
    ExpansionNext(ps, P.Lit(b));
  }

  lemma LiteralMirrors(size: nat, ps: seq<P.Packet>, b: byte, c: Core, d: Core)
    requires Mirrors(size, ps, c) && SameButCoder(c, d) && d.win.Fits() && size >= 1
    ensures Mirrors(size, ps + [P.Lit(b)], PutByte(d, b).(state := AfterLiteral(d.state)))
  {
    hide P.StateOf, P.Recent, P.Expansion, WindowOf, PutByte, AfterLiteral;
    StateNext(ps, P.Lit(b));
    ExpansionNext(ps, P.Lit(b));
    WroteNext(d, size, P.Expansion(ps), b);
  }

  /** What a copy leaves, given what it leaves of state and distances. */
  lemma CopyReaches(g: Ground, ps: seq<P.Packet>, x: P.Packet, d: Core)
    requires !x.Lit? && d == Wrote(d, g.size, Cut(g.p, P.Expansion(ps + [x])))
    requires d.state == P.StateOf(ps + [x]) && RepsAre(d.reps, P.Recent(ps + [x]))
    ensures Reaches(g, ps + [x], d)
  {
  }

  /** The first two choices of a copy. */
  lemma CopyKindOn(g: Ground, n: nat, m: Machine, ps: seq<P.Packet>, rep: bool, rest: seq<Event>) returns (c: Core)
    requires At(g, n, m) && m.phase.NewSymbol? && Mirrors(g.size, ps, m.core) && Room(g.p, ps)
    requires var pos := P.PosBits(PropsOf(g.p), P.Expansion(ps));
             Next(g, n, [P.Picked(P.IsMatch(P.StateOf(ps), pos), true), P.Picked(P.IsRep(P.StateOf(ps)), rep)] + rest)
    ensures Mirrors(g.size, ps, c) && g.p.Fits() && c.win.Fits() && c.reps.r0 < |c.win.past| && Next(g, n + 2, rest)
    ensures At(g, n + 2, AfterBit(g.p, c, NeedIsRep(P.PosBits(PropsOf(g.p), P.Expansion(ps))), rep))
  {
    hide At, Next, Legal, P.StateOf, P.Recent, P.Expansion, P.PosBits, P.Picked, P.Slot, WindowOf, PosState;
    var pos := P.PosBits(PropsOf(g.p), P.Expansion(ps));
    var one, two := [P.Picked(P.IsMatch(P.StateOf(ps), pos), true)], [P.Picked(P.IsRep(P.StateOf(ps)), rep)];
    assert [one[0], two[0]] + rest == one + (two + rest);
    NextTwo(g, n, one, two + rest);
    NextTwo(g, n + 1, two, rest);
    var c1 := KindOn(g, n, m, ps, true);
    PosStateIs(g.p, g.size, ps, c1);
    SlotOfRep(P.StateOf(ps));
    var m1 := Machine(c1, NeedIsRep(pos));
    AtLegal(g, n + 1, m1);
    c := PickOn(g, n + 1, m1, P.IsRep(P.StateOf(ps)), rep);
  }

  lemma SlotOfRep(s: nat)
    ensures P.Slot(P.IsRep(s)) == OFF_IS_REP + s
  {
  }

  lemma PosStateIs(p: Params, size: nat, ps: seq<P.Packet>, c: Core)
    requires Mirrors(size, ps, c)
    ensures PosState(p, c) == P.PosBits(PropsOf(p), P.Expansion(ps))
  {
    hide P.StateOf, P.Recent, P.Expansion;
  }

  /** Which of the last distances: the machine has put it first. */
  function Chosen(r: Reps, k: P.Recency): Reps {
    if k == 0 then r else if k == 1 then Reps(r.r1, r.r0, r.r2, r.r3)
    else if k == 2 then Reps(r.r2, r.r0, r.r1, r.r3) else Reps(r.r3, r.r0, r.r1, r.r2)
  }

  lemma ChosenIs(r: Reps, recent: seq<nat>, k: P.Recency)
    requires |recent| == 4 && RepsAre(r, recent)
    ensures RepsAre(Chosen(r, k), [recent[k]] + recent[..k] + recent[k + 1..])
  {
  }

  function KindOf(k: P.Recency): MatchType {
    if k == 0 then Rep0 else if k == 1 then Rep1 else if k == 2 then Rep2 else Rep3
  }

  /** One more choice about a repetition. */
  lemma RepPickOn(g: Ground, n: nat, c: Core, ph: Phase, context: P.Context, bit: bool, rest: seq<Event>)
    returns (d: Core)
    requires At(g, n, Machine(c, ph)) && Next(g, n, [P.Picked(context, bit)] + rest)
    requires ph.NeedRepG0? || ph.NeedRepG1? || ph.NeedRepG2? || ph.NeedRep0Long?
    requires P.Slot(context) == Index(g.p, Machine(c, ph))
    ensures SameButCoder(c, d) && g.p.Fits() && d.win.Fits() && d.reps.r0 < |d.win.past|
    ensures At(g, n + 1, AfterBit(g.p, d, ph, bit)) && Next(g, n + 1, rest)
  {
    hide At, Next, Legal, P.Slot, Index, AfterBit;
    AtLegal(g, n, Machine(c, ph));
    NextTwo(g, n, [P.Picked(context, bit)], rest);
    d := PickOn(g, n, Machine(c, ph), context, bit);
  }

  lemma RecencyOn(g: Ground, n: nat, c: Core, pos: nat, k: P.Recency, rest: seq<Event>) returns (d: Core)
    requires At(g, n, Machine(c, NeedRepG0(pos))) && Next(g, n, P.RecencyEvents(c.state, pos, k) + rest)
    ensures SameButCoder(c, d)
    ensures At(g, n + |P.RecencyEvents(c.state, pos, k)|,
               StartLength(d.(reps := Chosen(c.reps, k)), KindOf(k), pos))
    ensures Next(g, n + |P.RecencyEvents(c.state, pos, k)|, rest)
  {
    hide At, Next, P.Picked, AfterRep;
    var s := c.state;
    var e0, e1, e2 := P.Picked(P.IsRepG0(s), k > 0), P.Picked(P.IsRepG1(s), k > 1), P.Picked(P.IsRepG2(s), k == 3);
    var long := P.Picked(P.IsRep0Long(s, pos), true);
    if k == 0 {
      assert [e0, long] + rest == [e0] + ([long] + rest);
      d := RepPickOn(g, n, c, NeedRepG0(pos), P.IsRepG0(s), false, [long] + rest);
      d := RepPickOn(g, n + 1, d, NeedRep0Long(pos), P.IsRep0Long(s, pos), true, rest);
    } else if k == 1 {
      assert [e0, e1] + rest == [e0] + ([e1] + rest);
      d := RepPickOn(g, n, c, NeedRepG0(pos), P.IsRepG0(s), true, [e1] + rest);
      d := RepPickOn(g, n + 1, d, NeedRepG1(pos), P.IsRepG1(s), false, rest);
    } else {
      assert [e0, e1, e2] + rest == [e0] + ([e1] + ([e2] + rest));
      d := RepPickOn(g, n, c, NeedRepG0(pos), P.IsRepG0(s), true, [e1] + ([e2] + rest));
      d := RepPickOn(g, n + 1, d, NeedRepG1(pos), P.IsRepG1(s), true, [e2] + rest);
      d := RepPickOn(g, n + 2, d, NeedRepG2(pos), P.IsRepG2(s), k == 3, rest);
    }
  }

  lemma RepIsOn(g: Ground, n: nat, m: Machine, ps: seq<P.Packet>, rest: seq<Event>) returns (c: Core)
    requires At(g, n, m) && m.phase.NewSymbol? && Mirrors(g.size, ps, m.core) && Room(g.p, ps)
    requires P.Expansion(ps) != []
    requires var pos := P.PosBits(PropsOf(g.p), P.Expansion(ps));
             Next(g, n, [P.Picked(P.IsMatch(P.StateOf(ps), pos), true), P.Picked(P.IsRep(P.StateOf(ps)), true)] + rest)
    ensures Mirrors(g.size, ps, c) && Next(g, n + 2, rest)
    ensures At(g, n + 2, Machine(c, NeedRepG0(P.PosBits(PropsOf(g.p), P.Expansion(ps)))))
  {
    hide At, Next, P.StateOf, P.Recent, P.Expansion, P.PosBits, P.Picked, WindowOf;
    GroundIs(g, n, m);
    c := CopyKindOn(g, n, m, ps, true, rest);
    WindowTotal(g.size, P.Expansion(ps));
  }

  lemma GroundIs(g: Ground, n: nat, m: Machine)
    requires At(g, n, m)
    ensures g.size >= 1 && PropsOf(g.p).Fits()
  {
  }

  /** A short repetition behind its first two choices. */
  lemma ShortRepOn(g: Ground, n: nat, c: Core, ps: seq<P.Packet>, pos: nat) returns (d: Core)
    requires At(g, n, Machine(c, NeedRepG0(pos))) && Mirrors(g.size, ps, c) && P.Sound(ps, g.size)
    requires Room(g.p, ps) && P.Expansion(ps) != []
    requires Next(g, n, [P.Picked(P.IsRepG0(c.state), false)] + [P.Picked(P.IsRep0Long(c.state, pos), false)])
    ensures At(g, n + 2, Machine(d, NewSymbol)) && Reaches(g, ps + [P.ShortRep], d)
  {
    hide At, Next, P.StateOf, P.Recent, P.Expansion, P.Picked, P.Sound, WindowOf, StartCopy;
    var s, out := c.state, P.Expansion(ps);
    var e1 := P.Picked(P.IsRep0Long(s, pos), false);
    assert [e1] + [] == [e1];
    var c2 := RepPickOn(g, n, c, NeedRepG0(pos), P.IsRepG0(s), false, [e1] + []);
    var c3 := RepPickOn(g, n + 1, c2, NeedRep0Long(pos), P.IsRep0Long(s, pos), false, []);
    var e := c3.(state := AfterShortRep(c3.state));
    GroundIs(g, n, Machine(c, NeedRepG0(pos)));
    P.RecentReach(ps, g.size);
    CopyOn(g, n + 2, e, out, e.reps.r0, 1);
    d := Wrote(e, g.size, P.Repeated(out, e.reps.r0 + 1, 1));
    StateNext(ps, P.ShortRep);
    ExpansionNext(ps, P.ShortRep);
    CopyReaches(g, ps, P.ShortRep, d);
  }

  /** A repetition up to its copy. */
  lemma RepStartsOn(g: Ground, n: nat, m: Machine, ps: seq<P.Packet>, k: P.Recency, len: nat) returns (c: Core)
    requires At(g, n, m) && m.phase.NewSymbol? && Mirrors(g.size, ps, m.core) && Room(g.p, ps)
    requires PropsOf(g.p).Fits() && P.Matches(ps, P.Rep(k, len), g.size) && P.Expansion(ps) != []
    requires Next(g, n, P.PacketEvents(PropsOf(g.p), ps, P.Rep(k, len), g.size))
    ensures c == Wrote(c, g.size, P.Expansion(ps)) && c.state == AfterRep(P.StateOf(ps))
    ensures RepsAre(c.reps, [P.Recent(ps)[k]] + P.Recent(ps)[..k] + P.Recent(ps)[k + 1..])
    ensures At(g, n + |P.PacketEvents(PropsOf(g.p), ps, P.Rep(k, len), g.size)|, StartCopy(g.p, c, c.reps.r0, len))
  {
    hide At, Next, P.StateOf, P.Recent, P.Expansion, P.PosBits, P.Picked, P.RecencyEvents, P.LenEvents,
         WindowOf, StartCopy, Chosen, AfterRep, RepsAre;
    var s, out := P.StateOf(ps), P.Expansion(ps);
    var pos := P.PosBits(PropsOf(g.p), out);
    var kind := [P.Picked(P.IsMatch(s, pos), true), P.Picked(P.IsRep(s), true)];
    var which, lens := P.RecencyEvents(s, pos, k), P.LenEvents(true, pos, len);
    assert P.PacketEvents(PropsOf(g.p), ps, P.Rep(k, len), g.size) == kind + (which + lens);
    var c1 := RepIsOn(g, n, m, ps, which + lens);
    var c2 := RecencyOn(g, n + 2, c1, pos, k, lens);
    var m3 := LenOn(g, n + 2 + |which|, StartLength(c2.(reps := Chosen(c1.reps, k)), KindOf(k), pos), len);
    ChosenIs(c1.reps, P.Recent(ps), k);
    c := m3.core;
  }

  lemma RepPacketOn(g: Ground, n: nat, m: Machine, ps: seq<P.Packet>, k: P.Recency, len: nat) returns (c: Core)
    requires At(g, n, m) && m.phase.NewSymbol? && Mirrors(g.size, ps, m.core) && P.Sound(ps, g.size)
    requires Room(g.p, ps) && PropsOf(g.p).Fits() && P.Matches(ps, P.Rep(k, len), g.size)
    requires Next(g, n, P.PacketEvents(PropsOf(g.p), ps, P.Rep(k, len), g.size))
    ensures At(g, n + |P.PacketEvents(PropsOf(g.p), ps, P.Rep(k, len), g.size)|, Machine(c, NewSymbol))
    ensures Reaches(g, ps + [P.Rep(k, len)], c)
  {
    hide At, Next, Mirrors, P.StateOf, P.Recent, P.Expansion, P.PacketEvents, P.Sound, WindowOf, StartCopy, AfterRep;
    var out, x := P.Expansion(ps), P.Rep(k, len);
    var d := RepStartsOn(g, n, m, ps, k, len);
    GroundIs(g, n, m);
    P.RecentReach(ps, g.size);
    assert d.reps.r0 + 1 == P.Recent(ps)[k];
    StartedCopyOn(g, n + |P.PacketEvents(PropsOf(g.p), ps, x, g.size)|, d, out, d.reps.r0, len);
    c := Wrote(d, g.size, Cut(g.p, P.Repeated(out, d.reps.r0 + 1, len)));
    StateNext(ps, x);
    ExpansionNext(ps, x);
    CopyReaches(g, ps, x, c);
  }

  lemma MatchStartsOn(g: Ground, n: nat, m: Machine, ps: seq<P.Packet>, len: nat, d: nat) returns (c: Core)
    requires At(g, n, m) && m.phase.NewSymbol? && Mirrors(g.size, ps, m.core)
    requires Room(g.p, ps) && 2 <= len <= 273 && d < TWO_32
    requires Next(g, n, P.MatchEvents(PropsOf(g.p), ps, len, d))
    ensures c == Wrote(c, g.size, P.Expansion(ps)) && c.state == AfterMatch(P.StateOf(ps))
    ensures var recent := P.Recent(ps);
            c.reps.r1 + 1 == recent[0] && c.reps.r2 + 1 == recent[1] && c.reps.r3 + 1 == recent[2]
    ensures At(g, n + |P.MatchEvents(PropsOf(g.p), ps, len, d)|, DistanceDone(g.p, c, len, d))
  {
    hide At, Next, P.StateOf, P.Recent, P.Expansion, P.PosBits, P.Picked, P.LenEvents, P.DistEvents,
         WindowOf, DistanceDone, AfterMatch;
    var s, out := P.StateOf(ps), P.Expansion(ps);
    var pos := P.PosBits(PropsOf(g.p), out);
    var kind := [P.Picked(P.IsMatch(s, pos), true), P.Picked(P.IsRep(s), false)];
    var lens, dists := P.LenEvents(false, pos, len), P.DistEvents(len, d);
    assert P.MatchEvents(PropsOf(g.p), ps, len, d) == kind + (lens + dists);
    var c1 := CopyKindOn(g, n, m, ps, false, lens + dists);
    var r := c1.reps;
    var c2 := c1.(reps := Reps(r.r0, r.r0, r.r1, r.r2));
    NextTwo(g, n + 2, lens, dists);
    var m3 := LenOn(g, n + 2, StartLength(c2, Simple, pos), len);
    c := DistOn(g, n + 2 + |lens|, m3, len, d);
  }

  lemma MatchPacketOn(g: Ground, n: nat, m: Machine, ps: seq<P.Packet>, dist: nat, len: nat) returns (c: Core)
    requires At(g, n, m) && m.phase.NewSymbol? && Mirrors(g.size, ps, m.core) && P.Sound(ps, g.size)
    requires Room(g.p, ps) && PropsOf(g.p).Fits() && P.Matches(ps, P.Match(dist, len), g.size) && g.size < TWO_32
    requires Next(g, n, P.PacketEvents(PropsOf(g.p), ps, P.Match(dist, len), g.size))
    ensures At(g, n + |P.PacketEvents(PropsOf(g.p), ps, P.Match(dist, len), g.size)|, Machine(c, NewSymbol))
    ensures Reaches(g, ps + [P.Match(dist, len)], c)
  {
    hide At, Next, P.StateOf, P.Recent, P.Expansion, P.MatchEvents, P.Sound, WindowOf, StartCopy, AfterMatch;
    var out := P.Expansion(ps);
    var c1 := MatchStartsOn(g, n, m, ps, len, dist - 1);
    WindowTotal(g.size, out);
    var c2 := c1.(reps := c1.reps.(r0 := dist - 1));
    var to := n + |P.MatchEvents(PropsOf(g.p), ps, len, dist - 1)|;
    StartedCopyOn(g, to, c2, out, dist - 1, len);
    c := Wrote(c2, g.size, Cut(g.p, P.Repeated(out, dist, len)));
    StateNext(ps, P.Match(dist, len));
    ExpansionNext(ps, P.Match(dist, len));
    CopyReaches(g, ps, P.Match(dist, len), c);
  }

  lemma LitEventsAre(p: P.Props, ps: seq<P.Packet>, b: byte, size: nat)
    requires p.Fits()
    ensures var out := P.Expansion(ps);
            P.PacketEvents(p, ps, P.Lit(b), size)
            == [P.Picked(P.IsMatch(P.StateOf(ps), P.PosBits(p, out)), false)]
               + P.LitEvents(P.LitKind(p, out), b, MateOf(ps))
  {
    hide P.StateOf, P.Expansion, P.PosBits, P.LitKind, P.LitEvents, P.Picked, P.AfterCopy, P.ByteBack, P.Recent;
  }

  lemma ShortRepEventsAre(p: P.Props, ps: seq<P.Packet>, size: nat)
    requires p.Fits() && P.Matches(ps, P.ShortRep, size)
    ensures var s, pos := P.StateOf(ps), P.PosBits(p, P.Expansion(ps));
            P.PacketEvents(p, ps, P.ShortRep, size)
            == [P.Picked(P.IsMatch(s, pos), true), P.Picked(P.IsRep(s), true)]
               + ([P.Picked(P.IsRepG0(s), false)] + [P.Picked(P.IsRep0Long(s, pos), false)])
  {
    hide P.StateOf, P.Expansion, P.PosBits, P.Picked;
  }

  /** A packet is decoded as it was coded, and the bytes it stands for are
      written. */
  lemma PacketOn(g: Ground, n: nat, m: Machine, ps: seq<P.Packet>, x: P.Packet) returns (c: Core)
    requires At(g, n, m) && m.phase.NewSymbol? && Mirrors(g.size, ps, m.core) && P.Sound(ps, g.size)
    requires Room(g.p, ps) && PropsOf(g.p).Fits() && P.Matches(ps, x, g.size) && 1 <= g.size < TWO_32
    requires Next(g, n, P.PacketEvents(PropsOf(g.p), ps, x, g.size))
    ensures At(g, n + |P.PacketEvents(PropsOf(g.p), ps, x, g.size)|, Machine(c, NewSymbol))
    ensures Reaches(g, ps + [x], c)
  {
    hide At, Next, Reaches, Room, P.StateOf, P.Recent, P.Expansion, P.Sound, P.Matches, P.PacketEvents, P.PosBits,
         P.LitKind, P.LitEvents, P.Picked, RepsAre, WindowOf, MateOf, StartLiteral;
    var props, s, out := PropsOf(g.p), P.StateOf(ps), P.Expansion(ps);
    var pos := P.PosBits(props, out);
    match x {
      case Lit(b) =>
        LitEventsAre(props, ps, b, g.size);
        NextTwo(g, n, [P.Picked(P.IsMatch(s, pos), false)], P.LitEvents(P.LitKind(props, out), b, MateOf(ps)));
        var d := KindOn(g, n, m, ps, false);
        c := LitRestOn(g, n + 1, d, ps, b);
      case Match(dist, len) => c := MatchPacketOn(g, n, m, ps, dist, len);
      case ShortRep =>
        ShortRepEventsAre(props, ps, g.size);
        SomethingToRepeat(ps, g.size);
        var e := [P.Picked(P.IsRepG0(s), false)] + [P.Picked(P.IsRep0Long(s, pos), false)];
        var d := RepIsOn(g, n, m, ps, e);
        c := ShortRepOn(g, n + 2, d, ps, pos);
      case Rep(k, len) => c := RepPacketOn(g, n, m, ps, k, len);
    }
  }

  lemma SomethingToRepeat(ps: seq<P.Packet>, size: nat)
    requires P.Matches(ps, P.ShortRep, size)
    ensures P.Expansion(ps) != []
  {
  }

  // ─── Streams ─────────────────────────────────────────────────────

  /** The machine with `i` bytes of the header read. */
  function OpenedTo(g: Ground, i: nat): Machine
    requires i <= |g.rc|
  {
    var m := D.Fresh(g.p, g.size);
    Machine(m.core.(dec := m.core.dec.(pos := i)), Opening(g.rc[..i]))
  }

  lemma OpenStep(g: Ground, i: nat)
    requires g.Valid() && i < 4 && i < |g.rc|
    requires Leads(g.p, g.rc, D.Fresh(g.p, g.size), OpenedTo(g, i)) && Legal(g.p, OpenedTo(g, i))
    ensures Leads(g.p, g.rc, D.Fresh(g.p, g.size), OpenedTo(g, i + 1)) && Legal(g.p, OpenedTo(g, i + 1))
  {
    hide Leads, Legal, IsStream;
    assert g.rc[..i] + [g.rc[i]] == g.rc[..i + 1];
    LeadsOn(g.p, g.rc, D.Fresh(g.p, g.size), OpenedTo(g, i), OpenedTo(g, i + 1));
  }

  lemma FreshIsLegal(p: Params, size: nat)
    requires p.Fits() && 1 <= size < TWO_32
    ensures Legal(p, D.Fresh(p, size))
  {
  }

  lemma OpenOn(g: Ground) returns (c: Core)
    requires g.Valid()
    ensures At(g, 0, Machine(c, NewSymbol)) && Mirrors(g.size, [], c)
  {
    hide Leads, Legal, IsStream, Pending, Tracks;
    var blank := D.Fresh(g.p, g.size);
    OpenTracks(g.rc, NumProbs(g.p), g.events);
    FreshIsLegal(g.p, g.size);
    LeadsNowhere(g.p, g.rc, blank);
    assert g.rc[..0] == [] && OpenedTo(g, 0) == blank;
    OpenStep(g, 0);
    OpenStep(g, 1);
    OpenStep(g, 2);
    OpenStep(g, 3);
    c := blank.core.(dec := Open(g.rc).value);
    assert g.rc[..4] + [g.rc[4]] == g.rc[..5] && g.rc[..5][1..5] == g.rc[1..5];
    LeadsOn(g.p, g.rc, blank, OpenedTo(g, 4), Machine(c, NewSymbol));
    AtStart(g, c);
  }

  lemma AtStart(g: Ground, c: Core)
    requires g.Valid() && Open(g.rc).Some? && c == D.Fresh(g.p, g.size).core.(dec := Open(g.rc).value)
    requires Tracks(Open(g.rc).value, g.rc, Pending(NumProbs(g.p), []).interval)
    ensures Synced(g, 0, c) && Mirrors(g.size, [], c)
  {
    hide Tracks, IsStream, Open;
    assert g.events[..0] == [];
    assert c.probs == Pending(NumProbs(g.p), []).probs;
    assert (Zeros(g.size) + [])[0..] == Zeros(g.size);
  }

  /** Every packet stands for something. */
  lemma ExpansionGrows(ps: seq<P.Packet>, x: P.Packet, size: nat)
    requires P.Sound(ps, size) && P.Matches(ps, x, size) && 1 <= size
    ensures var out, all := P.Expansion(ps), P.Expansion(ps + [x]);
            |out| < |all| && all[..|out|] == out
  {
    hide P.Recent, P.Expansion, P.Sound;
    ExpansionNext(ps, x);
    P.RecentReach(ps, size);
    var out, recent := P.Expansion(ps), P.Recent(ps);
    match x {
      case Lit(_) =>
      case Match(dist, len) => P.RepeatedIs(out, dist, len);
      case ShortRep => P.RepeatedIs(out, recent[0], 1);
      case Rep(k, len) => P.RepeatedIs(out, recent[k], len);
    }
  }

  lemma StaysCut(g: Ground, ps: seq<P.Packet>, x: P.Packet, c: Core)
    requires Reaches(g, ps, c) && !Room(g.p, ps)
    requires P.Sound(ps, g.size) && P.Matches(ps, x, g.size) && 1 <= g.size
    ensures Reaches(g, ps + [x], c) && Cut(g.p, P.Expansion(ps + [x])) != P.Expansion(ps + [x])
  {
    hide P.Recent, P.StateOf, P.Expansion, P.Sound, P.Matches, WindowOf;
    ExpansionGrows(ps, x, g.size);
    var all, out := P.Expansion(ps + [x]), P.Expansion(ps);
    assert all[..g.p.unpack.value] == out[..g.p.unpack.value];
    assert out[..|out|] == out;
  }

  /** The machine reads packet after packet, as far as the declared size lets
      it. */
  lemma {:induction false} PacketsOn(g: Ground, ps: seq<P.Packet>) returns (n: nat, c: Core)
    requires g.Valid() && P.Sound(ps, g.size)
    requires PropsOf(g.p).Fits() && Next(g, 0, P.PacketsEvents(PropsOf(g.p), ps, g.size))
    ensures At(g, n, Machine(c, NewSymbol)) && Reaches(g, ps, c)
    ensures Cut(g.p, P.Expansion(ps)) == P.Expansion(ps) ==> n == |P.PacketsEvents(PropsOf(g.p), ps, g.size)|
    decreases |ps|
  {
    hide At, Next, Mirrors, Ground.Valid, P.Recent, P.StateOf, P.PacketEvents, P.Matches, P.Expansion;
    if ps == [] {
      c := OpenOn(g);
      n := 0;
      NothingExpands();
    } else {
      var before, x := ps[..|ps| - 1], ps[|ps| - 1];
      assert before + [x] == ps;
      var front := P.PacketsEvents(PropsOf(g.p), before, g.size);
      NextTwo(g, 0, front, P.PacketEvents(PropsOf(g.p), before, x, g.size));
      n, c := PacketsOn(g, before);
      GroundSize(g);
      if Room(g.p, before) {
        c := PacketOn(g, n, Machine(c, NewSymbol), before, x);
        n := |P.PacketsEvents(PropsOf(g.p), ps, g.size)|;
      } else {
        hide Reaches, Cut;
        StaysCut(g, before, x, c);
      }
    }
  }

  lemma NothingExpands()
    ensures P.Expansion([]) == []
  {
  }

  lemma GroundSize(g: Ground)
    requires g.Valid()
    ensures 1 <= g.size < TWO_32
  {
  }

  // ─── The end ─────────────────────────────────────────────────────

  /** The declared size ends the stream before any mark. */
  ghost predicate IsCut(p: Params, ps: seq<P.Packet>) {
    p.unpack.Some? && p.unpack.value <= |P.Expansion(ps)|
  }

  lemma LimitOn(g: Ground, n: nat, c: Core, ps: seq<P.Packet>)
    requires At(g, n, Machine(c, NewSymbol)) && Reaches(g, ps, c) && IsCut(g.p, ps)
    ensures At(g, n, Machine(c, Finished(WithoutMark))) && c.out == Cut(g.p, P.Expansion(ps))
  {
    hide At, Legal, P.StateOf, P.Recent, P.Expansion, WindowOf;
    AtLegal(g, n, Machine(c, NewSymbol));
    MoveOn(g, n, Machine(c, NewSymbol), Machine(c, Finished(WithoutMark)));
  }

  lemma BeyondOn(g: Ground, n: nat, c: Core, ps: seq<P.Packet>, len: nat, d: nat) returns (end: Core)
    requires At(g, n, Machine(c, NewSymbol)) && Reaches(g, ps, c) && !IsCut(g.p, ps)
    requires 2 <= len <= 273 && Min(|P.Expansion(ps)|, g.size) <= d < TWO_32
    requires Next(g, n, P.MatchEvents(PropsOf(g.p), ps, len, d))
    ensures At(g, n + |P.MatchEvents(PropsOf(g.p), ps, len, d)|, Machine(end, Finished(WithMark)))
    ensures end.out == P.Expansion(ps)
  {
    hide At, Next, P.StateOf, P.Recent, P.Expansion, P.MatchEvents, WindowOf;
    end := MatchStartsOn(g, n, Machine(c, NewSymbol), ps, len, d);
    WindowTotal(g.size, P.Expansion(ps));
  }

  lemma NothingToRepeatOn(g: Ground, n: nat, c: Core, ps: seq<P.Packet>) returns (end: Core)
    requires At(g, n, Machine(c, NewSymbol)) && Mirrors(g.size, ps, c) && Room(g.p, ps) && P.Expansion(ps) == []
    requires var pos := P.PosBits(PropsOf(g.p), P.Expansion(ps));
             Next(g, n, [P.Picked(P.IsMatch(P.StateOf(ps), pos), true), P.Picked(P.IsRep(P.StateOf(ps)), true)] + [])
    ensures At(g, n + 2, Machine(end, Finished(WithMark))) && end.out == P.Expansion(ps)
  {
    hide At, Next, P.StateOf, P.Recent, P.Expansion, P.PosBits, P.Picked, WindowOf;
    end := CopyKindOn(g, n, Machine(c, NewSymbol), ps, true, []);
    WindowTotal(g.size, P.Expansion(ps));
  }

  lemma EndOn(g: Ground, n: nat, c: Core, ps: seq<P.Packet>, e: P.Ending) returns (k: nat, end: Core)
    requires At(g, n, Machine(c, NewSymbol)) && Reaches(g, ps, c) && !IsCut(g.p, ps)
    requires P.Ends(ps, e, g.size) && e != P.AtSize && Next(g, n, P.EndEvents(PropsOf(g.p), ps, e, g.size))
    ensures At(g, k, Machine(end, Finished(WithMark))) && end.out == P.Expansion(ps)
  {
    hide At, Next, Mirrors, P.Expansion, P.StateOf, P.MatchEvents, P.PosBits, P.Picked;
    match e {
      case Beyond(len, d) =>
        end := BeyondOn(g, n, c, ps, len, d);
        k := n + |P.MatchEvents(PropsOf(g.p), ps, len, d)|;
      case NothingToRepeat =>
        var events := P.EndEvents(PropsOf(g.p), ps, e, g.size);
        assert events + [] == events;
        end := NothingToRepeatOn(g, n, c, ps);
        k := n + 2;
    }
  }

  /** A stream of packets with this ending. */
  ghost predicate IsPacked(p: Params, size: nat, ps: seq<P.Packet>, e: P.Ending, rc: seq<byte>) {
    && p.Fits() && 1 <= size < TWO_32 && P.Sound(ps, size) && P.Ends(ps, e, size)
    && InTable(P.Choices(PropsOf(p), ps, e, size), NumProbs(p))
    && IsStream(rc, NumProbs(p), P.Choices(PropsOf(p), ps, e, size))
  }

  lemma ChoicesFit(p: Params, size: nat, ps: seq<P.Packet>, e: P.Ending)
    requires p.Fits() && 1 <= size < TWO_32 && P.Sound(ps, size) && P.Ends(ps, e, size)
    ensures PropsOf(p).Fits() && InTable(P.Choices(PropsOf(p), ps, e, size), NumProbs(p))
  {
    hide P.Choices, P.Sound, P.Ends, InTable;
    P.ChoicesHave(PropsOf(p), ps, e, size);
  }

  function EndOf(p: Params, ps: seq<P.Packet>): Status {
    if p.unpack.Some? && p.unpack.value <= |P.Expansion(ps)| then WithoutMark else WithMark
  }

  /** The unbroken decode of packed packets writes what they stand for, up to
      the declared size, and ends by that size or by the ending. */
  lemma Unpacks(p: Params, size: nat, ps: seq<P.Packet>, e: P.Ending, rc: seq<byte>)
    requires IsPacked(p, size, ps, e, rc) && (e == P.AtSize ==> IsCut(p, ps))
    ensures Legal(p, D.Fresh(p, size))
    ensures var end := Whole(p, rc, D.Fresh(p, size));
            end.core.out == Cut(p, P.Expansion(ps)) && end.phase == Finished(EndOf(p, ps)) && !end.core.corrupted
  {
    hide Legal, Leads, At, Next, Reaches, Whole, Stuck, P.Sound, P.Ends, P.Expansion, P.PacketsEvents, P.EndEvents,
         IsStream;
    ChoicesFit(p, size, ps, e);
    FreshIsLegal(p, size);
    var g := Ground(p, size, rc, P.Choices(PropsOf(p), ps, e, size));
    var front, rest := P.PacketsEvents(PropsOf(p), ps, size), P.EndEvents(PropsOf(p), ps, e, size);
    AllNext(g);
    NextTwo(g, 0, front, rest);
    var n, c := PacketsOn(g, ps);
    if IsCut(p, ps) {
      LimitOn(g, n, c, ps);
      AtEnd(g, n, Machine(c, Finished(WithoutMark)));
    } else {
      n, c := EndOn(g, n, c, ps, e);
      AtEnd(g, n, Machine(c, Finished(WithMark)));
    }
  }

  lemma AllNext(g: Ground)
    ensures Next(g, 0, g.events)
  {
  }

  lemma AtEnd(g: Ground, n: nat, m: Machine)
    requires At(g, n, m) && m.phase.Finished?
    ensures Legal(g.p, D.Fresh(g.p, g.size)) && m == Whole(g.p, g.rc, D.Fresh(g.p, g.size)) && !m.core.corrupted
  {
    hide Legal, Leads, Whole, Pending, IsStream;
    FreshIsLegal(g.p, g.size);
    assert g.rc[..|g.rc|] == g.rc;
    BeginsWhole(g.p, g.rc, |g.rc|, D.Fresh(g.p, g.size), m);
  }

  // ─── The encoder ─────────────────────────────────────────────────

  /** The encoder's range coder and estimates, after `events`. */
  ghost predicate Holds(coder: RangeEncoder, probs: seq<Prob>, contexts: nat, events: seq<Event>)
    reads coder
  {
    coder.Valid() && InTable(events, contexts) && Coded(contexts, events) == Coder(coder.View(), probs)
  }

  lemma CodedNext(contexts: nat, events: seq<Event>, n: nat)
    requires InTable(events, contexts) && n < |events|
    ensures InTable(events[..n], contexts) && InTable(events[..n + 1], contexts) && InRange(events[n], contexts)
    ensures Pending(contexts, events[..n + 1]) == CodeEvent(Coded(contexts, events[..n]), events[n])
  {
    assert events[..n + 1][..n] == events[..n];
  }

  method EncodeEvent(coder: RangeEncoder, probs: seq<Prob>, contexts: nat, events: seq<Event>, n: nat)
    returns (next: seq<Prob>)
    requires InTable(events, contexts) && n < |events|
    requires InTable(events[..n], contexts) && Holds(coder, probs, contexts, events[..n])
    modifies coder
    ensures InTable(events[..n + 1], contexts) && Holds(coder, next, contexts, events[..n + 1])
  {
    CodedNext(contexts, events, n);
    next := probs;
    match events[n] {
      case Event(context, bit) =>
        var p := coder.Encode(probs[context], bit);
        next := probs[context := p];
      case Direct(bit) =>
        coder.EncodeDirect(bit);
    }
  }

  /** Codes choice after choice with estimates that adapt. */
  method EncodeEvents(contexts: nat, events: seq<Event>) returns (stream: seq<byte>)
    requires InTable(events, contexts)
    ensures IsStream(stream, contexts, events)
  {
    hide Pending, Coded;
    var coder := new RangeEncoder();
    var probs: seq<Prob> := seq(contexts, _ => HALF);
    NothingCoded(contexts, probs);
    var n := 0;
    assert events[..0] == [];
    while n < |events|
      invariant n <= |events| && fresh(coder) && InTable(events[..n], contexts)
      invariant Holds(coder, probs, contexts, events[..n])
    {
      probs := EncodeEvent(coder, probs, contexts, events, n);
      n := n + 1;
    }
    assert events[..n] == events;
    stream := coder.Finish();
  }

  lemma NothingCoded(contexts: nat, probs: seq<Prob>)
    requires |probs| == contexts && forall i :: 0 <= i < contexts ==> probs[i] == HALF
    ensures Coded(contexts, []) == Coder(WHOLE, probs)
  {
    assert probs == seq(contexts, _ => HALF);
  }

  /** Packs packets. */
  method Encode(p: Params, size: nat, ps: seq<P.Packet>, e: P.Ending) returns (stream: seq<byte>)
    requires p.Fits() && 1 <= size < TWO_32 && P.Sound(ps, size) && P.Ends(ps, e, size)
    ensures IsPacked(p, size, ps, e, stream)
  {
    hide P.Choices, P.Sound, P.Ends, IsStream;
    ChoicesFit(p, size, ps, e);
    stream := EncodeEvents(NumProbs(p), P.Choices(PropsOf(p), ps, e, size));
  }

  /** Packed packets, handed to a decoder in pieces of any sizes and taken
      through buffers of any sizes, the decoder saved and restored between any
      calls, come out as the bytes they stand for. */
  method RoundTripChunked(p: Params, dictSize: u32, ps: seq<P.Packet>, e: P.Ending, takes: nat -> nat,
                          rooms: nat -> nat, saves: nat -> bool)
    returns (r: Option<D.Decoded>)
    requires p.Fits() && P.Sound(ps, D.DictSize(dictSize)) && P.Ends(ps, e, D.DictSize(dictSize))
    requires e == P.AtSize ==> IsCut(p, ps)
    requires forall k :: takes(k) > 0 && rooms(k) > 0
    ensures r == None ==> D.DictSize(dictSize) > MAX_WINDOW && exists k :: saves(k)
    ensures r.Some? ==> r.value == D.Decoded(Cut(p, P.Expansion(ps)), Some(EndOf(p, ps)))
  {
    hide P.Sound, P.Ends, P.Expansion, IsPacked, Legal, Whole;
    var stream := Encode(p, D.DictSize(dictSize), ps, e);
    Unpacks(p, D.DictSize(dictSize), ps, e, stream);
    r := D.DecodeChunked(p, dictSize, stream, takes, rooms, saves);
  }

  /** A literal, then a match from two bytes back: what was written is one byte,
      and the stream ends as if marked. */
  method BeyondIsAnEnd(p: Params, dictSize: u32, takes: nat -> nat, rooms: nat -> nat) returns (r: Option<D.Decoded>)
    requires p.Fits() && p.unpack == None && forall k :: takes(k) > 0 && rooms(k) > 0
    ensures r == Some(D.Decoded([0x61], Some(WithMark)))
  {
    hide P.Sound, P.Ends, P.Expansion;
    P.BeyondEnds(D.DictSize(dictSize));
    r := RoundTripChunked(p, dictSize, [P.Lit(0x61)], P.Beyond(2, 1), takes, rooms, k => false);
  }
}
