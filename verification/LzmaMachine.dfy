/**
  The LZMA decoder as a machine that takes one small step at a time: read a
  byte of the header, decode one bit, write one byte, or move on.

  It is the common meaning of the resumable decoder, which may stop between
  any two steps, and of the fast decoder, which takes all the steps of a
  symbol at once.
 */
module LzmaMachine {
  import opened Arithmetic
  import opened Bytes
  import opened RangeCoding
  import opened LzmaWindow
  import opened Wrappers

  // ─── Probability table layout ────────────────────────────────────

  const OFF_IS_MATCH := 0
  const OFF_IS_REP := 192
  const OFF_IS_REP_G0 := 204
  const OFF_IS_REP_G1 := 216
  const OFF_IS_REP_G2 := 228
  const OFF_IS_REP0_LONG := 240
  const OFF_LEN_CODER := 432
  const OFF_REP_LEN_CODER := 946
  const OFF_POS_SLOT := 1460
  const OFF_POS_DECODERS := 1716
  const OFF_ALIGN := 1831
  const BASE_PROBS_SIZE := 1847
  const LIT_SIZE := 0x300

  /** `unpack` is the declared size of the output, if any. */
  datatype Params = Params(lc: nat, lp: nat, pb: nat, unpack: Option<nat>)
  {
    predicate Fits() {
      lc <= 8 && lp <= 4 && pb <= 4
    }
  }

  /** Literal, position and context bits from the properties byte. */
  function FromByte(b: byte): (r: Option<Params>)
    ensures r.Some? <==> b < 225
    ensures r.Some? ==> r.value.Fits() && b == (r.value.pb * 5 + r.value.lp) * 9 + r.value.lc
  {
    if b >= 225 then None else
    var lc: nat, d: nat := b % 9, b / 9;
    var pb: nat, lp: nat := d / 5, d % 5;
    Some(Params(lc, lp, pb, None))
  }

  function NumProbs(p: Params): nat {
    BASE_PROBS_SIZE + LIT_SIZE * Pow2(p.lc + p.lp)
  }

  // ─── States ──────────────────────────────────────────────────────

  datatype Reps = Reps(r0: u32, r1: u32, r2: u32, r3: u32)

  datatype Status = WithMark | WithoutMark

  /** Everything but the place within the current symbol. `dec.pos` counts the
      input bytes read and `out` is all that was ever written. */
  datatype Core = Core(
    dec: Decoder,
    corrupted: bool,
    probs: seq<Prob>,
    state: nat,
    reps: Reps,
    win: Window,
    decoded: nat,
    out: seq<byte>)

  datatype MatchType = Simple | Rep0 | Rep1 | Rep2 | Rep3

  datatype LenPhase =
    | Choice
    | Choice2
    | Low(m: nat, bits: nat)
    | Mid(m: nat, bits: nat)
    | High(m: nat, bits: nat)

  datatype DistPhase =
    | PosSlot(m: nat, bits: nat)
    | DirectBits(dist: nat, bits: nat)
    | AlignBits(dist: nat, m: nat, symbol: nat, i: nat)
    | SpecPosBits(dist: nat, offset: nat, m: nat, symbol: nat, i: nat, bits: nat)

  /** Where in a symbol the decoder stands. */
  datatype Phase =
    | Opening(init: seq<byte>)
    | NewSymbol
    | NeedIsRep(posState: nat)
    | NeedRepG0(posState: nat)
    | NeedRep0Long(posState: nat)
    | NeedRepG1(posState: nat)
    | NeedRepG2(posState: nat)
    | Literal(symbol: nat, litState: nat, matched: bool, matchByte: byte)
    | Length(kind: MatchType, isRep: bool, posState: nat, len: LenPhase)
    | Distance(length: nat, lenState: nat, dist: DistPhase)
    | CopyMatch(back: nat, remaining: nat)
    | Finished(status: Status)

  datatype Machine = Machine(core: Core, phase: Phase)

  // ─── Small functions of the decoder ──────────────────────────────

  function AfterLiteral(state: nat): nat {
    if state < 4 then 0 else if state < 10 then state - 3 else state - 6
  }

  function AfterMatch(state: nat): nat {
    if state < 7 then 7 else 10
  }

  function AfterRep(state: nat): nat {
    if state < 7 then 8 else 11
  }

  function AfterShortRep(state: nat): nat {
    if state < 7 then 9 else 11
  }

  predicate AtLimit(p: Params, c: Core) {
    p.unpack.Some? && c.decoded >= p.unpack.value
  }

  function Less(x: nat, y: nat): nat {
    if x >= y then x - y else 0
  }

  function PosState(p: Params, c: Core): nat {
    c.win.total % Pow2(p.pb)
  }

  function Times(a: nat, b: nat): nat {
    a * b
  }

  function LitState(p: Params, c: Core): nat
    requires p.Fits() && c.win.Fits()
  {
    var prev: nat := if c.win.live == 0 then 0 else c.win.Get(1);
    Times(Remainder(c.win.total, Pow2(p.lp)), Pow2(p.lc)) + Quotient(prev, Pow2(8 - p.lc))
  }

  function PutByte(c: Core, b: byte): Core
    requires c.win.Fits()
  {
    c.(win := c.win.Put(b), decoded := c.decoded + 1, out := c.out + [b])
  }

  // ─── Legal states ────────────────────────────────────────────────

  /** A node `bits` levels above the leaves of a tree `depth` deep. */
  predicate Node(m: nat, bits: nat, depth: nat) {
    bits <= depth && Pow2(depth - bits) <= m < 2 * Pow2(depth - bits)
  }

  predicate LenFits(l: LenPhase) {
    match l
    case Low(m, bits) => Node(m, bits, 3)
    case Mid(m, bits) => Node(m, bits, 3)
    case High(m, bits) => Node(m, bits, 8)
    case _ => true
  }

  predicate DistFits(d: DistPhase) {
    match d
    case PosSlot(m, bits) => Node(m, bits, 6)
    case DirectBits(dist, bits) => bits <= 26 && dist < 4 * Pow2(26 - bits)
    case AlignBits(dist, m, symbol, i) =>
      i <= 4 && Node(m, 4 - i, 4) && dist % 16 == 0 && dist < TWO_32 && symbol < Pow2(i)
    case SpecPosBits(dist, offset, m, symbol, i, bits) =>
      && i <= bits <= 5 && Node(m, bits - i, bits) && symbol < Pow2(i)
      && offset >= OFF_POS_DECODERS && offset + Pow2(bits) <= OFF_ALIGN && dist < 128
  }

  predicate CoreFits(p: Params, c: Core) {
    && p.Fits()
    && c.win.Fits() && |c.win.past| < TWO_32
    && c.dec.range >= 0x1_0000
    && |c.probs| == NumProbs(p)
    && c.state < 12
    && c.reps.r0 < |c.win.past| && c.reps.r1 < |c.win.past|
    && c.reps.r2 < |c.win.past| && c.reps.r3 < |c.win.past|
  }

  predicate PhaseFits(p: Params, c: Core, ph: Phase)
    requires c.win.Fits()
  {
    && (ph.NewSymbol? || ph.Opening? || ph.Finished? || !AtLimit(p, c))
    && match ph
       case Opening(init) => |init| < 5
       case NewSymbol => true
       case NeedIsRep(ps) => ps < 16
       case NeedRepG0(ps) => ps < 16 && c.win.live > 0
       case NeedRep0Long(ps) => ps < 16
       case NeedRepG1(ps) => ps < 16
       case NeedRepG2(ps) => ps < 16
       case Literal(symbol, lit, _, _) => 1 <= symbol < 0x200 && lit < Pow2(p.lc + p.lp)
       case Length(_, _, ps, l) => ps < 16 && LenFits(l)
       case Distance(len, ls, d) => len >= 2 && ls < 4 && DistFits(d)
       case CopyMatch(back, remaining) =>
         back < |c.win.past| && remaining >= 1
         && (p.unpack.Some? ==> c.decoded + remaining <= p.unpack.value)
       case Finished(_) => true
  }

  predicate Legal(p: Params, m: Machine) {
    CoreFits(p, m.core) && PhaseFits(p, m.core, m.phase)
  }

  // ─── Steps that need no bit ──────────────────────────────────────

  function StartLiteral(p: Params, c: Core): Phase
    requires p.Fits() && c.win.Fits() && c.reps.r0 < |c.win.past|
  {
    var matched := c.state >= 7;
    Literal(1, LitState(p, c), matched, if matched then c.win.Get(c.reps.r0 + 1) else 0)
  }

  function StartCopy(p: Params, c: Core, back: nat, len: nat): Machine {
    var room := if p.unpack.Some? && p.unpack.value >= c.decoded then p.unpack.value - c.decoded else len;
    Machine(c, CopyMatch(back, if room < len then room else len))
  }

  /** The length is known, less 2. */
  function LengthDone(p: Params, c: Core, kind: MatchType, len: nat): Machine {
    if kind.Simple? then Machine(c, Distance(len + 2, if len >= 4 then 3 else len, PosSlot(1, 6)))
    else StartCopy(p, c, c.reps.r0, len + 2)
  }

  /** All ones is the end marker; a distance beyond the window also ends. */
  function DistanceDone(p: Params, c: Core, len: nat, dist: nat): Machine {
    if dist >= 0xFFFF_FFFF || dist >= c.win.live then Machine(c, Finished(WithMark))
    else StartCopy(p, c.(reps := c.reps.(r0 := dist)), dist, len)
  }

  function SlotDone(p: Params, c: Core, len: nat, lenState: nat, slot: nat): Machine {
    if slot < 4 then DistanceDone(p, c, len, slot) else
    var bits, head := slot / 2 - 1, 2 + slot % 2;
    if slot < 14 then
      var dist := head * Pow2(bits);
      Machine(c, Distance(len, lenState, SpecPosBits(dist, if dist >= slot then OFF_POS_DECODERS + dist - slot
                                                           else OFF_POS_DECODERS, 1, 0, 0, bits)))
    else Machine(c, Distance(len, lenState, DirectBits(head, if bits >= 4 then bits - 4 else 0)))
  }

  /** The step that needs no bit, if the machine stands before one. */
  function Move(p: Params, m: Machine): Option<Machine>
    requires m.core.win.Fits() && (m.phase.CopyMatch? ==> m.phase.back < |m.core.win.past|)
  {
    var c := m.core;
    match m.phase
    case NewSymbol => if AtLimit(p, c) then Some(Machine(c, Finished(WithoutMark))) else None
    case Literal(symbol, _, _, _) =>
      if symbol >= 0x100 then
        Some(Machine(PutByte(c, symbol % 0x100).(state := AfterLiteral(c.state)), NewSymbol))
      else None
    case Length(kind, _, _, Low(x, 0)) => Some(LengthDone(p, c, kind, Less(x, 8)))
    case Length(kind, _, _, Mid(x, 0)) => Some(LengthDone(p, c, kind, Less(x, 8) + 8))
    case Length(kind, _, _, High(x, 0)) => Some(LengthDone(p, c, kind, Less(x, 0x100) + 16))
    case Distance(len, ls, PosSlot(x, 0)) => Some(SlotDone(p, c, len, ls, Less(x, 64)))
    case Distance(len, ls, DirectBits(dist, 0)) =>
      Some(Machine(c, Distance(len, ls, AlignBits(Wrap32(16 * dist), 1, 0, 0))))
    case Distance(len, ls, AlignBits(dist, _, symbol, i)) =>
      if i >= 4 then Some(DistanceDone(p, c, len, dist + symbol)) else None
    case Distance(len, ls, SpecPosBits(dist, _, _, symbol, i, bits)) =>
      if i >= bits then Some(DistanceDone(p, c, len, dist + symbol)) else None
    case CopyMatch(back, remaining) =>
      Some(Machine(PutByte(c, c.win.Get(back + 1)),
                   if remaining <= 1 then NewSymbol else CopyMatch(back, remaining - 1)))
    case _ => None
  }

  // ─── Steps that decode a bit ─────────────────────────────────────

  function LenBase(isRep: bool): nat {
    if isRep then OFF_REP_LEN_CODER else OFF_LEN_CODER
  }

  /** Where the probabilities of this part of the length coder start. */
  function LenTree(isRep: bool, posState: nat, l: LenPhase): nat {
    match l
    case Choice => LenBase(isRep)
    case Choice2 => LenBase(isRep) + 1
    case Low(_, _) => LenBase(isRep) + 2 + 8 * posState
    case Mid(_, _) => LenBase(isRep) + 130 + 8 * posState
    case High(_, _) => LenBase(isRep) + 258
  }

  /** The probability the next bit is coded with. */
  function Index(p: Params, m: Machine): nat {
    var state := m.core.state;
    match m.phase
    case NewSymbol => OFF_IS_MATCH + state * 16 + PosState(p, m.core)
    case NeedIsRep(_) => OFF_IS_REP + state
    case NeedRepG0(_) => OFF_IS_REP_G0 + state
    case NeedRep0Long(ps) => OFF_IS_REP0_LONG + state * 16 + ps
    case NeedRepG1(_) => OFF_IS_REP_G1 + state
    case NeedRepG2(_) => OFF_IS_REP_G2 + state
    case Literal(symbol, lit, matched, mb) =>
      BASE_PROBS_SIZE + LIT_SIZE * lit + (if matched then 0x100 * (1 + mb / 0x80) else 0) + symbol
    case Length(_, isRep, ps, l) => LenTree(isRep, ps, l) + (if l.Choice? || l.Choice2? then 0 else l.m)
    case Distance(_, ls, PosSlot(x, _)) => OFF_POS_SLOT + 64 * ls + x
    case Distance(_, _, AlignBits(_, x, _, _)) => OFF_ALIGN + x
    case Distance(_, _, SpecPosBits(_, offset, x, _, _, _)) => offset + x
    case _ => 0
  }

  function ShiftByte(b: nat): byte {
    2 * b % 0x100
  }

  function Bit(b: bool): nat {
    if b then 1 else 0
  }

  function StartLength(c: Core, kind: MatchType, posState: nat): Machine {
    Machine(c.(state := if kind.Simple? then AfterMatch(c.state) else AfterRep(c.state)),
            Length(kind, !kind.Simple?, posState, Choice))
  }

  /** IsRep was 1. */
  function AfterIsRep(p: Params, c: Core, posState: nat): Machine {
    if AtLimit(p, c) then Machine(c, Finished(WithoutMark))
    else if c.win.live == 0 then Machine(c, Finished(WithMark))
    else Machine(c, NeedRepG0(posState))
  }

  function AfterLenBit(l: LenPhase, bit: bool): LenPhase {
    match l
    case Choice => if bit then Choice2 else Low(1, 3)
    case Choice2 => if bit then High(1, 8) else Mid(1, 3)
    case Low(m, n) => Low(2 * m + Bit(bit), if n > 0 then n - 1 else 0)
    case Mid(m, n) => Mid(2 * m + Bit(bit), if n > 0 then n - 1 else 0)
    case High(m, n) => High(2 * m + Bit(bit), if n > 0 then n - 1 else 0)
  }

  function AfterDistBit(d: DistPhase, bit: bool): DistPhase {
    match d
    case PosSlot(m, n) => PosSlot(2 * m + Bit(bit), if n > 0 then n - 1 else 0)
    case DirectBits(dist, n) => DirectBits(2 * dist + Bit(bit), if n > 0 then n - 1 else 0)
    case AlignBits(dist, m, symbol, i) =>
      AlignBits(dist, 2 * m + Bit(bit), symbol + (if bit then Pow2(i) else 0), i + 1)
    case SpecPosBits(dist, offset, m, symbol, i, n) =>
      SpecPosBits(dist, offset, 2 * m + Bit(bit), symbol + (if bit then Pow2(i) else 0), i + 1, n)
  }

  /** What a decoded bit means at the machine's place. */
  function AfterBit(p: Params, c: Core, ph: Phase, bit: bool): Machine
    requires p.Fits() && c.win.Fits() && c.reps.r0 < |c.win.past|
  {
    var r := c.reps;
    match ph
    case NewSymbol => Machine(c, if bit then NeedIsRep(PosState(p, c)) else StartLiteral(p, c))
    case NeedIsRep(ps) =>
      if bit then AfterIsRep(p, c, ps)
      else StartLength(c.(reps := Reps(r.r0, r.r0, r.r1, r.r2)), Simple, ps)
    case NeedRepG0(ps) => Machine(c, if bit then NeedRepG1(ps) else NeedRep0Long(ps))
    case NeedRep0Long(ps) =>
      if bit then StartLength(c, Rep0, ps)
      else Machine(c.(state := AfterShortRep(c.state)), CopyMatch(r.r0, 1))
    case NeedRepG1(ps) =>
      if bit then Machine(c, NeedRepG2(ps))
      else StartLength(c.(reps := Reps(r.r1, r.r0, r.r2, r.r3)), Rep1, ps)
    case NeedRepG2(ps) =>
      if bit then StartLength(c.(reps := Reps(r.r3, r.r0, r.r1, r.r2)), Rep3, ps)
      else StartLength(c.(reps := Reps(r.r2, r.r0, r.r1, r.r3)), Rep2, ps)
    case Literal(symbol, lit, matched, mb) =>
      var seen: byte := if matched then ShiftByte(mb) else mb;
      Machine(c, Literal(2 * symbol + Bit(bit), lit, matched && mb / 0x80 == Bit(bit), seen))
    case Length(kind, isRep, ps, l) => Machine(c, Length(kind, isRep, ps, AfterLenBit(l, bit)))
    case Distance(len, ls, d) => Machine(c, Distance(len, ls, AfterDistBit(d, bit)))
    case _ => Machine(c, ph)
  }

  predicate IsDirect(ph: Phase) {
    ph.Distance? && ph.dist.DirectBits?
  }

  function DecodeWith(c: Core, index: nat, d: Decoder): (Core, bool)
    requires index < |c.probs| && d.range >= TOP
  {
    var (next, bit) := Choose(d, c.probs[index]);
    (c.(dec := next, probs := c.probs[index := Adapt(c.probs[index], bit)]), bit)
  }

  function DecodeDirect(c: Core, d: Decoder): (Core, bool)
    requires d.range >= TOP
  {
    var (next, bit) := ChooseDirect(d);
    (c.(dec := next, corrupted := c.corrupted || next.code == next.range), bit)
  }

  // ─── One step ────────────────────────────────────────────────────

  /** One byte of the range coder's five-byte header. */
  function OpenByte(m: Machine, b: byte): Machine
    requires m.phase.Opening? && |m.phase.init| < 5
  {
    var init, c := m.phase.init + [b], m.core;
    var read := c.(dec := c.dec.(pos := c.dec.pos + 1));
    if |init| < 5 then Machine(read, Opening(init)) else
    var code := FromBe4(init[1..5]);
    Machine(read.(dec := Decoder(FULL_RANGE, code, c.dec.pos + 1),
                  corrupted := init[0] != 0 || code == FULL_RANGE),
            NewSymbol)
  }

  /** The next state, unless the machine has finished or needs input. */
  function Step(p: Params, src: seq<byte>, m: Machine): Option<Machine>
    requires Legal(p, m)
  {
    if m.phase.Finished? then None
    else if m.phase.Opening? then
      if m.core.dec.pos < |src| then Some(OpenByte(m, src[m.core.dec.pos])) else None
    else
    match Move(p, m)
    case Some(next) => Some(next)
    case None =>
      match Normalise(m.core.dec, src)
      case None => None
      case Some(d) =>
        IndexInTable(p, m);
        var (c, bit) := if IsDirect(m.phase) then DecodeDirect(m.core, d) else DecodeWith(m.core, Index(p, m), d);
        Some(AfterBit(p, c, m.phase, bit))
  }

  /** A node that is not a leaf is an index into its tree. */
  lemma InnerNode(m: nat, bits: nat, depth: nat)
    requires Node(m, bits, depth) && bits > 0
    ensures 1 <= m < Pow2(depth)
  {
    Pow2Mono(depth - bits + 1, depth);
  }

  /** Every probability a legal machine asks for is in the table. */
  lemma IndexInTable(p: Params, m: Machine)
    requires Legal(p, m) && !m.phase.Finished? && !m.phase.Opening? && Move(p, m).None?
    ensures Index(p, m) < |m.core.probs|
  {
    hide Pow2, LitState, PutByte, Window.Get, LengthDone, SlotDone, DistanceDone, LenFits, DistFits;
    TableSize(p);
    match m.phase {
      case NewSymbol =>
        PosStateBound(p, m.core);
      case Literal(symbol, lit, _, mb) =>
        LiteralIndex(lit, Pow2(p.lc + p.lp));
      case Length(_, _, ps, l) =>
        LenIndex(l);
      case Distance(_, _, d) =>
        DistIndex(d);
      case _ =>
    }
  }

  lemma TableSize(p: Params)
    ensures NumProbs(p) == BASE_PROBS_SIZE + LIT_SIZE * Pow2(p.lc + p.lp)
  {
  }

  lemma LenIndex(l: LenPhase)
    requires LenFits(l) && (InTree(l) ==> l.bits > 0)
    ensures l.Low? || l.Mid? ==> 1 <= l.m < 8
    ensures l.High? ==> 1 <= l.m < 0x100
  {
    SmallPowers();
    hide Pow2;
    if InTree(l) {
      InnerNode(l.m, l.bits, if l.High? then 8 else 3);
    }
  }

  lemma DistIndex(d: DistPhase)
    requires DistFits(d)
    ensures d.PosSlot? && d.bits > 0 ==> 1 <= d.m < 64
    ensures d.AlignBits? && d.i < 4 ==> 1 <= d.m < 16
    ensures d.SpecPosBits? && d.i < d.bits ==> d.offset + d.m < OFF_ALIGN
  {
    SmallPowers();
    hide Pow2;
    match d {
      case PosSlot(x, n) =>
        if n > 0 {
          InnerNode(x, n, 6);
        }
      case AlignBits(_, x, _, i) =>
        if i < 4 {
          InnerNode(x, 4 - i, 4);
        }
      case SpecPosBits(_, _, x, _, i, n) =>
        if i < n {
          InnerNode(x, n - i, n);
        }
      case _ =>
    }
  }

  lemma LiteralIndex(lit: nat, count: nat)
    requires lit < count
    ensures LIT_SIZE * lit + LIT_SIZE <= LIT_SIZE * count
  {
  }

  // ─── Steps keep the machine legal ────────────────────────────────

  lemma LitStateBound(p: Params, c: Core)
    requires p.Fits() && c.win.Fits()
    ensures LitState(p, c) < Pow2(p.lc + p.lp)
  {
    hide Pow2, Window.Get;
    var a, b := Pow2(p.lp), Pow2(p.lc);
    var prev: nat := if c.win.live == 0 then 0 else c.win.Get(1);
    SmallPowers();
    Pow2Add(8 - p.lc, p.lc);
    assert 8 - p.lc + p.lc == 8;
    QuotientBound(prev, Pow2(8 - p.lc), b);
    Pow2Add(p.lc, p.lp);
    ScaledBelow(Remainder(c.win.total, a), a, b, Quotient(prev, Pow2(8 - p.lc)));
  }

  lemma ScaledBelow(t: nat, a: nat, b: nat, q: nat)
    requires t < a && q < b
    ensures Times(t, b) + q < b * a
  {
    MulMono(t + 1, a, b);
    assert (t + 1) * b == Times(t, b) + b;
  }

  lemma QuotientBound(x: nat, a: nat, b: nat)
    requires a > 0 && x < a * b
    ensures Quotient(x, a) < b
  {
    if x / a >= b {
      MulMono(b, x / a, a);
    }
  }

  lemma CopyLegal(p: Params, c: Core, back: nat, len: nat)
    requires CoreFits(p, c) && !AtLimit(p, c) && back < |c.win.past| && len >= 1
    ensures Legal(p, StartCopy(p, c, back, len))
  {
  }

  lemma DistanceDoneLegal(p: Params, c: Core, len: nat, dist: nat)
    requires CoreFits(p, c) && !AtLimit(p, c) && len >= 2 && dist < TWO_32
    ensures Legal(p, DistanceDone(p, c, len, dist))
  {
    if dist < c.win.live {
      CopyLegal(p, c.(reps := c.reps.(r0 := dist)), dist, len);
    }
  }

  lemma SlotDoneLegal(p: Params, c: Core, len: nat, lenState: nat, slot: nat)
    requires CoreFits(p, c) && !AtLimit(p, c) && len >= 2 && lenState < 4 && slot < 64
    ensures Legal(p, SlotDone(p, c, len, lenState, slot))
  {
    hide DistFits, Pow2;
    if slot < 4 {
      DistanceDoneLegal(p, c, len, slot);
    } else if slot < 14 {
      SpecStartLegal(slot);
    } else {
      DirectStartLegal(slot);
    }
  }

  /** The reverse trees of the short distances fill their part of the table. */
  lemma SpecStartLegal(slot: nat)
    requires 4 <= slot < 14
    ensures var bits := slot / 2 - 1;
            var dist := (2 + slot % 2) * Pow2(bits);
            dist >= slot && DistFits(SpecPosBits(dist, OFF_POS_DECODERS + dist - slot, 1, 0, 0, bits))
  {
    SmallPowers();
    var bits := slot / 2 - 1;
    assert Pow2(0) == 1 && Node(1, bits, bits);
    assert bits == 1 || bits == 2 || bits == 3 || bits == 4 || bits == 5;
    if bits == 1 {
      assert Pow2(bits) == 2;
    } else if bits == 2 {
      assert Pow2(bits) == 4;
    } else if bits == 3 {
      assert Pow2(bits) == 8;
    } else if bits == 4 {
      assert Pow2(bits) == 16;
    } else {
      assert Pow2(bits) == 32;
    }
  }

  lemma DirectStartLegal(slot: nat)
    requires 14 <= slot < 64
    ensures 1 <= slot / 2 - 5 <= 26 && DistFits(DirectBits(2 + slot % 2, slot / 2 - 5))
  {
    Pow2Mono(0, 26 - (slot / 2 - 5));
  }

  lemma MoveLegal(p: Params, m: Machine)
    requires Legal(p, m) && Move(p, m).Some?
    ensures Legal(p, Move(p, m).value)
  {
    hide LitState, Pow2;
    SmallPowers();
    var c := m.core;
    match m.phase {
      case Length(kind, _, _, _) =>
        LengthMoveLegal(p, m);
      case Distance(len, ls, PosSlot(x, _)) =>
        LeafBound(x, 6);
        SlotDoneLegal(p, c, len, ls, Less(x, 64));
      case Distance(len, ls, DirectBits(dist, _)) =>
        AlignStartLegal(dist);
      case Distance(len, ls, AlignBits(dist, _, symbol, i)) =>
        DistanceDoneLegal(p, c, len, dist + symbol);
      case Distance(len, ls, SpecPosBits(dist, _, _, symbol, i, bits)) =>
        SymbolBound(symbol, i, bits);
        DistanceDoneLegal(p, c, len, dist + symbol);
      case _ =>
    }
  }

  lemma LeafBound(m: nat, depth: nat)
    requires Node(m, 0, depth)
    ensures Pow2(depth) <= m < 2 * Pow2(depth)
  {
  }

  lemma SymbolBound(symbol: nat, i: nat, bits: nat)
    requires symbol < Pow2(i) && i <= bits <= 5
    ensures symbol < 32
  {
    SmallPowers();
    Pow2Mono(i, 5);
  }

  lemma AlignStartLegal(dist: nat)
    requires DistFits(DirectBits(dist, 0))
    ensures DistFits(AlignBits(Wrap32(16 * dist), 1, 0, 0))
  {
    Pow2Of26();
    assert Pow2(0) == 1;
    hide Pow2;
    assert 16 * dist < TWO_32;
  }

  lemma Pow2Of26()
    ensures Pow2(26) == 0x400_0000
  {
    SmallPowers();
    Pow2Add(8, 5);
    Pow2Add(13, 13);
  }

  lemma LengthMoveLegal(p: Params, m: Machine)
    requires Legal(p, m) && m.phase.Length? && Move(p, m).Some?
    ensures Legal(p, Move(p, m).value)
  {
    var len := match m.phase.len
      case Low(x, _) => Less(x, 8)
      case Mid(x, _) => Less(x, 8) + 8
      case High(x, _) => Less(x, 0x100) + 16
      case _ => 0;
    if m.phase.kind.Simple? {
      assert Node(1, 6, 6);
    } else {
      CopyLegal(p, m.core, m.core.reps.r0, len + 2);
    }
  }

  lemma LenBitLegal(l: LenPhase, bit: bool)
    requires LenFits(l) && (l.Low? || l.Mid? || l.High? ==> l.bits > 0)
    ensures LenFits(AfterLenBit(l, bit))
  {
    assert Node(1, 3, 3) && Node(1, 8, 8);
  }

  lemma DistBitLegal(d: DistPhase, bit: bool)
    requires DistFits(d)
    requires match d case PosSlot(_, n) => n > 0 case DirectBits(_, n) => n > 0
             case AlignBits(_, _, _, i) => i < 4 case SpecPosBits(_, _, _, _, i, n) => i < n
    ensures DistFits(AfterDistBit(d, bit))
  {
    hide Node, Pow2;
    match d {
      case PosSlot(m, n) => NodeGrows(m, n, 6, bit);
      case DirectBits(_, n) => Doubles(26 - n);
      case AlignBits(_, m, _, i) =>
        NodeGrows(m, 4 - i, 4, bit);
        Doubles(i);
      case SpecPosBits(_, _, m, _, i, n) =>
        NodeGrows(m, n - i, n, bit);
        Doubles(i);
    }
  }

  lemma Doubles(k: nat)
    ensures Pow2(k + 1) == 2 * Pow2(k)
  {
  }

  lemma NodeGrows(m: nat, bits: nat, depth: nat, bit: bool)
    requires Node(m, bits, depth) && bits > 0
    ensures Node(2 * m + Bit(bit), bits - 1, depth)
  {
    hide Pow2;
    Doubles(depth - bits);
  }

  lemma AfterBitLegal(p: Params, c: Core, ph: Phase, bit: bool)
    requires Legal(p, Machine(c, ph)) && Move(p, Machine(c, ph)).None?
    requires !ph.Finished? && !ph.Opening?
    ensures Legal(p, AfterBit(p, c, ph, bit))
  {
    hide Pow2, LitState;
    match ph {
      case NewSymbol =>
        LitStateBound(p, c);
        PosStateBound(p, c);
      case Length(_, _, _, l) =>
        LenBitLegal(l, bit);
      case Distance(_, _, d) =>
        DistBitLegal(d, bit);
      case _ =>
    }
  }

  lemma PosStateBound(p: Params, c: Core)
    requires p.Fits()
    ensures PosState(p, c) < 16
  {
    SmallPowers();
    Pow2Mono(p.pb, 4);
  }

  lemma StepLegal(p: Params, src: seq<byte>, m: Machine)
    requires Legal(p, m) && Step(p, src, m).Some?
    ensures Legal(p, Step(p, src, m).value)
  {
    hide LitState, Move, AfterBit, Index;
    if m.phase.Opening? {
      OpenByteLegal(p, m, src[m.core.dec.pos]);
    } else if Move(p, m).Some? {
      MoveLegal(p, m);
    } else {
      IndexInTable(p, m);
      var d := Normalise(m.core.dec, src).value;
      var (c, bit) := if IsDirect(m.phase) then DecodeDirect(m.core, d) else DecodeWith(m.core, Index(p, m), d);
      SamePlace(p, m, c);
      AfterBitLegal(p, c, m.phase, bit);
    }
  }

  lemma OpenByteLegal(p: Params, m: Machine, b: byte)
    requires Legal(p, m) && m.phase.Opening?
    ensures Legal(p, OpenByte(m, b))
  {
  }

  /** Decoding a bit changes the range coder and the table, not the place. */
  lemma SamePlace(p: Params, m: Machine, c: Core)
    requires Legal(p, m) && Move(p, m).None? && c.dec.range >= 0x1_0000
    requires c == m.core.(dec := c.dec, corrupted := c.corrupted, probs := c.probs)
    requires |c.probs| == |m.core.probs|
    ensures Legal(p, Machine(c, m.phase)) && Move(p, Machine(c, m.phase)).None?
  {
  }

  // ─── What the moves are ──────────────────────────────────────────

  function LenOf(l: LenPhase): nat {
    match l
    case Low(x, _) => Less(x, 8)
    case Mid(x, _) => Less(x, 8) + 8
    case High(x, _) => Less(x, 0x100) + 16
    case _ => 0
  }

  predicate InTree(l: LenPhase) {
    l.Low? || l.Mid? || l.High?
  }

  lemma LiteralMoves(p: Params, m: Machine)
    requires Legal(p, m) && m.phase.Literal? && m.phase.symbol >= 0x100
    ensures m.phase.symbol < 0x200 && m.core.win.Fits()
    ensures Move(p, m)
         == Some(Machine(PutByte(m.core, m.phase.symbol - 0x100).(state := AfterLiteral(m.core.state)), NewSymbol))
  {
    hide Pow2, PutByte, Window.Get, LenFits, DistFits;
    assert m.phase.symbol % 0x100 == m.phase.symbol - 0x100;
  }

  lemma LengthMoves(p: Params, m: Machine)
    requires Legal(p, m) && m.phase.Length? && InTree(m.phase.len) && m.phase.len.bits == 0
    ensures m.core.win.Fits() && !AtLimit(p, m.core)
    ensures m.phase.len.m >= if m.phase.len.High? then 0x100 else 8
    ensures Move(p, m) == Some(LengthDone(p, m.core, m.phase.kind, LenOf(m.phase.len)))
  {
    SmallPowers();
    hide Pow2, PutByte, LengthDone, LitState, DistFits, Window.Get;
    LeafBound(m.phase.len.m, if m.phase.len.High? then 8 else 3);
  }

  lemma SlotMoves(p: Params, m: Machine)
    requires Legal(p, m) && m.phase.Distance? && m.phase.dist.PosSlot? && m.phase.dist.bits == 0
    ensures m.core.win.Fits() && CoreFits(p, m.core) && !AtLimit(p, m.core) && 64 <= m.phase.dist.m < 128
    ensures Move(p, m) == Some(SlotDone(p, m.core, m.phase.length, m.phase.lenState, m.phase.dist.m - 64))
  {
    hide Pow2, SlotDone;
    SmallPowers();
    LeafBound(m.phase.dist.m, 6);
  }

  lemma DirectMoves(p: Params, m: Machine)
    requires Legal(p, m) && m.phase.Distance? && m.phase.dist.DirectBits? && m.phase.dist.bits == 0
    ensures m.core.win.Fits()
    ensures Move(p, m) == Some(m.(phase := m.phase.(dist := AlignBits(Wrap32(16 * m.phase.dist.dist), 1, 0, 0))))
  {
    hide Pow2;
  }

  lemma ReverseMoves(p: Params, m: Machine)
    requires Legal(p, m) && m.phase.Distance?
    requires (m.phase.dist.AlignBits? && m.phase.dist.i >= 4)
             || (m.phase.dist.SpecPosBits? && m.phase.dist.i >= m.phase.dist.bits)
    ensures CoreFits(p, m.core) && !AtLimit(p, m.core) && m.phase.dist.dist + m.phase.dist.symbol < TWO_32
    ensures Move(p, m) == Some(DistanceDone(p, m.core, m.phase.length, m.phase.dist.dist + m.phase.dist.symbol))
  {
    hide DistanceDone, Pow2;
    SmallPowers();
    var d := m.phase.dist;
    SymbolBound(d.symbol, d.i, if d.AlignBits? then 4 else d.bits);
    if d.AlignBits? {
      assert d.symbol < 16;
    }
  }

  lemma CopyMoves(p: Params, m: Machine)
    requires Legal(p, m) && m.phase.CopyMatch?
    ensures m.core.win.Fits() && m.phase.back < |m.core.win.past| && m.phase.remaining >= 1
    ensures Move(p, m) == Some(Machine(PutByte(m.core, m.core.win.Get(m.phase.back + 1)),
                                       if m.phase.remaining == 1 then NewSymbol
                                       else CopyMatch(m.phase.back, m.phase.remaining - 1)))
  {
    hide Pow2, PutByte, Window.Get, LenFits, DistFits;
  }

  // ─── Runs ────────────────────────────────────────────────────────

  function Advance(p: Params, src: seq<byte>, m: Machine): Machine {
    if Legal(p, m) && Step(p, src, m).Some? then Step(p, src, m).value else m
  }

  function After(p: Params, src: seq<byte>, m: Machine, n: nat): Machine {
    if n > 0 then Advance(p, src, After(p, src, m, n - 1)) else m
  }

  /** Some number of steps on the input `src` takes the machine from `a` to `b`. */
  ghost predicate Leads(p: Params, src: seq<byte>, a: Machine, b: Machine) {
    exists n: nat :: After(p, src, a, n) == b
  }

  lemma LeadsNowhere(p: Params, src: seq<byte>, m: Machine)
    ensures Leads(p, src, m, m)
  {
    assert After(p, src, m, 0) == m;
  }

  lemma LeadsOn(p: Params, src: seq<byte>, a: Machine, b: Machine, c: Machine)
    requires Leads(p, src, a, b) && Legal(p, b) && Step(p, src, b) == Some(c)
    ensures Leads(p, src, a, c) && Legal(p, c)
  {
    var n: nat :| After(p, src, a, n) == b;
    assert After(p, src, a, n + 1) == c;
    StepLegal(p, src, b);
  }

  /** A move is a step. */
  lemma MovesOn(p: Params, src: seq<byte>, start: Machine, was: Machine, now: Machine)
    requires Leads(p, src, start, was) && Legal(p, was) && !was.phase.Finished? && !was.phase.Opening?
    requires Move(p, was) == Some(now)
    ensures Leads(p, src, start, now) && Legal(p, now)
  {
    hide Leads, Move, Legal;
    LeadsOn(p, src, start, was, now);
  }

  lemma {:induction false} AfterAdd(p: Params, src: seq<byte>, m: Machine, i: nat, j: nat)
    ensures After(p, src, m, i + j) == After(p, src, After(p, src, m, i), j)
    decreases j
  {
    hide Advance;
    if j > 0 {
      AfterAdd(p, src, m, i, j - 1);
    }
  }

  /** Two runs from the same state: one is a continuation of the other. */
  lemma LeadsLinear(p: Params, src: seq<byte>, a: Machine, b: Machine, c: Machine)
    requires Leads(p, src, a, b) && Leads(p, src, a, c)
    ensures Leads(p, src, b, c) || Leads(p, src, c, b)
  {
    hide Advance;
    var i: nat :| After(p, src, a, i) == b;
    var j: nat :| After(p, src, a, j) == c;
    if i <= j {
      AfterRest(p, src, a, i, j);
    } else {
      AfterRest(p, src, a, j, i);
    }
  }

  lemma AfterRest(p: Params, src: seq<byte>, a: Machine, i: nat, j: nat)
    requires i <= j
    ensures Leads(p, src, After(p, src, a, i), After(p, src, a, j))
  {
    hide After, Leads;
    AfterAdd(p, src, a, i, j - i);
    assert i + (j - i) == j;
    LeadsBy(p, src, After(p, src, a, i), After(p, src, a, j), j - i);
  }

  lemma LeadsBy(p: Params, src: seq<byte>, a: Machine, b: Machine, n: nat)
    requires After(p, src, a, n) == b
    ensures Leads(p, src, a, b)
  {
    hide After;
  }

  lemma AdvanceWrites(p: Params, src: seq<byte>, m: Machine)
    ensures m.core.out <= Advance(p, src, m).core.out
  {
    if Legal(p, m) && Step(p, src, m).Some? && !m.phase.Opening? {
      if Move(p, m).Some? {
        MoveWrites(p, m);
      } else {
        IndexInTable(p, m);
        var d := Normalise(m.core.dec, src).value;
        var (c, bit) := if IsDirect(m.phase) then DecodeDirect(m.core, d) else DecodeWith(m.core, Index(p, m), d);
        assert AfterBit(p, c, m.phase, bit).core.out == c.out;
      }
    }
  }

  lemma MoveWrites(p: Params, m: Machine)
    requires Legal(p, m) && Move(p, m).Some?
    ensures m.core.out <= Move(p, m).value.core.out
  {
  }

  lemma {:induction false} AfterWrites(p: Params, src: seq<byte>, m: Machine, n: nat)
    ensures m.core.out <= After(p, src, m, n).core.out
    decreases n
  {
    if n > 0 {
      AfterWrites(p, src, m, n - 1);
      AdvanceWrites(p, src, After(p, src, m, n - 1));
    }
  }

  /** Output is never taken back. */
  lemma LeadsWrites(p: Params, src: seq<byte>, a: Machine, b: Machine)
    requires Leads(p, src, a, b)
    ensures a.core.out <= b.core.out
  {
    var n: nat :| After(p, src, a, n) == b;
    AfterWrites(p, src, a, n);
  }

  lemma AdvanceLonger(p: Params, src: seq<byte>, more: seq<byte>, m: Machine)
    requires Legal(p, m) && Step(p, src, m).Some?
    ensures Step(p, src + more, m) == Step(p, src, m)
  {
    hide Legal, Move, AfterBit, DecodeWith, DecodeDirect, OpenByte, Index;
  }

  /** More input does not change what was decoded without it. */
  lemma {:induction false} AfterLonger(p: Params, src: seq<byte>, more: seq<byte>, m: Machine, n: nat)
    ensures Leads(p, src + more, m, After(p, src, m, n))
    decreases n
  {
    hide Step, Legal, Leads;
    if n == 0 {
      LeadsNowhere(p, src + more, m);
    } else {
      AfterLonger(p, src, more, m, n - 1);
      var last := After(p, src, m, n - 1);
      if Legal(p, last) && Step(p, src, last).Some? {
        AdvanceLonger(p, src, more, last);
        LeadsOn(p, src + more, m, last, Step(p, src, last).value);
      }
    }
  }

  /** Resume anywhere: of two decoders started alike on the same stream, the
      output of one begins the output of the other, whatever part of the
      input each was given and in whatever pieces. */
  lemma OutputsAgree(p: Params, src: seq<byte>, m: nat, n: nat, start: Machine, a: Machine, b: Machine)
    requires m <= |src| && n <= |src|
    requires Leads(p, src[..m], start, a) && Leads(p, src[..n], start, b)
    ensures a.core.out <= b.core.out || b.core.out <= a.core.out
  {
    var i: nat :| After(p, src[..m], start, i) == a;
    var j: nat :| After(p, src[..n], start, j) == b;
    AfterLonger(p, src[..m], src[m..], start, i);
    AfterLonger(p, src[..n], src[n..], start, j);
    assert src[..m] + src[m..] == src == src[..n] + src[n..];
    LeadsLinear(p, src, start, a, b);
    if Leads(p, src, a, b) {
      LeadsWrites(p, src, a, b);
    } else {
      LeadsWrites(p, src, b, a);
    }
  }

  /** Finished, or in need of a byte that `src` does not have. */
  ghost predicate Stuck(p: Params, src: seq<byte>, m: Machine) {
    Legal(p, m) ==> Step(p, src, m).None?
  }

  lemma {:induction false} StuckStays(p: Params, src: seq<byte>, m: Machine, n: nat)
    requires Stuck(p, src, m)
    ensures After(p, src, m, n) == m
    decreases n
  {
    hide Step;
    if n > 0 {
      StuckStays(p, src, m, n - 1);
    }
  }

  /** Whatever first part of a stream a run was given, a run on the whole
      stream that can go no further continues it. */
  lemma StuckIsLast(p: Params, src: seq<byte>, n: nat, start: Machine, a: Machine, b: Machine)
    requires n <= |src| && Leads(p, src[..n], start, a)
    requires Leads(p, src, start, b) && Stuck(p, src, b)
    ensures Leads(p, src, a, b) && a.core.out <= b.core.out
  {
    hide Stuck, Advance;
    var i: nat :| After(p, src[..n], start, i) == a;
    AfterLonger(p, src[..n], src[n..], start, i);
    assert src[..n] + src[n..] == src;
    LeadsLinear(p, src, start, a, b);
    if Leads(p, src, b, a) {
      var j: nat :| After(p, src, b, j) == a;
      StuckStays(p, src, b, j);
    }
    LeadsWrites(p, src, a, b);
  }

  // ─── Every run ends ──────────────────────────────────────────────

  /** What steps that neither read nor shrink the range go down by. */
  function Rank(ph: Phase): nat {
    match ph
    case Finished(_) => 0
    case NewSymbol => 1
    case Opening(_) => 6
    case Length(_, _, _, _) => 4
    case Distance(_, _, _) => 3
    case CopyMatch(_, _) => 2
    case _ => 5
  }

  /** And what they go down by when they stay at one rank. */
  function Left(ph: Phase): nat {
    match ph
    case CopyMatch(_, remaining) => remaining
    case Distance(_, _, PosSlot(_, _)) => 2
    case Distance(_, _, DirectBits(_, _)) => 1
    case _ => 0
  }

  ghost predicate Shrinks(a: Machine, b: Machine) {
    var d, e := a.core.dec, b.core.dec;
    && d.pos <= e.pos
    && (d.pos == e.pos ==>
          e.range < d.range ||
          (e.range == d.range &&
           (Rank(b.phase) < Rank(a.phase) || (Rank(b.phase) == Rank(a.phase) && Left(b.phase) < Left(a.phase)))))
  }

  lemma MoveShrinks(p: Params, m: Machine)
    requires Legal(p, m) && Move(p, m).Some?
    ensures Shrinks(m, Move(p, m).value) && Move(p, m).value.core.dec == m.core.dec
  {
    hide Pow2, Window.Get, LenFits, DistFits;
  }

  lemma ChoiceShrinks(d: Decoder, v: Prob)
    requires d.range >= TOP
    ensures Choose(d, v).0.range < d.range && Choose(d, v).0.pos == d.pos
  {
    BoundSplits(d.range, v);
  }

  lemma StepShrinks(p: Params, src: seq<byte>, m: Machine)
    requires Legal(p, m) && Step(p, src, m).Some? && m.core.dec.pos <= |src|
    ensures Shrinks(m, Step(p, src, m).value) && Step(p, src, m).value.core.dec.pos <= |src|
  {
    hide Wrap32, LitState, Pow2, AfterLenBit, AfterDistBit, Choose, FromBe4;
    if !m.phase.Opening? {
      if Move(p, m).Some? {
        MoveShrinks(p, m);
      } else {
        hide Move;
        IndexInTable(p, m);
        var d := Normalise(m.core.dec, src).value;
        ChoiceShrinks(d, m.core.probs[Index(p, m)]);
        var (c, bit) := if IsDirect(m.phase) then DecodeDirect(m.core, d) else DecodeWith(m.core, Index(p, m), d);
        assert AfterBit(p, c, m.phase, bit).core.dec == c.dec;
      }
    }
  }

  /** The unbroken decode: as far as the machine gets on `src`. */
  function Whole(p: Params, src: seq<byte>, m: Machine): (end: Machine)
    requires Legal(p, m) && m.core.dec.pos <= |src|
    ensures Legal(p, end) && Stuck(p, src, end)
    decreases |src| - m.core.dec.pos, m.core.dec.range, Rank(m.phase), Left(m.phase)
  {
    match Step(p, src, m)
    case None => m
    case Some(next) =>
      StepLegal(p, src, m);
      StepShrinks(p, src, m);
      Whole(p, src, next)
  }

  lemma {:induction false} LeadsToWhole(p: Params, src: seq<byte>, m: Machine)
    requires Legal(p, m) && m.core.dec.pos <= |src|
    ensures Leads(p, src, m, Whole(p, src, m))
    decreases |src| - m.core.dec.pos, m.core.dec.range, Rank(m.phase), Left(m.phase)
  {
    LeadsNowhere(p, src, m);
    if Step(p, src, m).Some? {
      StepLegal(p, src, m);
      StepShrinks(p, src, m);
      LeadsOn(p, src, m, m, Step(p, src, m).value);
      LeadsToWhole(p, src, Step(p, src, m).value);
      LeadsTransitive(p, src, m, Step(p, src, m).value, Whole(p, src, m));
    }
  }

  lemma LeadsTransitive(p: Params, src: seq<byte>, a: Machine, b: Machine, c: Machine)
    requires Leads(p, src, a, b) && Leads(p, src, b, c)
    ensures Leads(p, src, a, c)
  {
    hide Advance;
    var i: nat :| After(p, src, a, i) == b;
    var j: nat :| After(p, src, b, j) == c;
    AfterAdd(p, src, a, i, j);
    LeadsBy(p, src, a, c, i + j);
  }

  /** However a stream was handed over so far, what was written is where the
      unbroken decode starts; and when nothing more can be decoded, all of it. */
  lemma BeginsWhole(p: Params, src: seq<byte>, n: nat, start: Machine, a: Machine)
    requires n <= |src| && Legal(p, start) && start.core.dec.pos <= |src|
    requires Leads(p, src[..n], start, a)
    ensures a.core.out <= Whole(p, src, start).core.out
    ensures Stuck(p, src, a) ==> a == Whole(p, src, start)
  {
    hide Step;
    var end := Whole(p, src, start);
    LeadsToWhole(p, src, start);
    StuckIsLast(p, src, n, start, a, end);
    if Stuck(p, src, a) {
      var i: nat :| After(p, src, a, i) == end;
      StuckStays(p, src, a, i);
    }
  }

  // ─── From one symbol to the next ─────────────────────────────────

  ghost predicate Boundary(m: Machine) {
    m.phase.NewSymbol? || m.phase.Finished?
  }

  ghost predicate NoBoundary(p: Params, src: seq<byte>, a: Machine, n: nat) {
    forall i: nat :: 0 < i < n ==> !Boundary(After(p, src, a, i))
  }

  /** Like `Leads`, with no boundary strictly between. */
  ghost predicate Within(p: Params, src: seq<byte>, a: Machine, b: Machine) {
    exists n: nat :: NoBoundary(p, src, a, n) && After(p, src, a, n) == b
  }

  /** `b` is the first boundary the machine comes to after `a`. */
  ghost predicate NextBoundary(p: Params, src: seq<byte>, a: Machine, b: Machine) {
    exists n: nat :: n > 0 && NoBoundary(p, src, a, n) && After(p, src, a, n) == b && Boundary(b)
  }

  lemma WithinNowhere(p: Params, src: seq<byte>, m: Machine)
    ensures Within(p, src, m, m)
  {
    assert NoBoundary(p, src, m, 0) && After(p, src, m, 0) == m;
  }

  lemma WithinOn(p: Params, src: seq<byte>, a: Machine, b: Machine, c: Machine)
    requires Within(p, src, a, b) && (Boundary(b) ==> a == b)
    requires Legal(p, b) && Step(p, src, b) == Some(c)
    ensures Within(p, src, a, c) && Legal(p, c)
  {
    hide Step, Legal;
    StepLegal(p, src, b);
    if a == b {
      assert After(p, src, a, 0) == a;
      assert After(p, src, a, 1) == c && NoBoundary(p, src, a, 1);
    } else {
      var n: nat :| NoBoundary(p, src, a, n) && After(p, src, a, n) == b;
      assert After(p, src, a, n + 1) == c && NoBoundary(p, src, a, n + 1);
    }
  }

  lemma WithinLeads(p: Params, src: seq<byte>, a: Machine, b: Machine)
    requires Within(p, src, a, b)
    ensures Leads(p, src, a, b)
  {
    hide After;
  }

  lemma BoundaryReached(p: Params, src: seq<byte>, a: Machine, b: Machine)
    requires Within(p, src, a, b) && Boundary(b) && a != b
    ensures NextBoundary(p, src, a, b)
  {
    assert After(p, src, a, 0) == a;
  }

  /** There is only one next boundary. */
  lemma NextBoundaryUnique(p: Params, src: seq<byte>, a: Machine, b: Machine, c: Machine)
    requires NextBoundary(p, src, a, b) && NextBoundary(p, src, a, c)
    ensures b == c
  {
    hide After;
    var i: nat :| i > 0 && NoBoundary(p, src, a, i) && After(p, src, a, i) == b && Boundary(b);
    var j: nat :| j > 0 && NoBoundary(p, src, a, j) && After(p, src, a, j) == c && Boundary(c);
  }

  /** A whole match, byte by byte. */
  lemma {:induction false} CopyRuns(p: Params, src: seq<byte>, start: Machine, c: Core, back: nat, n: nat)
    requires n >= 1 && Legal(p, Machine(c, CopyMatch(back, n))) && Within(p, src, start, Machine(c, CopyMatch(back, n)))
    ensures c.win.Fits() && back < |c.win.past|
    ensures var to := Machine(c.(win := Copied(c.win, back + 1, n), decoded := c.decoded + n,
                                 out := c.out + Continued(c.win.past, back + 1, n)), NewSymbol);
            Within(p, src, start, to) && Legal(p, to)
    decreases n
  {
    hide Within, Legal, Copied, Continued;
    CopyFits(p, c, back, n);
    var b := c.win.Get(back + 1);
    var next := Machine(PutByte(c, b), if n <= 1 then NewSymbol else CopyMatch(back, n - 1));
    WithinOn(p, src, start, Machine(c, CopyMatch(back, n)), next);
    CopiedSplit(c.win, back + 1, 1, n - 1);
    CopiedOnce(c.win, back + 1);
    ContinuedAfter(c.win, back + 1, 1, n - 1);
    if n > 1 {
      CopyRuns(p, src, start, next.core, back, n - 1);
      assert (c.out + [b]) + Continued(next.core.win.past, back + 1, n - 1)
          == c.out + ([b] + Continued(next.core.win.past, back + 1, n - 1));
    }
  }

  lemma CopyFits(p: Params, c: Core, back: nat, n: nat)
    requires Legal(p, Machine(c, CopyMatch(back, n)))
    ensures c.win.Fits() && back < |c.win.past|
  {
  }
}
