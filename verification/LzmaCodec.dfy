/**
  LZMA as a codec that the engines can be run over.

  A state is the step machine reckoned from where it stands, with what it
  wrote that is still pending. A call runs the machine until the output is full
  or it can go no further on the input it was given. With the output full it
  may go on for a while, as the decoder does up to the end of what it is at:
  how far is any function of the call. So an LZMA stream keeps the contract of
  decompressors, and whatever is read from it at random is what the unbroken
  decode writes there; and every call of the decoder itself is such a call.
 */
module LzmaCodec {
  import opened Arithmetic
  import opened Bytes
  import opened LzmaDecoding
  import opened LzmaMachine
  import opened LzmaWindow
  import opened RangeCoding
  import opened Wrappers
  import D = Decompressors

  // ─── The machine, seen from elsewhere ────────────────────────────

  /** `m`, had it read `at` bytes and written `before` already. */
  function Moved(m: Machine, at: nat, before: seq<byte>): Machine {
    m.(core := MovedCore(m.core, at, before))
  }

  function MovedCore(c: Core, at: nat, before: seq<byte>): Core {
    c.(dec := c.dec.(pos := at + c.dec.pos), out := before + c.out)
  }

  function MovedStep(r: Option<Machine>, at: nat, before: seq<byte>): Option<Machine> {
    match r
    case None => None
    case Some(m) => Some(Moved(m, at, before))
  }

  /** The machine, reckoned from where it stands, with `n` of the bytes that it
      wrote handed out. */
  function Based(m: Machine, n: nat): Machine
    requires n <= |m.core.out|
  {
    m.(core := m.core.(dec := m.core.dec.(pos := 0), out := m.core.out[n..]))
  }

  lemma BasedBack(m: Machine, n: nat)
    requires n <= |m.core.out|
    ensures Moved(Based(m, n), m.core.dec.pos, m.core.out[..n]) == m
  {
    assert m.core.out[..n] + m.core.out[n..] == m.core.out;
  }

  lemma MovedLegal(p: Params, m: Machine, at: nat, before: seq<byte>)
    ensures Legal(p, Moved(m, at, before)) <==> Legal(p, m)
  {
    hide Pow2, LenFits, DistFits, NumProbs;
  }

  lemma PutMoved(c: Core, b: byte, at: nat, before: seq<byte>)
    requires c.win.Fits()
    ensures PutByte(MovedCore(c, at, before), b) == MovedCore(PutByte(c, b), at, before)
  {
    assert (before + c.out) + [b] == before + (c.out + [b]);
  }

  lemma DistanceDoneMoved(p: Params, c: Core, len: nat, dist: nat, at: nat, before: seq<byte>)
    ensures DistanceDone(p, MovedCore(c, at, before), len, dist) == Moved(DistanceDone(p, c, len, dist), at, before)
  {
  }

  lemma SlotDoneMoved(p: Params, c: Core, len: nat, lenState: nat, slot: nat, at: nat, before: seq<byte>)
    ensures SlotDone(p, MovedCore(c, at, before), len, lenState, slot)
         == Moved(SlotDone(p, c, len, lenState, slot), at, before)
  {
    hide DistanceDone, Pow2;
    DistanceDoneMoved(p, c, len, slot, at, before);
  }

  lemma LengthDoneMoved(p: Params, c: Core, kind: MatchType, len: nat, at: nat, before: seq<byte>)
    ensures LengthDone(p, MovedCore(c, at, before), kind, len) == Moved(LengthDone(p, c, kind, len), at, before)
  {
  }

  lemma MoveMoved(p: Params, m: Machine, at: nat, before: seq<byte>)
    requires Legal(p, m)
    ensures Legal(p, Moved(m, at, before))
    ensures Move(p, Moved(m, at, before)) == MovedStep(Move(p, m), at, before)
  {
    MovedLegal(p, m, at, before);
    hide Pow2, LenFits, DistFits, NumProbs, PutByte, Window.Get, SlotDone, DistanceDone, LengthDone, Less, Wrap32;
    var c := m.core;
    match m.phase {
      case Literal(symbol, _, _, _) => PutMoved(c, symbol % 0x100, at, before);
      case CopyMatch(back, _) => PutMoved(c, c.win.Get(back + 1), at, before);
      case Length(kind, _, _, Low(x, _)) => LengthDoneMoved(p, c, kind, Less(x, 8), at, before);
      case Length(kind, _, _, Mid(x, _)) => LengthDoneMoved(p, c, kind, Less(x, 8) + 8, at, before);
      case Length(kind, _, _, High(x, _)) => LengthDoneMoved(p, c, kind, Less(x, 0x100) + 16, at, before);
      case Distance(len, ls, PosSlot(x, _)) => SlotDoneMoved(p, c, len, ls, Less(x, 64), at, before);
      case Distance(len, _, AlignBits(dist, _, symbol, _)) => DistanceDoneMoved(p, c, len, dist + symbol, at, before);
      case Distance(len, _, SpecPosBits(dist, _, _, symbol, _, _)) =>
        DistanceDoneMoved(p, c, len, dist + symbol, at, before);
      case _ =>
    }
  }

  lemma NormaliseMoved(d: Decoder, src: seq<byte>, at: nat)
    requires at <= |src| && d.range >= 0x1_0000
    ensures Normalise(d.(pos := at + d.pos), src)
         == match Normalise(d, src[at..]) case None => None case Some(e) => Some(e.(pos := at + e.pos))
  {
  }

  lemma ContextMoved(p: Params, c: Core, at: nat, before: seq<byte>)
    requires p.Fits() && c.win.Fits() && c.reps.r0 < |c.win.past|
    ensures PosState(p, MovedCore(c, at, before)) == PosState(p, c)
    ensures StartLiteral(p, MovedCore(c, at, before)) == StartLiteral(p, c)
  {
    hide Pow2, Times, Remainder, Quotient, Window.Get;
  }

  lemma BitMoved(p: Params, c: Core, ph: Phase, bit: bool, at: nat, before: seq<byte>)
    requires p.Fits() && c.win.Fits() && c.reps.r0 < |c.win.past|
    ensures AfterBit(p, MovedCore(c, at, before), ph, bit) == Moved(AfterBit(p, c, ph, bit), at, before)
  {
    ContextMoved(p, c, at, before);
    hide StartLiteral, PosState, AfterLenBit, AfterDistBit, Window.Get;
  }

  lemma IndexMoved(p: Params, m: Machine, at: nat, before: seq<byte>)
    requires Legal(p, m)
    ensures Index(p, Moved(m, at, before)) == Index(p, m)
  {
    hide Pow2, Legal;
  }

  lemma DecodedMoved(c: Core, d: Decoder, index: nat, direct: bool, at: nat, before: seq<byte>)
    requires d.range >= TOP && index < |c.probs|
    ensures var e := d.(pos := at + d.pos);
            && DecodeDirect(MovedCore(c, at, before), e)
               == (MovedCore(DecodeDirect(c, d).0, at, before), DecodeDirect(c, d).1)
            && DecodeWith(MovedCore(c, at, before), index, e)
               == (MovedCore(DecodeWith(c, index, d).0, at, before), DecodeWith(c, index, d).1)
  {
    hide Wrap32, Bound, Adapt;
  }

  lemma OpenMoved(m: Machine, b: byte, at: nat, before: seq<byte>)
    requires m.phase.Opening? && |m.phase.init| < 5
    ensures OpenByte(Moved(m, at, before), b) == Moved(OpenByte(m, b), at, before)
  {
    hide FromBe4;
  }

  /** A step on the rest of a stream is a step on the stream. */
  lemma StepMoved(p: Params, src: seq<byte>, m: Machine, at: nat, before: seq<byte>)
    requires Legal(p, m) && at <= |src|
    ensures Legal(p, Moved(m, at, before))
    ensures Step(p, src, Moved(m, at, before)) == MovedStep(Step(p, src[at..], m), at, before)
  {
    hide Pow2, LenFits, DistFits, NumProbs, OpenByte, Move, Normalise, DecodeDirect, DecodeWith, AfterBit, Index;
    var moved := Moved(m, at, before);
    MovedLegal(p, m, at, before);
    if m.phase.Opening? {
      if m.core.dec.pos < |src[at..]| {
        OpenMoved(m, src[at..][m.core.dec.pos], at, before);
      }
    } else if !m.phase.Finished? {
      MoveMoved(p, m, at, before);
      if Move(p, m).None? {
        NormaliseMoved(m.core.dec, src, at);
        if Normalise(m.core.dec, src[at..]).Some? {
          BitStepMoved(p, src, m, at, before);
        }
      }
    }
  }

  lemma BitStepMoved(p: Params, src: seq<byte>, m: Machine, at: nat, before: seq<byte>)
    requires Legal(p, m) && at <= |src| && !m.phase.Opening? && !m.phase.Finished? && Move(p, m).None?
    requires Legal(p, Moved(m, at, before)) && Move(p, Moved(m, at, before)).None?
    requires Normalise(m.core.dec, src[at..]).Some?
    ensures Step(p, src, Moved(m, at, before)) == MovedStep(Step(p, src[at..], m), at, before)
  {
    hide Pow2, PhaseFits, Move, Normalise, AfterBit, Index, Wrap32, Choose, ChooseDirect, NumProbs;
    var d := Normalise(m.core.dec, src[at..]).value;
    NormaliseMoved(m.core.dec, src, at);
    IndexInTable(p, m);
    IndexInTable(p, Moved(m, at, before));
    IndexMoved(p, m, at, before);
    DecodedMoved(m.core, d, Index(p, m), IsDirect(m.phase), at, before);
    var (c, bit) := if IsDirect(m.phase) then DecodeDirect(m.core, d) else DecodeWith(m.core, Index(p, m), d);
    assert c.win == m.core.win && c.reps == m.core.reps;
    BitMoved(p, c, m.phase, bit, at, before);
  }

  // ─── A call ──────────────────────────────────────────────────────

  /** A step on the part of a stream that a call was given is a step on the
      stream. */
  lemma StepLifted(p: Params, packed: seq<byte>, at: nat, n: nat, m: Machine, before: seq<byte>)
    requires Legal(p, m) && at + n <= |packed| && Step(p, packed[at..at + n], m).Some?
    ensures Legal(p, Moved(m, at, before))
    ensures Step(p, packed, Moved(m, at, before)) == MovedStep(Step(p, packed[at..at + n], m), at, before)
  {
    hide Legal, Step, Moved;
    var src, rest := packed[..at + n], packed[at + n..];
    assert src[at..] == packed[at..at + n] && src + rest == packed;
    StepMoved(p, src, m, at, before);
    AdvanceLonger(p, src, rest, Moved(m, at, before));
  }

  lemma WindowKept(p: Params, src: seq<byte>, m: Machine)
    requires Legal(p, m) && Step(p, src, m).Some?
    ensures |Step(p, src, m).value.core.win.past| == |m.core.win.past|
  {
    if !m.phase.Opening? {
      if Move(p, m).Some? {
        MoveKeepsWindow(p, m);
      } else {
        hide Move, Index;
        IndexInTable(p, m);
        var d := Normalise(m.core.dec, src).value;
        var (c, bit) := if IsDirect(m.phase) then DecodeDirect(m.core, d) else DecodeWith(m.core, Index(p, m), d);
        assert AfterBit(p, c, m.phase, bit).core.win == c.win;
      }
    }
  }

  lemma MoveKeepsWindow(p: Params, m: Machine)
    requires Legal(p, m) && Move(p, m).Some?
    ensures |Move(p, m).value.core.win.past| == |m.core.win.past|
  {
    hide Pow2, Window.Get, Window.Append, LenFits, DistFits;
  }

  /** Where the machine first has `room` bytes, or can go no further. */
  function Go(p: Params, input: seq<byte>, m: Machine, room: nat): (end: Machine)
    requires Legal(p, m) && m.core.dec.pos <= |input|
    ensures Legal(p, end) && end.core.dec.pos <= |input|
    ensures |end.core.out| >= room || Step(p, input, end).None?
    decreases |input| - m.core.dec.pos, m.core.dec.range, Rank(m.phase), Left(m.phase)
  {
    hide Legal, Step, Rank, Left;
    if |m.core.out| >= room then m else
    match Step(p, input, m)
    case None => m
    case Some(next) =>
      StepLegal(p, input, m);
      StepShrinks(p, input, m);
      Go(p, input, next, room)
  }

  lemma FirstOn(p: Params, src: seq<byte>, m: Machine, n: nat)
    requires Legal(p, m) && Step(p, src, m).Some?
    ensures After(p, src, m, 1 + n) == After(p, src, Step(p, src, m).value, n)
  {
    hide Legal, Step;
    AfterAdd(p, src, m, 1, n);
    assert After(p, src, m, 1) == Advance(p, src, After(p, src, m, 0));
  }

  /** Runs stay legal and in their input, and never go back in it. */
  lemma {:induction false} AfterLegal(p: Params, src: seq<byte>, m: Machine, n: nat)
    requires Legal(p, m) && m.core.dec.pos <= |src|
    ensures var x := After(p, src, m, n);
            Legal(p, x) && m.core.dec.pos <= x.core.dec.pos <= |src|
    decreases n
  {
    hide Legal, Step;
    if n > 0 {
      AfterLegal(p, src, m, n - 1);
      var x := After(p, src, m, n - 1);
      if Step(p, src, x).Some? {
        StepLegal(p, src, x);
        StepShrinks(p, src, x);
      }
    }
  }

  lemma {:induction false} GoIsAfter(p: Params, input: seq<byte>, m: Machine, room: nat) returns (n: nat)
    requires Legal(p, m) && m.core.dec.pos <= |input|
    ensures Go(p, input, m, room) == After(p, input, m, n)
    decreases |input| - m.core.dec.pos, m.core.dec.range, Rank(m.phase), Left(m.phase)
  {
    hide Legal, Step, Rank, Left;
    n := 0;
    if |m.core.out| < room && Step(p, input, m).Some? {
      var next := Step(p, input, m).value;
      StepLegal(p, input, m);
      StepShrinks(p, input, m);
      n := GoIsAfter(p, input, next, room);
      FirstOn(p, input, m, n);
      n := 1 + n;
    }
  }

  /** A run that has as many bytes, or can go no further, has come past there. */
  lemma {:induction false} GoIsFirst(p: Params, input: seq<byte>, m: Machine, room: nat, n: nat) returns (on: nat)
    requires Legal(p, m) && m.core.dec.pos <= |input|
    requires var x := After(p, input, m, n); |x.core.out| >= room || Stuck(p, input, x)
    ensures After(p, input, Go(p, input, m, room), on) == After(p, input, m, n)
    decreases n
  {
    hide Legal, Step, Rank, Left;
    on := n;
    if |m.core.out| < room && Step(p, input, m).Some? {
      if n == 0 {
        StuckStops(p, input, m);
      } else {
        StepLegal(p, input, m);
        StepShrinks(p, input, m);
        FirstOn(p, input, m, n - 1);
        on := GoIsFirst(p, input, Step(p, input, m).value, room, n - 1);
      }
    }
  }

  /** A run on the part of a stream that a call was given is one on the
      stream. */
  lemma {:induction false} AfterLifted(p: Params, packed: seq<byte>, at: nat, n: nat, m: Machine, k: nat,
                                       before: seq<byte>)
    requires Legal(p, m) && m.core.dec.pos <= n && at + n <= |packed|
    ensures Leads(p, packed, Moved(m, at, before), Moved(After(p, packed[at..at + n], m, k), at, before))
    decreases k
  {
    hide Legal, Step, Leads, Moved;
    var input, start := packed[at..at + n], Moved(m, at, before);
    if k == 0 {
      LeadsNowhere(p, packed, start);
    } else {
      AfterLifted(p, packed, at, n, m, k - 1, before);
      AfterLegal(p, input, m, k - 1);
      var x := After(p, input, m, k - 1);
      if Step(p, input, x).Some? {
        StepLifted(p, packed, at, n, x, before);
        LeadsOn(p, packed, start, Moved(x, at, before), Moved(Step(p, input, x).value, at, before));
      }
    }
  }

  /** And one on the stream that reads no further than the part is one on the
      part. */
  lemma {:induction false} AfterLowered(p: Params, packed: seq<byte>, at: nat, n: nat, m: Machine, k: nat,
                                        before: seq<byte>)
    requires Legal(p, m) && m.core.dec.pos <= n && at + n <= |packed|
    requires After(p, packed, Moved(m, at, before), k).core.dec.pos <= at + n
    ensures After(p, packed, Moved(m, at, before), k) == Moved(After(p, packed[at..at + n], m, k), at, before)
    decreases k
  {
    if k > 0 {
      hide Legal, Step;
      var input, start := packed[at..at + n], Moved(m, at, before);
      MovedLegal(p, m, at, before);
      AfterLegal(p, packed, start, k - 1);
      var x := After(p, packed, start, k - 1);
      AdvanceForward(p, packed, x);
      AfterLowered(p, packed, at, n, m, k - 1, before);
      AfterLegal(p, input, m, k - 1);
      StepLowered(p, packed, at, n, After(p, input, m, k - 1), before);
    }
  }

  lemma AdvanceForward(p: Params, src: seq<byte>, m: Machine)
    requires Legal(p, m) && m.core.dec.pos <= |src|
    ensures m.core.dec.pos <= Advance(p, src, m).core.dec.pos
  {
    hide Legal, Step;
    if Step(p, src, m).Some? {
      StepShrinks(p, src, m);
    }
  }

  lemma StepLowered(p: Params, packed: seq<byte>, at: nat, n: nat, m: Machine, before: seq<byte>)
    requires Legal(p, m) && m.core.dec.pos <= n && at + n <= |packed|
    requires Advance(p, packed, Moved(m, at, before)).core.dec.pos <= at + n
    ensures Advance(p, packed, Moved(m, at, before)) == Moved(Advance(p, packed[at..at + n], m), at, before)
  {
    hide Legal, Step;
    var input, rest := packed[at..at + n], packed[at + n..];
    MovedLegal(p, m, at, before);
    if Step(p, input, m).Some? {
      StepLifted(p, packed, at, n, m, before);
    } else {
      assert packed[at..] == input + rest;
      StepMoved(p, packed, m, at, before);
      if Step(p, input + rest, m).Some? {
        ReadsOn(p, input, rest, m);
      }
    }
  }

  /** What goes on only with more input reads it. */
  lemma ReadsOn(p: Params, src: seq<byte>, more: seq<byte>, m: Machine)
    requires Legal(p, m) && m.core.dec.pos <= |src|
    requires Step(p, src, m).None? && Step(p, src + more, m).Some?
    ensures Step(p, src + more, m).value.core.dec.pos == |src| + 1
  {
    hide Pow2, PhaseFits, Move, Index, Wrap32, Choose, NumProbs;
    if !m.phase.Opening? {
      IndexInTable(p, m);
      var d := Normalise(m.core.dec, src + more).value;
      ChoiceStays(d, m.core.probs[Index(p, m)]);
      var (c, bit) := if IsDirect(m.phase) then DecodeDirect(m.core, d) else DecodeWith(m.core, Index(p, m), d);
      assert AfterBit(p, c, m.phase, bit).core.dec == c.dec;
    }
  }

  lemma ChoiceStays(d: Decoder, v: Prob)
    requires d.range >= TOP
    ensures Choose(d, v).0.pos == d.pos
  {
  }

  /** A machine that has not finished can only be waiting for a byte. */
  lemma WaitsForByte(p: Params, src: seq<byte>, m: Machine)
    requires Legal(p, m) && Step(p, src, m).None? && !m.phase.Finished?
    ensures m.core.dec.pos >= |src|
  {
    hide Pow2, PhaseFits, Move, AfterBit, Index;
  }

  // ─── Where a decoder can stand ───────────────────────────────────

  /** The run from `m` passes a machine that is `target` seen from offsets `i`
      of the packed and `o` of the unpacked stream. */
  predicate Passes(p: Params, src: seq<byte>, m: Machine, target: Machine, i: nat, o: nat)
    requires Legal(p, m) && m.core.dec.pos <= |src|
    decreases |src| - m.core.dec.pos, m.core.dec.range, Rank(m.phase), Left(m.phase)
  {
    hide Legal, Step, Rank, Left;
    || (m.core.dec.pos == i && o <= |m.core.out| && Based(m, o) == target)
    || match Step(p, src, m)
       case None => false
       case Some(next) =>
         StepLegal(p, src, m);
         StepShrinks(p, src, m);
         Passes(p, src, next, target, i, o)
  }

  lemma {:induction false} Passed(p: Params, src: seq<byte>, m: Machine, target: Machine, i: nat, o: nat)
    returns (x: Machine)
    requires Legal(p, m) && m.core.dec.pos <= |src| && Passes(p, src, m, target, i, o)
    ensures Legal(p, x) && Leads(p, src, m, x) && x.core.dec.pos == i <= |src| && o <= |x.core.out|
    ensures Based(x, o) == target && |x.core.win.past| == |m.core.win.past|
    decreases |src| - m.core.dec.pos, m.core.dec.range, Rank(m.phase), Left(m.phase)
  {
    hide Legal, Step, Rank, Left, Leads;
    LeadsNowhere(p, src, m);
    if m.core.dec.pos == i && o <= |m.core.out| && Based(m, o) == target {
      x := m;
    } else {
      var next := Step(p, src, m).value;
      StepLegal(p, src, m);
      StepShrinks(p, src, m);
      WindowKept(p, src, m);
      x := Passed(p, src, next, target, i, o);
      LeadsOn(p, src, m, m, next);
      LeadsTransitive(p, src, m, next, x);
    }
  }

  lemma {:induction false} AfterPasses(p: Params, src: seq<byte>, m: Machine, n: nat, o: nat)
    requires Legal(p, m) && m.core.dec.pos <= |src| && o <= |After(p, src, m, n).core.out|
    ensures var x := After(p, src, m, n); Passes(p, src, m, Based(x, o), x.core.dec.pos, o)
    decreases n
  {
    hide Legal, Step, Rank, Left;
    if n > 0 {
      if Step(p, src, m).None? {
        StuckStays(p, src, m, n);
      } else {
        StepLegal(p, src, m);
        StepShrinks(p, src, m);
        FirstOn(p, src, m, n - 1);
        AfterPasses(p, src, Step(p, src, m).value, n - 1, o);
      }
    }
  }

  lemma LeadsPasses(p: Params, src: seq<byte>, m: Machine, x: Machine, o: nat)
    requires Legal(p, m) && m.core.dec.pos <= |src| && Leads(p, src, m, x) && o <= |x.core.out|
    ensures Passes(p, src, m, Based(x, o), x.core.dec.pos, o)
  {
    hide Legal, Passes, After;
    var n: nat :| After(p, src, m, n) == x;
    AfterPasses(p, src, m, n, o);
  }

  // ─── The codec ───────────────────────────────────────────────────

  /** A state a call can start from. */
  predicate Callable(p: Params, state: D.State) {
    state.OfLzma? && Legal(p, state.machine) && state.machine.core.dec.pos == 0
  }

  /** How many steps a call goes on with its output full, and whether it then
      leaves it to the next to tell that the stream has ended. */
  datatype Pace = Pace(on: nat, quiet: bool)

  function EndOf(p: Params, pace: Pace, m: Machine, input: seq<byte>, room: nat): Machine
    requires Legal(p, m) && m.core.dec.pos <= |input|
  {
    After(p, input, Go(p, input, m, room), pace.on)
  }

  /** A call. Without any input, having nothing to give is an error, for then
      the stream was cut off. */
  function Call(p: Params, pace: Pace, state: D.State, input: seq<byte>, room: nat): D.Step {
    if !Callable(p, state) then D.Failed(D.InvalidState) else
    var end := EndOf(p, pace, state.machine, input, room);
    var n := Min(room, |end.core.out|);
    var next, bytes := D.OfLzma(Based(end, n)), end.core.out[..n];
    if end.phase.Finished? && n == |end.core.out| && !(pace.quiet && n == room) then
      D.Stepped(next, end.core.dec.pos, bytes, D.StreamEnd)
    else if input == [] && n == 0 then D.Failed(D.TruncatedInput)
    else D.Stepped(next, end.core.dec.pos, bytes, D.Continue)
  }

  /** What decides the pace of a call. */
  type Pacer = (D.State, seq<byte>, nat) -> Pace

  function Decode(p: Params, pacer: Pacer, state: D.State, input: seq<byte>, room: nat): D.Step {
    Call(p, pacer(state, input, room), state, input, room)
  }

  function Save(state: D.State): Result<Option<D.Saved>, D.Error> {
    Ok(Some(D.Saved(state, 0)))
  }

  /** Only a window of up to 2 GiB is restored. */
  predicate Restorable(state: D.State) {
    state.OfLzma? ==> |state.machine.core.win.past| <= MAX_WINDOW
  }

  predicate Sized(p: Params, size: nat) {
    p.Fits() && 0 < size < TWO_32
  }

  lemma FreshLegal(p: Params, size: nat)
    requires Sized(p, size)
    ensures Legal(p, Fresh(p, size))
  {
  }

  /** The run over the whole stream, and where it can stand. */
  function End(p: Params, size: nat, packed: seq<byte>): Machine
    requires Sized(p, size)
  {
    FreshLegal(p, size);
    Whole(p, packed, Fresh(p, size))
  }

  predicate StandsAt(p: Params, size: nat, packed: seq<byte>, state: D.State, i: nat, o: nat)
    requires Sized(p, size)
  {
    FreshLegal(p, size);
    state.OfLzma? && Passes(p, packed, Fresh(p, size), state.machine, i, o)
  }

  function LzmaStream(p: Params, size: nat, packed: seq<byte>, pacer: Pacer): D.Stream
    requires Sized(p, size)
  {
    D.Stream(D.Codec(D.OfLzma(Fresh(p, size)),
                     (state: D.State, input: seq<byte>, room: nat) => Decode(p, pacer, state, input, room),
                     Save, Restorable),
             packed, End(p, size, packed).core.out,
             (state: D.State, i: nat, o: nat) => Sized(p, size) && StandsAt(p, size, packed, state, i, o))
  }

  /** A standing state is that of some machine the run passes. */
  lemma Standing(p: Params, size: nat, packed: seq<byte>, state: D.State, i: nat, o: nat) returns (x: Machine)
    requires Sized(p, size) && StandsAt(p, size, packed, state, i, o)
    ensures Callable(p, state) && Legal(p, x) && Leads(p, packed, Fresh(p, size), x)
    ensures x.core.dec.pos == i <= |packed| && o <= |x.core.out|
    ensures x == Moved(state.machine, i, x.core.out[..o]) && |x.core.win.past| == size
    ensures x.core.out <= End(p, size, packed).core.out
    ensures Stuck(p, packed, x) ==> x == End(p, size, packed)
  {
    hide Legal, Passes, Leads, Whole, Stuck, Based;
    FreshLegal(p, size);
    x := Passed(p, packed, Fresh(p, size), state.machine, i, o);
    BasedBack(x, o);
    BasedLegal(p, x, o);
    OnTheWay(p, packed, Fresh(p, size), x);
  }

  lemma BasedLegal(p: Params, x: Machine, n: nat)
    requires Legal(p, x) && n <= |x.core.out|
    ensures Legal(p, Based(x, n)) && Based(x, n).core.dec.pos == 0 && Based(x, n).core.out == x.core.out[n..]
  {
    hide Legal;
    BasedBack(x, n);
    MovedLegal(p, Based(x, n), x.core.dec.pos, x.core.out[..n]);
  }

  lemma Reached(p: Params, size: nat, packed: seq<byte>, x: Machine, o: nat)
    requires Sized(p, size) && Leads(p, packed, Fresh(p, size), x) && o <= |x.core.out|
    ensures StandsAt(p, size, packed, D.OfLzma(Based(x, o)), x.core.dec.pos, o)
  {
    hide Legal, Passes, Leads;
    FreshLegal(p, size);
    LeadsPasses(p, packed, Fresh(p, size), x, o);
  }

  /** Where a call ends, on its input and on the stream. */
  lemma CallReaches(p: Params, size: nat, packed: seq<byte>, state: D.State, i: nat, o: nat, input: seq<byte>,
                    room: nat, pace: Pace)
    returns (y: Machine)
    requires Sized(p, size) && StandsAt(p, size, packed, state, i, o) && D.Feeds(packed, i, input)
    ensures Callable(p, state) && Leads(p, packed, Fresh(p, size), y)
    ensures var end := EndOf(p, pace, state.machine, input, room);
            && Legal(p, end) && end.core.dec.pos <= |input|
            && o <= |y.core.out| && y == Moved(end, i, y.core.out[..o])
  {
    hide Legal, Leads, Stuck, End, StandsAt, Moved, Go, After;
    var x := Standing(p, size, packed, state, i, o);
    var j := GoIsAfter(p, input, state.machine, room);
    AfterAdd(p, input, state.machine, j, pace.on);
    AfterLegal(p, input, state.machine, j + pace.on);
    AfterLifted(p, packed, i, |input|, state.machine, j + pace.on, x.core.out[..o]);
    var end := EndOf(p, pace, state.machine, input, room);
    y := Moved(end, i, x.core.out[..o]);
    LeadsTransitive(p, packed, Fresh(p, size), x, y);
    MovedFront(end, i, x.core.out[..o]);
  }

  lemma MovedFront(m: Machine, at: nat, before: seq<byte>)
    ensures var y := Moved(m, at, before);
            |before| <= |y.core.out| && y.core.out[..|before|] == before && y.core.out[|before|..] == m.core.out
    ensures Moved(m, at, before).core.dec.pos == at + m.core.dec.pos && Moved(m, at, before).phase == m.phase
  {
  }

  lemma BasedMoved(m: Machine, at: nat, before: seq<byte>, n: nat)
    requires n <= |m.core.out|
    ensures |before| + n <= |Moved(m, at, before).core.out|
    ensures Based(Moved(m, at, before), |before| + n) == Based(m, n)
  {
    assert (before + m.core.out)[|before| + n..] == m.core.out[n..];
  }

  /** What a call gives is what comes next of the unbroken decode. */
  lemma CallSound(p: Params, size: nat, packed: seq<byte>, pacer: Pacer, state: D.State, i: nat, o: nat,
                  input: seq<byte>, room: nat)
    requires Sized(p, size) && StandsAt(p, size, packed, state, i, o) && D.Feeds(packed, i, input)
    ensures D.Sound(LzmaStream(p, size, packed, pacer), i, o, input, room, Decode(p, pacer, state, input, room))
  {
    hide Legal, End, StandsAt, Based, EndOf, Leads, Moved;
    var pace := pacer(state, input, room);
    var y := CallReaches(p, size, packed, state, i, o, input, room, pace);
    var end := EndOf(p, pace, state.machine, input, room);
    var n := Min(room, |end.core.out|);
    var before := y.core.out[..o];
    MovedFront(end, i, before);
    BasedMoved(end, i, before, n);
    Reached(p, size, packed, y, o + n);
    Along(p, size, packed, y);
    NextBytes(End(p, size, packed).core.out, y.core.out, end.core.out, o, n);
  }

  lemma NextBytes(data: seq<byte>, written: seq<byte>, pending: seq<byte>, o: nat, n: nat)
    requires written <= data && o <= |written| && written[o..] == pending && n <= |pending|
    ensures o + n <= |data| && pending[..n] == data[o..o + n]
    ensures n == |pending| && written == data ==> o + n == |data|
  {
    assert written[o..][..n] == written[o..o + n];
  }

  lemma Along(p: Params, size: nat, packed: seq<byte>, y: Machine)
    requires Sized(p, size) && Leads(p, packed, Fresh(p, size), y)
    ensures y.core.out <= End(p, size, packed).core.out
    ensures y.phase.Finished? || Stuck(p, packed, y) ==> y == End(p, size, packed)
  {
    FreshLegal(p, size);
    hide Legal, Leads, Whole;
    OnTheWay(p, packed, Fresh(p, size), y);
  }

  /** Every LZMA stream, whole or cut off, keeps the contract. */
  lemma LzmaIsLawful(p: Params, size: nat, packed: seq<byte>, pacer: Pacer)
    requires Sized(p, size)
    ensures var s := LzmaStream(p, size, packed, pacer);
            D.Lawful(s) && D.SavesAnywhere(s) && D.SavesExactly(s) && D.SavesOrSkips(s)
  {
    hide Legal, Leads, Stuck, End, StandsAt, Decode, Passes;
    var s := LzmaStream(p, size, packed, pacer);
    FreshStands(p, size, packed);
    forall state: D.State, i: nat, o: nat | D.Stands(s, state, i, o)
      ensures i <= |s.packed| && o <= |s.data|
    {
      var _ := Standing(p, size, packed, state, i, o);
    }
    forall state: D.State, i: nat, o: nat, input: seq<byte>, room: nat |
      D.Stands(s, state, i, o) && D.Feeds(s.packed, i, input)
      ensures D.Sound(s, i, o, input, room, D.Apply(s, state, input, room))
    {
      CallSound(p, size, packed, pacer, state, i, o, input, room);
    }
    assert forall state: D.State :: s.codec.save(state) == Save(state);
  }

  lemma FreshStands(p: Params, size: nat, packed: seq<byte>)
    requires Sized(p, size)
    ensures StandsAt(p, size, packed, D.OfLzma(Fresh(p, size)), 0, 0)
    ensures packed == [] ==> End(p, size, packed).core.out == []
  {
    FreshLegal(p, size);
    hide Legal;
    assert Based(Fresh(p, size), 0) == Fresh(p, size);
  }

  // ─── When it never fails ─────────────────────────────────────────

  /** The stream ends, and is not just broken off. */
  predicate Ends(p: Params, size: nat, packed: seq<byte>)
    requires Sized(p, size)
  {
    End(p, size, packed).phase.Finished?
  }

  lemma CallMoves(p: Params, size: nat, packed: seq<byte>, pacer: Pacer, state: D.State, i: nat, o: nat,
                  input: seq<byte>, room: nat)
    requires Sized(p, size) && Ends(p, size, packed) && room > 0
    requires StandsAt(p, size, packed, state, i, o) && D.Feeds(packed, i, input)
    ensures D.Moves(Decode(p, pacer, state, input, room))
  {
    hide Legal, Leads, Stuck, End, StandsAt, Based, Step, Moved, EndOf;
    var pace := pacer(state, input, room);
    var y := CallReaches(p, size, packed, state, i, o, input, room, pace);
    var end := EndOf(p, pace, state.machine, input, room);
    if !end.phase.Finished? && end.core.out == [] {
      NothingLeft(p, pace, state.machine, input, room);
      WaitsForByte(p, input, end);
      if input == [] {
        assert packed[i..] == [];
        StuckThere(p, packed, end, i, y.core.out[..o]);
        Along(p, size, packed, y);
        MovedFront(end, i, y.core.out[..o]);
      }
    }
  }

  /** A call that has nothing to give can go no further. */
  lemma NothingLeft(p: Params, pace: Pace, m: Machine, input: seq<byte>, room: nat)
    requires Legal(p, m) && m.core.dec.pos <= |input| && room > 0
    requires EndOf(p, pace, m, input, room).core.out == []
    ensures var end := EndOf(p, pace, m, input, room); Legal(p, end) && Step(p, input, end).None?
  {
    hide Legal, Step, Go;
    var full := Go(p, input, m, room);
    AfterLegal(p, input, full, pace.on);
    AfterWrites(p, input, full, pace.on);
    StuckStays(p, input, full, pace.on);
  }

  /** Stuck on the rest of the stream is stuck on the stream. */
  lemma StuckThere(p: Params, packed: seq<byte>, m: Machine, at: nat, before: seq<byte>)
    requires Legal(p, m) && at <= |packed|
    ensures Step(p, packed[at..], m).None? <==> Stuck(p, packed, Moved(m, at, before))
  {
    StepMoved(p, packed, m, at, before);
    hide Legal, Step, Moved;
  }

  /** On a stream that is broken off, a call at the very end fails. */
  lemma BrokenOffFails(p: Params, size: nat, packed: seq<byte>, pacer: Pacer)
    requires Sized(p, size) && !Ends(p, size, packed)
    ensures var x := End(p, size, packed);
            var state := D.OfLzma(Based(x, |x.core.out|));
            && StandsAt(p, size, packed, state, |packed|, |x.core.out|)
            && Decode(p, pacer, state, [], 1) == D.Failed(D.TruncatedInput)
  {
    hide Legal, Leads, Stuck, Passes, Step, Rank, Left, After;
    FreshLegal(p, size);
    var x := End(p, size, packed);
    var n := |x.core.out|;
    var m := Based(x, n);
    LeadsToWhole(p, packed, Fresh(p, size));
    Reached(p, size, packed, x, n);
    var y := Standing(p, size, packed, D.OfLzma(m), x.core.dec.pos, n);
    StuckStops(p, packed, x);
    WaitsForByte(p, packed, x);
    BasedLegal(p, x, n);
    BasedBack(x, n);
    assert packed[|packed|..] == [];
    StuckThere(p, packed, m, |packed|, x.core.out[..n]);
    assert Go(p, [], m, 1) == m;
    StepStuck(p, [], m);
    StuckStays(p, [], m, pacer(D.OfLzma(m), [], 1).on);
  }

  lemma StepStuck(p: Params, src: seq<byte>, m: Machine)
    requires Legal(p, m) && Step(p, src, m).None?
    ensures Stuck(p, src, m)
  {
  }

  lemma StuckStops(p: Params, src: seq<byte>, m: Machine)
    requires Legal(p, m) && Stuck(p, src, m)
    ensures Step(p, src, m).None?
  {
  }

  /** The codec never fails on exactly the streams that end. */
  lemma LivelyIfEnds(p: Params, size: nat, packed: seq<byte>, pacer: Pacer)
    requires Sized(p, size)
    ensures D.Lively(LzmaStream(p, size, packed, pacer)) <==> Ends(p, size, packed)
  {
    hide Legal, StandsAt, Decode, End, Ends;
    var s := LzmaStream(p, size, packed, pacer);
    if Ends(p, size, packed) {
      forall state: D.State, i: nat, o: nat, input: seq<byte>, room: nat |
        D.Stands(s, state, i, o) && D.Feeds(s.packed, i, input) && room > 0
        ensures D.Moves(D.Apply(s, state, input, room))
      {
        CallMoves(p, size, packed, pacer, state, i, o, input, room);
      }
    } else {
      var x := End(p, size, packed);
      BrokenOffFails(p, size, packed, pacer);
      var state := D.OfLzma(Based(x, |x.core.out|));
      assert D.Stands(s, state, |packed|, |x.core.out|) && D.Feeds(packed, |packed|, []);
      assert D.Apply(s, state, [], 1) == D.Failed(D.TruncatedInput);
    }
  }

  /** Its checkpoints can all be restored if and only if the window is not over
      2 GiB. */
  lemma ReloadsIfSmall(p: Params, size: nat, packed: seq<byte>, pacer: Pacer)
    requires Sized(p, size)
    ensures D.Reloads(LzmaStream(p, size, packed, pacer)) <==> size <= MAX_WINDOW
  {
    hide Legal, StandsAt, Decode, End;
    var s := LzmaStream(p, size, packed, pacer);
    if size <= MAX_WINDOW {
      forall state: D.State, i: nat, o: nat | D.Stands(s, state, i, o)
        ensures s.codec.loads(state)
      {
        var x := Standing(p, size, packed, state, i, o);
      }
    } else {
      FreshStands(p, size, packed);
      assert D.Stands(s, D.OfLzma(Fresh(p, size)), 0, 0);
    }
  }

  // ─── The decoder itself ──────────────────────────────────────────

  /** Whatever the machine comes to on the input of a call, with the output full
      or unable to go on, is where a call at some pace ends. */
  lemma EndsCall(p: Params, packed: seq<byte>, at: nat, input: seq<byte>, m: Machine, before: seq<byte>,
                 now: Machine, room: nat)
    returns (on: nat)
    requires Legal(p, m) && m.core.dec.pos == 0 && at + |input| <= |packed| && input == packed[at..at + |input|]
    requires Leads(p, packed, Moved(m, at, before), now) && now.core.dec.pos <= at + |input|
    requires |now.core.out| >= |before| + room || Stuck(p, packed[..at + |input|], now)
    ensures now == Moved(EndOf(p, Pace(on, false), m, input, room), at, before)
    ensures EndOf(p, Pace(on, false), m, input, room) == EndOf(p, Pace(on, true), m, input, room)
  {
    hide Legal, Step, Go, Stuck, Moved;
    var n: nat :| After(p, packed, Moved(m, at, before), n) == now;
    AfterLowered(p, packed, at, |input|, m, n, before);
    AfterLegal(p, input, m, n);
    var end := After(p, input, m, n);
    MovedFront(end, at, before);
    if |now.core.out| < |before| + room {
      var front := packed[..at + |input|];
      assert front[at..] == input;
      StuckThere(p, front, end, at, before);
      StepStuck(p, input, end);
    }
    on := GoIsFirst(p, input, m, room, n);
  }

  /** A run that handed out `given`, and has not more to give than there is
      room for or can go no further, is a call. */
  lemma IsCall(p: Params, packed: seq<byte>, was: Machine, sent: seq<byte>, input: seq<byte>, now: Machine,
               given: seq<byte>, room: nat, ended: bool)
    returns (pace: Pace)
    requires Legal(p, was) && sent <= was.core.out && Leads(p, packed, was, now)
    requires var at := was.core.dec.pos;
             && at + |input| <= |packed| && input == packed[at..at + |input|]
             && at <= now.core.dec.pos <= at + |input|
             && (|given| == room || (now.core.out == sent + given && Stuck(p, packed[..at + |input|], now)))
    requires sent + given <= now.core.out && |given| <= room
    requires if ended then now.phase.Finished? && now.core.out == sent + given
             else |given| == room || !now.phase.Finished?
    ensures Call(p, pace, D.OfLzma(Based(was, |sent|)), input, room)
         == if !ended && input == [] && given == [] then D.Failed(D.TruncatedInput)
            else D.Stepped(D.OfLzma(Based(now, |sent + given|)), now.core.dec.pos - was.core.dec.pos, given,
                           if ended then D.StreamEnd else D.Continue)
  {
    hide Legal, Leads, Stuck, Based, EndOf, Moved;
    var at, m := was.core.dec.pos, Based(was, |sent|);
    BasedBack(was, |sent|);
    BasedLegal(p, was, |sent|);
    assert was.core.out[..|sent|] == sent;
    var on := EndsCall(p, packed, at, input, m, sent, now, room);
    pace := Pace(on, !ended);
    var end := EndOf(p, pace, m, input, room);
    MovedFront(end, at, sent);
    assert now.core.out[|sent|..][..|given|] == given;
    BasedMoved(end, at, sent, |given|);
  }

  lemma SentFits(inner: LzmaDecoder)
    requires inner.Valid()
    ensures inner.Now().core.out == inner.sent + inner.window.pending && inner.sent <= inner.Now().core.out
    ensures inner.Now().core.dec.pos == inner.at && inner.Now().phase == inner.phase && Legal(inner.p, inner.Now())
  {
  }

  /** The decoder over a stream, with the same contract: its calls are calls of
      the codec. */
  class LzmaDecompressor {
    const inner: LzmaDecoder
    var finished: bool
    ghost const packed: seq<byte>
    ghost const size: nat

    ghost predicate Valid()
      reads this, inner, inner.window, inner.window.buf
      ensures Valid() ==> Sized(inner.p, size) && inner.at <= |packed| && inner.Valid()
    {
      && inner.Valid() && Sized(inner.p, size) && inner.at <= |packed|
      && Leads(inner.p, packed, Fresh(inner.p, size), inner.Now())
      && (finished ==> inner.phase.Finished? && inner.window.pending == [])
    }

    /** All that the stream unpacks to. */
    ghost function Data(): seq<byte>
      requires Sized(inner.p, size)
    {
      End(inner.p, size, packed).core.out
    }

    /** The state that the codec has here. */
    ghost function State(): D.State
      reads this, inner, inner.window, inner.window.buf
      requires Valid()
    {
      SentFits(inner);
      D.OfLzma(Based(inner.Now(), |inner.sent|))
    }

    constructor (p: Params, dictSize: u32, ghost packed: seq<byte>)
      requires p.Fits()
      ensures Valid() && inner.p == p && size == DictSize(dictSize) && this.packed == packed && !finished
      ensures fresh(inner) && fresh(inner.window) && fresh(inner.window.buf) && inner.at == 0 && inner.sent == []
      ensures State() == D.OfLzma(Fresh(p, size))
    {
      hide Legal, Leads, LzmaDecoder.Valid;
      inner := new LzmaDecoder(p, dictSize);
      finished := false;
      this.packed, size := packed, DictSize(dictSize);
      new;
      LeadsNowhere(p, packed, inner.Now());
    }

    /** One call. It fails only where the stream breaks off. */
    method Decompress(input: seq<byte>, output: array<byte>)
      returns (r: Result<D.Decoded, D.Error>, ghost pace: Pace)
      requires Valid() && D.Feeds(packed, inner.at, input) && output != inner.window.buf
      modifies this`finished, inner, inner.window, inner.window.buf, output
      ensures Valid()
      ensures r.Ok? ==>
                && r.value.consumed <= |input| && inner.at == old(inner.at) + r.value.consumed
                && r.value.produced <= output.Length && |inner.sent| == |old(inner.sent)| + r.value.produced
                && |inner.sent| <= |Data()| && output[..r.value.produced] == Data()[|old(inner.sent)|..|inner.sent|]
                && (r.value.status.StreamEnd? ==> |inner.sent| == |Data()|)
      ensures Call(inner.p, pace, old(State()), input, output.Length)
           == match r
              case Err(error) => D.Failed(error)
              case Ok(d) => D.Stepped(State(), d.consumed, output[..d.produced], d.status)
      ensures r.Err? ==> r.error == D.TruncatedInput && input == []
      ensures Ends(inner.p, size, packed) && output.Length > 0 ==> r.Ok? && r.value.Moved()
    {
      hide Legal, Leads, Stuck, End, LzmaDecoder.Now, LzmaDecoder.CoreNow, SlidingWindow.Valid, SlidingWindow.Value,
           Based, Call;
      ghost var was, sent, front := inner.Now(), inner.sent, packed[..inner.at + |input|];
      SentFits(inner);
      if finished {
        Ended();
        inner.EndedIsStuck(front);
        LeadsNowhere(inner.p, packed, was);
        pace := IsCall(inner.p, packed, was, sent, input, was, [], output.Length, true);
        return Ok(D.Decoded(0, 0, D.StreamEnd)), pace;
      }
      var called := inner.Decode(input, output, packed);
      ghost var given := output[..called.produced];
      SentFits(inner);
      LeadsTransitive(inner.p, packed, Fresh(inner.p, size), was, inner.Now());
      Given();
      assert given == inner.sent[|sent|..];
      match called.status {
        case Ended(_) =>
          inner.EndedIsStuck(front);
          finished := true;
          Ended();
          pace := IsCall(inner.p, packed, was, sent, input, inner.Now(), given, output.Length, true);
          return Ok(D.Decoded(called.consumed, called.produced, D.StreamEnd)), pace;
        case NeedInput =>
          inner.HungryIsStuck(front);
          if input == [] {
            Starved();
          }
        case Continue =>
      }
      pace := IsCall(inner.p, packed, was, sent, input, inner.Now(), given, output.Length, false);
      if input == [] && called.produced == 0 {
        return Err(D.TruncatedInput), pace;
      }
      return Ok(D.Decoded(called.consumed, called.produced, D.Continue)), pace;
    }

    /** What was delivered begins the data. */
    lemma Given()
      requires inner.Valid() && Sized(inner.p, size) && Leads(inner.p, packed, Fresh(inner.p, size), inner.Now())
      ensures inner.sent <= Data()
    {
      hide Legal, Leads, End;
      Along(inner.p, size, packed, inner.Now());
    }

    lemma Ended()
      requires inner.Valid() && Sized(inner.p, size) && Leads(inner.p, packed, Fresh(inner.p, size), inner.Now())
      requires inner.phase.Finished? && inner.window.pending == []
      ensures inner.sent == Data()
    {
      hide Legal, Leads, End;
      Along(inner.p, size, packed, inner.Now());
      assert inner.sent + [] == inner.sent;
    }

    lemma Starved()
      requires inner.Valid() && Sized(inner.p, size) && Leads(inner.p, packed, Fresh(inner.p, size), inner.Now())
      requires inner.at == |packed| && inner.NeedsInput()
      ensures !Ends(inner.p, size, packed)
    {
      hide Leads, End, Stuck;
      inner.HungryIsStuck(packed);
      Along(inner.p, size, packed, inner.Now());
    }
  }
}
