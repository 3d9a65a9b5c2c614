/**
  The LZMA decoder's two paths, the one that may be interrupted at any bit
  and the one that takes a symbol as a whole. Both are runs of the step
  machine, so calls of any sizes add up to the one decode that never stops.
 */
module LzmaDecoding {
  import opened Arithmetic
  import opened Bytes
  import opened RangeCoding
  import opened LzmaWindow
  import opened LzmaMachine
  import opened Sequences
  import opened Wrappers

  datatype DecodeStatus = Continue | Ended(status: Status) | NeedInput

  datatype DecodeResult = DecodeResult(consumed: nat, produced: nat, status: DecodeStatus)

  /** A decoded bit and the input position after it, or a need for input. */
  datatype BitResult = Got(bit: bool, next: nat) | Starved

  /** Output delivered in two pieces is one delivery. */
  lemma OutputJoins(sent: seq<byte>, mid: seq<byte>, now: seq<byte>, a: nat, b: nat, c: nat)
    requires a <= b <= c <= |now| == |mid| && now[..b] == mid[..b]
    ensures (sent + mid[a..b]) + now[b..c] == sent + now[a..c]
    ensures now[..a] == mid[..a]
  {
    assert now[a..c] == mid[a..b] + now[b..c];
    assert now[..a] == now[..b][..a];
  }

  /** An arm of the resumable path ran, or stopped for want of input. */
  datatype Arm = Ran(next: nat) | Hungry(next: nat)

  /** Minimum dictionary size. */
  const DIC_MIN := 0x1000

  function DictSize(asked: u32): (size: u32)
    ensures size >= 0x1000 && size >= asked && (size == 0x1000 || size == asked)
  {
    if asked < DIC_MIN then DIC_MIN else asked
  }

  function Fresh(p: Params, size: nat): Machine {
    Machine(Core(Decoder(FULL_RANGE, 0, 0), false, seq(NumProbs(p), _ => HALF), 0, Reps(0, 0, 0, 0),
                 Window(Zeros(size), 0, 0), 0, []),
            Opening([]))
  }

  /** What a checkpoint holds, beside the saved window. */
  datatype SavedDecoder = SavedDecoder(
    p: Params,
    range: u32,
    code: u32,
    corrupted: bool,
    probs: seq<Prob>,
    state: nat,
    reps: Reps,
    decoded: nat,
    phase: Phase)

  class LzmaDecoder {
    const p: Params
    const window: SlidingWindow
    var range: u32
    var code: u32
    var corrupted: bool
    var probs: seq<Prob>
    var state: nat
    var reps: Reps
    var decoded: nat
    var phase: Phase
    /** Input bytes read so far, and output bytes delivered so far. */
    ghost var at: nat
    /** Where in the stream the current call's input starts. */
    ghost var base: nat
    ghost var sent: seq<byte>

    ghost function CoreNow(): Core
      reads this, window, window.buf
      requires window.Valid()
    {
      Core(Decoder(range, code, at), corrupted, probs, state, reps, window.Value(), decoded, sent + window.pending)
    }

    ghost function Now(): Machine
      reads this, window, window.buf
      requires window.Valid()
    {
      Machine(CoreNow(), phase)
    }

    ghost predicate Valid()
      reads this, window, window.buf
    {
      window.Valid() && Legal(p, Now())
    }

    constructor (p: Params, dictSize: u32)
      requires p.Fits()
      ensures this.p == p && Valid() && fresh(window) && fresh(window.buf)
      ensures window.buf.Length == DictSize(dictSize)
      ensures Now() == Fresh(p, window.buf.Length)
      ensures at == 0 && sent == [] && window.pending == []
    {
      this.p := p;
      window := new SlidingWindow(DictSize(dictSize));
      range, code, corrupted := FULL_RANGE, 0, false;
      probs := seq(NumProbs(p), _ => HALF);
      state, reps, decoded, phase := 0, Reps(0, 0, 0, 0), 0, Opening([]);
      at, base, sent := 0, 0, [];
    }

    /** A decoder put together from saved fields and a restored window. */
    constructor Restored(saved: SavedDecoder, window: SlidingWindow, ghost at: nat, ghost sent: seq<byte>)
      ensures this.p == saved.p && this.window == window
      ensures range == saved.range && code == saved.code && corrupted == saved.corrupted && probs == saved.probs
      ensures state == saved.state && reps == saved.reps && decoded == saved.decoded && phase == saved.phase
      ensures this.at == at && this.sent == sent
    {
      p, this.window := saved.p, window;
      range, code, corrupted, probs := saved.range, saved.code, saved.corrupted, saved.probs;
      state, reps, decoded, phase := saved.state, saved.reps, saved.decoded, saved.phase;
      this.at, base, this.sent := at, at, sent;
    }

    /** `input` is what the stream `src` has from `base` on. */
    ghost predicate Feeds(src: seq<byte>, input: seq<byte>, pos: nat)
      reads this`at, this`base
    {
      && pos <= |input| && at == base + pos && base + |input| <= |src|
      && src[base..base + |input|] == input
    }

    /** Whether the machine stands before a bit coded with `index`. */
    ghost predicate Wants(index: nat)
      reads this, window, window.buf
    {
      && Valid() && Move(p, Now()).None?
      && !phase.Finished? && !phase.Opening? && !IsDirect(phase)
      && index == Index(p, Now())
    }

    /** Shifts one input byte into the range coder if it needs one. */
    method Refill(input: seq<byte>, pos: nat, ghost src: seq<byte>) returns (r: Option<nat>)
      requires range >= 0x1_0000 && Feeds(src, input, pos)
      modifies this`range, this`code, this`at
      ensures match Normalise(Decoder(old(range), old(code), old(at)), src[..base + |input|])
              case None => r == None && range == old(range) < TOP && code == old(code) && at == old(at)
                           && pos == |input|
              case Some(d) =>
                && r.Some? && d == Decoder(range, code, at) && d.range >= TOP
                && Normalise(Decoder(old(range), old(code), old(at)), src) == Some(d)
                && Feeds(src, input, r.value) && r.value == pos + at - old(at) <= pos + 1
                && (r.value == pos ==> range == old(range))
    {
      if range < TOP {
        if pos >= |input| {
          return None;
        }
        assert input[pos] == src[at];
        code := Wrap32(0x100 * code + input[pos]);
        range := range * 0x100;
        at := at + 1;
        return Some(pos + 1);
      }
      return Some(pos);
    }

    /** One bit with a probability. When input is needed, nothing changes. */
    method DecodeBit(index: nat, input: seq<byte>, pos: nat, ghost src: seq<byte>, ghost start: Machine)
      returns (r: BitResult)
      requires Wants(index) && Feeds(src, input, pos) && Leads(p, src, start, Now())
      modifies this`range, this`code, this`probs, this`at
      ensures phase == old(phase) && window.Valid()
      ensures match r
              case Starved => Now() == old(Now()) && pos == |input| && range < TOP
              case Got(bit, next) =>
                && Feeds(src, input, next) && pos <= next <= pos + 1
                && (next == pos ==> range < old(range))
                && CoreFits(p, CoreNow()) && Legal(p, AfterBit(p, CoreNow(), phase, bit))
                && Leads(p, src, start, AfterBit(p, CoreNow(), phase, bit))
    {
      hide Legal, Move, Index, AfterBit, Step, Wrap32, Leads, DecodeWith, SlidingWindow.Value, SlidingWindow.Valid;
      ghost var was := Now();
      IndexInTable(p, was);
      CoreIsFit(p, was);
      var next := Refill(input, pos, src);
      if next == None {
        return Starved;
      }
      ghost var d := Decoder(range, code, at);
      var bit := ChooseBit(index, was.core);
      r := Got(bit, next.value);
      BitTaken(was, src, d, CoreNow(), index, bit);
      LeadsOn(p, src, start, was, AfterBit(p, CoreNow(), phase, bit));
    }

    /** The decoder's choice, and the probability's step towards it. */
    method ChooseBit(index: nat, ghost was: Core) returns (bit: bool)
      requires window.Valid() && index < |probs| && range >= TOP
      requires CoreNow() == was.(dec := Decoder(range, code, at))
      modifies this`range, this`code, this`probs
      ensures (CoreNow(), bit) == DecodeWith(was, index, old(Decoder(range, code, at)))
      ensures range < old(range)
    {
      hide Wrap32, Bound, SlidingWindow.Value, SlidingWindow.Valid;
      var v := probs[index];
      BoundSplits(range, v);
      var bound := Bound(range, v);
      if code < bound {
        probs := probs[index := v + (BIT_MODEL_TOTAL - v) / MOVE];
        range := bound;
        bit := false;
      } else {
        probs := probs[index := v - v / MOVE];
        code := code - bound;
        range := range - bound;
        bit := true;
      }
    }

    lemma CoreIsFit(p: Params, m: Machine)
      requires Legal(p, m)
      ensures CoreFits(p, m.core)
    {
    }

    lemma BitTaken(was: Machine, src: seq<byte>, d: Decoder, c: Core, index: nat, bit: bool)
      requires Legal(p, was) && Move(p, was).None?
      requires !was.phase.Finished? && !was.phase.Opening? && !IsDirect(was.phase)
      requires Normalise(was.core.dec, src) == Some(d) && index == Index(p, was) < |was.core.probs|
      requires DecodeWith(was.core, index, d) == (c, bit)
      ensures Step(p, src, was) == Some(AfterBit(p, c, was.phase, bit))
      ensures CoreFits(p, c) && Legal(p, AfterBit(p, c, was.phase, bit))
    {
      StepLegal(p, src, was);
    }

    /** One bit without a probability. */
    method DecodeDirectBit(input: seq<byte>, pos: nat, ghost src: seq<byte>, ghost start: Machine)
      returns (r: BitResult)
      requires Valid() && Move(p, Now()).None? && IsDirect(phase) && Feeds(src, input, pos)
      requires Leads(p, src, start, Now())
      modifies this`range, this`code, this`corrupted, this`at
      ensures phase == old(phase) && window.Valid()
      ensures match r
              case Starved => Now() == old(Now()) && pos == |input| && range < TOP
              case Got(bit, next) =>
                && Feeds(src, input, next) && pos <= next <= pos + 1
                && (next == pos ==> range < old(range))
                && CoreFits(p, CoreNow()) && Legal(p, AfterBit(p, CoreNow(), phase, bit))
                && Leads(p, src, start, AfterBit(p, CoreNow(), phase, bit))
    {
      hide Legal, Move, Index, AfterBit, Step, Leads;
      ghost var was := Now();
      CoreIsFit(p, was);
      var next := Refill(input, pos, src);
      if next == None {
        return Starved;
      }
      ghost var d := Decoder(range, code, at);
      var bit := HalveRange();
      r := Got(bit, next.value);
      DirectTaken(was, src, d, CoreNow(), bit);
      LeadsOn(p, src, start, was, AfterBit(p, CoreNow(), phase, bit));
    }

    method HalveRange() returns (bit: bool)
      requires range >= TOP
      modifies this`range, this`code, this`corrupted
      ensures (Decoder(range, code, at), bit) == ChooseDirect(Decoder(old(range), old(code), at))
      ensures range < old(range) && corrupted == (old(corrupted) || code == range)
    {
      range := range / 2;
      code := Wrap32(code - range);
      bit := code < 0x8000_0000;
      if !bit {
        code := Wrap32(code + range);
      }
      if code == range {
        corrupted := true;
      }
    }

    lemma DirectTaken(was: Machine, src: seq<byte>, d: Decoder, c: Core, bit: bool)
      requires Legal(p, was) && Move(p, was).None? && IsDirect(was.phase)
      requires Normalise(was.core.dec, src) == Some(d)
      requires DecodeDirect(was.core, d) == (c, bit)
      ensures Step(p, src, was) == Some(AfterBit(p, c, was.phase, bit))
      ensures CoreFits(p, c) && Legal(p, AfterBit(p, c, was.phase, bit))
    {
      StepLegal(p, src, was);
    }

    // ─── The resumable path ──────────────────────────────────────

    /** Decoding cannot go on without another input byte. */
    ghost predicate Blocked()
      reads this, window, window.buf
    {
      Valid() && range < TOP && Move(p, Now()).None? && !phase.Finished? && !phase.Opening?
    }

    /** What every arm keeps: it only takes steps of the machine. */
    ghost predicate OnTrack(src: seq<byte>, input: seq<byte>, pos: nat, start: Machine)
      reads this, window, window.buf
    {
      Valid() && Feeds(src, input, pos) && Leads(p, src, start, Now())
    }

    method StartLiteralDecode()
      requires window.Valid() && CoreFits(p, CoreNow())
      modifies this`phase
      ensures phase == StartLiteral(p, CoreNow())
    {
      hide SlidingWindow.Value, SlidingWindow.Valid, Pow2, Times, Window.Get;
      var prev := 0;
      if !window.IsEmpty() {
        prev := window.GetByte(1);
      }
      var lit := Times(Remainder(window.totalPos, Pow2(p.lp)), Pow2(p.lc)) + Quotient(prev, Pow2(8 - p.lc));
      var matched := state >= 7;
      var matchByte := 0;
      if matched {
        matchByte := window.GetByte(reps.r0 + 1);
      }
      phase := Literal(1, lit, matched, matchByte);
    }

    /** One byte of a match, to the window and the pending output. */
    method CopyOne(ghost src: seq<byte>, ghost start: Machine)
      requires Valid() && Leads(p, src, start, Now()) && phase.CopyMatch?
      modifies this`phase, this`decoded, window, window.buf
      ensures Valid() && Leads(p, src, start, Now())
      ensures phase == if old(phase).remaining == 1 then NewSymbol
                       else CopyMatch(old(phase).back, old(phase).remaining - 1)
      ensures |window.pending| == old(|window.pending|) + 1
    {
      hide Leads, Legal, Move, SlidingWindow.Value, SlidingWindow.Valid;
      ghost var was := Now();
      CopyMoves(p, was);
      var back, remaining := phase.back, phase.remaining;
      var b := window.GetByte(back + 1);
      window.PutByte(b);
      decoded := decoded + 1;
      phase := if remaining <= 1 then NewSymbol else CopyMatch(back, remaining - 1);
      Associates(sent, old(window.pending), [b]);
      MovesOn(p, src, start, was, Now());
    }

    method StartMatchLength(kind: MatchType, posState: nat)
      modifies this`phase
      ensures phase == Length(kind, !kind.Simple?, posState, Choice)
    {
      phase := Length(kind, !kind.Simple?, posState, Choice);
    }

    /** IsMatch, and IsRep after it. */
    method DecodeIsMatch(input: seq<byte>, pos: nat, ghost src: seq<byte>, ghost start: Machine) returns (r: Arm)
      requires OnTrack(src, input, pos, start) && phase.NewSymbol? && !AtLimit(p, CoreNow())
      modifies this`range, this`code, this`probs, this`at, this`phase, this`state, this`reps
      modifies this`decoded, window, window.buf
      ensures OnTrack(src, input, r.next, start) && pos <= r.next
      ensures r.Hungry? ==> r.next == |input| && Blocked() && window.pending == old(window.pending)
      ensures r.Ran? ==> r.next > pos || range < old(range)
    {
      hide Leads, Legal, LitState;
      var posState := window.totalPos % Pow2(p.pb);
      var bit := DecodeBit(OFF_IS_MATCH + state * 16 + posState, input, pos, src, start);
      if bit.Starved? {
        return Hungry(pos);
      }
      if !bit.bit {
        StartLiteralDecode();
        return Ran(bit.next);
      }
      phase := NeedIsRep(posState);
      r := DecodeIsRep(input, bit.next, src, start);
    }

    method DecodeIsRep(input: seq<byte>, pos: nat, ghost src: seq<byte>, ghost start: Machine) returns (r: Arm)
      requires OnTrack(src, input, pos, start) && phase.NeedIsRep?
      modifies this`range, this`code, this`probs, this`at, this`phase, this`state, this`reps
      modifies this`decoded, window, window.buf
      ensures OnTrack(src, input, r.next, start) && pos <= r.next
      ensures r.Hungry? ==> r.next == |input| && Blocked() && window.pending == old(window.pending)
      ensures r.Ran? ==> r.next > pos || range < old(range)
    {
      hide Leads, Legal, LitState, SlidingWindow.Value, SlidingWindow.Valid;
      var posState := phase.posState;
      var bit := DecodeBit(OFF_IS_REP + state, input, pos, src, start);
      if bit.Starved? {
        return Hungry(pos);
      }
      if !bit.bit {
        reps := Reps(reps.r0, reps.r0, reps.r1, reps.r2);
        state := AfterMatch(state);
        StartMatchLength(Simple, posState);
        return Ran(bit.next);
      }
      r := DecodeRepType(input, bit.next, posState, src, start);
    }

    /** Entered with IsRep decoded as 1, now or before an interruption. */
    method DecodeRepType(input: seq<byte>, pos: nat, posState: nat, ghost src: seq<byte>, ghost start: Machine)
      returns (r: Arm)
      requires window.Valid() && Feeds(src, input, pos)
      requires Legal(p, AfterIsRep(p, CoreNow(), posState))
      requires Leads(p, src, start, AfterIsRep(p, CoreNow(), posState))
      modifies this`range, this`code, this`probs, this`at, this`phase, this`state, this`reps
      modifies this`decoded, window, window.buf
      ensures OnTrack(src, input, r.next, start) && pos <= r.next
      ensures r.Hungry? ==> r.next == |input| && Blocked() && window.pending == old(window.pending)
      ensures range <= old(range) || r.next > pos
      ensures r.Ran? && r.next == pos && range == old(range) ==> phase.Finished?
    {
      hide Leads, Legal, LitState, SlidingWindow.Value, SlidingWindow.Valid;
      if p.unpack.Some? && decoded >= p.unpack.value {
        phase := Finished(WithoutMark);
        return Ran(pos);
      }
      if window.IsEmpty() {
        phase := Finished(WithMark);
        return Ran(pos);
      }
      phase := NeedRepG0(posState);
      var bit := DecodeBit(OFF_IS_REP_G0 + state, input, pos, src, start);
      if bit.Starved? {
        return Hungry(pos);
      }
      if !bit.bit {
        phase := NeedRep0Long(posState);
        r := DecodeRep0Long(input, bit.next, src, start);
      } else {
        phase := NeedRepG1(posState);
        r := DecodeRepG1(input, bit.next, src, start);
      }
    }

    method DecodeRep0Long(input: seq<byte>, pos: nat, ghost src: seq<byte>, ghost start: Machine) returns (r: Arm)
      requires OnTrack(src, input, pos, start) && phase.NeedRep0Long?
      modifies this`range, this`code, this`probs, this`at, this`phase, this`state, this`reps
      modifies this`decoded, window, window.buf
      ensures OnTrack(src, input, r.next, start) && pos <= r.next
      ensures r.Hungry? ==> r.next == |input| && Blocked() && window.pending == old(window.pending)
      ensures range < old(range) || r.next > pos || r.Hungry?
      ensures range <= old(range) || r.next > pos
    {
      hide Leads, Legal, LitState, SlidingWindow.Value, SlidingWindow.Valid;
      var posState := phase.posState;
      var bit := DecodeBit(OFF_IS_REP0_LONG + state * 16 + posState, input, pos, src, start);
      if bit.Starved? {
        return Hungry(pos);
      }
      if !bit.bit {
        state := AfterShortRep(state);
        phase := CopyMatch(reps.r0, 1);
        CopyOne(src, start);
      } else {
        state := AfterRep(state);
        StartMatchLength(Rep0, posState);
      }
      return Ran(bit.next);
    }

    method DecodeRepG1(input: seq<byte>, pos: nat, ghost src: seq<byte>, ghost start: Machine) returns (r: Arm)
      requires OnTrack(src, input, pos, start) && phase.NeedRepG1?
      modifies this`range, this`code, this`probs, this`at, this`phase, this`state, this`reps
      modifies this`decoded, window, window.buf
      ensures OnTrack(src, input, r.next, start) && pos <= r.next
      ensures r.Hungry? ==> r.next == |input| && Blocked() && window.pending == old(window.pending)
      ensures range < old(range) || r.next > pos || r.Hungry?
      ensures range <= old(range) || r.next > pos
    {
      hide Leads, Legal, LitState, SlidingWindow.Value, SlidingWindow.Valid;
      var posState := phase.posState;
      var bit := DecodeBit(OFF_IS_REP_G1 + state, input, pos, src, start);
      if bit.Starved? {
        return Hungry(pos);
      }
      if !bit.bit {
        reps := Reps(reps.r1, reps.r0, reps.r2, reps.r3);
        state := AfterRep(state);
        StartMatchLength(Rep1, posState);
        return Ran(bit.next);
      }
      phase := NeedRepG2(posState);
      r := DecodeRepG2(input, bit.next, src, start);
    }

    method DecodeRepG2(input: seq<byte>, pos: nat, ghost src: seq<byte>, ghost start: Machine) returns (r: Arm)
      requires OnTrack(src, input, pos, start) && phase.NeedRepG2?
      modifies this`range, this`code, this`probs, this`at, this`phase, this`state, this`reps
      modifies this`decoded, window, window.buf
      ensures OnTrack(src, input, r.next, start) && pos <= r.next
      ensures r.Hungry? ==> r.next == |input| && Blocked() && window.pending == old(window.pending)
      ensures range < old(range) || r.next > pos || r.Hungry?
      ensures range <= old(range) || r.next > pos
    {
      hide Leads, Legal, LitState, SlidingWindow.Value, SlidingWindow.Valid;
      var posState := phase.posState;
      var bit := DecodeBit(OFF_IS_REP_G2 + state, input, pos, src, start);
      if bit.Starved? {
        return Hungry(pos);
      }
      if !bit.bit {
        reps := Reps(reps.r2, reps.r0, reps.r1, reps.r3);
      } else {
        reps := Reps(reps.r3, reps.r0, reps.r1, reps.r2);
      }
      state := AfterRep(state);
      StartMatchLength(if bit.bit then Rep3 else Rep2, posState);
      return Ran(bit.next);
    }

    /** Hands pending bytes out. */
    method Drain(output: array<byte>, outPos: nat) returns (outNext: nat)
      requires window.Valid() && outPos <= output.Length && output != window.buf
      modifies this`sent, window`pending, output
      ensures window.Valid() && Now() == old(Now())
      ensures outPos <= outNext <= output.Length
      ensures window.pending == [] || outNext == output.Length
      ensures |window.pending| == old(|window.pending|) - (outNext - outPos)
      ensures sent == old(sent) + output[outPos..outNext]
      ensures output[..outPos] == old(output[..outPos]) && output[outNext..] == old(output[outNext..])
    {
      ghost var held := window.pending;
      var n := window.DrainOutput(output, outPos);
      outNext := outPos + n;
      assert output[outPos..outNext] == held[..n];
      Associates(sent, held[..n], held[n..]);
      assert held == held[..n] + held[n..];
      sent := sent + held[..n];
    }

    /** The eight bits of a literal, and its byte. */
    method ContinueLiteral(input: seq<byte>, pos: nat, ghost src: seq<byte>, ghost start: Machine) returns (r: Arm)
      requires OnTrack(src, input, pos, start) && phase.Literal?
      modifies this`range, this`code, this`probs, this`at, this`phase, this`state, this`decoded, window, window.buf
      ensures OnTrack(src, input, r.next, start) && pos <= r.next
      ensures r.Hungry? ==> r.next == |input| && Blocked() && window.pending == old(window.pending)
      ensures r.Ran? ==> (r.next > pos || range <= old(range)) && phase.NewSymbol?
    {
      r := LiteralBits(input, pos, src, start);
      if r.Ran? {
        FinishLiteral(src, start);
      }
    }

    method LiteralBits(input: seq<byte>, pos: nat, ghost src: seq<byte>, ghost start: Machine) returns (r: Arm)
      requires OnTrack(src, input, pos, start) && phase.Literal?
      modifies this`range, this`code, this`probs, this`at, this`phase
      ensures OnTrack(src, input, r.next, start) && pos <= r.next
      ensures r.Hungry? ==> r.next == |input| && Blocked()
      ensures r.Ran? ==> (r.next > pos || range <= old(range)) && phase.Literal? && phase.symbol >= 0x100
    {
      hide Leads, Legal, Move, Index;
      r := Ran(pos);
      LiteralSymbolPositive();
      while phase.symbol < 0x100
        invariant r.Ran? && phase.Literal? && phase.symbol >= 1
        invariant OnTrack(src, input, r.next, start) && pos <= r.next
        invariant r.next > pos || range <= old(range)
        decreases 0x100 - phase.symbol
      {
        r := LiteralBit(input, r.next, src, start);
        if r.Hungry? {
          return;
        }
      }
    }

    lemma LiteralSymbolPositive()
      requires Valid() && phase.Literal?
      ensures phase.symbol >= 1
    {
    }

    method LiteralBit(input: seq<byte>, pos: nat, ghost src: seq<byte>, ghost start: Machine) returns (r: Arm)
      requires OnTrack(src, input, pos, start) && phase.Literal? && 1 <= phase.symbol < 0x100
      modifies this`range, this`code, this`probs, this`at, this`phase
      ensures OnTrack(src, input, r.next, start) && pos <= r.next
      ensures r.Hungry? ==> r.next == |input| && Blocked()
      ensures r.Ran? ==> phase.Literal? && phase.symbol > old(phase).symbol
      ensures r.next > pos || range <= old(range)
    {
      hide Leads, Legal, LitState, SlidingWindow.Value, SlidingWindow.Valid;
      var index := BASE_PROBS_SIZE + LIT_SIZE * phase.litState + phase.symbol;
      var matchBit := phase.matchByte / 0x80;
      if phase.matched {
        index := index + 0x100 * (1 + matchBit);
      }
      var bit := DecodeBit(index, input, pos, src, start);
      if bit.Starved? {
        return Hungry(pos);
      }
      var b := Bit(bit.bit);
      phase := Literal(2 * phase.symbol + b, phase.litState, phase.matched && matchBit == b,
                       if phase.matched then ShiftByte(phase.matchByte) else phase.matchByte);
      return Ran(bit.next);
    }

    method FinishLiteral(ghost src: seq<byte>, ghost start: Machine)
      requires Valid() && Leads(p, src, start, Now()) && phase.Literal? && phase.symbol >= 0x100
      modifies this`phase, this`state, this`decoded, window, window.buf
      ensures Valid() && Leads(p, src, start, Now()) && phase.NewSymbol?
    {
      hide Leads, Legal, Move, SlidingWindow.Value, SlidingWindow.Valid;
      ghost var was := Now();
      LiteralMoves(p, was);
      var b: byte := phase.symbol - 0x100;
      window.PutByte(b);
      state := AfterLiteral(state);
      decoded := decoded + 1;
      phase := NewSymbol;
      Associates(sent, old(window.pending), [b]);
      MovesOn(p, src, start, was, Now());
    }

    /** The length of a match, bit by bit. */
    method DecodeLength(input: seq<byte>, pos: nat, ghost src: seq<byte>, ghost start: Machine) returns (r: Arm)
      requires OnTrack(src, input, pos, start) && phase.Length?
      modifies this`range, this`code, this`probs, this`at, this`phase
      ensures OnTrack(src, input, r.next, start) && pos <= r.next
      ensures r.Hungry? ==> r.next == |input| && Blocked()
      ensures r.Ran? ==> phase.Distance? || phase.CopyMatch?
      ensures r.Ran? ==> r.next > pos || range <= old(range)
    {
      r := LengthChoice(input, pos, src, start);
      if r.Ran? {
        r := LengthTree(input, r.next, src, start);
      }
      if r.Ran? {
        FinishLength(src, start);
      }
    }

    method LengthChoice(input: seq<byte>, pos: nat, ghost src: seq<byte>, ghost start: Machine) returns (r: Arm)
      requires OnTrack(src, input, pos, start) && phase.Length?
      modifies this`range, this`code, this`probs, this`at, this`phase
      ensures OnTrack(src, input, r.next, start) && pos <= r.next && phase.Length?
      ensures r.Hungry? ==> r.next == |input| && Blocked()
      ensures r.Ran? ==> InTree(phase.len)
      ensures r.next > pos || range <= old(range)
    {
      hide Leads, Legal, Move, Index;
      r := Ran(pos);
      if phase.len.Choice? {
        r := ChoiceBit(input, pos, src, start);
      }
      if r.Ran? && phase.len.Choice2? {
        r := ChoiceBit(input, r.next, src, start);
      }
    }

    method ChoiceBit(input: seq<byte>, pos: nat, ghost src: seq<byte>, ghost start: Machine) returns (r: Arm)
      requires OnTrack(src, input, pos, start) && phase.Length? && !InTree(phase.len)
      modifies this`range, this`code, this`probs, this`at, this`phase
      ensures OnTrack(src, input, r.next, start) && pos <= r.next && phase.Length?
      ensures r.Hungry? ==> r.next == |input| && Blocked()
      ensures r.Ran? ==> if InTree(phase.len) then true else old(phase).len.Choice? && phase.len.Choice2?
      ensures r.next > pos || range <= old(range)
    {
      hide Leads, Legal, LitState, SlidingWindow.Value, SlidingWindow.Valid;
      var base := if phase.isRep then OFF_REP_LEN_CODER else OFF_LEN_CODER;
      var bit := DecodeBit(if phase.len.Choice? then base else base + 1, input, pos, src, start);
      if bit.Starved? {
        return Hungry(pos);
      }
      if phase.len.Choice? {
        phase := phase.(len := if bit.bit then Choice2 else Low(1, 3));
      } else {
        phase := phase.(len := if bit.bit then High(1, 8) else Mid(1, 3));
      }
      return Ran(bit.next);
    }

    method LengthTree(input: seq<byte>, pos: nat, ghost src: seq<byte>, ghost start: Machine) returns (r: Arm)
      requires OnTrack(src, input, pos, start) && phase.Length? && InTree(phase.len)
      modifies this`range, this`code, this`probs, this`at, this`phase
      ensures OnTrack(src, input, r.next, start) && pos <= r.next && phase.Length?
      ensures r.Hungry? ==> r.next == |input| && Blocked()
      ensures InTree(phase.len) && (r.Ran? ==> phase.len.bits == 0)
      ensures r.next > pos || range <= old(range)
    {
      hide Leads, Legal, Move, Index;
      r := Ran(pos);
      while phase.len.bits > 0
        invariant r.Ran? && phase.Length? && InTree(phase.len)
        invariant OnTrack(src, input, r.next, start) && pos <= r.next
        invariant r.next > pos || range <= old(range)
        decreases phase.len.bits
      {
        r := LengthBit(input, r.next, src, start);
        if r.Hungry? {
          return;
        }
      }
    }

    method LengthBit(input: seq<byte>, pos: nat, ghost src: seq<byte>, ghost start: Machine) returns (r: Arm)
      requires OnTrack(src, input, pos, start) && phase.Length? && InTree(phase.len) && phase.len.bits > 0
      modifies this`range, this`code, this`probs, this`at, this`phase
      ensures OnTrack(src, input, r.next, start) && pos <= r.next && phase.Length?
      ensures r.Hungry? ==> r.next == |input| && Blocked()
      ensures InTree(phase.len) && (r.Ran? ==> phase.len.bits == old(phase).len.bits - 1)
      ensures r.next > pos || range <= old(range)
    {
      hide Leads, Legal, LitState, SlidingWindow.Value, SlidingWindow.Valid;
      var l := phase.len;
      var tree := LenTree(phase.isRep, phase.posState, l);
      var bit := DecodeBit(tree + l.m, input, pos, src, start);
      if bit.Starved? {
        return Hungry(pos);
      }
      phase := phase.(len := l.(m := 2 * l.m + Bit(bit.bit), bits := l.bits - 1));
      assert phase.len == AfterLenBit(l, bit.bit);
      return Ran(bit.next);
    }

    method FinishLength(ghost src: seq<byte>, ghost start: Machine)
      requires Valid() && Leads(p, src, start, Now())
      requires phase.Length? && InTree(phase.len) && phase.len.bits == 0
      modifies this`phase
      ensures Valid() && Leads(p, src, start, Now())
      ensures phase.Distance? || phase.CopyMatch?
    {
      hide Leads, Legal, Move, SlidingWindow.Value, SlidingWindow.Valid;
      ghost var was := Now();
      LengthMoves(p, was);
      var len := match phase.len
        case Low(m, _) => m - 8
        case Mid(m, _) => m - 8 + 8
        case High(m, _) => m - 0x100 + 16
        case _ => 0;
      if phase.kind.Simple? {
        phase := Distance(len + 2, if len >= 4 then 3 else len, PosSlot(1, 6));
      } else {
        StartCopyMatch(reps.r0, len + 2);
      }
      MovesOn(p, src, start, was, Now());
    }

    method StartCopyMatch(back: nat, len: nat)
      requires window.Valid() && (p.unpack.Some? ==> decoded <= p.unpack.value)
      modifies this`phase
      ensures Now() == StartCopy(p, CoreNow(), back, len)
    {
      var n := len;
      if p.unpack.Some? && p.unpack.value - decoded < n {
        n := p.unpack.value - decoded;
      }
      phase := CopyMatch(back, n);
    }

    /** The distance of a match, bit by bit. */
    method DecodeDistance(input: seq<byte>, pos: nat, ghost src: seq<byte>, ghost start: Machine) returns (r: Arm)
      requires OnTrack(src, input, pos, start) && phase.Distance?
      modifies this`range, this`code, this`corrupted, this`probs, this`at, this`phase, this`reps
      ensures OnTrack(src, input, r.next, start) && pos <= r.next
      ensures r.Hungry? ==> r.next == |input| && Blocked()
      ensures r.Ran? ==> phase.Finished? || phase.CopyMatch?
      ensures r.Ran? ==> r.next > pos || range <= old(range)
    {
      hide Leads, Legal, Move, SlidingWindow.Value, SlidingWindow.Valid;
      r := Ran(pos);
      if phase.dist.PosSlot? {
        r := SlotBits(input, r.next, src, start);
        if r.Hungry? {
          return;
        }
        FinishSlot(src, start);
      }
      if phase.Distance? && phase.dist.DirectBits? {
        r := DirectBitsLoop(input, r.next, src, start);
        if r.Hungry? {
          return;
        }
        FinishDirect(src, start);
      }
      if phase.Distance? {
        r := ReverseBits(input, r.next, src, start);
        if r.Hungry? {
          return;
        }
        FinishReverse(src, start);
      }
    }

    method SlotBits(input: seq<byte>, pos: nat, ghost src: seq<byte>, ghost start: Machine) returns (r: Arm)
      requires OnTrack(src, input, pos, start) && phase.Distance? && phase.dist.PosSlot?
      modifies this`range, this`code, this`probs, this`at, this`phase
      ensures OnTrack(src, input, r.next, start) && pos <= r.next && phase.Distance?
      ensures r.Hungry? ==> r.next == |input| && Blocked()
      ensures phase.dist.PosSlot? && (r.Ran? ==> phase.dist.bits == 0)
      ensures r.next > pos || range <= old(range)
    {
      hide Leads, Legal, Move, Index;
      r := Ran(pos);
      while phase.dist.bits > 0
        invariant r.Ran? && phase.Distance? && phase.dist.PosSlot?
        invariant OnTrack(src, input, r.next, start) && pos <= r.next
        invariant r.next > pos || range <= old(range)
        decreases phase.dist.bits
      {
        r := SlotBit(input, r.next, src, start);
        if r.Hungry? {
          return;
        }
      }
    }

    method SlotBit(input: seq<byte>, pos: nat, ghost src: seq<byte>, ghost start: Machine) returns (r: Arm)
      requires OnTrack(src, input, pos, start) && phase.Distance? && phase.dist.PosSlot? && phase.dist.bits > 0
      modifies this`range, this`code, this`probs, this`at, this`phase
      ensures OnTrack(src, input, r.next, start) && pos <= r.next && phase.Distance?
      ensures r.Hungry? ==> r.next == |input| && Blocked()
      ensures phase.dist.PosSlot? && (r.Ran? ==> phase.dist.bits == old(phase).dist.bits - 1)
      ensures r.next > pos || range <= old(range)
    {
      hide Leads, Legal, LitState, SlidingWindow.Value, SlidingWindow.Valid;
      var m, bits := phase.dist.m, phase.dist.bits;
      var bit := DecodeBit(OFF_POS_SLOT + 64 * phase.lenState + m, input, pos, src, start);
      if bit.Starved? {
        return Hungry(pos);
      }
      phase := phase.(dist := PosSlot(2 * m + Bit(bit.bit), bits - 1));
      return Ran(bit.next);
    }

    /** All bits of the slot are known: a short distance, or what comes next. */
    method FinishSlot(ghost src: seq<byte>, ghost start: Machine)
      requires Valid() && Leads(p, src, start, Now())
      requires phase.Distance? && phase.dist.PosSlot? && phase.dist.bits == 0
      modifies this`phase, this`reps
      ensures Valid() && Leads(p, src, start, Now())
      ensures phase.Distance? ==> phase.dist.DirectBits? || phase.dist.SpecPosBits?
      ensures phase.Distance? || phase.Finished? || phase.CopyMatch?
    {
      hide Leads, Legal, Move, Pow2, DistFits, SlidingWindow.Value, SlidingWindow.Valid;
      ghost var was := Now();
      SlotMoves(p, was);
      var slot := phase.dist.m - 64;
      if slot < 4 {
        ApplyDistance(phase.length, slot);
      } else {
        var bits, head := slot / 2 - 1, 2 + slot % 2;
        if slot < 14 {
          SpecStartLegal(slot);
          var dist := head * Pow2(bits);
          phase := phase.(dist := SpecPosBits(dist, OFF_POS_DECODERS + dist - slot, 1, 0, 0, bits));
        } else {
          phase := phase.(dist := DirectBits(head, bits - 4));
        }
      }
      MovesOn(p, src, start, was, Now());
    }

    /** All ones ends the stream, and so does a distance beyond the window. */
    method ApplyDistance(length: nat, dist: nat)
      requires window.Valid() && CoreFits(p, CoreNow()) && !AtLimit(p, CoreNow()) && dist < TWO_32
      modifies this`phase, this`reps
      ensures Now() == DistanceDone(p, old(CoreNow()), length, dist)
      ensures phase.Finished? || phase.CopyMatch?
    {
      if dist == 0xFFFF_FFFF {
        phase := Finished(WithMark);
        return;
      }
      if dist >= window.buf.Length || !window.CheckDistance(dist) {
        phase := Finished(WithMark);
        return;
      }
      reps := reps.(r0 := dist);
      StartCopyMatch(dist, length);
    }

    method DirectBitsLoop(input: seq<byte>, pos: nat, ghost src: seq<byte>, ghost start: Machine) returns (r: Arm)
      requires OnTrack(src, input, pos, start) && IsDirect(phase)
      modifies this`range, this`code, this`corrupted, this`at, this`phase
      ensures OnTrack(src, input, r.next, start) && pos <= r.next && IsDirect(phase)
      ensures r.Hungry? ==> r.next == |input| && Blocked()
      ensures r.Ran? ==> phase.dist.bits == 0
      ensures r.next > pos || range <= old(range)
    {
      hide Leads, Legal, Move;
      r := Ran(pos);
      while phase.dist.bits > 0
        invariant IsDirect(phase)
        invariant r.Ran? && OnTrack(src, input, r.next, start) && pos <= r.next
        invariant r.next > pos || range <= old(range)
        decreases phase.dist.bits
      {
        r := DirectBit(input, r.next, src, start);
        if r.Hungry? {
          return;
        }
      }
    }

    method DirectBit(input: seq<byte>, pos: nat, ghost src: seq<byte>, ghost start: Machine) returns (r: Arm)
      requires OnTrack(src, input, pos, start) && IsDirect(phase) && phase.dist.bits > 0
      modifies this`range, this`code, this`corrupted, this`at, this`phase
      ensures OnTrack(src, input, r.next, start) && pos <= r.next && IsDirect(phase)
      ensures r.Hungry? ==> r.next == |input| && Blocked()
      ensures r.Ran? ==> phase.dist.bits == old(phase).dist.bits - 1
      ensures r.next > pos || range <= old(range)
    {
      hide Leads, Legal, Pow2;
      var bit := DecodeDirectBit(input, pos, src, start);
      if bit.Starved? {
        return Hungry(pos);
      }
      phase := phase.(dist := DirectBits(2 * phase.dist.dist + Bit(bit.bit), phase.dist.bits - 1));
      r := Ran(bit.next);
    }

    method FinishDirect(ghost src: seq<byte>, ghost start: Machine)
      requires Valid() && Leads(p, src, start, Now()) && IsDirect(phase) && phase.dist.bits == 0
      modifies this`phase
      ensures Valid() && Leads(p, src, start, Now())
      ensures phase.Distance? && phase.dist.AlignBits?
    {
      hide Leads, Legal, Move, SlidingWindow.Value, SlidingWindow.Valid;
      ghost var was := Now();
      DirectMoves(p, was);
      phase := phase.(dist := AlignBits(Wrap32(16 * phase.dist.dist), 1, 0, 0));
      MovesOn(p, src, start, was, Now());
    }

    ghost predicate IsReverse(d: DistPhase) {
      d.AlignBits? || d.SpecPosBits?
    }

    ghost predicate ReverseDone(d: DistPhase) {
      (d.AlignBits? && d.i >= 4) || (d.SpecPosBits? && d.i >= d.bits)
    }

    /** The low bits, from a tree read lowest bit first. */
    method ReverseBits(input: seq<byte>, pos: nat, ghost src: seq<byte>, ghost start: Machine) returns (r: Arm)
      requires OnTrack(src, input, pos, start) && phase.Distance? && IsReverse(phase.dist)
      modifies this`range, this`code, this`probs, this`at, this`phase
      ensures OnTrack(src, input, r.next, start) && pos <= r.next && phase.Distance?
      ensures r.Hungry? ==> r.next == |input| && Blocked()
      ensures r.Ran? ==> ReverseDone(phase.dist)
      ensures r.next > pos || range <= old(range)
    {
      hide Leads, Legal, Move, Index;
      r := Ran(pos);
      var count := if phase.dist.AlignBits? then 4 else phase.dist.bits;
      while phase.dist.i < count
        invariant r.Ran? && phase.Distance? && IsReverse(phase.dist)
        invariant count == if phase.dist.AlignBits? then 4 else phase.dist.bits
        invariant OnTrack(src, input, r.next, start) && pos <= r.next
        invariant r.next > pos || range <= old(range)
        decreases count - phase.dist.i
      {
        r := ReverseBit(input, r.next, src, start);
        if r.Hungry? {
          return;
        }
      }
    }

    method ReverseBit(input: seq<byte>, pos: nat, ghost src: seq<byte>, ghost start: Machine) returns (r: Arm)
      requires OnTrack(src, input, pos, start) && phase.Distance? && IsReverse(phase.dist)
      requires !ReverseDone(phase.dist)
      modifies this`range, this`code, this`probs, this`at, this`phase
      ensures OnTrack(src, input, r.next, start) && pos <= r.next && phase.Distance?
      ensures r.Hungry? ==> r.next == |input| && Blocked()
      ensures r.Ran? ==>
                phase.dist == AfterDistBit(old(phase).dist, false) || phase.dist == AfterDistBit(old(phase).dist, true)
      ensures r.next > pos || range <= old(range)
    {
      hide Leads, Legal, LitState, Pow2, SlidingWindow.Value, SlidingWindow.Valid;
      var d := phase.dist;
      var tree := if d.AlignBits? then OFF_ALIGN else d.offset;
      var bit := DecodeBit(tree + d.m, input, pos, src, start);
      if bit.Starved? {
        return Hungry(pos);
      }
      var symbol := d.symbol + (if bit.bit then Pow2(d.i) else 0);
      phase := phase.(dist := d.(m := 2 * d.m + Bit(bit.bit), symbol := symbol, i := d.i + 1));
      assert phase.dist == AfterDistBit(d, bit.bit);
      return Ran(bit.next);
    }

    method FinishReverse(ghost src: seq<byte>, ghost start: Machine)
      requires Valid() && Leads(p, src, start, Now()) && phase.Distance? && ReverseDone(phase.dist)
      modifies this`phase, this`reps
      ensures Valid() && Leads(p, src, start, Now())
      ensures phase.Finished? || phase.CopyMatch?
    {
      hide Leads, Legal, Move, DistanceDone, CoreFits, AtLimit, Pow2, SlidingWindow.Value, SlidingWindow.Valid;
      ghost var was := Now();
      ReverseMoves(p, was);
      ApplyDistance(phase.length, phase.dist.dist + phase.dist.symbol);
      MovesOn(p, src, start, was, Now());
    }

    /** Opens the range coder with as many bytes as there are. */
    method InitRange(input: seq<byte>, pos: nat, ghost src: seq<byte>, ghost start: Machine) returns (r: Arm)
      requires OnTrack(src, input, pos, start) && phase.Opening?
      modifies this`range, this`code, this`corrupted, this`at, this`phase
      ensures OnTrack(src, input, r.next, start) && pos <= r.next
      ensures r.Hungry? ==> r.next == |input| && phase.Opening?
      ensures r.Ran? ==> phase.NewSymbol? && r.next > pos
    {
      hide Leads, Legal;
      var next: nat := pos;
      OpeningShort();
      while phase.Opening? && next < |input|
        invariant phase.Opening? || (phase.NewSymbol? && next > pos)
        invariant phase.Opening? ==> |phase.init| < 5
        invariant OnTrack(src, input, next, start) && pos <= next
        decreases |input| - next
      {
        OpenOne(input, next, src, start);
        next := next + 1;
      }
      r := if phase.Opening? then Hungry(next) else Ran(next);
    }

    lemma OpeningShort()
      requires Valid() && phase.Opening?
      ensures |phase.init| < 5
    {
    }

    method OpenOne(input: seq<byte>, pos: nat, ghost src: seq<byte>, ghost start: Machine)
      requires OnTrack(src, input, pos, start) && phase.Opening? && |phase.init| < 5 && pos < |input|
      modifies this`range, this`code, this`corrupted, this`at, this`phase
      ensures OnTrack(src, input, pos + 1, start)
      ensures phase.NewSymbol? || (phase.Opening? && |phase.init| < 5)
    {
      hide Leads, Legal, Move, AfterBit, Index, DecodeWith, DecodeDirect, Normalise, FromBe4;
      ghost var was := Now();
      assert input[pos] == src[at];
      var init := phase.init + [input[pos]];
      at := at + 1;
      if |init| < 5 {
        phase := Opening(init);
      } else {
        corrupted := false;
        range := FULL_RANGE;
        code := FromBe4(init[1..5]);
        if init[0] != 0 || code == range {
          corrupted := true;
        }
        phase := NewSymbol;
      }
      assert Step(p, src, was) == Some(Now());
      LeadsOn(p, src, start, was, Now());
    }

    /** As much of a match as the output has room for. */
    method CopyArm(output: array<byte>, outPos: nat, ghost src: seq<byte>, ghost start: Machine) returns (outNext: nat)
      requires Valid() && Leads(p, src, start, Now()) && phase.CopyMatch?
      requires window.pending == [] && outPos <= output.Length && output != window.buf
      modifies this`phase, this`decoded, this`sent, window, window.buf, output
      ensures Valid() && Leads(p, src, start, Now())
      ensures outPos <= outNext <= output.Length && window.pending == []
      ensures sent == old(sent) + output[outPos..outNext]
      ensures output[..outPos] == old(output[..outPos]) && output[outNext..] == old(output[outNext..])
      ensures phase.NewSymbol? || (phase.CopyMatch? && outNext == output.Length)
    {
      hide Leads, Legal, Move;
      var toCopy := Min(phase.remaining, output.Length - outPos);
      RemainingPositive();
      CopySome(toCopy, src, start);
      outNext := Drain(output, outPos);
    }

    lemma RemainingPositive()
      requires Valid() && phase.CopyMatch?
      ensures phase.remaining >= 1
    {
    }

    method CopySome(count: nat, ghost src: seq<byte>, ghost start: Machine)
      requires Valid() && Leads(p, src, start, Now()) && phase.CopyMatch? && window.pending == []
      requires count <= phase.remaining && phase.remaining >= 1
      modifies this`phase, this`decoded, window, window.buf
      ensures Valid() && Leads(p, src, start, Now()) && |window.pending| == count
      ensures if count == old(phase).remaining then phase == NewSymbol
              else phase == CopyMatch(old(phase).back, old(phase).remaining - count)
    {
      hide Leads, Legal, Move;
      ghost var was := phase;
      for k := 0 to count
        invariant Valid() && Leads(p, src, start, Now()) && |window.pending| == k
        invariant if k == was.remaining then phase == NewSymbol
                  else phase == CopyMatch(was.back, was.remaining - k)
      {
        CopyOne(src, start);
      }
    }

    // ─── The fast path ───────────────────────────────────────────
    //
    // The place within the symbol is not stored: it is the ghost `ph`.

    /** The machine stands at `ph` and has come there from `start`, the
        boundary the symbol began at. */
    ghost predicate Stands(ph: Phase, src: seq<byte>, input: seq<byte>, pos: nat, start: Machine)
      reads this, window, window.buf
    {
      && window.Valid() && Legal(p, Machine(CoreNow(), ph))
      && Feeds(src, input, pos) && Within(p, src, start, Machine(CoreNow(), ph))
    }

    /** The machine stands where its fields say and has come there from `start`. */
    ghost predicate InSymbol(src: seq<byte>, input: seq<byte>, pos: nat, start: Machine)
      reads this, window, window.buf
    {
      Valid() && Feeds(src, input, pos) && Within(p, src, start, Now())
    }

    /** One bit, with an input byte known to be there if it is needed. */
    method FastBit(index: nat, input: seq<byte>, pos: nat, ghost ph: Phase, ghost src: seq<byte>, ghost start: Machine)
      returns (bit: bool, next: nat)
      requires Stands(ph, src, input, pos, start) && pos < |input|
      requires Move(p, Machine(CoreNow(), ph)).None? && !ph.Finished? && !ph.Opening? && !IsDirect(ph)
      requires ph.NewSymbol? ==> Machine(CoreNow(), ph) == start
      requires index == Index(p, Machine(CoreNow(), ph))
      modifies this`range, this`code, this`probs, this`at
      ensures var m := AfterBit(p, CoreNow(), ph, bit);
              && window.Valid() && Feeds(src, input, next)
              && CoreFits(p, CoreNow()) && Legal(p, m) && Within(p, src, start, m)
      ensures pos <= next <= pos + 1 && (next == pos ==> range < old(range))
    {
      hide Legal, Move, Index, AfterBit, Step, Wrap32, Within, DecodeWith, SlidingWindow.Value, SlidingWindow.Valid;
      ghost var was := Machine(CoreNow(), ph);
      IndexInTable(p, was);
      CoreIsFit(p, was);
      next := pos;
      if range < TOP {
        assert input[pos] == src[at];
        range := range * 0x100;
        code := Wrap32(0x100 * code + input[pos]);
        next := pos + 1;
        at := at + 1;
      }
      ghost var d := Decoder(range, code, at);
      bit := ChooseBit(index, was.core);
      BitTaken(was, src, d, CoreNow(), index, bit);
      WithinOn(p, src, start, was, AfterBit(p, CoreNow(), ph, bit));
    }

    method FastDirectBit(input: seq<byte>, pos: nat, ghost ph: Phase, ghost src: seq<byte>, ghost start: Machine)
      returns (bit: bool, next: nat)
      requires Stands(ph, src, input, pos, start) && pos < |input|
      requires Move(p, Machine(CoreNow(), ph)).None? && IsDirect(ph)
      modifies this`range, this`code, this`corrupted, this`at
      ensures var m := AfterBit(p, CoreNow(), ph, bit);
              && window.Valid() && Feeds(src, input, next)
              && CoreFits(p, CoreNow()) && Legal(p, m) && Within(p, src, start, m)
      ensures pos <= next <= pos + 1 && (next == pos ==> range < old(range))
    {
      hide Legal, Move, Index, AfterBit, Step, Wrap32, Within, ChooseDirect, SlidingWindow.Value, SlidingWindow.Valid;
      ghost var was := Machine(CoreNow(), ph);
      CoreIsFit(p, was);
      next := pos;
      if range < TOP {
        assert input[pos] == src[at];
        range := range * 0x100;
        code := Wrap32(0x100 * code + input[pos]);
        next := pos + 1;
        at := at + 1;
      }
      ghost var d := Decoder(range, code, at);
      bit := HalveRange();
      DirectTaken(was, src, d, CoreNow(), bit);
      WithinOn(p, src, start, was, AfterBit(p, CoreNow(), ph, bit));
    }

    /** Takes the step that needs no bit. */
    lemma Moves(ph: Phase, src: seq<byte>, input: seq<byte>, pos: nat, start: Machine, to: Machine)
      requires Stands(ph, src, input, pos, start) && !ph.Finished? && !ph.Opening? && !ph.NewSymbol?
      requires Move(p, Machine(CoreNow(), ph)) == Some(to)
      ensures Within(p, src, start, to) && Legal(p, to)
    {
      WithinOn(p, src, start, Machine(CoreNow(), ph), to);
    }

    /** One tree of the length coder. */
    method FastLenTree(tree: nat, bits: nat, input: seq<byte>, pos: nat, ghost kind: MatchType, ghost posState: nat,
                       ghost l: LenPhase, ghost src: seq<byte>, ghost start: Machine)
      returns (m: nat, next: nat)
      requires InTree(l) && l.m == 1 && l.bits == bits
      requires Stands(Length(kind, !kind.Simple?, posState, l), src, input, pos, start) && pos + bits <= |input|
      requires tree == LenTree(!kind.Simple?, posState, l)
      modifies this`range, this`code, this`probs, this`at
      ensures Stands(Length(kind, !kind.Simple?, posState, l.(m := m, bits := 0)), src, input, next, start)
      ensures pos <= next <= pos + bits && (next > pos || range <= old(range))
    {
      hide Legal, Within, SlidingWindow.Value, SlidingWindow.Valid;
      m := 1;
      next := pos;
      for k := 0 to bits
        invariant Stands(Length(kind, !kind.Simple?, posState, l.(m := m, bits := bits - k)), src, input, next, start)
        invariant pos <= next <= pos + k && (next > pos || range <= old(range))
      {
        ghost var now := l.(m := m, bits := bits - k);
        var bit;
        bit, next := FastBit(tree + m, input, next, Length(kind, !kind.Simple?, posState, now), src, start);
        m := 2 * m + Bit(bit);
        assert AfterLenBit(now, bit) == l.(m := m, bits := bits - k - 1);
      }
    }

    /** A tree of the length coder and the length, less 2, that it gives. */
    method FastLenPart(tree: nat, bits: nat, plus: nat, input: seq<byte>, pos: nat, ghost kind: MatchType,
                       ghost posState: nat, ghost l: LenPhase, ghost src: seq<byte>, ghost start: Machine)
      returns (len: nat, next: nat)
      requires (l == Low(1, 3) && plus == 0) || (l == Mid(1, 3) && plus == 8) || (l == High(1, 8) && plus == 16)
      requires l.bits == bits && tree == LenTree(!kind.Simple?, posState, l)
      requires Stands(Length(kind, !kind.Simple?, posState, l), src, input, pos, start) && pos + bits <= |input|
      modifies this`range, this`code, this`probs, this`at
      ensures window.Valid() && CoreFits(p, CoreNow()) && Feeds(src, input, next)
      ensures Within(p, src, start, LengthDone(p, CoreNow(), kind, len))
      ensures Legal(p, LengthDone(p, CoreNow(), kind, len))
      ensures len <= 271 && pos <= next <= pos + bits && (next > pos || range <= old(range))
    {
      hide Legal, Within, SlidingWindow.Value, SlidingWindow.Valid, LengthDone, CoreFits;
      var m;
      m, next := FastLenTree(tree, bits, input, pos, kind, posState, l, src, start);
      ghost var ph := Length(kind, !kind.Simple?, posState, l.(m := m, bits := 0));
      LeafFacts(ph);
      len := (if bits == 3 then m - 8 else m - 0x100) + plus;
      Moves(ph, src, input, next, start, LengthDone(p, CoreNow(), kind, len));
    }

    /** A whole length, less 2. */
    method FastLength(base: nat, posState: nat, input: seq<byte>, pos: nat, ghost kind: MatchType,
                      ghost src: seq<byte>, ghost start: Machine)
      returns (len: nat, next: nat)
      requires base == LenBase(!kind.Simple?)
      requires Stands(Length(kind, !kind.Simple?, posState, Choice), src, input, pos, start) && pos + 10 <= |input|
      modifies this`range, this`code, this`probs, this`at
      ensures window.Valid() && CoreFits(p, CoreNow()) && Feeds(src, input, next)
      ensures Within(p, src, start, LengthDone(p, CoreNow(), kind, len))
      ensures Legal(p, LengthDone(p, CoreNow(), kind, len))
      ensures len <= 271 && pos <= next <= pos + 10 && (next > pos || range <= old(range))
    {
      hide Legal, Within, SlidingWindow.Value, SlidingWindow.Valid, LengthDone, CoreFits;
      var bit;
      bit, next := FastBit(base, input, pos, Length(kind, !kind.Simple?, posState, Choice), src, start);
      if !bit {
        len, next := FastLenPart(base + 2 + posState * 8, 3, 0, input, next, kind, posState, Low(1, 3), src, start);
        return;
      }
      bit, next := FastBit(base + 1, input, next, Length(kind, !kind.Simple?, posState, Choice2), src, start);
      if !bit {
        len, next := FastLenPart(base + 130 + posState * 8, 3, 8, input, next, kind, posState, Mid(1, 3), src, start);
      } else {
        len, next := FastLenPart(base + 258, 8, 16, input, next, kind, posState, High(1, 8), src, start);
      }
    }

    lemma LeafFacts(ph: Phase)
      requires window.Valid() && Legal(p, Machine(CoreNow(), ph)) && ph.Length?
      ensures CoreFits(p, CoreNow())
      ensures ph.len.Low? || ph.len.Mid? ==> ph.len.bits == 0 ==> 8 <= ph.len.m < 16
      ensures ph.len.High? ==> ph.len.bits == 0 ==> 0x100 <= ph.len.m < 0x200
    {
      SmallPowers();
    }

    /** The slot of a distance. */
    method FastSlot(lenState: nat, input: seq<byte>, pos: nat, ghost length: nat, ghost src: seq<byte>,
                    ghost start: Machine)
      returns (slot: nat, next: nat)
      requires Stands(Distance(length, lenState, PosSlot(1, 6)), src, input, pos, start) && pos + 6 <= |input|
      modifies this`range, this`code, this`probs, this`at
      ensures window.Valid() && CoreFits(p, CoreNow()) && Feeds(src, input, next) && slot < 64
      ensures Within(p, src, start, SlotDone(p, CoreNow(), length, lenState, slot))
      ensures Legal(p, SlotDone(p, CoreNow(), length, lenState, slot))
      ensures pos <= next <= pos + 6 && (next > pos || range <= old(range))
    {
      hide Legal, Within, SlidingWindow.Value, SlidingWindow.Valid, SlotDone;
      var m: nat := 1;
      next := pos;
      for k := 0 to 6
        invariant Stands(Distance(length, lenState, PosSlot(m, 6 - k)), src, input, next, start)
        invariant m >= 1 && pos <= next <= pos + k && (next > pos || range <= old(range))
      {
        var bit;
        bit, next := FastBit(OFF_POS_SLOT + lenState * 64 + m, input, next,
                             Distance(length, lenState, PosSlot(m, 6 - k)), src, start);
        m := 2 * m + Bit(bit);
      }
      SlotLeaf(length, lenState, m);
      slot := m - 64;
      Moves(Distance(length, lenState, PosSlot(m, 0)), src, input, next, start,
            SlotDone(p, CoreNow(), length, lenState, slot));
    }

    lemma SlotLeaf(length: nat, lenState: nat, m: nat)
      requires window.Valid() && Legal(p, Machine(CoreNow(), Distance(length, lenState, PosSlot(m, 0))))
      ensures 64 <= m < 128 && CoreFits(p, CoreNow())
    {
      SmallPowers();
    }

    /** The low bits of a distance, lowest first; `d` is where they start. */
    method FastReverse(tree: nat, count: nat, input: seq<byte>, pos: nat, ghost length: nat, ghost lenState: nat,
                       ghost d: DistPhase, ghost src: seq<byte>, ghost start: Machine)
      returns (symbol: nat, next: nat)
      requires || (d.AlignBits? && count == 4 && tree == OFF_ALIGN)
               || (d.SpecPosBits? && count == d.bits && tree == d.offset)
      requires d.m == 1 && d.symbol == 0 && d.i == 0
      requires Stands(Distance(length, lenState, d), src, input, pos, start) && pos + count <= |input|
      modifies this`range, this`code, this`probs, this`at
      ensures window.Valid() && CoreFits(p, CoreNow()) && Feeds(src, input, next) && d.dist + symbol < TWO_32
      ensures Within(p, src, start, DistanceDone(p, CoreNow(), length, d.dist + symbol))
      ensures Legal(p, DistanceDone(p, CoreNow(), length, d.dist + symbol))
      ensures !AtLimit(p, CoreNow())
      ensures pos <= next <= pos + count && (next > pos || range <= old(range))
    {
      hide Legal, Within, SlidingWindow.Value, SlidingWindow.Valid, DistanceDone, Pow2;
      var m := 1;
      symbol := 0;
      next := pos;
      for i := 0 to count
        invariant m >= 1
        invariant Stands(Distance(length, lenState, d.(m := m, symbol := symbol, i := i)), src, input, next, start)
        invariant pos <= next <= pos + i && (next > pos || range <= old(range))
      {
        ghost var now := d.(m := m, symbol := symbol, i := i);
        var bit;
        bit, next := FastBit(tree + m, input, next, Distance(length, lenState, now), src, start);
        m := 2 * m + Bit(bit);
        symbol := symbol + (if bit then Pow2(i) else 0);
        assert AfterDistBit(now, bit) == d.(m := m, symbol := symbol, i := i + 1);
      }
      ghost var last := d.(m := m, symbol := symbol, i := count);
      ReverseLeaf(length, lenState, last);
      Moves(Distance(length, lenState, last), src, input, next, start,
            DistanceDone(p, CoreNow(), length, d.dist + symbol));
    }

    lemma ReverseLeaf(length: nat, lenState: nat, d: DistPhase)
      requires window.Valid() && Legal(p, Machine(CoreNow(), Distance(length, lenState, d))) && ReverseDone(d)
      ensures CoreFits(p, CoreNow()) && !AtLimit(p, CoreNow()) && d.dist + d.symbol < TWO_32
    {
      SmallPowers();
      if d.SpecPosBits? {
        SymbolBound(d.symbol, d.i, d.bits);
      }
    }

    /** The high bits of a long distance, coded without probabilities. */
    method FastDirect(head: nat, count: nat, input: seq<byte>, pos: nat, ghost length: nat, ghost lenState: nat,
                      ghost src: seq<byte>, ghost start: Machine)
      returns (dist: nat, next: nat)
      requires count <= 26 && pos + count <= |input|
      requires Stands(Distance(length, lenState, DirectBits(head, count)), src, input, pos, start)
      modifies this`range, this`code, this`corrupted, this`at
      ensures Stands(Distance(length, lenState, AlignBits(dist, 1, 0, 0)), src, input, next, start)
      ensures pos <= next <= pos + count && (next > pos || range <= old(range))
    {
      hide Legal, Within, SlidingWindow.Value, SlidingWindow.Valid;
      dist := head;
      next := pos;
      for k := 0 to count
        invariant Stands(Distance(length, lenState, DirectBits(dist, count - k)), src, input, next, start)
        invariant pos <= next <= pos + k && (next > pos || range <= old(range))
      {
        var bit;
        bit, next := FastDirectBit(input, next, Distance(length, lenState, DirectBits(dist, count - k)), src, start);
        dist := 2 * dist + Bit(bit);
      }
      ghost var to := Machine(CoreNow(), Distance(length, lenState, AlignBits(Wrap32(16 * dist), 1, 0, 0)));
      Moves(Distance(length, lenState, DirectBits(dist, 0)), src, input, next, start, to);
      dist := Wrap32(16 * dist);
    }

    /** A whole distance. */
    method FastDistance(lenState: nat, input: seq<byte>, pos: nat, ghost length: nat,
                        ghost src: seq<byte>, ghost start: Machine)
      returns (dist: nat, next: nat)
      requires Stands(Distance(length, lenState, PosSlot(1, 6)), src, input, pos, start) && pos + 36 <= |input|
      modifies this`range, this`code, this`corrupted, this`probs, this`at
      ensures window.Valid() && CoreFits(p, CoreNow()) && Feeds(src, input, next)
      ensures Within(p, src, start, DistanceDone(p, CoreNow(), length, dist))
      ensures Legal(p, DistanceDone(p, CoreNow(), length, dist))
      ensures dist < TWO_32 && pos <= next <= pos + 36 && (next > pos || range <= old(range))
    {
      hide Legal, Within, SlidingWindow.Value, SlidingWindow.Valid, DistanceDone, Pow2;
      var slot;
      slot, next := FastSlot(lenState, input, pos, length, src, start);
      if slot < 4 {
        return slot, next;
      }
      var bits, head := slot / 2 - 1, 2 + slot % 2;
      if slot < 14 {
        SpecStartLegal(slot);
        var far := head * Pow2(bits);
        var symbol;
        symbol, next := FastReverse(OFF_POS_DECODERS + far - slot, bits, input, next, length, lenState,
                                    SpecPosBits(far, OFF_POS_DECODERS + far - slot, 1, 0, 0, bits), src, start);
        dist := far + symbol;
      } else {
        var far, symbol;
        far, next := FastDirect(head, bits - 4, input, next, length, lenState, src, start);
        symbol, next := FastReverse(OFF_ALIGN, 4, input, next, length, lenState, AlignBits(far, 1, 0, 0), src, start);
        dist := far + symbol;
      }
    }

    /** The bits of a literal whose first bit said so. */
    method FastLiteralBits(lit: nat, matched: bool, matchByte: byte, input: seq<byte>, pos: nat,
                           ghost src: seq<byte>, ghost start: Machine)
      returns (b: byte, ghost ph: Phase, next: nat)
      requires Stands(Literal(1, lit, matched, matchByte), src, input, pos, start) && pos + 8 <= |input|
      modifies this`range, this`code, this`probs, this`at
      ensures Stands(ph, src, input, next, start) && ph.Literal? && ph.symbol == 0x100 + b
      ensures pos <= next <= pos + 8 && (next > pos || range <= old(range))
    {
      hide Legal, Within, SlidingWindow.Value, SlidingWindow.Valid;
      var symbol, seen, same, offset := 1, matchByte, matched, BASE_PROBS_SIZE + LIT_SIZE * lit;
      next := pos;
      for k := 0 to 8
        invariant Pow2(k) <= symbol < 2 * Pow2(k)
        invariant Stands(Literal(symbol, lit, same, seen), src, input, next, start)
        invariant pos <= next <= pos + k && (next > pos || range <= old(range))
      {
        Below256(k);
        var index := offset + symbol;
        var matchBit := seen / 0x80;
        if same {
          index := index + 0x100 * (1 + matchBit);
        }
        var bit;
        bit, next := FastBit(index, input, next, Literal(symbol, lit, same, seen), src, start);
        symbol := 2 * symbol + Bit(bit);
        if same {
          seen := ShiftByte(seen);
          same := matchBit == Bit(bit);
        }
      }
      SmallPowers();
      b := symbol - 0x100;
      ph := Literal(symbol, lit, same, seen);
    }

    lemma Below256(k: nat)
      requires k < 8
      ensures 2 * Pow2(k) <= 0x100
    {
      SmallPowers();
      Pow2Mono(k, 7);
    }

    /** A byte to the window and straight to the output. */
    method EmitByte(b: byte, output: array<byte>, outPos: nat)
      requires window.Valid() && outPos < output.Length && output != window.buf && window.pending == []
      modifies this`decoded, this`sent, window`pos, window`totalPos, window`isFull, window.buf, output
      ensures window.Valid() && CoreNow() == PutByte(old(CoreNow()), b)
      ensures sent == old(sent) + output[outPos..outPos + 1]
      ensures output[..outPos] == old(output[..outPos]) && output[outPos + 1..] == old(output[outPos + 1..])
    {
      window.PutByteDirect(b);
      output[outPos] := b;
      assert output[outPos..outPos + 1] == [b];
      decoded := decoded + 1;
      Associates(sent, [b], []);
      assert sent + [] == sent && [b] + [] == [b];
      assert (sent + [b]) + [] == (sent + []) + [b];
      sent := sent + [b];
    }

    /** A literal: IsMatch was 0. */
    method FastLiteral(input: seq<byte>, pos: nat, output: array<byte>, outPos: nat,
                       ghost src: seq<byte>, ghost start: Machine)
      returns (next: nat)
      requires window.Valid() && CoreFits(p, CoreNow())
      requires Stands(StartLiteral(p, CoreNow()), src, input, pos, start)
      requires pos + 8 <= |input| && outPos < output.Length && output != window.buf
      requires phase.NewSymbol? && window.pending == []
      modifies this`range, this`code, this`probs, this`at, this`state, this`decoded, this`sent
      modifies window`pos, window`totalPos, window`isFull, window.buf, output
      ensures InSymbol(src, input, next, start)
      ensures pos <= next <= pos + 8 && (next > pos || range <= old(range))
      ensures sent == old(sent) + output[outPos..outPos + 1]
      ensures output[..outPos] == old(output[..outPos]) && output[outPos + 1..] == old(output[outPos + 1..])
    {
      hide Legal, Within;
      hide SlidingWindow.Value, SlidingWindow.Valid, Pow2, Times, Window.Get;
      var prev := 0;
      if !window.IsEmpty() {
        prev := window.GetByte(1);
      }
      var lit := Times(Remainder(window.totalPos, Pow2(p.lp)), Pow2(p.lc)) + Quotient(prev, Pow2(8 - p.lc));
      var matched := state >= 7;
      var matchByte := 0;
      if matched {
        matchByte := window.GetByte(reps.r0 + 1);
      }
      var b;
      ghost var ph;
      b, ph, next := FastLiteralBits(lit, matched, matchByte, input, pos, src, start);
      FinishFastLiteral(b, ph, input, next, output, outPos, src, start);
    }

    method FinishFastLiteral(b: byte, ghost ph: Phase, input: seq<byte>, pos: nat, output: array<byte>, outPos: nat,
                             ghost src: seq<byte>, ghost start: Machine)
      requires Stands(ph, src, input, pos, start) && ph.Literal? && ph.symbol == 0x100 + b
      requires outPos < output.Length && output != window.buf
      requires phase.NewSymbol? && window.pending == []
      modifies this`state, this`decoded, this`sent
      modifies window`pos, window`totalPos, window`isFull, window.buf, output
      ensures InSymbol(src, input, pos, start)
      ensures sent == old(sent) + output[outPos..outPos + 1]
      ensures output[..outPos] == old(output[..outPos]) && output[outPos + 1..] == old(output[outPos + 1..])
    {
      hide Legal, Within, SlidingWindow.Value, SlidingWindow.Valid;
      ghost var c := CoreNow();
      ghost var to := Machine(LzmaMachine.PutByte(c, b).(state := AfterLiteral(c.state)), NewSymbol);
      Moves(ph, src, input, pos, start, to);
      EmitByte(b, output, outPos);
      state := AfterLiteral(state);
    }

    /** A match, capped at the declared size. */
    method EmitMatch(back: nat, len: nat, input: seq<byte>, pos: nat, output: array<byte>, outPos: nat,
                     ghost src: seq<byte>, ghost start: Machine)
      returns (outNext: nat)
      requires window.Valid() && CoreFits(p, CoreNow()) && !AtLimit(p, CoreNow()) && Feeds(src, input, pos)
      requires 2 <= len <= 273 && outPos + 273 <= output.Length && output != window.buf && back < window.buf.Length
      requires Legal(p, StartCopy(p, CoreNow(), back, len)) && Within(p, src, start, StartCopy(p, CoreNow(), back, len))
      requires phase.NewSymbol? && window.pending == []
      modifies this`decoded, this`sent, window`pos, window`totalPos, window`isFull, window.buf, output
      ensures InSymbol(src, input, pos, start)
      ensures outPos < outNext <= outPos + 273
      ensures sent == old(sent) + output[outPos..outNext]
      ensures output[..outPos] == old(output[..outPos]) && output[outNext..] == old(output[outNext..])
    {
      hide Legal, Within, SlidingWindow.Value, SlidingWindow.Valid, Copied, Continued;
      ghost var c := CoreNow();
      var n := len;
      if p.unpack.Some? && p.unpack.value - decoded < n {
        n := p.unpack.value - decoded;
      }
      CopyRuns(p, src, start, c, back, n);
      window.CopyMatchTo(back + 1, n, output, outPos);
      decoded := decoded + n;
      sent := sent + output[outPos..outPos + n];
      assert c.out == old(sent) + [] && old(sent) + [] == old(sent) && sent + [] == sent;
      outNext := outPos + n;
    }

    /** A match at a new distance: IsRep was 0. */
    method FastMatch(posState: nat, input: seq<byte>, pos: nat, output: array<byte>, outPos: nat,
                     ghost src: seq<byte>, ghost start: Machine)
      returns (next: nat, outNext: nat)
      requires window.Valid() && CoreFits(p, CoreNow()) && Feeds(src, input, pos)
      requires Legal(p, AfterBit(p, CoreNow(), NeedIsRep(posState), false))
      requires Within(p, src, start, AfterBit(p, CoreNow(), NeedIsRep(posState), false))
      requires phase.NewSymbol? && window.pending == [] && output != window.buf
      requires pos + 46 <= |input| && outPos + 273 <= output.Length
      modifies this`range, this`code, this`corrupted, this`probs, this`at, this`state, this`reps, this`phase
      modifies this`decoded, this`sent, window`pos, window`totalPos, window`isFull, window.buf, output
      ensures InSymbol(src, input, next, start) && (phase.NewSymbol? || phase.Finished?)
      ensures pos <= next <= pos + 46 && (next > pos || range <= old(range))
      ensures outPos <= outNext <= outPos + 273 && window.pending == []
      ensures sent == old(sent) + output[outPos..outNext]
      ensures output[..outPos] == old(output[..outPos]) && output[outNext..] == old(output[outNext..])
    {
      hide Legal, Within, Index, Move, AfterBit, DistanceDone, LzmaMachine.PutByte,
           Pow2, SlidingWindow.Value, SlidingWindow.Valid;
      ghost var c0 := CoreNow();
      NewMatchFits(c0, posState);
      reps := Reps(reps.r0, reps.r0, reps.r1, reps.r2);
      state := AfterMatch(state);
      var len, dist;
      len, next := FastLength(OFF_LEN_CODER, posState, input, pos, Simple, src, start);
      var lenState := if len < 3 then len else 3;
      dist, next := FastDistance(lenState, input, next, len + 2, src, start);
      outNext := ApplyMatch(dist, len + 2, input, next, output, outPos, src, start);
    }

    lemma NewMatchFits(c: Core, posState: nat)
      requires c.win.Fits() && p.Fits() && c.reps.r0 < |c.win.past|
      ensures AfterBit(p, c, NeedIsRep(posState), false)
           == Machine(c.(reps := Reps(c.reps.r0, c.reps.r0, c.reps.r1, c.reps.r2), state := AfterMatch(c.state)),
                      Length(Simple, false, posState, Choice))
    {
    }

    /** Ends the stream or copies the match. */
    method ApplyMatch(dist: nat, length: nat, input: seq<byte>, pos: nat, output: array<byte>, outPos: nat,
                      ghost src: seq<byte>, ghost start: Machine)
      returns (outNext: nat)
      requires window.Valid() && CoreFits(p, CoreNow()) && Feeds(src, input, pos)
      requires dist < TWO_32 && 2 <= length <= 273
      requires Legal(p, DistanceDone(p, CoreNow(), length, dist))
      requires Within(p, src, start, DistanceDone(p, CoreNow(), length, dist))
      requires phase.NewSymbol? && window.pending == [] && output != window.buf && outPos + 273 <= output.Length
      modifies this`reps, this`phase
      modifies this`decoded, this`sent, window`pos, window`totalPos, window`isFull, window.buf, output
      ensures InSymbol(src, input, pos, start) && (phase.NewSymbol? || phase.Finished?)
      ensures outPos <= outNext <= outPos + 273 && window.pending == []
      ensures sent == old(sent) + output[outPos..outNext]
      ensures output[..outPos] == old(output[..outPos]) && output[outNext..] == old(output[outNext..])
    {
      hide Legal, Within, SlidingWindow.Value, SlidingWindow.Valid;
      assert sent == sent + output[outPos..outPos];
      if dist == 0xFFFF_FFFF {
        phase := Finished(WithMark);
        return outPos;
      }
      if dist >= window.buf.Length || !window.CheckDistance(dist) {
        phase := Finished(WithMark);
        return outPos;
      }
      reps := reps.(r0 := dist);
      CopyNotAtLimit(CoreNow(), dist, length);
      outNext := EmitMatch(dist, length, input, pos, output, outPos, src, start);
    }

    lemma CopyNotAtLimit(c: Core, back: nat, len: nat)
      requires Legal(p, StartCopy(p, c, back, len))
      ensures !AtLimit(p, c) && CoreFits(p, c)
    {
    }

    /** A repeated match: IsRep was 1. */
    method FastRepMatch(posState: nat, input: seq<byte>, pos: nat, output: array<byte>, outPos: nat,
                     ghost src: seq<byte>, ghost start: Machine)
      returns (next: nat, outNext: nat)
      requires window.Valid() && Feeds(src, input, pos)
      requires Legal(p, AfterIsRep(p, CoreNow(), posState)) && !AtLimit(p, CoreNow())
      requires Within(p, src, start, AfterIsRep(p, CoreNow(), posState))
      requires phase.NewSymbol? && window.pending == [] && output != window.buf
      requires pos + 14 <= |input| && outPos + 273 <= output.Length
      modifies this`range, this`code, this`corrupted, this`probs, this`at, this`state, this`reps, this`phase
      modifies this`decoded, this`sent, window`pos, window`totalPos, window`isFull, window.buf, output
      ensures InSymbol(src, input, next, start) && (phase.NewSymbol? || phase.Finished?)
      ensures pos <= next <= pos + 14
      ensures next > pos || range <= old(range)
      ensures outPos <= outNext <= outPos + 273 && window.pending == []
      ensures sent == old(sent) + output[outPos..outNext]
      ensures output[..outPos] == old(output[..outPos]) && output[outNext..] == old(output[outNext..])
    {
      hide Legal, Within, LzmaMachine.PutByte, Pow2, LitState, StartLiteral,
           AfterLenBit, AfterDistBit, SlidingWindow.Value, SlidingWindow.Valid;
      if window.IsEmpty() {
        phase := Finished(WithMark);
        assert sent == sent + output[outPos..outPos];
        return pos, outPos;
      }
      var bit;
      bit, next := FastBit(OFF_IS_REP_G0 + state, input, pos, NeedRepG0(posState), src, start);
      if !bit {
        bit, next := FastBit(OFF_IS_REP0_LONG + state * 16 + posState, input, next, NeedRep0Long(posState), src, start);
        if !bit {
          outNext := FastShortRep(input, next, output, outPos, src, start);
          return;
        }
        next, outNext := FastRepCopy(reps, Rep0, posState, input, next, output, outPos, src, start);
        return;
      }
      next, outNext := FastRepFar(posState, input, next, output, outPos, src, start);
    }

    /** Not the last distance, but one of the three before it. */
    method FastRepFar(posState: nat, input: seq<byte>, pos: nat, output: array<byte>, outPos: nat,
                      ghost src: seq<byte>, ghost start: Machine)
      returns (next: nat, outNext: nat)
      requires window.Valid() && Feeds(src, input, pos)
      requires Legal(p, Machine(CoreNow(), NeedRepG1(posState)))
        && Within(p, src, start, Machine(CoreNow(), NeedRepG1(posState)))
      requires phase.NewSymbol? && window.pending == [] && output != window.buf
      requires pos + 12 <= |input| && outPos + 273 <= output.Length
      modifies this`range, this`code, this`corrupted, this`probs, this`at, this`state, this`reps, this`phase
      modifies this`decoded, this`sent, window`pos, window`totalPos, window`isFull, window.buf, output
      ensures InSymbol(src, input, next, start) && (phase.NewSymbol? || phase.Finished?)
      ensures pos <= next <= pos + 12
      ensures next > pos || range <= old(range)
      ensures outPos <= outNext <= outPos + 273 && window.pending == []
      ensures sent == old(sent) + output[outPos..outNext]
      ensures output[..outPos] == old(output[..outPos]) && output[outNext..] == old(output[outNext..])
    {
      hide Legal, Within, LzmaMachine.PutByte, Pow2, LitState, StartLiteral,
           AfterLenBit, AfterDistBit, SlidingWindow.Value, SlidingWindow.Valid;
      var bit;
      bit, next := FastBit(OFF_IS_REP_G1 + state, input, pos, NeedRepG1(posState), src, start);
      if !bit {
        next, outNext := FastRepCopy(Reps(reps.r1, reps.r0, reps.r2, reps.r3), Rep1, posState,
                                     input, next, output, outPos, src, start);
        return;
      }
      bit, next := FastBit(OFF_IS_REP_G2 + state, input, next, NeedRepG2(posState), src, start);
      if !bit {
        next, outNext := FastRepCopy(Reps(reps.r2, reps.r0, reps.r1, reps.r3), Rep2, posState,
                                     input, next, output, outPos, src, start);
      } else {
        next, outNext := FastRepCopy(Reps(reps.r3, reps.r0, reps.r1, reps.r2), Rep3, posState,
                                     input, next, output, outPos, src, start);
      }
    }

    /** One byte at the last distance. */
    method FastShortRep(input: seq<byte>, pos: nat, output: array<byte>, outPos: nat,
                        ghost src: seq<byte>, ghost start: Machine)
      returns (outNext: nat)
      requires window.Valid() && Feeds(src, input, pos)
      requires var m := Machine(CoreNow().(state := AfterShortRep(state)), CopyMatch(reps.r0, 1));
               Legal(p, m) && Within(p, src, start, m)
      requires phase.NewSymbol? && window.pending == [] && output != window.buf && outPos + 273 <= output.Length
      modifies this`state, this`decoded, this`sent
      modifies window`pos, window`totalPos, window`isFull, window.buf, output
      ensures InSymbol(src, input, pos, start)
      ensures outNext == outPos + 1
      ensures sent == old(sent) + output[outPos..outNext]
      ensures output[..outPos] == old(output[..outPos]) && output[outNext..] == old(output[outNext..])
    {
      hide Legal, Within, SlidingWindow.Value, SlidingWindow.Valid;
      state := AfterShortRep(state);
      CopyFits(p, CoreNow(), reps.r0, 1);
      var b := window.GetByte(reps.r0 + 1);
      Moves(CopyMatch(reps.r0, 1), src, input, pos, start, Machine(LzmaMachine.PutByte(CoreNow(), b), NewSymbol));
      EmitByte(b, output, outPos);
      outNext := outPos + 1;
    }

    /** The repeated distance is chosen; its length and the copy remain. */
    method FastRepCopy(chosen: Reps, ghost kind: MatchType, posState: nat,
                     input: seq<byte>, pos: nat, output: array<byte>, outPos: nat,
                     ghost src: seq<byte>, ghost start: Machine)
      returns (next: nat, outNext: nat)
      requires window.Valid() && Feeds(src, input, pos) && !kind.Simple?
      requires var m := Machine(CoreNow().(reps := chosen, state := AfterRep(state)),
          Length(kind, true, posState, Choice));
               Legal(p, m) && Within(p, src, start, m)
      requires phase.NewSymbol? && window.pending == [] && output != window.buf
      requires pos + 10 <= |input| && outPos + 273 <= output.Length
      modifies this`range, this`code, this`corrupted, this`probs, this`at, this`state, this`reps, this`phase
      modifies this`decoded, this`sent, window`pos, window`totalPos, window`isFull, window.buf, output
      ensures InSymbol(src, input, next, start) && (phase.NewSymbol? || phase.Finished?)
      ensures pos <= next <= pos + 10
      ensures next > pos || range <= old(range)
      ensures outPos <= outNext <= outPos + 273 && window.pending == []
      ensures sent == old(sent) + output[outPos..outNext]
      ensures output[..outPos] == old(output[..outPos]) && output[outNext..] == old(output[outNext..])
    {
      hide Legal, Within, Index, Move, AfterBit, LzmaMachine.PutByte, Pow2, SlidingWindow.Value, SlidingWindow.Valid;
      reps := chosen;
      state := AfterRep(state);
      var len;
      len, next := FastLength(OFF_REP_LEN_CODER, posState, input, pos, kind, src, start);
      CopyNotAtLimit(CoreNow(), reps.r0, len + 2);
      outNext := EmitMatch(reps.r0, len + 2, input, next, output, outPos, src, start);
    }

    /** One whole symbol, to the next boundary: at most 64 bytes in, at most
        273 bytes out. */
    method FastSymbol(input: seq<byte>, pos: nat, output: array<byte>, outPos: nat,
                     ghost src: seq<byte>, ghost start: Machine)
      returns (next: nat, outNext: nat)
      requires OnTrack(src, input, pos, start) && !AtLimit(p, CoreNow())
      requires phase.NewSymbol? && window.pending == [] && output != window.buf
      requires pos + 64 <= |input| && outPos + 273 <= output.Length
      modifies this`range, this`code, this`corrupted, this`probs, this`at, this`state, this`reps, this`phase
      modifies this`decoded, this`sent, window`pos, window`totalPos, window`isFull, window.buf, output
      ensures OnTrack(src, input, next, start) && NextBoundary(p, src, old(Now()), Now())
      ensures phase.NewSymbol? || phase.Finished?
      ensures pos <= next <= pos + 64
      ensures next > pos || range < old(range)
      ensures outPos <= outNext <= outPos + 273 && window.pending == []
      ensures sent == old(sent) + output[outPos..outNext]
      ensures output[..outPos] == old(output[..outPos]) && output[outNext..] == old(output[outNext..])
    {
      hide Legal, Leads, Within, NextBoundary;
      ghost var here := Now();
      WithinNowhere(p, src, here);
      next, outNext := FastSymbolFrom(input, pos, output, outPos, src, here);
      WithinLeads(p, src, here, Now());
      LeadsTransitive(p, src, start, here, Now());
      BoundaryReached(p, src, here, Now());
    }

    method FastSymbolFrom(input: seq<byte>, pos: nat, output: array<byte>, outPos: nat,
                          ghost src: seq<byte>, ghost start: Machine)
      returns (next: nat, outNext: nat)
      requires InSymbol(src, input, pos, start) && start == Now() && !AtLimit(p, CoreNow())
      requires phase.NewSymbol? && window.pending == [] && output != window.buf
      requires pos + 64 <= |input| && outPos + 273 <= output.Length
      modifies this`range, this`code, this`corrupted, this`probs, this`at, this`state, this`reps, this`phase
      modifies this`decoded, this`sent, window`pos, window`totalPos, window`isFull, window.buf, output
      ensures InSymbol(src, input, next, start) && (phase.NewSymbol? || phase.Finished?)
      ensures pos <= next <= pos + 64
      ensures next > pos || range < old(range)
      ensures outPos <= outNext <= outPos + 273 && window.pending == []
      ensures sent == old(sent) + output[outPos..outNext]
      ensures output[..outPos] == old(output[..outPos]) && output[outNext..] == old(output[outNext..])
    {
      hide Legal, Within, LitState, SlidingWindow.Valid;
      var posState := window.totalPos % Pow2(p.pb);
      var bit;
      bit, next := FastBit(OFF_IS_MATCH + state * 16 + posState, input, pos, NewSymbol, src, start);
      if !bit {
        next := FastLiteral(input, next, output, outPos, src, start);
        return next, outPos + 1;
      }
      bit, next := FastBit(OFF_IS_REP + state, input, next, NeedIsRep(posState), src, start);
      if !bit {
        next, outNext := FastMatch(posState, input, next, output, outPos, src, start);
      } else {
        next, outNext := FastRepMatch(posState, input, next, output, outPos, src, start);
      }
    }

    /** Symbol after symbol, until a margin is too small for one more. */
    method DecodeFast(input: seq<byte>, pos: nat, output: array<byte>, outPos: nat,
                      ghost src: seq<byte>, ghost start: Machine)
      returns (next: nat, outNext: nat)
      requires OnTrack(src, input, pos, start) && phase.NewSymbol? && window.pending == []
      requires output != window.buf && outPos <= output.Length
      modifies this`range, this`code, this`corrupted, this`probs, this`at, this`state, this`reps, this`phase
      modifies this`decoded, this`sent, window`pos, window`totalPos, window`isFull, window.buf, output
      ensures OnTrack(src, input, next, start) && (phase.NewSymbol? || phase.Finished?)
      ensures pos <= next && (next > pos || range <= old(range))
      ensures outPos <= outNext <= output.Length && window.pending == []
      ensures sent == old(sent) + output[outPos..outNext]
      ensures output[..outPos] == old(output[..outPos]) && output[outNext..] == old(output[outNext..])
    {
      hide Legal, Leads, SlidingWindow.Value, SlidingWindow.Valid;
      ghost var sent0 := sent;
      next, outNext := pos, outPos;
      while phase.NewSymbol?
        invariant OnTrack(src, input, next, start) && (phase.NewSymbol? || phase.Finished?)
        invariant pos <= next && (next > pos || range <= old(range))
        invariant outPos <= outNext <= output.Length && window.pending == []
        invariant sent == sent0 + output[outPos..outNext]
        invariant output[..outPos] == old(output[..outPos]) && output[outNext..] == old(output[outNext..])
        decreases |input| - next, range
      {
        if next + IN_MARGIN > |input| || outNext + OUT_MARGIN > output.Length {
          break;
        }
        if p.unpack.Some? && decoded >= p.unpack.value {
          break;
        }
        ghost var mid, from := output[..], outNext;
        next, outNext := FastSymbol(input, next, output, outNext, src, start);
        OutputJoins(sent0, mid, output[..], outPos, from, outNext);
      }
    }

    // ─── The decoder ─────────────────────────────────────────────

    /** Whether an arm of the resumable path stopped where it must. */
    ghost predicate NeedsInput()
      reads this, window, window.buf
    {
      phase.Opening? || Blocked()
    }

    /** One arm other than copying and finishing. */
    method DecodeArm(input: seq<byte>, pos: nat, ghost src: seq<byte>, ghost start: Machine) returns (r: Arm)
      requires OnTrack(src, input, pos, start) && window.pending == []
      requires !phase.Finished? && !phase.CopyMatch? && !(phase.NewSymbol? && AtLimit(p, CoreNow()))
      modifies this`range, this`code, this`corrupted, this`probs, this`at, this`state, this`reps, this`phase
      modifies this`decoded, window, window.buf
      ensures OnTrack(src, input, r.next, start) && pos <= r.next
      ensures r.Hungry? ==> r.next == |input| && NeedsInput() && window.pending == []
      ensures r.Ran? && r.next == pos ==>
                range < old(range) || (range == old(range) && Rank(phase) < Rank(old(phase)))
    {
      hide Leads, Legal, Move, LitState, SlidingWindow.Value, SlidingWindow.Valid;
      match phase {
        case Opening(_) => r := InitRange(input, pos, src, start);
        case NewSymbol => r := DecodeIsMatch(input, pos, src, start);
        case NeedIsRep(_) => r := DecodeIsRep(input, pos, src, start);
        case NeedRepG0(posState) =>
          RepTypeAgain(posState);
          r := DecodeRepType(input, pos, posState, src, start);
        case NeedRep0Long(_) => r := DecodeRep0Long(input, pos, src, start);
        case NeedRepG1(_) => r := DecodeRepG1(input, pos, src, start);
        case NeedRepG2(_) => r := DecodeRepG2(input, pos, src, start);
        case Literal(_, _, _, _) => r := ContinueLiteral(input, pos, src, start);
        case Length(_, _, _, _) => r := DecodeLength(input, pos, src, start);
        case Distance(_, _, _) => r := DecodeDistance(input, pos, src, start);
      }
    }

    lemma RepTypeAgain(posState: nat)
      requires Valid() && phase == NeedRepG0(posState)
      ensures AfterIsRep(p, CoreNow(), posState) == Now()
    {
    }

    /** Decodes from `input`, which is what `src` has at `at`, into `output`.
        Wherever it stops, it has only taken steps of the machine, and what
        is delivered and pending is what the machine wrote. */
    method Decode(input: seq<byte>, output: array<byte>, ghost src: seq<byte>) returns (r: DecodeResult)
      requires Valid() && output != window.buf
      requires at + |input| <= |src| && src[at..at + |input|] == input
      modifies this, window, window.buf, output
      ensures Valid() && Leads(p, src, old(Now()), Now())
      ensures r.consumed <= |input| && at == old(at) + r.consumed
      ensures r.produced <= output.Length && sent == old(sent) + output[..r.produced]
      ensures output[r.produced..] == old(output[r.produced..])
      ensures match r.status
              case Continue => r.produced == output.Length
              case Ended(status) => phase == Finished(status) && window.pending == []
              case NeedInput => r.consumed == |input| && window.pending == [] && NeedsInput()
    {
      hide Leads, Legal, Move, LitState, SlidingWindow.Value, SlidingWindow.Valid;
      ghost var start := Now();
      LeadsNowhere(p, src, start);
      base := at;
      var inPos: nat := 0;
      var outPos: nat := 0;
      if window.pending != [] {
        outPos := Drain(output, 0);
        if window.pending != [] || outPos >= output.Length {
          return DecodeResult(0, outPos, if phase.Finished? && window.pending == [] then Ended(phase.status)
              else Continue);
        }
      }
      assert sent == old(sent) + output[..outPos];
      while true
        invariant OnTrack(src, input, inPos, start) && base == old(at)
        invariant outPos <= output.Length && sent == old(sent) + output[..outPos]
        invariant output[outPos..] == old(output[outPos..])
        decreases |input| - inPos, range, Rank(phase), |window.pending|
      {
        ghost var mid, from := output[..], outPos;
        var arm;
        arm, outPos := DecodeOnce(input, inPos, output, outPos, src, start);
        OutputJoins(old(sent), mid, output[..], 0, from, outPos);
        match arm {
          case Stop(r0) => return r0;
          case Go(next) => inPos := next;
        }
      }
    }

    /** What a round that started at `pos` leads to: either it made progress
        and the loop goes on, or the call returns and says why. */
    ghost predicate Outcome(turn: Turn, src: seq<byte>, input: seq<byte>, pos: nat, start: Machine,
                            outNext: nat, room: nat, range0: u32, rank0: nat)
      reads this, window, window.buf
    {
      match turn
      case Go(next) =>
        && OnTrack(src, input, next, start) && pos <= next
        && (next == pos ==> range < range0 || (range == range0 && Rank(phase) < rank0))
      case Stop(r) =>
        && OnTrack(src, input, r.consumed, start) && r.produced == outNext
        && match r.status
           case Continue => outNext == room
           case Ended(status) => phase == Finished(status) && window.pending == []
           case NeedInput => r.consumed == |input| && window.pending == [] && NeedsInput()
    }

    /** One round of the decoder's loop. */
    method DecodeOnce(input: seq<byte>, pos: nat, output: array<byte>, outPos: nat,
                      ghost src: seq<byte>, ghost start: Machine)
      returns (turn: Turn, outNext: nat)
      requires OnTrack(src, input, pos, start) && outPos <= output.Length && output != window.buf
      modifies this`range, this`code, this`corrupted, this`probs, this`at, this`state, this`reps, this`phase
      modifies this`decoded, this`sent, window, window.buf, output
      ensures outPos <= outNext <= output.Length && sent == old(sent) + output[outPos..outNext]
      ensures output[..outPos] == old(output[..outPos]) && output[outNext..] == old(output[outNext..])
      ensures Outcome(turn, src, input, pos, start, outNext, output.Length, old(range), Rank(old(phase)))
    {
      hide Leads, Legal, Move, LitState, SlidingWindow.Value, SlidingWindow.Valid;
      outNext := outPos;
      assert sent == sent + output[outPos..outPos];
      if window.pending != [] {
        outNext := Drain(output, outPos);
        if window.pending != [] || outNext >= output.Length {
          return Stop(DecodeResult(pos, outNext, Continue)), outNext;
        }
      }
      hide Outcome, OnTrack;
      ghost var mid, from := output[..], outNext;
      turn, outNext := DecodeTurn(input, pos, output, outNext, src, start);
      OutputJoins(old(sent), mid, output[..], outPos, from, outNext);
    }

    /** A round with nothing pending. */
    method DecodeTurn(input: seq<byte>, pos: nat, output: array<byte>, outPos: nat,
                      ghost src: seq<byte>, ghost start: Machine)
      returns (turn: Turn, outNext: nat)
      requires OnTrack(src, input, pos, start) && window.pending == []
      requires outPos <= output.Length && output != window.buf
      modifies this`range, this`code, this`corrupted, this`probs, this`at, this`state, this`reps, this`phase
      modifies this`decoded, this`sent, window, window.buf, output
      ensures outPos <= outNext <= output.Length && sent == old(sent) + output[outPos..outNext]
      ensures output[..outPos] == old(output[..outPos]) && output[outNext..] == old(output[outNext..])
      ensures Outcome(turn, src, input, pos, start, outNext, output.Length, old(range), Rank(old(phase)))
    {
      hide Leads, Legal, Move, LitState, SlidingWindow.Value, SlidingWindow.Valid;
      assert sent == sent + output[outPos..outPos];
      match phase {
        case Finished(status) =>
          return Stop(DecodeResult(pos, outPos, Ended(status))), outPos;
        case CopyMatch(_, _) =>
          outNext := CopyArm(output, outPos, src, start);
          turn := if phase.CopyMatch? then Stop(DecodeResult(pos, outNext, Continue)) else Go(pos);
        case NewSymbol =>
          turn, outNext := SymbolTurn(input, pos, output, outPos, src, start);
        case _ =>
          turn, outNext := ArmTurn(input, pos, output, outPos, src, start);
      }
    }

    method SymbolTurn(input: seq<byte>, pos: nat, output: array<byte>, outPos: nat,
                      ghost src: seq<byte>, ghost start: Machine)
      returns (turn: Turn, outNext: nat)
      requires OnTrack(src, input, pos, start) && window.pending == [] && phase.NewSymbol?
      requires outPos <= output.Length && output != window.buf
      modifies this`range, this`code, this`corrupted, this`probs, this`at, this`state, this`reps, this`phase
      modifies this`decoded, this`sent, window, window.buf, output
      ensures outPos <= outNext <= output.Length && sent == old(sent) + output[outPos..outNext]
      ensures output[..outPos] == old(output[..outPos]) && output[outNext..] == old(output[outNext..])
      ensures Outcome(turn, src, input, pos, start, outNext, output.Length, old(range), Rank(old(phase)))
    {
      hide Leads, Legal, LitState, SlidingWindow.Value, SlidingWindow.Valid;
      var next;
      next, outNext := DecodeFast(input, pos, output, outPos, src, start);
      if phase.Finished? {
        return Go(next), outNext;
      }
      if p.unpack.Some? && decoded >= p.unpack.value {
        MovesOn(p, src, start, Now(), Machine(CoreNow(), Finished(WithoutMark)));
        phase := Finished(WithoutMark);
        return Go(next), outNext;
      }
      ghost var mid, from := output[..], outNext;
      turn, outNext := ArmTurn(input, next, output, outNext, src, start);
      OutputJoins(old(sent), mid, output[..], outPos, from, outNext);
    }

    method ArmTurn(input: seq<byte>, pos: nat, output: array<byte>, outPos: nat,
                   ghost src: seq<byte>, ghost start: Machine)
      returns (turn: Turn, outNext: nat)
      requires OnTrack(src, input, pos, start) && window.pending == []
      requires !phase.Finished? && !phase.CopyMatch? && !(phase.NewSymbol? && AtLimit(p, CoreNow()))
      requires outPos <= output.Length && output != window.buf
      modifies this`range, this`code, this`corrupted, this`probs, this`at, this`state, this`reps, this`phase
      modifies this`decoded, this`sent, window, window.buf, output
      ensures outPos <= outNext <= output.Length && sent == old(sent) + output[outPos..outNext]
      ensures output[..outPos] == old(output[..outPos]) && output[outNext..] == old(output[outNext..])
      ensures Outcome(turn, src, input, pos, start, outNext, output.Length, old(range), Rank(old(phase)))
    {
      hide Leads, Legal, Move, LitState, SlidingWindow.Value, SlidingWindow.Valid;
      assert sent == sent + output[outPos..outPos];
      var wasLiteral := phase.Literal?;
      outNext := outPos;
      var arm := DecodeArm(input, pos, src, start);
      if arm.Hungry? {
        return Stop(DecodeResult(arm.next, outPos, NeedInput)), outPos;
      }
      if wasLiteral {
        outNext := Drain(output, outPos);
      }
      turn := Go(arm.next);
    }

    // ─── What a call leaves ──────────────────────────────────────

    /** With nothing pending, what was delivered is what was written. */
    lemma DeliversPart(written: seq<byte>)
      requires window.Valid() && Now().core.out <= written
      ensures sent <= written && Now().core.out == sent + window.pending
      ensures window.pending == [] ==> sent == Now().core.out
    {
      hide SlidingWindow.Value, SlidingWindow.Valid;
      assert sent <= sent + window.pending;
    }

    lemma EndedIsStuck(src: seq<byte>)
      requires Valid() && phase.Finished?
      ensures Stuck(p, src, Now()) && Now().phase == phase
    {
    }

    lemma HungryIsStuck(src: seq<byte>)
      requires Valid() && NeedsInput() && at >= |src|
      ensures Stuck(p, src, Now()) && Now().phase == phase && !phase.Finished?
    {
      hide Legal, Move;
    }
  }

  // ─── Whole streams ───────────────────────────────────────────────

  lemma OnTheWay(p: Params, src: seq<byte>, start: Machine, now: Machine)
    requires Legal(p, start) && start.core.dec.pos <= |src| && Leads(p, src, start, now)
    ensures now.core.out <= Whole(p, src, start).core.out
    ensures Stuck(p, src, now) ==> now == Whole(p, src, start)
  {
    hide Stuck, Leads, Legal, Whole;
    assert src[..|src|] == src;
    BeginsWhole(p, src, |src|, start, now);
  }

  /** A decoder saved between two calls and restored stands where the live one
      stood. Only a window over 2 GiB is lost. */
  method SaveAndRestore(decoder: LzmaDecoder) returns (r: LzmaDecoder?)
    requires decoder.Valid()
    ensures r == null <==> decoder.window.buf.Length > MAX_WINDOW
    ensures r != null ==> fresh(r) && fresh(r.window) && fresh(r.window.buf) && r.p == decoder.p && r.Valid()
    ensures r != null ==> r.Now() == decoder.Now() && r.at == decoder.at && r.sent == decoder.sent
    ensures r != null ==> r.window.buf.Length == decoder.window.buf.Length && r.window.pending == decoder.window.pending
  {
    hide Legal, SlidingWindow.Value, SlidingWindow.Valid;
    var saved := SavedDecoder(decoder.p, decoder.range, decoder.code, decoder.corrupted, decoder.probs,
                              decoder.state, decoder.reps, decoder.decoded, decoder.phase);
    var window := LzmaWindow.SaveAndRestore(decoder.window);
    if window == null {
      return null;
    }
    r := new LzmaDecoder.Restored(saved, window, decoder.at, decoder.sent);
  }

  datatype Decoded = Decoded(out: seq<byte>, ended: Option<Status>)

  /** What the unbroken decode of a stream gives. */
  function Unbroken(p: Params, dictSize: u32, src: seq<byte>): Decoded
    requires Legal(p, Fresh(p, DictSize(dictSize)))
  {
    var end := Whole(p, src, Fresh(p, DictSize(dictSize)));
    Decoded(end.core.out, if end.phase.Finished? then Some(end.phase.status) else None)
  }

  /** A stream handed over in pieces of any sizes, taken through buffers of any
      sizes, by a decoder that is replaced by a restored copy of itself between
      any two calls, comes out as the unbroken decode writes it and ends as it
      ends; unless a window too large to restore was to be restored. */
  method DecodeChunked(p: Params, dictSize: u32, src: seq<byte>, takes: nat -> nat, rooms: nat -> nat,
                       saves: nat -> bool)
    returns (r: Option<Decoded>)
    requires p.Fits() && forall k :: takes(k) > 0 && rooms(k) > 0
    ensures Legal(p, Fresh(p, DictSize(dictSize)))
    ensures r == None ==> DictSize(dictSize) > MAX_WINDOW && exists k :: saves(k)
    ensures r.Some? ==> r.value == Unbroken(p, dictSize, src)
  {
    hide Legal, Leads, Whole, Stuck, Move, LzmaDecoder.Now, LzmaDecoder.CoreNow, SlidingWindow.Value,
         SlidingWindow.Valid;
    var decoder := new LzmaDecoder(p, dictSize);
    ghost var start := decoder.Now();
    ghost var whole := Whole(p, src, start);
    LeadsNowhere(p, src, start);
    var out, pos, k: nat := [], 0, 0;
    while true
      invariant fresh(decoder) && fresh(decoder.window) && fresh(decoder.window.buf)
      invariant decoder.window.buf.Length == DictSize(dictSize)
      invariant decoder.p == p && decoder.Valid() && decoder.at == pos <= |src|
      invariant Leads(p, src, start, decoder.Now()) && out == decoder.sent
      decreases |src| - pos, |whole.core.out| - |out|
    {
      if saves(k) {
        var restored := SaveAndRestore(decoder);
        if restored == null {
          return None;
        }
        decoder := restored;
      }
      var input := src[pos..pos + Min(takes(k), |src| - pos)];
      var buf := new byte[rooms(k)](_ => 0);
      ghost var was := decoder.Now();
      var called := decoder.Decode(input, buf, src);
      LeadsTransitive(p, src, start, was, decoder.Now());
      OnTheWay(p, src, start, decoder.Now());
      decoder.DeliversPart(whole.core.out);
      out := out + buf[..called.produced];
      pos := pos + called.consumed;
      k := k + 1;
      match called.status {
        case Ended(status) =>
          decoder.EndedIsStuck(src);
          return Some(Decoded(out, Some(status)));
        case NeedInput =>
          if pos == |src| {
            decoder.HungryIsStuck(src);
            return Some(Decoded(out, None));
          }
        case Continue =>
      }
    }
  }

  /** The end of one round: go on from an input position, or return. */
  datatype Turn = Go(next: nat) | Stop(result: DecodeResult)

  /** What one symbol of the fast path may read and write. */
  const IN_MARGIN := 64
  const OUT_MARGIN := 273
}
