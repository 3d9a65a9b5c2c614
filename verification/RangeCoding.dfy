/**
  The adaptive binary range coder: the decoder shared by the BCJ2 stage and
  the LZMA decoder, and the carry-propagating encoder it inverts.

  An encoder stands for an interval [low, low + range) of the numbers that
  the finished stream may write in base 256; every bit keeps one part of it.
  The decoder's `code` is the offset, within the interval, of the digits it
  has read so far.
 */
module RangeCoding {
  import opened Arithmetic
  import opened Bytes
  import opened Wrappers

  const TOP := 0x100_0000
  const BIT_MODEL_TOTAL := 2048
  const MOVE := 32
  const FULL_RANGE: u32 := 0xFFFF_FFFF

  /** A probability the adaptation can reach. */
  type Prob = p: nat | 31 <= p <= 2017 witness 1024

  const HALF: Prob := 1024

  /** Moves the estimate 1/32 of the way towards the bit just coded. */
  function Adapt(p: Prob, bit: bool): Prob {
    if bit then p - p / MOVE else p + (BIT_MODEL_TOTAL - p) / MOVE
  }

  function Bound(range: nat, p: Prob): nat {
    p * (range / BIT_MODEL_TOTAL)
  }

  /** Estimates count of 2048 how likely a 0 is. They move by a 32nd of the way,
      rounded down, up on a 0 and down on a 1. */
  lemma EstimatesAre(p: Prob, range: nat)
    ensures HALF == 1024
    ensures var q := Adapt(p, false); 32 * (q - p) <= 2048 - p < 32 * (q - p) + 32
    ensures var q := Adapt(p, true); 32 * (p - q) <= p < 32 * (p - q) + 32
    ensures 2048 * Bound(range, p) == p * (range - range % 2048)
  {
    MulSwap(2048, p, range / 2048);
    assert range - range % 2048 == 2048 * (range / 2048);
  }

  /** A code in the lower part of the range, in proportion, is a 0. */
  lemma ChoiceIs(d: Decoder, p: Prob)
    requires d.range >= 0x100_0000
    ensures Choose(d, p).1 <==> 2048 * d.code >= p * (d.range - d.range % 2048)
  {
    EstimatesAre(p, d.range);
    hide Bound;
  }

  /** One renormalisation always suffices: both parts of a normalised range
      keep at least 2^16. */
  lemma BoundSplits(range: u32, p: Prob)
    requires range >= TOP
    ensures 0x1_0000 <= Bound(range, p) <= range - 0x1_0000
  {
    var q := range / BIT_MODEL_TOTAL;
    MulMono(31, p, q);
    MulMono(p, 2017, q);
  }

  // ─── Coding as interval narrowing ────────────────────────────────

  /** [low, low + range) at a scale where `digits` base-256 digits stand
      before the 32-bit part of `low`. */
  datatype Interval = Interval(low: nat, range: u32, digits: nat)

  const WHOLE := Interval(0, FULL_RANGE, 1)

  function Narrow(v: Interval, p: Prob, bit: bool): (w: Interval)
    requires v.range >= TOP
    ensures w.range >= 0x1_0000
  {
    BoundSplits(v.range, p);
    var bound := Bound(v.range, p);
    if bit then Interval(v.low + bound, v.range - bound, v.digits)
    else Interval(v.low, bound, v.digits)
  }

  function Renormalise(v: Interval): Interval {
    if v.range < TOP then Interval(0x100 * v.low, 0x100 * v.range, v.digits + 1) else v
  }

  /** Both halves of the range, whatever was coded before. */
  function Halve(v: Interval, bit: bool): (w: Interval)
    requires v.range >= TOP
    ensures w.range >= 0x1_0000
  {
    var half := v.range / 2;
    Interval(if bit then v.low + half else v.low, half, v.digits)
  }

  /** One bit: with the probability of its context, or without any. */
  datatype Event = Event(context: nat, bit: bool) | Direct(bit: bool)

  datatype Coder = Coder(interval: Interval, probs: seq<Prob>)

  predicate InRange(e: Event, contexts: nat) {
    e.Event? ==> e.context < contexts
  }

  ghost predicate InTable(events: seq<Event>, contexts: nat) {
    forall i :: 0 <= i < |events| ==> InRange(events[i], contexts)
  }

  function Start(contexts: nat): Coder {
    Coder(WHOLE, seq(contexts, _ => HALF))
  }

  function CodeEvent(c: Coder, e: Event): (r: Coder)
    requires c.interval.range >= TOP && InRange(e, |c.probs|)
    ensures |r.probs| == |c.probs| && r.interval.range >= 0x1_0000
  {
    match e
    case Event(context, bit) =>
      Coder(Narrow(c.interval, c.probs[context], bit), c.probs[context := Adapt(c.probs[context], bit)])
    case Direct(bit) => Coder(Halve(c.interval, bit), c.probs)
  }

  /** The coder after `events`, before the last of them renormalises. */
  function Pending(contexts: nat, events: seq<Event>): (c: Coder)
    requires InTable(events, contexts)
    ensures |c.probs| == contexts && c.interval.range >= 0x1_0000
    decreases |events|, 0
  {
    if events == [] then Start(contexts) else
    CodeEvent(Coded(contexts, events[..|events| - 1]), events[|events| - 1])
  }

  function Coded(contexts: nat, events: seq<Event>): (c: Coder)
    requires InTable(events, contexts)
    ensures |c.probs| == contexts && c.interval.range >= TOP
    decreases |events|, 1
  {
    var c := Pending(contexts, events);
    Coder(Renormalise(c.interval), c.probs)
  }

  /** Later intervals lie inside earlier ones, once brought to their scale. */
  ghost predicate Inside(inner: Interval, outer: Interval) {
    && outer.digits <= inner.digits
    && var scale := Pow256(inner.digits - outer.digits);
       && outer.low * scale <= inner.low
       && inner.low + inner.range <= (outer.low + outer.range) * scale
  }

  lemma InsideRenormalised(inner: Interval, outer: Interval)
    requires Inside(inner, outer)
    ensures Inside(Renormalise(inner), outer)
  {
    if inner.range < TOP {
      var p := Pow256(inner.digits - outer.digits);
      MulSwap(outer.low, 0x100, p);
      MulSwap(outer.low + outer.range, 0x100, p);
    }
  }

  lemma {:induction false} Nested(contexts: nat, events: seq<Event>, n: nat)
    requires InTable(events, contexts) && n <= |events|
    ensures Inside(Coded(contexts, events).interval, Coded(contexts, events[..n]).interval)
    decreases |events|
  {
    if n == |events| {
      assert events[..n] == events;
      assert Pow256(0) == 1;
    } else {
      var front := events[..|events| - 1];
      Nested(contexts, front, n);
      assert front[..n] == events[..n];
      var c := Coded(contexts, front);
      match events[|events| - 1] {
        case Event(context, _) => BoundSplits(c.interval.range, c.probs[context]);
        case Direct(_) =>
      }
      InsideRenormalised(Pending(contexts, events).interval, Coded(contexts, events[..n]).interval);
    }
  }

  /** A finished stream: its digits write the low end of the last interval. */
  ghost predicate IsStream(rc: seq<byte>, contexts: nat, events: seq<Event>)
    requires InTable(events, contexts)
  {
    var v := Coded(contexts, events).interval;
    |rc| == v.digits + 4 && Value(rc) == v.low
  }

  // ─── The decoder ─────────────────────────────────────────────────

  /** `pos` counts the bytes of the stream read so far. */
  datatype Decoder = Decoder(range: u32, code: u32, pos: nat)

  /** The decoder before any bit: its code is four digits of the stream. */
  function Open(rc: seq<byte>): Option<Decoder> {
    if |rc| < 5 then None else
    var code := FromBe4(rc[1..5]);
    if rc[0] != 0 || code == FULL_RANGE then None else Some(Decoder(FULL_RANGE, code, 5))
  }

  function Normalise(d: Decoder, rc: seq<byte>): (r: Option<Decoder>)
    requires d.range >= 0x1_0000
    ensures r.Some? ==> r.value.range >= TOP
  {
    if d.range >= TOP then Some(d)
    else if d.pos >= |rc| then None
    else Some(Decoder(0x100 * d.range, Wrap32(0x100 * d.code + rc[d.pos]), d.pos + 1))
  }

  function Choose(d: Decoder, p: Prob): (r: (Decoder, bool))
    requires d.range >= TOP
    ensures r.0.range >= 0x1_0000
  {
    BoundSplits(d.range, p);
    var bound := Bound(d.range, p);
    if d.code < bound then (d.(range := bound), false)
    else (d.(range := d.range - bound, code := d.code - bound), true)
  }

  /** The decoder's registers hold the offset of the digits read within `v`. */
  ghost predicate Tracks(d: Decoder, rc: seq<byte>, v: Interval) {
    && d.range == v.range
    && d.pos == v.digits + 4 <= |rc|
    && d.code == Value(rc[..d.pos]) - v.low
  }

  lemma StreamInside(rc: seq<byte>, contexts: nat, events: seq<Event>, n: nat)
    requires InTable(events, contexts) && n <= |events|
    requires IsStream(rc, contexts, events)
    ensures var v := Coded(contexts, events[..n]).interval;
            && v.digits + 4 <= |rc|
            && v.low <= Value(rc[..v.digits + 4]) < v.low + v.range
  {
    Nested(contexts, events, n);
    var v, z := Coded(contexts, events[..n]).interval, Coded(contexts, events).interval;
    var w, p := Value(rc[..v.digits + 4]), Pow256(z.digits - v.digits);
    ValuePrefix(rc, v.digits + 4);
    MulLess(v.low, w + 1, p);
    MulLess(w, v.low + v.range, p);
  }

  lemma OpenTracks(rc: seq<byte>, contexts: nat, events: seq<Event>)
    requires InTable(events, contexts)
    requires IsStream(rc, contexts, events)
    ensures Open(rc).Some? && Tracks(Open(rc).value, rc, Pending(contexts, []).interval)
  {
    assert events[..0] == [];
    StreamInside(rc, contexts, events, 0);
    FirstFive(rc);
  }

  lemma FirstFive(rc: seq<byte>)
    requires |rc| >= 5
    ensures Value(rc[..5]) == TWO_32 * rc[0] + FromBe4(rc[1..5])
  {
    ValuePrefixStep(rc, 0);
    ValuePrefixStep(rc, 1);
    ValuePrefixStep(rc, 2);
    ValuePrefixStep(rc, 3);
    ValuePrefixStep(rc, 4);
    assert rc[..0] == [];
  }

  lemma RenormaliseTracks(d: Decoder, rc: seq<byte>, v: Interval)
    requires v.range >= 0x1_0000 && Tracks(d, rc, v)
    requires var z := Renormalise(v);
             && z.digits + 4 <= |rc|
             && z.low <= Value(rc[..z.digits + 4]) < z.low + z.range
    ensures Normalise(d, rc).Some?
    ensures Tracks(Normalise(d, rc).value, rc, Renormalise(v))
  {
    if d.range < TOP {
      ValuePrefixStep(rc, d.pos);
    }
  }

  lemma NormaliseTracks(d: Decoder, rc: seq<byte>, contexts: nat, events: seq<Event>, n: nat)
    requires InTable(events, contexts) && n <= |events|
    requires IsStream(rc, contexts, events)
    requires Tracks(d, rc, Pending(contexts, events[..n]).interval)
    ensures Normalise(d, rc).Some?
    ensures Tracks(Normalise(d, rc).value, rc, Coded(contexts, events[..n]).interval)
  {
    StreamInside(rc, contexts, events, n);
    RenormaliseTracks(d, rc, Pending(contexts, events[..n]).interval);
  }

  /** When the digits lie in the part the encoder kept, the decoder keeps it too. */
  lemma ChooseTracks(d: Decoder, rc: seq<byte>, v: Interval, p: Prob, bit: bool)
    requires v.range >= TOP && Tracks(d, rc, v)
    requires var z := Renormalise(Narrow(v, p, bit));
             && z.digits + 4 <= |rc|
             && z.low <= Value(rc[..z.digits + 4]) < z.low + z.range
    ensures Choose(d, p).1 == bit
    ensures Tracks(Choose(d, p).0, rc, Narrow(v, p, bit))
  {
    BoundSplits(v.range, p);
    if Narrow(v, p, bit).range < TOP {
      ValuePrefixStep(rc, v.digits + 4);
    }
  }

  /** A bit coded without a probability. A code as large as the range is left
      cannot come from an encoder. */
  function ChooseDirect(d: Decoder): (r: (Decoder, bool))
    requires d.range >= TOP
    ensures r.0.range >= 0x1_0000
  {
    var half := d.range / 2;
    var code := Wrap32(d.code - half);
    if code >= 0x8000_0000 then (Decoder(half, Wrap32(code + half), d.pos), false)
    else (Decoder(half, code, d.pos), true)
  }

  lemma DirectIs(d: Decoder, bit: bool)
    requires d.range >= TOP
    requires var half := d.range / 2; if bit then half <= d.code < 2 * half else d.code < half
    ensures var half := d.range / 2;
            && ChooseDirect(d) == (Decoder(half, if bit then d.code - half else d.code, d.pos), bit)
            && ChooseDirect(d).0.code < half
  {
    if bit {
      assert Wrap32(d.code - d.range / 2) == d.code - d.range / 2;
    } else {
      assert Wrap32(d.code - d.range / 2) == d.code - d.range / 2 + TWO_32;
    }
  }

  lemma ChooseDirectTracks(d: Decoder, rc: seq<byte>, v: Interval, bit: bool)
    requires v.range >= TOP && Tracks(d, rc, v)
    requires var z := Renormalise(Halve(v, bit));
             && z.digits + 4 <= |rc|
             && z.low <= Value(rc[..z.digits + 4]) < z.low + z.range
    ensures ChooseDirect(d).1 == bit && ChooseDirect(d).0.code < ChooseDirect(d).0.range
    ensures Tracks(ChooseDirect(d).0, rc, Halve(v, bit))
  {
    hide ChooseDirect, Value;
    if Halve(v, bit).range < TOP {
      ValuePrefixStep(rc, v.digits + 4);
    }
    DirectIs(d, bit);
  }

  lemma DecodeDirectTracks(d: Decoder, rc: seq<byte>, contexts: nat, events: seq<Event>, n: nat)
    requires InTable(events, contexts) && n < |events| && events[n].Direct?
    requires IsStream(rc, contexts, events)
    requires Tracks(d, rc, Pending(contexts, events[..n]).interval)
    ensures Normalise(d, rc).Some?
    ensures var (next, bit) := ChooseDirect(Normalise(d, rc).value);
            && bit == events[n].bit && next.code < next.range
            && Tracks(next, rc, Pending(contexts, events[..n + 1]).interval)
  {
    NormaliseTracks(d, rc, contexts, events, n);
    StreamInside(rc, contexts, events, n);
    StreamInside(rc, contexts, events, n + 1);
    var front := events[..n + 1];
    assert front[..n] == events[..n] && front[n] == events[n];
    ChooseDirectTracks(Normalise(d, rc).value, rc, Coded(contexts, events[..n]).interval, events[n].bit);
  }

  /** Decoding the next event of a stream returns its bit, given the
      probability its context has reached. */
  lemma DecodeTracks(d: Decoder, rc: seq<byte>, contexts: nat, events: seq<Event>, n: nat)
    requires InTable(events, contexts) && n < |events| && events[n].Event?
    requires IsStream(rc, contexts, events)
    requires Tracks(d, rc, Pending(contexts, events[..n]).interval)
    ensures Normalise(d, rc).Some?
    ensures var p := Pending(contexts, events[..n]).probs[events[n].context];
            var (next, bit) := Choose(Normalise(d, rc).value, p);
            && bit == events[n].bit
            && Tracks(next, rc, Pending(contexts, events[..n + 1]).interval)
  {
    NormaliseTracks(d, rc, contexts, events, n);
    StreamInside(rc, contexts, events, n);
    StreamInside(rc, contexts, events, n + 1);
    var front := events[..n + 1];
    assert front[..n] == events[..n] && front[n] == events[n];
    var c := Coded(contexts, events[..n]);
    ChooseTracks(Normalise(d, rc).value, rc, c.interval, c.probs[events[n].context], events[n].bit);
  }
}
