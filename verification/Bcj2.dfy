/**
  BCJ2: the decoder of x86 code that was split into four streams, and the
  encoder that splits it.

  Decoding is a fold over the main stream: each byte of it gives back one
  piece of the code, a plain byte or a marker and its target. The proof keeps
  decoder and encoder at the same piece, with the range decoder inside the
  interval the encoder has narrowed to, and the side streams at what is left.
 */
module Bcj2 {
  import opened Arithmetic
  import opened Bytes
  import opened RangeCoding
  import opened RangeEncoding
  import opened Wrappers

  /** As many probabilities as `Marker` can name. */
  const CONTEXTS := 258

  datatype Streams = Streams(call: seq<byte>, jump: seq<byte>, rc: seq<byte>)

  datatype Error = RcTruncated | RcCorrupt | RcExhausted | CallExhausted | JumpExhausted | CheckpointError

  /** The context of a marker byte, given the byte before it. */
  function Marker(prev: byte, b: byte): (context: Option<nat>)
    ensures context.Some? ==> context.value < CONTEXTS
  {
    if b == 0xE8 then Some(2 + prev)
    else if b == 0xE9 then Some(1)
    else if 0x80 <= b <= 0x8F && prev == 0x0F then Some(0)
    else None
  }

  // ─── The decoder as a function of the main stream ────────────────

  datatype State = State(
    probs: seq<Prob>,
    dec: Decoder,
    callPos: nat,
    jumpPos: nat,
    ip: u32,
    prev: byte)
  {
    ghost predicate Fits(streams: Streams) {
      && |probs| == CONTEXTS
      && dec.range >= 0x1_0000
      && dec.pos <= |streams.rc|
      && callPos <= |streams.call|
      && jumpPos <= |streams.jump|
    }
  }

  function Initial(streams: Streams): (r: Result<State, Error>)
    ensures r.Ok? ==> r.value.Fits(streams)
  {
    if |streams.rc| < 5 then Err(RcTruncated) else
    match Open(streams.rc)
    case None => Err(RcCorrupt)
    case Some(d) => Ok(State(seq(CONTEXTS, _ => HALF), d, 0, 0, 0, 0))
  }

  function BitStep(streams: Streams, st: State, context: nat): (r: Result<(State, bool), Error>)
    requires st.Fits(streams) && context < CONTEXTS
    ensures r.Ok? ==> r.value.0.Fits(streams)
  {
    match Normalise(st.dec, streams.rc)
    case None => Err(RcExhausted)
    case Some(d) =>
      var (next, bit) := Choose(d, st.probs[context]);
      Ok((st.(dec := next, probs := st.probs[context := Adapt(st.probs[context], bit)]), bit))
  }

  function TargetStep(streams: Streams, st: State, call: bool): (r: Result<(State, u32), Error>)
    requires st.Fits(streams)
    ensures r.Ok? ==> r.value.0.Fits(streams)
  {
    var stream, pos := if call then streams.call else streams.jump, if call then st.callPos else st.jumpPos;
    if pos + 4 > |stream| then Err(if call then CallExhausted else JumpExhausted) else
    var src := FromBe4(stream[pos..pos + 4]);
    var ip := Wrap32(st.ip + 4);
    var moved := if call then st.(callPos := pos + 4) else st.(jumpPos := pos + 4);
    Ok((moved.(ip := ip), Wrap32(src - ip)))
  }

  datatype Ran = Ran(state: State, out: seq<byte>)

  /** What a marker byte brings in: nothing, or a converted target. */
  function MarkerStep(streams: Streams, st: State, call: bool, context: nat): (r: Result<Ran, Error>)
    requires st.Fits(streams) && context < CONTEXTS
    ensures r.Ok? ==> r.value.state.Fits(streams) && (|r.value.out| == 0 || |r.value.out| == 4)
  {
    match BitStep(streams, st, context)
    case Err(e) => Err(e)
    case Ok((st1, bit)) =>
      if !bit then Ok(Ran(st1, [])) else
      match TargetStep(streams, st1, call)
      case Err(e) => Err(e)
      case Ok((st2, target)) =>
        var bytes := ToLe4(target);
        Ok(Ran(st2.(prev := bytes[3]), bytes))
  }

  function ByteStep(streams: Streams, st: State, b: byte): (r: Result<Ran, Error>)
    requires st.Fits(streams)
    ensures r.Ok? ==> r.value.state.Fits(streams)
  {
    var st1 := st.(ip := Wrap32(st.ip + 1), prev := b);
    match Marker(st.prev, b)
    case None => Ok(Ran(st1, [b]))
    case Some(context) =>
      match MarkerStep(streams, st1, b == 0xE8, context)
      case Err(e) => Err(e)
      case Ok(ran) => Ok(Ran(ran.state, [b] + ran.out))
  }

  function Join(first: Ran, rest: Result<Ran, Error>): Result<Ran, Error> {
    match rest
    case Err(e) => Err(e)
    case Ok(ran) => Ok(Ran(ran.state, first.out + ran.out))
  }

  /** The whole-input decoder that the chunked one must agree with. */
  function Run(streams: Streams, st: State, main: seq<byte>): (r: Result<Ran, Error>)
    requires st.Fits(streams)
    ensures r.Ok? ==> r.value.state.Fits(streams)
    decreases |main|
  {
    if main == [] then Ok(Ran(st, [])) else
    match ByteStep(streams, st, main[0])
    case Err(e) => Err(e)
    case Ok(first) => Join(first, Run(streams, first.state, main[1..]))
  }

  lemma JoinAssociates(a: Ran, b: Ran, rest: Result<Ran, Error>)
    ensures Join(Ran(b.state, a.out + b.out), rest) == Join(a, Join(b, rest))
  {
    if rest.Ok? {
      assert (a.out + b.out) + rest.value.out == a.out + (b.out + rest.value.out);
    }
  }

  /** Decoding in two pieces is decoding in one. */
  lemma {:induction false} RunSplit(streams: Streams, st: State, a: seq<byte>, b: seq<byte>)
    requires st.Fits(streams) && Run(streams, st, a).Ok?
    ensures Run(streams, st, a + b)
         == Join(Run(streams, st, a).value, Run(streams, Run(streams, st, a).value.state, b))
    decreases |a|
  {
    if a == [] {
      assert a + b == b;
      JoinNothing(st, Run(streams, st, b));
    } else {
      var first := ByteStep(streams, st, a[0]).value;
      RunSplit(streams, first.state, a[1..], b);
      assert (a + b)[1..] == a[1..] + b;
      var mid := Run(streams, first.state, a[1..]).value;
      JoinAssociates(first, mid, Run(streams, mid.state, b));
    }
  }

  lemma JoinNothing(st: State, rest: Result<Ran, Error>)
    ensures Join(Ran(st, []), rest) == rest
  {
    if rest.Ok? {
      assert [] + rest.value.out == rest.value.out;
    }
  }

  lemma RunOne(streams: Streams, st: State, b: byte)
    requires st.Fits(streams)
    ensures Run(streams, st, [b]) == ByteStep(streams, st, b)
  {
    var r := ByteStep(streams, st, b);
    if r.Ok? {
      assert r.value.out + [] == r.value.out;
    }
  }

  lemma RunNothing(streams: Streams, st: State)
    requires st.Fits(streams)
    ensures Run(streams, st, []) == Ok(Ran(st, []))
  {
  }

  lemma RunStep(streams: Streams, st: State, main: seq<byte>, n: nat)
    requires st.Fits(streams) && n < |main| && Run(streams, st, main[..n]).Ok?
    ensures Run(streams, st, main[..n + 1])
         == Join(Run(streams, st, main[..n]).value, ByteStep(streams, Run(streams, st, main[..n]).value.state, main[n]))
  {
    RunSplit(streams, st, main[..n], [main[n]]);
    RunOne(streams, Run(streams, st, main[..n]).value.state, main[n]);
    assert main[..n + 1] == main[..n] + [main[n]];
  }

  lemma {:induction false} RunFails(streams: Streams, st: State, a: seq<byte>, b: seq<byte>)
    requires st.Fits(streams) && Run(streams, st, a).Err?
    ensures Run(streams, st, a + b) == Run(streams, st, a)
    decreases |a|
  {
    assert (a + b)[1..] == a[1..] + b;
    var first := ByteStep(streams, st, a[0]);
    if first.Ok? {
      RunFails(streams, first.value.state, a[1..], b);
    }
  }

  // ─── The encoder ─────────────────────────────────────────────────

  datatype Encoded = Encoded(main: seq<byte>, call: seq<byte>, jump: seq<byte>, events: seq<Event>)

  /** The target of the instruction at `i`, as an absolute address. */
  function Absolute(data: seq<byte>, i: nat): (s: seq<byte>)
    requires i + 5 <= |data|
    ensures |s| == 4
  {
    ToBe4(Wrap32(FromLe4(data[i + 1..i + 5]) + i + 5))
  }

  function Before(data: seq<byte>, i: nat): byte
    requires i <= |data|
  {
    if i == 0 then 0 else data[i - 1]
  }

  /** The encoder may cut out any target that is there, and the choice is free. */
  predicate Cut(data: seq<byte>, convert: nat -> bool, i: nat)
    requires i < |data|
  {
    Marker(Before(data, i), data[i]).Some? && i + 5 <= |data| && convert(i)
  }

  /** What the byte at `i` adds to the four streams. */
  function Piece(data: seq<byte>, convert: nat -> bool, i: nat): (e: Encoded)
    requires i < |data|
    ensures InTable(e.events, CONTEXTS)
  {
    var b := data[i];
    match Marker(Before(data, i), b)
    case None => Encoded([b], [], [], [])
    case Some(context) =>
      if !Cut(data, convert, i) then Encoded([b], [], [], [Event(context, false)])
      else if b == 0xE8 then Encoded([b], Absolute(data, i), [], [Event(context, true)])
      else Encoded([b], [], Absolute(data, i), [Event(context, true)])
  }

  function Plus(a: Encoded, b: Encoded): Encoded {
    Encoded(a.main + b.main, a.call + b.call, a.jump + b.jump, a.events + b.events)
  }

  lemma PlusAssociates(a: Encoded, b: Encoded, c: Encoded)
    ensures Plus(Plus(a, b), c) == Plus(a, Plus(b, c))
  {
    assert (a.main + b.main) + c.main == a.main + (b.main + c.main);
    assert (a.call + b.call) + c.call == a.call + (b.call + c.call);
    assert (a.jump + b.jump) + c.jump == a.jump + (b.jump + c.jump);
    assert (a.events + b.events) + c.events == a.events + (b.events + c.events);
  }

  const NOTHING := Encoded([], [], [], [])

  lemma PlusNothing(a: Encoded)
    ensures Plus(a, NOTHING) == a == Plus(NOTHING, a)
  {
    assert a.main + [] == a.main == [] + a.main;
    assert a.call + [] == a.call == [] + a.call;
    assert a.jump + [] == a.jump == [] + a.jump;
    assert a.events + [] == a.events == [] + a.events;
  }

  function Next(data: seq<byte>, convert: nat -> bool, i: nat): (n: nat)
    requires i < |data|
    ensures i < n <= |data|
  {
    if Cut(data, convert, i) then i + 5 else i + 1
  }

  /** The four streams of `data` from position `i` on. */
  function EncodeFrom(data: seq<byte>, convert: nat -> bool, i: nat): (e: Encoded)
    requires i <= |data|
    ensures InTable(e.events, CONTEXTS)
    decreases |data| - i
  {
    if i == |data| then NOTHING
    else Plus(Piece(data, convert, i), EncodeFrom(data, convert, Next(data, convert, i)))
  }

  /** `streams` are side streams the encoder may have written for `data`. */
  ghost predicate IsEncoding(streams: Streams, data: seq<byte>, convert: nat -> bool) {
    var e := EncodeFrom(data, convert, 0);
    streams.call == e.call && streams.jump == e.jump && IsStream(streams.rc, CONTEXTS, e.events)
  }

  lemma CodedNext(events: seq<Event>, e: Event)
    requires InTable(events, CONTEXTS) && InRange(e, CONTEXTS)
    ensures InTable(events + [e], CONTEXTS)
    ensures Pending(CONTEXTS, events + [e]) == CodeEvent(Coded(CONTEXTS, events), e)
  {
    assert (events + [e])[..|events|] == events;
  }

  /** The encoder's range coder and probabilities, after `events`. */
  ghost predicate Holds(rc: RangeEncoder, probs: seq<Prob>, events: seq<Event>)
    reads rc
  {
    && rc.Valid()
    && InTable(events, CONTEXTS)
    && Coded(CONTEXTS, events) == Coder(rc.View(), probs)
  }

  method EncodeEvent(rc: RangeEncoder, probs: seq<Prob>, ghost events: seq<Event>, context: nat, bit: bool)
    returns (next: seq<Prob>)
    requires context < CONTEXTS && Holds(rc, probs, events)
    modifies rc
    ensures Holds(rc, next, events + [Event(context, bit)])
  {
    CodedNext(events, Event(context, bit));
    var p := rc.Encode(probs[context], bit);
    next := probs[context := p];
  }

  method Encode(data: seq<byte>, convert: nat -> bool) returns (main: seq<byte>, streams: Streams)
    ensures main == EncodeFrom(data, convert, 0).main
    ensures IsEncoding(streams, data, convert)
  {
    main := [];
    var call, jump := [], [];
    var rc := new RangeEncoder();
    var probs: seq<Prob> := seq(CONTEXTS, _ => HALF);
    var prev: byte := 0;
    var i := 0;
    ghost var done := NOTHING;
    PlusNothing(EncodeFrom(data, convert, 0));
    while i < |data|
      invariant i <= |data| && prev == Before(data, i)
      invariant fresh(rc) && Holds(rc, probs, done.events)
      invariant main == done.main && call == done.call && jump == done.jump
      invariant Plus(done, EncodeFrom(data, convert, i)) == EncodeFrom(data, convert, 0)
      decreases |data| - i
    {
      var b := data[i];
      var context := Marker(prev, b);
      var bit := context.Some? && i + 5 <= |data| && convert(i);
      ghost var piece := Piece(data, convert, i);
      PlusAssociates(done, piece, EncodeFrom(data, convert, Next(data, convert, i)));
      main := main + [b];
      if context.Some? {
        probs := EncodeEvent(rc, probs, done.events, context.value, bit);
      } else {
        assert done.events + [] == done.events;
      }
      if bit {
        if b == 0xE8 {
          call := call + Absolute(data, i);
        } else {
          jump := jump + Absolute(data, i);
        }
      }
      done := Plus(done, piece);
      i := if bit then i + 5 else i + 1;
      prev := data[i - 1];
    }
    PlusNothing(done);
    var stream := rc.Finish();
    streams := Streams(call, jump, stream);
  }

  // ─── What is cut out, on the bytes alone ─────────────────────────

  /** A call, a jump, or the second byte of a conditional jump. */
  predicate Branches(data: seq<byte>, i: nat)
    requires i < |data|
  {
    data[i] == 0xE8 || data[i] == 0xE9 || (i > 0 && data[i - 1] == 0x0F && 0x80 <= data[i] <= 0x8F)
  }

  /** Where the pieces start: at each byte that is in no operand that was cut
      out. */
  function Starts(data: seq<byte>, convert: nat -> bool, i: nat): (at: seq<nat>)
    requires i <= |data|
    ensures forall k :: 0 <= k < |at| ==> i <= at[k] < |data|
    decreases |data| - i
  {
    if i == |data| then []
    else [i] + Starts(data, convert, if IsCut(data, convert, i) then i + 5 else i + 1)
  }

  predicate IsCut(data: seq<byte>, convert: nat -> bool, i: nat)
    requires i < |data|
  {
    convert(i) && i + 5 <= |data| && Branches(data, i)
  }

  /** The operand at `i` as a number, made absolute. */
  function Target(data: seq<byte>, i: nat): int
    requires i + 5 <= |data|
  {
    (LittleEndian(data, i + 1) + i + 5) % 0x1_0000_0000
  }

  /** The bytes of a stream that holds these targets, most significant first. */
  ghost predicate HoldsTargets(stream: seq<byte>, data: seq<byte>, at: seq<nat>) {
    && |stream| == 4 * |at|
    && forall k :: 0 <= k < |at| ==>
         at[k] + 5 <= |data| && Target(data, at[k]) == BigEndian(stream, 4 * k)
  }

  function BigEndian(s: seq<byte>, k: nat): int
    requires k + 4 <= |s|
  {
    0x100_0000 * (s[k] as int) + 0x1_0000 * (s[k + 1] as int) + 0x100 * (s[k + 2] as int) + s[k + 3] as int
  }

  function LittleEndian(s: seq<byte>, k: nat): int
    requires k + 4 <= |s|
  {
    s[k] as int + 0x100 * (s[k + 1] as int) + 0x1_0000 * (s[k + 2] as int) + 0x100_0000 * (s[k + 3] as int)
  }

  /** Those of `at` that are cut out, calls or others. */
  function CutOf(data: seq<byte>, convert: nat -> bool, at: seq<nat>, call: bool): (r: seq<nat>)
    requires forall k :: 0 <= k < |at| ==> at[k] < |data|
    ensures forall k :: 0 <= k < |r| ==> r[k] in at && IsCut(data, convert, r[k]) && (data[r[k]] == 0xE8) == call
  {
    if at == [] then [] else
    var rest := CutOf(data, convert, at[1..], call);
    if IsCut(data, convert, at[0]) && (data[at[0]] == 0xE8) == call then [at[0]] + rest else rest
  }

  /** The branches among `at`. */
  function BranchesOf(data: seq<byte>, at: seq<nat>): (r: seq<nat>)
    requires forall k :: 0 <= k < |at| ==> at[k] < |data|
    ensures forall k :: 0 <= k < |r| ==> r[k] in at && Branches(data, r[k])
  {
    if at == [] then [] else
    var rest := BranchesOf(data, at[1..]);
    if Branches(data, at[0]) then [at[0]] + rest else rest
  }

  lemma CutIsBranch(data: seq<byte>, convert: nat -> bool, i: nat)
    requires i < |data|
    ensures Marker(Before(data, i), data[i]).Some? <==> Branches(data, i)
    ensures Cut(data, convert, i) <==> IsCut(data, convert, i)
  {
  }

  lemma TargetIs(data: seq<byte>, i: nat)
    requires i + 5 <= |data|
    ensures BigEndian(Absolute(data, i), 0) == Target(data, i)
  {
    var s := data[i + 1..i + 5];
    assert FromBe4(Absolute(data, i)) == BigEndian(Absolute(data, i), 0);
    assert FromLe4(s) == LittleEndian(data, i + 1);
  }

  lemma TargetsGrow(stream: seq<byte>, data: seq<byte>, at: seq<nat>, i: nat)
    requires HoldsTargets(stream, data, at) && i + 5 <= |data|
    ensures HoldsTargets(Absolute(data, i) + stream, data, [i] + at)
  {
    TargetIs(data, i);
    var all, a := Absolute(data, i) + stream, [i] + at;
    hide Target, Absolute;
    forall k | 0 <= k < |a|
      ensures a[k] + 5 <= |data| && Target(data, a[k]) == BigEndian(all, 4 * k)
    {
      if k > 0 {
        assert BigEndian(all, 4 * k) == BigEndian(stream, 4 * (k - 1));
      }
    }
  }

  /** What the byte at `i` adds, without the coder's part. */
  lemma PieceIs(data: seq<byte>, convert: nat -> bool, i: nat)
    requires i < |data|
    ensures var e, cut := Piece(data, convert, i), IsCut(data, convert, i);
            && e.main == [data[i]]
            && (cut ==> i + 5 <= |data|) && Next(data, convert, i) == (if cut then i + 5 else i + 1)
            && e.call == (if cut && data[i] == 0xE8 then Absolute(data, i) else [])
            && e.jump == (if cut && data[i] != 0xE8 then Absolute(data, i) else [])
            && e.events == if Branches(data, i) then [Event(Marker(Before(data, i), data[i]).value, cut)] else []
  {
    CutIsBranch(data, convert, i);
  }

  /** The main stream is the bytes in no operand that was cut out. */
  lemma {:induction false} EncodesMain(data: seq<byte>, convert: nat -> bool, i: nat)
    requires i <= |data|
    ensures var e, at := EncodeFrom(data, convert, i), Starts(data, convert, i);
            |e.main| == |at| && (forall k :: 0 <= k < |at| ==> e.main[k] == data[at[k]])
    decreases |data| - i
  {
    if i < |data| {
      PieceIs(data, convert, i);
      hide Piece, IsCut, Next, Absolute;
      EncodesMain(data, convert, Next(data, convert, i));
    }
  }

  /** One side stream is the targets of the calls that were cut out, the other
      those of the jumps. */
  lemma {:induction false} EncodesTargets(data: seq<byte>, convert: nat -> bool, i: nat)
    requires i <= |data|
    ensures var e, at := EncodeFrom(data, convert, i), Starts(data, convert, i);
            && HoldsTargets(e.call, data, CutOf(data, convert, at, true))
            && HoldsTargets(e.jump, data, CutOf(data, convert, at, false))
    decreases |data| - i
  {
    if i < |data| {
      PieceIs(data, convert, i);
      hide Piece, IsCut, Next, Absolute, HoldsTargets;
      var n := Next(data, convert, i);
      EncodesTargets(data, convert, n);
      var rest, at := EncodeFrom(data, convert, n), Starts(data, convert, n);
      assert Starts(data, convert, i)[1..] == at;
      if IsCut(data, convert, i) {
        TargetsGrow(rest.call, data, CutOf(data, convert, at, true), i);
        TargetsGrow(rest.jump, data, CutOf(data, convert, at, false), i);
      }
      assert [] + rest.call == rest.call && [] + rest.jump == rest.jump;
    }
  }

  /** For every branch in the main stream the coder says whether it was cut. */
  lemma {:induction false} EncodesChoices(data: seq<byte>, convert: nat -> bool, i: nat)
    requires i <= |data|
    ensures var e, b := EncodeFrom(data, convert, i), BranchesOf(data, Starts(data, convert, i));
            |e.events| == |b| && forall k :: 0 <= k < |b| ==>
              && e.events[k].Event? && e.events[k].bit == IsCut(data, convert, b[k])
              && Marker(Before(data, b[k]), data[b[k]]) == Some(e.events[k].context)
    decreases |data| - i
  {
    if i < |data| {
      PieceIs(data, convert, i);
      CutIsBranch(data, convert, i);
      hide Piece, IsCut, Next, Absolute, Branches, Marker;
      var n := Next(data, convert, i);
      EncodesChoices(data, convert, n);
      var rest, at := EncodeFrom(data, convert, n), Starts(data, convert, n);
      assert Starts(data, convert, i)[1..] == at;
      assert [] + rest.events == rest.events;
    }
  }

  /** Branches are told apart by their kind, and calls by the byte before. */
  lemma ContextsAre(p: byte, b: byte, q: byte, c: byte)
    requires Marker(p, b).Some? && Marker(q, c).Some?
    ensures Marker(p, b) == Marker(q, c) <==>
              || (b == 0xE8 && c == 0xE8 && p == q)
              || (b == 0xE9 && c == 0xE9)
              || (0x80 <= b <= 0x8F && 0x80 <= c <= 0x8F)
  {
  }

  // ─── Round trip ──────────────────────────────────────────────────

  /** The decoder stands where the encoder stood after `n` events. */
  ghost predicate Synced(rc: seq<byte>, probs: seq<Prob>, dec: Decoder, events: seq<Event>, n: nat)
    requires n <= |events| && InTable(events, CONTEXTS)
  {
    var c := Pending(CONTEXTS, events[..n]);
    probs == c.probs && Tracks(dec, rc, c.interval)
  }

  lemma BitSynced(streams: Streams, st: State, events: seq<Event>, n: nat)
    requires n < |events| && events[n].Event? && InTable(events, CONTEXTS)
    requires IsStream(streams.rc, CONTEXTS, events)
    requires st.Fits(streams) && Synced(streams.rc, st.probs, st.dec, events, n)
    ensures var r := BitStep(streams, st, events[n].context);
            && r.Ok?
            && r.value.1 == events[n].bit
            && r.value.0 == st.(dec := r.value.0.dec, probs := r.value.0.probs)
            && Synced(streams.rc, r.value.0.probs, r.value.0.dec, events, n + 1)
  {
    DecodeTracks(st.dec, streams.rc, CONTEXTS, events, n);
    assert events[..n + 1][..n] == events[..n];
  }

  lemma AbsoluteIs(data: seq<byte>, i: nat)
    requires i + 5 <= |data|
    ensures FromBe4(Absolute(data, i)) == Wrap32(FromLe4(data[i + 1..i + 5]) + (i + 5))
  {
  }

  lemma TakeFour(stream: seq<byte>, pos: nat, four: seq<byte>, rest: seq<byte>)
    requires pos <= |stream| && |four| == 4 && stream[pos..] == four + rest
    ensures pos + 4 <= |stream| && stream[pos..pos + 4] == four && stream[pos + 4..] == rest
  {
    assert stream[pos..pos + 4] == stream[pos..][..4];
    assert stream[pos + 4..] == stream[pos..][4..];
  }

  /** The side streams from the decoder's positions on hold what `rest` still
      needs; `n` of the encoder's `events` are decoded. */
  ghost predicate Remaining(streams: Streams, st: State, events: seq<Event>, n: nat, rest: Encoded)
    ensures Remaining(streams, st, events, n, rest) ==> st.Fits(streams)
  {
    && st.Fits(streams)
    && streams.call[st.callPos..] == rest.call
    && streams.jump[st.jumpPos..] == rest.jump
    && InTable(events, CONTEXTS) && IsStream(streams.rc, CONTEXTS, events)
    && n <= |events| && events[n..] == rest.events
    && Synced(streams.rc, st.probs, st.dec, events, n)
  }

  lemma EventRestored(streams: Streams, st: State, events: seq<Event>, n: nat, e: Event, rest: Encoded)
    requires Remaining(streams, st, events, n, rest.(events := [e] + rest.events))
    requires e.Event? && e.context < CONTEXTS
    ensures var r := BitStep(streams, st, e.context);
            && r.Ok?
            && r.value.1 == e.bit
            && r.value.0 == st.(dec := r.value.0.dec, probs := r.value.0.probs)
            && Remaining(streams, r.value.0, events, n + 1, rest)
  {
    assert events[n] == e by { assert events[n..][0] == e; }
    assert events[n + 1..] == rest.events by { assert events[n..][1..] == rest.events; }
    BitSynced(streams, st, events, n);
  }

  lemma TargetRestored(streams: Streams, st: State, data: seq<byte>, i: nat, call: bool,
                       events: seq<Event>, n: nat, rest: Encoded)
    requires i + 5 <= |data| && st.ip == Wrap32(i + 1)
    requires Remaining(streams, st, events, n,
                       if call then rest.(call := Absolute(data, i) + rest.call)
                       else rest.(jump := Absolute(data, i) + rest.jump))
    ensures var r := TargetStep(streams, st, call);
            && r.Ok?
            && ToLe4(r.value.1) == data[i + 1..i + 5]
            && r.value.0.ip == Wrap32(i + 5)
            && Remaining(streams, r.value.0, events, n, rest)
  {
    hide Absolute, ToLe4, FromLe4, FromBe4, Wrap32, Synced, IsStream;
    if call {
      TakeFour(streams.call, st.callPos, Absolute(data, i), rest.call);
    } else {
      TakeFour(streams.jump, st.jumpPos, Absolute(data, i), rest.jump);
    }
    AbsoluteIs(data, i);
    Le4RoundTrip(data[i + 1..i + 5]);
    WrapCancels(FromLe4(data[i + 1..i + 5]), i + 5);
    WrapAdds(i + 1, 4);
  }

  lemma ConvertedRestored(streams: Streams, st: State, data: seq<byte>, i: nat, call: bool, context: nat,
                          events: seq<Event>, n: nat, rest: Encoded)
    requires i + 5 <= |data| && st.ip == Wrap32(i + 1) && context < CONTEXTS
    requires Remaining(streams, st, events, n,
                       Plus(Encoded([], if call then Absolute(data, i) else [],
                                    if call then [] else Absolute(data, i), [Event(context, true)]), rest))
    ensures var r := MarkerStep(streams, st, call, context);
            && r.Ok?
            && r.value.out == data[i + 1..i + 5]
            && r.value.state.ip == Wrap32(i + 5)
            && r.value.state.prev == data[i + 4]
            && Remaining(streams, r.value.state, events, n + 1, rest)
  {
    var withTarget := if call then rest.(call := Absolute(data, i) + rest.call)
                      else rest.(jump := Absolute(data, i) + rest.jump);
    assert [] + rest.call == rest.call && [] + rest.jump == rest.jump;
    EventRestored(streams, st, events, n, Event(context, true), withTarget);
    TargetRestored(streams, BitStep(streams, st, context).value.0, data, i, call, events, n + 1, rest);
  }

  /** One byte of the main stream brings back one piece of the data. */
  ghost predicate BringsBack(streams: Streams, st: State, data: seq<byte>, convert: nat -> bool, i: nat,
                             events: seq<Event>, n: nat, rest: Encoded)
    requires i < |data| && st.Fits(streams)
  {
    var r, next := ByteStep(streams, st, data[i]), Next(data, convert, i);
    && r.Ok?
    && r.value.out == data[i..next]
    && r.value.state.ip == Wrap32(next)
    && r.value.state.prev == Before(data, next)
    && Remaining(streams, r.value.state, events, n + |Piece(data, convert, i).events|, rest)
  }

  lemma CutRestored(streams: Streams, st: State, data: seq<byte>, convert: nat -> bool, i: nat,
                    events: seq<Event>, n: nat, rest: Encoded)
    requires i < |data| && st.ip == Wrap32(i) && st.prev == Before(data, i) && Cut(data, convert, i)
    requires Remaining(streams, st, events, n, Plus(Piece(data, convert, i), rest))
    ensures BringsBack(streams, st, data, convert, i, events, n, rest)
  {
    hide Absolute, ToLe4, Wrap32, Synced, IsStream, BitStep, MarkerStep;
    WrapAdds(i, 1);
    var b, context := data[i], Marker(st.prev, data[i]);
    var st1 := st.(ip := Wrap32(st.ip + 1), prev := b);
    ConvertedRestored(streams, st1, data, i, b == 0xE8, context.value, events, n, rest);
    Prepends(data, i, 5);
  }

  lemma LeftRestored(streams: Streams, st: State, data: seq<byte>, convert: nat -> bool, i: nat,
                     events: seq<Event>, n: nat, rest: Encoded)
    requires i < |data| && st.ip == Wrap32(i) && st.prev == Before(data, i) && !Cut(data, convert, i)
    requires Remaining(streams, st, events, n, Plus(Piece(data, convert, i), rest))
    ensures BringsBack(streams, st, data, convert, i, events, n, rest)
  {
    hide Absolute, ToLe4, Wrap32, Synced, IsStream, BitStep;
    WrapAdds(i, 1);
    var b, context := data[i], Marker(st.prev, data[i]);
    var st1 := st.(ip := Wrap32(st.ip + 1), prev := b);
    assert [] + rest.call == rest.call && [] + rest.jump == rest.jump && [] + rest.events == rest.events;
    if context.Some? {
      EventRestored(streams, st1, events, n, Event(context.value, false), rest);
      Prepends(data, i, 1);
    }
  }

  lemma PieceRestored(streams: Streams, st: State, data: seq<byte>, convert: nat -> bool, i: nat,
                      events: seq<Event>, n: nat, rest: Encoded)
    requires i < |data| && st.ip == Wrap32(i) && st.prev == Before(data, i)
    requires Remaining(streams, st, events, n, Plus(Piece(data, convert, i), rest))
    ensures BringsBack(streams, st, data, convert, i, events, n, rest)
  {
    hide Cut, Piece, Plus, BringsBack, Before, Wrap32;
    if Cut(data, convert, i) {
      CutRestored(streams, st, data, convert, i, events, n, rest);
    } else {
      LeftRestored(streams, st, data, convert, i, events, n, rest);
    }
  }

  lemma Prepends(data: seq<byte>, i: nat, n: nat)
    requires n > 0 && i + n <= |data|
    ensures data[i..i + n] == [data[i]] + data[i + 1..i + n] && (n == 1 ==> data[i + 1..i + n] == [])
  {
  }

  lemma {:induction false} DecodesFrom(streams: Streams, st: State, data: seq<byte>, convert: nat -> bool, i: nat,
                                       events: seq<Event>, n: nat)
    requires i <= |data| && st.ip == Wrap32(i) && st.prev == Before(data, i)
    requires Remaining(streams, st, events, n, EncodeFrom(data, convert, i))
    ensures var r := Run(streams, st, EncodeFrom(data, convert, i).main);
            r.Ok? && r.value.out == data[i..]
    decreases |data| - i
  {
    hide Remaining, ByteStep, Wrap32;
    if i < |data| {
      var next := Next(data, convert, i);
      var piece, rest := Piece(data, convert, i), EncodeFrom(data, convert, next);
      PieceRestored(streams, st, data, convert, i, events, n, rest);
      var ran := ByteStep(streams, st, data[i]).value;
      DecodesFrom(streams, ran.state, data, convert, next, events, n + |piece.events|);
      assert ([data[i]] + rest.main)[1..] == rest.main;
      assert data[i..] == data[i..next] + data[next..];
    }
  }

  /** Decoding what the encoder wrote gives the data back, for every byte
      string and every choice of targets to convert. */
  lemma RoundTrip(streams: Streams, data: seq<byte>, convert: nat -> bool)
    requires IsEncoding(streams, data, convert)
    ensures Initial(streams).Ok?
    ensures Run(streams, Initial(streams).value, EncodeFrom(data, convert, 0).main).Ok?
    ensures Run(streams, Initial(streams).value, EncodeFrom(data, convert, 0).main).value.out == data
  {
    var events := EncodeFrom(data, convert, 0).events;
    OpenTracks(streams.rc, CONTEXTS, events);
    assert events[..0] == [] && events[0..] == events && data[0..] == data;
    assert streams.call[0..] == streams.call && streams.jump[0..] == streams.jump;
    DecodesFrom(streams, Initial(streams).value, data, convert, 0, events, 0);
  }

  // ─── The stage ───────────────────────────────────────────────────

  datatype Status = Continue | StreamEnd

  datatype Progress = Progress(consumed: nat, produced: nat, status: Status)

  /** A snapshot: of the start, of a stage, or of some other codec. */
  datatype Snapshot =
    | NoState
    | Bcj2State(state: State, pending: seq<byte>, finished: bool)
    | OtherState

  /** The snapshot could be of a stage over these streams. */
  predicate Suits(streams: Streams, cp: Snapshot) {
    cp.Bcj2State? ==>
      && |cp.state.probs| == CONTEXTS && cp.state.dec.pos <= |streams.rc|
      && cp.state.callPos <= |streams.call| && cp.state.jumpPos <= |streams.jump|
  }

  class Bcj2Decompressor {
    const streams: Streams
    var probs: seq<Prob>
    var range: u32
    var code: u32
    var rcPos: nat
    var callPos: nat
    var jumpPos: nat
    var ip: u32
    var prev: byte
    /** Decoded but not delivered: what `Run` gives beyond the output so far. */
    var pending: seq<byte>
    var finished: bool

    ghost function Core(): State
      reads this
    {
      State(probs, Decoder(range, code, rcPos), callPos, jumpPos, ip, prev)
    }

    ghost predicate Valid()
      reads this
    {
      Core().Fits(streams)
    }

    constructor (streams: Streams, initial: State)
      requires Initial(streams) == Ok(initial)
      ensures Valid() && this.streams == streams && Core() == initial
      ensures pending == [] && !finished
    {
      this.streams := streams;
      probs := initial.probs;
      range, code, rcPos := initial.dec.range, initial.dec.code, initial.dec.pos;
      callPos, jumpPos, ip, prev := initial.callPos, initial.jumpPos, initial.ip, initial.prev;
      pending, finished := [], false;
    }

    method Bit(context: nat) returns (r: Result<bool, Error>)
      requires Valid() && context < CONTEXTS
      modifies this`range, this`code, this`rcPos, this`probs
      ensures Valid()
      ensures match BitStep(streams, old(Core()), context)
              case Err(e) => r == Err(e)
              case Ok((st, bit)) => r == Ok(bit) && Core() == st
    {
      if range < TOP {
        if rcPos >= |streams.rc| {
          return Err(RcExhausted);
        }
        code := Wrap32(0x100 * code + streams.rc[rcPos]);
        rcPos := rcPos + 1;
        range := range * 0x100;
      }
      var p := probs[context];
      BoundSplits(range, p);
      var bound := Bound(range, p);
      if code < bound {
        range := bound;
        probs := probs[context := p + (BIT_MODEL_TOTAL - p) / MOVE];
        return Ok(false);
      } else {
        range := range - bound;
        code := code - bound;
        probs := probs[context := p - p / MOVE];
        return Ok(true);
      }
    }

    /** Takes a target off one of the side streams and makes it relative again. */
    method Target(call: bool) returns (r: Result<u32, Error>)
      requires Valid()
      modifies this`callPos, this`jumpPos, this`ip
      ensures Valid()
      ensures match TargetStep(streams, old(Core()), call)
              case Err(e) => r == Err(e)
              case Ok((st, target)) => r == Ok(target) && Core() == st
    {
      var stream, pos := if call then streams.call else streams.jump, if call then callPos else jumpPos;
      if pos + 4 > |stream| {
        return Err(if call then CallExhausted else JumpExhausted);
      }
      if call {
        callPos := pos + 4;
      } else {
        jumpPos := pos + 4;
      }
      var src := FromBe4(stream[pos..pos + 4]);
      ip := Wrap32(ip + 4);
      return Ok(Wrap32(src - ip));
    }

    /** A marker byte's bit and, if it is set, its target. */
    method Converted(call: bool, context: nat) returns (r: Result<seq<byte>, Error>)
      requires Valid() && context < CONTEXTS
      modifies this`range, this`code, this`rcPos, this`probs, this`callPos, this`jumpPos, this`ip, this`prev
      ensures Valid()
      ensures match MarkerStep(streams, old(Core()), call, context)
              case Err(e) => r == Err(e)
              case Ok(ran) => r == Ok(ran.out) && Core() == ran.state
    {
      var bit := Bit(context);
      if bit.Err? {
        return Err(bit.error);
      }
      if !bit.value {
        return Ok([]);
      }
      var target := Target(call);
      if target.Err? {
        return Err(target.error);
      }
      var bytes := ToLe4(target.value);
      prev := bytes[3];
      return Ok(bytes);
    }

    /** Writes what fits of `bytes` at `at` and leaves the rest pending. */
    method Deliver(bytes: seq<byte>, output: array<byte>, at: nat) returns (end: nat)
      requires at <= output.Length
      modifies this`pending, output
      ensures at <= end <= output.Length
      ensures output[..end] + pending == old(output[..at]) + bytes
      ensures output[end..] == old(output[end..])
      ensures pending == [] || end == output.Length
    {
      var take := Min(|bytes|, output.Length - at);
      ghost var tail := output[at + take..];
      CopyInto(bytes[..take], output, at);
      pending := bytes[take..];
      assert bytes == bytes[..take] + bytes[take..];
      return at + take;
    }

    /** Decodes one byte of the main stream at `at` of `output`. */
    method DecodeByte(b: byte, output: array<byte>, at: nat) returns (r: Result<nat, Error>)
      requires Valid() && pending == [] && at < output.Length
      modifies this`range, this`code, this`rcPos, this`probs, this`callPos, this`jumpPos, this`ip, this`prev
      modifies this`pending, output
      ensures Valid()
      ensures match ByteStep(streams, old(Core()), b)
              case Err(e) => r == Err(e)
              case Ok(ran) => r.Ok? && Core() == ran.state && at < r.value <= output.Length
                              && output[..r.value] + pending == old(output[..at]) + ran.out
                              && output[r.value..] == old(output[r.value..])
                              && (pending == [] || r.value == output.Length)
    {
      hide MarkerStep;
      ghost var was := output[..];
      output[at] := b;
      assert output[..at + 1] == was[..at] + [b];
      var before := prev;
      ip := Wrap32(ip + 1);
      prev := b;
      var context := Marker(before, b);
      if context == None {
        return Ok(at + 1);
      }
      var bytes := Converted(b == 0xE8, context.value);
      if bytes.Err? {
        return Err(bytes.error);
      }
      var end := Deliver(bytes.value, output, at + 1);
      assert (was[..at] + [b]) + bytes.value == was[..at] + ([b] + bytes.value);
      return Ok(end);
    }

    /** Decodes `input` into `output`. Whatever the sizes of the two, the
        bytes delivered and pending are those of the whole-input decoder. */
    method Decompress(input: seq<byte>, output: array<byte>) returns (r: Result<Progress, Error>)
      requires Valid()
      modifies this, output
      ensures Valid()
      ensures r.Ok? ==> r.value.consumed <= |input| && r.value.produced <= output.Length
      ensures r.Ok? ==> var ran := Run(streams, old(Core()), input[..r.value.consumed]);
                        && ran.Ok? && Core() == ran.value.state
                        && old(pending) + ran.value.out == output[..r.value.produced] + pending
      ensures r.Ok? ==> output[r.value.produced..] == old(output[r.value.produced..])
      ensures r.Ok? ==> r.value.produced == output.Length || (pending == [] && r.value.consumed == |input|)
      ensures r.Ok? ==> finished == (old(finished) || input == [])
      ensures r.Ok? ==> (r.value.status == StreamEnd <==> finished && pending == [])
      ensures r.Err? ==> exists n :: 0 <= n <= |input| && Run(streams, old(Core()), input[..n]) == Err(r.error)
    {
      ghost var start, was := Core(), pending;
      hide Run, ByteStep;
      RunNothing(streams, start);
      var produced := Deliver(pending, output, 0);
      var consumed := 0;
      ghost var emitted: seq<byte> := [];
      assert input[..0] == [];
      while pending == [] && consumed < |input| && produced < output.Length
        invariant Valid() && consumed <= |input| && 0 <= produced <= output.Length
        invariant Run(streams, start, input[..consumed]) == Ok(Ran(Core(), emitted))
        invariant was + emitted == output[..produced] + pending
        invariant output[produced..] == old(output[produced..])
        invariant pending == [] || produced == output.Length
        invariant finished == old(finished)
      {
        ghost var ran := ByteStep(streams, Core(), input[consumed]);
        RunStep(streams, start, input, consumed);
        var at := DecodeByte(input[consumed], output, produced);
        consumed := consumed + 1;
        if at.Err? {
          return Err(at.error);
        }
        assert (was + emitted) + ran.value.out == was + (emitted + ran.value.out);
        emitted := emitted + ran.value.out;
        produced := at.value;
      }
      if input == [] {
        finished := true;
      }
      return Ok(Progress(consumed, produced, if finished && pending == [] then StreamEnd else Continue));
    }

    method Save() returns (cp: Snapshot)
      ensures cp == Bcj2State(Core(), pending, finished)
    {
      cp := Bcj2State(State(probs, Decoder(range, code, rcPos), callPos, jumpPos, ip, prev), pending, finished);
    }

    /** Goes to a snapshot. The range is not among what is checked, so it must
        be one that a stage had. */
    method Restore(cp: Snapshot) returns (r: Result<(), Error>)
      requires Valid() && (cp.Bcj2State? ==> cp.state.dec.range >= 0x1_0000)
      modifies this
      ensures Valid()
      ensures cp.Bcj2State? ==> (r.Ok? <==> Suits(streams, cp))
      ensures cp.NoState? ==> (r.Ok? <==> Initial(streams).Ok?)
      ensures cp.OtherState? ==> r == Err(CheckpointError)
      ensures r.Err? ==> unchanged(this)
      ensures r.Ok? && cp.Bcj2State? ==> Core() == cp.state && pending == cp.pending && finished == cp.finished
      ensures r.Ok? && cp.NoState? ==> Core() == Initial(streams).value && pending == [] && !finished
    {
      match cp {
        case OtherState => return Err(CheckpointError);
        case NoState =>
          var initial := Initial(streams);
          if initial.Err? {
            return Err(initial.error);
          }
          Adopt(initial.value, [], false);
        case Bcj2State(state, held, ended) =>
          if !Suits(streams, cp) {
            return Err(CheckpointError);
          }
          Adopt(state, held, ended);
      }
      return Ok(());
    }

    method Adopt(state: State, held: seq<byte>, ended: bool)
      requires state.Fits(streams)
      modifies this
      ensures Valid() && Core() == state && pending == held && finished == ended
    {
      probs, range, code, rcPos := state.probs, state.dec.range, state.dec.code, state.dec.pos;
      callPos, jumpPos, ip, prev := state.callPos, state.jumpPos, state.ip, state.prev;
      pending, finished := held, ended;
    }
  }

  /** Saved and restored, a stage is as it was. */
  method SaveAndRestore(stage: Bcj2Decompressor) returns (r: Bcj2Decompressor)
    requires stage.Valid() && Initial(stage.streams).Ok?
    ensures fresh(r) && r.Valid() && r.streams == stage.streams
    ensures r.Core() == stage.Core() && r.pending == stage.pending && r.finished == stage.finished
  {
    var cp := stage.Save();
    r := new Bcj2Decompressor(stage.streams, Initial(stage.streams).value);
    var restored := r.Restore(cp);
  }

  // ─── Any chunking ────────────────────────────────────────────────

  /** One more call extends what the calls before it decoded. */
  lemma RunExtends(streams: Streams, st: State, main: seq<byte>, pos: nat, n: nat, input: seq<byte>)
    requires st.Fits(streams)
    requires pos + |input| <= |main| && n <= |input| && input == main[pos..pos + |input|]
    requires Run(streams, st, main[..pos]).Ok?
    ensures var mid := Run(streams, st, main[..pos]).value;
            && Run(streams, st, main[..pos + n]) == Join(mid, Run(streams, mid.state, input[..n]))
            && (Run(streams, mid.state, input[..n]).Err? ==>
                  Run(streams, st, main) == Run(streams, mid.state, input[..n]))
  {
    hide Run, State.Fits;
    RunSplit(streams, st, main[..pos], input[..n]);
    assert main[..pos + n] == main[..pos] + input[..n];
    if Run(streams, st, main[..pos + n]).Err? {
      RunFails(streams, st, main[..pos + n], main[pos + n..]);
      assert main == main[..pos + n] + main[pos + n..];
    }
  }

  /** Hands a stage that has come to `pos`, and given out `out`, `take` bytes
      more and a buffer of `room` bytes. */
  method CallOnce(stage: Bcj2Decompressor, ghost st: State, main: seq<byte>, pos: nat, ghost out: seq<byte>,
                  take: nat, room: nat)
    returns (r: Result<(seq<byte>, nat, bool), Error>)
    requires stage.Valid() && st.Fits(stage.streams) && room > 0
    requires pos + take <= |main| && (take == 0 ==> pos == |main|) && (stage.finished ==> pos == |main|)
    requires Run(stage.streams, st, main[..pos]) == Ok(Ran(stage.Core(), out + stage.pending))
    modifies stage
    ensures stage.Valid()
    ensures match r
            case Err(e) => Run(stage.streams, st, main) == Err(e)
            case Ok((chunk, next, ended)) =>
              && pos <= next <= |main| && (stage.finished ==> next == |main|)
              && Run(stage.streams, st, main[..next]) == Ok(Ran(stage.Core(), (out + chunk) + stage.pending))
              && (ended <==> stage.finished && stage.pending == [])
              && (ended || next > pos || |stage.pending| < |old(stage.pending)|)
  {
    hide Run;
    ghost var mid, held := stage.Core(), stage.pending;
    var input := main[pos..pos + take];
    var buf := new byte[room](_ => 0);
    RunNothing(stage.streams, mid);
    assert input[..0] == [];
    var p := stage.Decompress(input, buf);
    if p.Err? {
      ghost var n :| 0 <= n <= |input| && Run(stage.streams, mid, input[..n]) == Err(p.error);
      RunExtends(stage.streams, st, main, pos, n, input);
      return Err(p.error);
    }
    RunExtends(stage.streams, st, main, pos, p.value.consumed, input);
    ghost var emitted := Run(stage.streams, mid, input[..p.value.consumed]).value.out;
    var chunk := buf[..p.value.produced];
    assert (out + held) + emitted == out + (held + emitted);
    assert out + (chunk + stage.pending) == (out + chunk) + stage.pending;
    return Ok((chunk, pos + p.value.consumed, p.value.status == StreamEnd));
  }

  /** Drives a fresh stage over `main`, handing it `takes(k)` bytes and an
      output buffer of `rooms(k)` bytes at the k-th call, and going on with a
      restored snapshot where `saves(k)`. */
  method DecodeChunked(streams: Streams, main: seq<byte>, takes: nat -> nat, rooms: nat -> nat, saves: nat -> bool)
    returns (r: Result<seq<byte>, Error>)
    requires forall k :: takes(k) > 0 && rooms(k) > 0
    ensures Initial(streams).Err? ==> r == Err(Initial(streams).error)
    ensures Initial(streams).Ok? ==>
              match Run(streams, Initial(streams).value, main)
              case Err(e) => r == Err(e)
              case Ok(ran) => r == Ok(ran.out)
  {
    hide Run, State.Fits;
    var initial := Initial(streams);
    if initial.Err? {
      return Err(initial.error);
    }
    ghost var st := initial.value;
    var stage := new Bcj2Decompressor(streams, initial.value);
    var out: seq<byte> := [];
    var pos, k := 0, 0;
    RunNothing(streams, st);
    assert main[..0] == [];
    assert out + stage.pending == [];
    while true
      invariant fresh(stage) && stage.streams == streams && stage.Valid() && pos <= |main|
      invariant Run(streams, st, main[..pos]) == Ok(Ran(stage.Core(), out + stage.pending))
      invariant stage.finished ==> pos == |main|
      decreases |main| - pos, |stage.pending|
    {
      var called := CallOnce(stage, st, main, pos, out, Min(takes(k), |main| - pos), rooms(k));
      if called.Err? {
        return Err(called.error);
      }
      var (chunk, next, ended) := called.value;
      out, pos := out + chunk, next;
      if ended {
        assert main[..pos] == main && out + [] == out;
        return Ok(out);
      }
      if saves(k) {
        stage := SaveAndRestore(stage);
      }
      k := k + 1;
    }
  }

  /** Encoding and then decoding in chunks of any sizes, through any snapshots,
      gives the data back. */
  method RoundTripChunked(data: seq<byte>, convert: nat -> bool, takes: nat -> nat, rooms: nat -> nat,
                          saves: nat -> bool)
    returns (r: Result<seq<byte>, Error>)
    requires forall k :: takes(k) > 0 && rooms(k) > 0
    ensures r == Ok(data)
  {
    var main, streams := Encode(data, convert);
    RoundTrip(streams, data, convert);
    r := DecodeChunked(streams, main, takes, rooms, saves);
  }
}
