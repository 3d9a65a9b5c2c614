/**
  Decompressors in a row, as one codec.

  The invariant is one equation a link: what is in its buffer is what the
  stage before has given out and the stage after has not taken. It makes the
  chain keep the contract that each stage keeps, so a chain is a stream like
  any other, and the engines run over it.
 */
module ChainCodecs {
  import opened Bytes
  import opened Decompressors
  import opened Sequences
  import opened Wrappers

  /** The most that one link holds. */
  const STAGE_BUF := 0x1_0000

  /** What a link buffer holds: what the stage before it has given out and
      the stage after it has not yet taken. */
  predicate Holds(data: seq<byte>, buf: seq<byte>, read: nat, taken: nat, given: nat) {
    && |buf| <= STAGE_BUF && (read < |buf| || (read == 0 && buf == []))
    && taken <= given <= |data| && buf[read..] == data[taken..given]
  }

  predicate Flowing(streams: seq<Stream>, bufs: seq<seq<byte>>, read: seq<nat>, totals: seq<Totals>,
                          ended: seq<bool>)
  {
    && 2 <= |streams| == |totals| == |ended| && |bufs| == |read| == |streams| - 1
    && (forall i, j :: 0 <= i < |streams| && i < j < |streams| && j == i + 1 ==>
          streams[i].data == streams[j].packed
          && Holds(streams[i].data, bufs[i], read[i], totals[j].taken, totals[i].given))
    && (forall i :: 0 <= i < |streams| ==>
          totals[i].taken <= |streams[i].packed| && totals[i].given <= |streams[i].data|)
    && (forall i :: 0 <= i < |streams| && ended[i] ==> totals[i].given == |streams[i].data|)
  }

  /** Bytes that have passed into and out of all stages. */
  function Moved(totals: seq<Totals>): nat {
    if totals == [] then 0 else Moved(totals[..|totals| - 1]) + totals[|totals| - 1].taken + totals[|totals| - 1].given
  }

  function Bound(streams: seq<Stream>): nat {
    if streams == [] then 0
    else Bound(streams[..|streams| - 1]) + |streams[|streams| - 1].packed| + |streams[|streams| - 1].data|
  }

  lemma MovedBounded(streams: seq<Stream>, totals: seq<Totals>)
    requires |streams| == |totals|
    requires forall i :: 0 <= i < |streams| ==>
               totals[i].taken <= |streams[i].packed| && totals[i].given <= |streams[i].data|
    ensures Moved(totals) <= Bound(streams)
  {
    if streams != [] {
      MovedBounded(streams[..|streams| - 1], totals[..|totals| - 1]);
    }
  }

  lemma MovedUpdate(totals: seq<Totals>, i: nat, t: Totals)
    requires i < |totals|
    ensures Moved(totals[i := t]) == Moved(totals) + t.taken + t.given - totals[i].taken - totals[i].given
  {
    var n := |totals|;
    if i == n - 1 {
      assert totals[i := t][..n - 1] == totals[..n - 1];
    } else {
      MovedUpdate(totals[..n - 1], i, t);
      assert totals[i := t][..n - 1] == totals[..n - 1][i := t];
    }
  }

  /** The stage after a link takes `n` bytes off it. */
  lemma TakingHolds(data: seq<byte>, buf: seq<byte>, read: nat, taken: nat, given: nat, n: nat)
    requires Holds(data, buf, read, taken, given) && read + n <= |buf|
    ensures if read + n == |buf| then Holds(data, [], 0, taken + n, given)
        else Holds(data, buf, read + n, taken + n, given)
  {
    Halves(data, taken, n, given);
    assert buf[read..][n..] == buf[read + n..];
  }

  /** The stage before a link puts bytes on it. */
  lemma GivingHolds(data: seq<byte>, buf: seq<byte>, read: nat, taken: nat, given: nat, bytes: seq<byte>)
    requires Holds(data, buf, read, taken, given) && given + |bytes| <= |data| && |buf| + |bytes| <= STAGE_BUF
    requires bytes == data[given..given + |bytes|]
    ensures Holds(data, buf + bytes, read, taken, given + |bytes|)
  {
    Joined(data, taken, given, given + |bytes|);
    assert (buf + bytes)[read..] == buf[read..] + bytes;
  }

  datatype Ran = Ran(consumed: nat, bytes: seq<byte>, status: Status)

  /** Stage `i` may have done `run`. */
  ghost predicate Allowed(streams: seq<Stream>, f: Flow, i: nat, run: Ran)
    requires Flowing(streams, f.bufs, f.read, f.totals, f.ended) && i < |streams|
  {
    var Totals(taken, given) := f.totals[i];
    && taken + run.consumed <= |streams[i].packed| && given + |run.bytes| <= |streams[i].data|
    && run.bytes == streams[i].data[given..given + |run.bytes|]
    && (run.status.StreamEnd? ==> given + |run.bytes| == |streams[i].data|)
    && (i > 0 ==> f.read[i - 1] + run.consumed <= |f.bufs[i - 1]|)
    && (i + 1 < |streams| ==> |f.bufs[i]| + |run.bytes| <= STAGE_BUF)
  }

  /** What the link before a stage is after the stage took `n` bytes: emptied
      once all is consumed. */
  function Taken(buf: seq<byte>, read: nat, n: nat): (seq<byte>, nat) {
    if read + n == |buf| then ([], 0) else (buf, read + n)
  }

  function Booked(streams: nat, f: Flow, i: nat, run: Ran): Flow
    requires i < streams == |f.totals| == |f.ended| && |f.bufs| == |f.read| == streams - 1
  {
    var g := if i + 1 < streams then f.(bufs := f.bufs[i := f.bufs[i] + run.bytes]) else f;
    var h := if i == 0 then g else
      var (buf, read) := Taken(g.bufs[i - 1], g.read[i - 1], run.consumed);
      g.(bufs := g.bufs[i - 1 := buf], read := g.read[i - 1 := read]);
    h.(totals := h.totals[i := Totals(f.totals[i].taken + run.consumed, f.totals[i].given + |run.bytes|)],
       ended := if run.status.StreamEnd? then h.ended[i := true] else h.ended)
  }

  lemma BookedHolds(streams: seq<Stream>, f: Flow, i: nat, run: Ran, j: nat)
    requires Flowing(streams, f.bufs, f.read, f.totals, f.ended) && i < |streams| && Allowed(streams, f, i, run)
    requires j + 1 < |streams|
    ensures var g := Booked(|streams|, f, i, run);
            Holds(streams[j].data, g.bufs[j], g.read[j], g.totals[j + 1].taken, g.totals[j].given)
  {
    hide Holds;
    var k := j + 1;
    assert Holds(streams[j].data, f.bufs[j], f.read[j], f.totals[k].taken, f.totals[j].given);
    if j == i {
      GivingHolds(streams[i].data, f.bufs[i], f.read[i], f.totals[k].taken, f.totals[i].given, run.bytes);
    } else if k == i {
      TakingHolds(streams[j].data, f.bufs[j], f.read[j], f.totals[i].taken, f.totals[j].given, run.consumed);
    }
  }

  lemma BookedIdle(streams: seq<Stream>, f: Flow, i: nat, run: Ran)
    requires Flowing(streams, f.bufs, f.read, f.totals, f.ended) && i < |streams|
    requires run.consumed == 0 && run.bytes == []
    ensures Booked(|streams|, f, i, run) == f.(ended := Booked(|streams|, f, i, run).ended)
  {
    if i + 1 < |streams| {
      assert f.bufs[i] + [] == f.bufs[i];
    }
    if i > 0 {
      var j := i - 1;
      assert Holds(streams[j].data, f.bufs[j], f.read[j], f.totals[i].taken, f.totals[j].given);
    }
  }

  lemma BookedFlows(streams: seq<Stream>, f: Flow, i: nat, run: Ran)
    requires Flowing(streams, f.bufs, f.read, f.totals, f.ended) && i < |streams|
    requires Allowed(streams, f, i, run) && !f.ended[i]
    ensures var g := Booked(|streams|, f, i, run);
            && Flowing(streams, g.bufs, g.read, g.totals, g.ended)
            && Moved(g.totals) == Moved(f.totals) + run.consumed + |run.bytes|
            && (run.consumed == 0 && run.bytes == [] ==> g == f.(ended := g.ended))
  {
    hide Holds, Moved, Taken;
    var g := Booked(|streams|, f, i, run);
    MovedUpdate(f.totals, i, g.totals[i]);
    forall j, k | 0 <= j && k == j + 1 && k < |streams|
      ensures Holds(streams[j].data, g.bufs[j], g.read[j], g.totals[k].taken, g.totals[j].given)
    {
      BookedHolds(streams, f, i, run, j);
    }
    if run.consumed == 0 && run.bytes == [] {
      BookedIdle(streams, f, i, run);
    }
  }

  /** Whether a pass has left stage `j` with nothing it could do; `dry` says
      the caller's input is used up. */
  ghost predicate Stuck(f: Flow, j: nat, dry: bool)
    requires j < |f.ended| && |f.bufs| == |f.read| == |f.ended| - 1
  {
    || f.ended[j]
    || (j < |f.bufs| && |f.bufs[j]| == STAGE_BUF)
    || (if j == 0 then dry else f.read[j - 1] == |f.bufs[j - 1]| && !f.ended[j - 1])
  }

  ghost predicate AllStuck(f: Flow, n: nat, dry: bool)
    requires n <= |f.ended| && |f.bufs| == |f.read| == |f.ended| - 1
  {
    forall j :: 0 <= j < n ==> Stuck(f, j, dry)
  }

  /** A stage that ends without moving a byte leaves those before it stuck. */
  lemma StuckOn(f: Flow, g: Flow, i: nat, dry: bool)
    requires i < |f.ended| == |g.ended| && |f.bufs| == |f.read| == |f.ended| - 1
    requires g == f.(ended := g.ended) && forall k :: 0 <= k < |f.ended| && k != i ==> g.ended[k] == f.ended[k]
    requires AllStuck(f, i, dry) && Stuck(g, i, dry)
    ensures AllStuck(g, i + 1, dry)
  {
    assert forall j :: 0 <= j < i && Stuck(f, j, dry) ==> Stuck(g, j, dry);
  }

  /** Nothing in flight and nothing counted. */
  lemma StartFlows(streams: seq<Stream>)
    requires |streams| >= 2 && forall i :: 0 <= i < |streams| - 1 ==> streams[i].data == streams[i + 1].packed
    ensures var n := |streams|;
            Flowing(streams, seq(n - 1, _ => []), seq(n - 1, _ => 0), seq(n, _ => Totals(0, 0)), seq(n, _ => false))
  {
  }

  /** What the stage before has left for stage `i` is what comes next of its
      packed bytes. */
  lemma SourceFeeds(streams: seq<Stream>, f: Flow, i: nat)
    requires Flowing(streams, f.bufs, f.read, f.totals, f.ended) && 0 < i < |streams|
    requires f.read[i - 1] == |f.bufs[i - 1]| ==> f.ended[i - 1]
    ensures f.read[i - 1] <= |f.bufs[i - 1]| <= STAGE_BUF
    ensures Feeds(streams[i].packed, f.totals[i].taken, f.bufs[i - 1][f.read[i - 1]..])
  {
    var j := i - 1;
    assert Holds(streams[j].data, f.bufs[j], f.read[j], f.totals[i].taken, f.totals[j].given);
  }

  lemma LinkFits(streams: seq<Stream>, f: Flow, i: nat)
    requires Flowing(streams, f.bufs, f.read, f.totals, f.ended) && i + 1 < |streams|
    ensures f.read[i] <= |f.bufs[i]| <= STAGE_BUF
  {
    assert Holds(streams[i].data, f.bufs[i], f.read[i], f.totals[i + 1].taken, f.totals[i].given);
  }

  /** If no stage can do anything and stage `j` is not merely waiting for
      room, then the caller's input is what is missing. */
  lemma {:induction false} Dry(streams: seq<Stream>, f: Flow, j: nat, dry: bool)
    requires Flowing(streams, f.bufs, f.read, f.totals, f.ended) && j < |streams|
    requires AllStuck(f, |streams|, dry)
    requires !f.ended[j] && (j + 1 < |streams| ==> f.read[j] == |f.bufs[j]|)
    ensures dry
  {
    if j + 1 < |streams| {
      assert Holds(streams[j].data, f.bufs[j], f.read[j], f.totals[j + 1].taken, f.totals[j].given);
    }
    assert Stuck(f, j, dry);
    if j > 0 {
      Dry(streams, f, j - 1, dry);
    }
  }

  lemma BookedLocal(streams: nat, f: Flow, i: nat, run: Ran)
    requires i < streams == |f.totals| == |f.ended| && |f.bufs| == |f.read| == streams - 1
    ensures var g := Booked(streams, f, i, run);
            && |g.totals| == |g.ended| == streams && |g.bufs| == |g.read| == streams - 1
            && g.totals == f.totals[i := Totals(f.totals[i].taken + run.consumed, f.totals[i].given + |run.bytes|)]
            && (forall k :: 0 <= k < streams && k != i ==> g.ended[k] == f.ended[k])
            && (if run.status.StreamEnd? then g.ended[i] else g.ended == f.ended)
  {
  }

  // ─── The codec ───────────────────────────────────────────────────

  predicate Shaped(n: nat, c: State) {
    && c.OfChain? && 2 <= n == |c.states| == |c.flow.totals| == |c.flow.ended|
    && |c.flow.bufs| == |c.flow.read| == n - 1
  }

  /** What is in flight on a link. */
  function Rest(f: Flow, i: nat): seq<byte>
    requires i < |f.bufs| == |f.read|
  {
    if f.read[i] <= |f.bufs[i]| then f.bufs[i][f.read[i]..] else []
  }

  /** One run of stage `i`. */
  function RunStage(streams: seq<Stream>, c: State, i: nat, src: seq<byte>, room: nat): (r: Result<(State, Ran), Error>)
    requires Shaped(|streams|, c) && i < |streams|
    ensures r.Ok? ==> Shaped(|streams|, r.value.0)
  {
    match Apply(streams[i], c.states[i], src, room)
    case Failed(error) => Err(error)
    case Stepped(next, consumed, bytes, status) =>
      var run := Ran(consumed, bytes, status);
      Ok((OfChain(c.states[i := next], Booked(|streams|, c.flow, i, run)), run))
  }

  /** What some turns of stages came to: the input they took, the output they
      gave, and whether a byte moved at all. */
  datatype Turned = Turned(chain: State, consumed: nat, bytes: seq<byte>, moved: bool)

  function Idle(c: State): Turned {
    Turned(c, 0, [], false)
  }

  /** The turn of the stage that the caller feeds. `fin` says that it has no
      more, which the stage must see. */
  function First(streams: seq<Stream>, c: State, avail: seq<byte>, fin: bool): (r: Result<Turned, Error>)
    requires Shaped(|streams|, c)
    ensures r.Ok? ==> Shaped(|streams|, r.value.chain)
  {
    if c.flow.ended[0] || |c.flow.bufs[0]| >= STAGE_BUF || (avail == [] && !fin) then Ok(Idle(c)) else
    match RunStage(streams, c, 0, avail, STAGE_BUF - |c.flow.bufs[0]|)
    case Err(error) => Err(error)
    case Ok((d, run)) => Ok(Turned(d, run.consumed, [], run.consumed > 0 || run.bytes != []))
  }

  /** The turn of a later stage; the last one writes to the caller. */
  function Later(streams: seq<Stream>, c: State, i: nat, room: nat): (r: Result<Turned, Error>)
    requires Shaped(|streams|, c) && 0 < i < |streams|
    ensures r.Ok? ==> Shaped(|streams|, r.value.chain)
  {
    var src, last := Rest(c.flow, i - 1), i + 1 == |streams|;
    if c.flow.ended[i] || (src == [] && !c.flow.ended[i - 1]) then Ok(Idle(c))
    else if (if last then room == 0 else |c.flow.bufs[i]| >= STAGE_BUF) then Ok(Idle(c)) else
    match RunStage(streams, c, i, src, if last then room else STAGE_BUF - |c.flow.bufs[i]|)
    case Err(error) => Err(error)
    case Ok((d, run)) => Ok(Turned(d, 0, if last then run.bytes else [], run.consumed > 0 || run.bytes != []))
  }

  /** `t`, and after it `u`. */
  function After(t: Turned, u: Turned): Turned {
    Turned(u.chain, t.consumed + u.consumed, t.bytes + u.bytes, t.moved || u.moved)
  }

  /** `t`, and then what `r` came to. */
  function Then(t: Turned, r: Result<Turned, Error>): Result<Turned, Error> {
    match r case Err(error) => Err(error) case Ok(u) => Ok(After(t, u))
  }

  lemma ThenIdle(t: Turned, r: Result<Turned, Error>)
    ensures Then(Idle(t.chain), r) == r && Then(t, Ok(Idle(t.chain))) == Ok(t)
  {
    assert t.bytes + [] == t.bytes && (r.Ok? ==> [] + r.value.bytes == r.value.bytes);
  }

  lemma ThenTwice(t: Turned, u: Turned, r: Result<Turned, Error>)
    ensures Then(t, Then(u, r)) == Then(After(t, u), r)
  {
    assert r.Ok? ==> t.bytes + (u.bytes + r.value.bytes) == (t.bytes + u.bytes) + r.value.bytes;
  }

  /** A turn for each of the stages from `i` on. */
  function Turns(streams: seq<Stream>, c: State, i: nat, room: nat): (r: Result<Turned, Error>)
    requires Shaped(|streams|, c) && 0 < i <= |streams|
    ensures r.Ok? ==> Shaped(|streams|, r.value.chain)
    decreases |streams| - i
  {
    if i == |streams| then Ok(Idle(c)) else
    match Later(streams, c, i, room)
    case Err(error) => Err(error)
    case Ok(t) => Then(t, Turns(streams, t.chain, i + 1, room))
  }

  /** A turn for every stage. */
  function Pass(streams: seq<Stream>, c: State, avail: seq<byte>, fin: bool, room: nat): (r: Result<Turned, Error>)
    requires Shaped(|streams|, c)
    ensures r.Ok? ==> Shaped(|streams|, r.value.chain)
  {
    match First(streams, c, avail, fin)
    case Err(error) => Err(error)
    case Ok(t) => Then(t, Turns(streams, t.chain, 1, room))
  }

  predicate Finished(c: State)
    requires c.OfChain? && c.flow.ended != []
  {
    c.flow.ended[|c.flow.ended| - 1]
  }

  /** Whether a pass is to be followed by another. Stages that keep their
      contract never move more bytes than there are. */
  predicate GoesOn(streams: seq<Stream>, c: State, t: Turned, avail: seq<byte>, room: nat)
    requires c.OfChain? && t.chain.OfChain?
  {
    && t.moved && t.consumed <= |avail| && |t.bytes| <= room
    && Moved(c.flow.totals) < Moved(t.chain.flow.totals) <= Bound(streams)
  }

  /** Passes, until the chain has finished, the output is full or nothing
      moves. */
  function Passes(streams: seq<Stream>, c: State, avail: seq<byte>, fin: bool, room: nat): (r: Result<Turned, Error>)
    requires Shaped(|streams|, c)
    ensures r.Ok? ==> Shaped(|streams|, r.value.chain)
    decreases Bound(streams) - Moved(c.flow.totals)
  {
    if Finished(c) || room == 0 then Ok(Idle(c)) else
    match Pass(streams, c, avail, fin, room)
    case Err(error) => Err(error)
    case Ok(t) =>
      if GoesOn(streams, c, t, avail, room) then
        Then(t, Passes(streams, t.chain, avail[t.consumed..], fin, room - |t.bytes|))
      else Ok(t)
  }

  function Decode(streams: seq<Stream>, state: State, input: seq<byte>, room: nat): Step {
    if !Shaped(|streams|, state) then Failed(InvalidState) else
    match Passes(streams, state, input, input == [], room)
    case Err(error) => Failed(error)
    case Ok(t) => Stepped(t.chain, t.consumed, t.bytes, if Finished(t.chain) then StreamEnd else Continue)
  }

  /** The unconsumed part of every link. */
  function Unread(f: Flow): (pending: seq<seq<byte>>)
    requires |f.bufs| == |f.read|
    ensures |pending| == |f.bufs| && forall i :: 0 <= i < |f.bufs| ==> pending[i] == Rest(f, i)
  {
    seq(|f.bufs|, i requires 0 <= i < |f.bufs| => Rest(f, i))
  }

  /** Saves the first `n` stages: all but stage 0 exactly where they stand, for
      they are fed from a buffer. */
  function SaveStages(streams: seq<Stream>, states: seq<State>, n: nat): (r: Result<Option<seq<Saved>>, Error>)
    requires n <= |streams| == |states|
    ensures r.Ok? && r.value.Some? ==> |r.value.value| == n
  {
    if n > 0 then
      match SaveStages(streams, states, n - 1)
      case Err(error) => Err(error)
      case Ok(None) => Ok(None)
      case Ok(Some(before)) =>
        match streams[n - 1].codec.save(states[n - 1])
        case Err(error) => Err(error)
        case Ok(None) => Ok(None)
        case Ok(Some(saved)) => if n > 1 && saved.back != 0 then Ok(None) else Ok(Some(before + [saved]))
    else Ok(Some([]))
  }

  function StatesOf(saved: seq<Saved>): (states: seq<State>)
    ensures |states| == |saved| && forall i :: 0 <= i < |saved| ==> states[i] == saved[i].state
  {
    seq(|saved|, i requires 0 <= i < |saved| => saved[i].state)
  }

  /** The chain with its links compacted, and its first stage `back` behind. */
  function Compacted(c: State, states: seq<State>, back: nat): State
    requires c.OfChain? && |c.flow.bufs| == |c.flow.read| && c.flow.totals != []
  {
    var f, t := c.flow, c.flow.totals[0];
    OfChain(states, Flow(Unread(f), Zeros(|f.bufs|),
                         f.totals[0 := Totals(if back <= t.taken then t.taken - back else 0, t.given)], f.ended))
  }

  function Save(streams: seq<Stream>, c: State): Result<Option<Saved>, Error> {
    if !Shaped(|streams|, c) then Err(InvalidState) else
    match SaveStages(streams, c.states, |streams|)
    case Err(error) => Err(error)
    case Ok(None) => Ok(None)
    case Ok(Some(saved)) => Ok(Some(Saved(Compacted(c, StatesOf(saved), saved[0].back), saved[0].back)))
  }

  /** A chain can be restored if each of its stages can. */
  predicate AllLoad(streams: seq<Stream>, c: State) {
    Shaped(|streams|, c) && forall i :: 0 <= i < |streams| ==> streams[i].codec.loads(c.states[i])
  }

  function StartOf(streams: seq<Stream>): State
    requires streams != []
  {
    var n := |streams|;
    OfChain(seq(n, i requires 0 <= i < n => streams[i].codec.start),
            Flow(seq(n - 1, _ => []), Zeros(n - 1), seq(n, _ => Totals(0, 0)), seq(n, _ => false)))
  }

  /** Each stage stands where the counts say. */
  predicate StandsAt(streams: seq<Stream>, c: State, i: nat)
    requires c.OfChain? && i < |streams| == |c.states| == |c.flow.totals|
  {
    Stands(streams[i], c.states[i], c.flow.totals[i].taken, c.flow.totals[i].given)
  }

  predicate Standing(streams: seq<Stream>, c: State)
    ensures Standing(streams, c) ==> Shaped(|streams|, c)
  {
    && c.OfChain? && Flowing(streams, c.flow.bufs, c.flow.read, c.flow.totals, c.flow.ended)
    && |c.states| == |streams| && forall i :: 0 <= i < |streams| ==> StandsAt(streams, c, i)
  }

  function InPos(c: State): nat
    requires c.OfChain? && c.flow.totals != []
  {
    c.flow.totals[0].taken
  }

  function OutPos(c: State): nat
    requires c.OfChain? && c.flow.totals != []
  {
    c.flow.totals[|c.flow.totals| - 1].given
  }

  function ChainStream(streams: seq<Stream>): Stream
    requires |streams| >= 2
  {
    Stream(Codec(StartOf(streams), (c: State, input: seq<byte>, room: nat) => Decode(streams, c, input, room),
                 (c: State) => Save(streams, c), (c: State) => AllLoad(streams, c)),
           streams[0].packed, streams[|streams| - 1].data,
           (c: State, i: nat, o: nat) => Standing(streams, c) && i == InPos(c) && o == OutPos(c))
  }

  // ─── Each turn keeps the links ───────────────────────────────────

  /** Neighbours agree on the stream between them. */
  ghost predicate Linked(streams: seq<Stream>)
    ensures Linked(streams) ==> |streams| >= 2
  {
    && |streams| >= 2 && (forall i :: 0 <= i < |streams| ==> Lawful(streams[i]))
    && forall i, j :: 0 <= i < |streams| && i < j < |streams| && j == i + 1 ==> streams[i].data == streams[j].packed
  }

  ghost predicate AllLively(streams: seq<Stream>) {
    forall k :: 0 <= k < |streams| ==> Lively(streams[k])
  }

  ghost predicate AllReload(streams: seq<Stream>) {
    forall k :: 0 <= k < |streams| ==> Reloads(streams[k])
  }

  ghost predicate AllSkip(streams: seq<Stream>) {
    forall k :: 0 <= k < |streams| ==> SavesOrSkips(streams[k])
  }

  /** Every stage can be saved, and all that are fed from a buffer exactly
      where they stand. */
  ghost predicate AllSave(streams: seq<Stream>) {
    forall k :: 0 <= k < |streams| ==> SavesAnywhere(streams[k]) && (k > 0 ==> SavesExactly(streams[k]))
  }

  /** `bytes` are what comes next of the data. */
  ghost predicate Gives(streams: seq<Stream>, c: State, d: State, bytes: seq<byte>)
    requires Shaped(|streams|, c) && Shaped(|streams|, d)
  {
    var data := streams[|streams| - 1].data;
    OutPos(d) == OutPos(c) + |bytes| <= |data| && bytes == data[OutPos(c)..OutPos(d)]
  }

  /** A byte moved, or only the marks of ended stages changed. */
  ghost predicate Told(c: State, d: State, moved: bool)
    requires c.OfChain? && d.OfChain?
  {
    if moved then Moved(d.flow.totals) > Moved(c.flow.totals)
    else Moved(d.flow.totals) == Moved(c.flow.totals) && d.flow == c.flow.(ended := d.flow.ended)
  }

  /** The caller's input comes next of the packed bytes, and `fin` only at
      their end. */
  ghost predicate Comes(streams: seq<Stream>, c: State, avail: seq<byte>, fin: bool)
    requires Shaped(|streams|, c)
  {
    var packed, taken := streams[0].packed, InPos(c);
    taken + |avail| <= |packed| && avail == packed[taken..taken + |avail|] && (fin ==> taken == |packed|)
  }

  lemma RunSound(streams: seq<Stream>, c: State, i: nat, src: seq<byte>, room: nat)
    requires Linked(streams) && Standing(streams, c) && i < |streams| && !c.flow.ended[i]
    requires Feeds(streams[i].packed, c.flow.totals[i].taken, src)
    requires i > 0 ==> c.flow.read[i - 1] + |src| <= |c.flow.bufs[i - 1]|
    requires i + 1 < |streams| ==> |c.flow.bufs[i]| + room <= STAGE_BUF
    ensures var r := RunStage(streams, c, i, src, room);
            && (r.Ok? ==>
                  var (d, run) := r.value;
                  && Standing(streams, d) && run.consumed <= |src| && |run.bytes| <= room
                  && d.flow == Booked(|streams|, c.flow, i, run) && Allowed(streams, c.flow, i, run)
                  && Told(c, d, run.consumed > 0 || run.bytes != []))
            && (Lively(streams[i]) && room > 0 ==>
                  r.Ok? && var run := r.value.1; run.consumed > 0 || run.bytes != [] || run.status.StreamEnd?)
  {
    hide Lively, Lawful, Stands, Holds, Booked, Moved;
    assert StandsAt(streams, c, i);
    var Totals(taken, given) := c.flow.totals[i];
    LawfulStep(streams[i], c.states[i], taken, given, src, room);
    LivelyStep(streams[i], c.states[i], taken, given, src, room);
    var r := RunStage(streams, c, i, src, room);
    if r.Ok? {
      var (d, run) := r.value;
      BookedFlows(streams, c.flow, i, run);
      BookedLocal(|streams|, c.flow, i, run);
      forall k | 0 <= k < |streams|
        ensures StandsAt(streams, d, k)
      {
        assert k != i ==> StandsAt(streams, c, k);
      }
    }
  }

  lemma FirstSound(streams: seq<Stream>, c: State, avail: seq<byte>, fin: bool)
    requires Linked(streams) && Standing(streams, c) && Comes(streams, c, avail, fin)
    ensures var r := First(streams, c, avail, fin);
            && (Lively(streams[0]) ==> r.Ok?)
            && (r.Ok? ==>
                  var t := r.value;
                  && Standing(streams, t.chain) && t.consumed <= |avail| && t.bytes == []
                  && InPos(t.chain) == InPos(c) + t.consumed && OutPos(t.chain) == OutPos(c)
                  && Comes(streams, t.chain, avail[t.consumed..], fin)
                  && Told(c, t.chain, t.moved) && (!t.moved ==> t.consumed == 0)
                  && (forall k :: 0 < k < |streams| ==> t.chain.flow.ended[k] == c.flow.ended[k])
                  && (!t.moved && Lively(streams[0]) ==> Stuck(t.chain.flow, 0, avail == [] && !fin)))
  {
    hide Lively, Holds, StandsAt, Allowed, Booked, Moved, RunStage, Feeds;
    LinkFits(streams, c.flow, 0);
    if !(c.flow.ended[0] || |c.flow.bufs[0]| >= STAGE_BUF || (avail == [] && !fin)) {
      ComesFeeds(streams, c, avail, fin);
      RunSound(streams, c, 0, avail, STAGE_BUF - |c.flow.bufs[0]|);
      var r := RunStage(streams, c, 0, avail, STAGE_BUF - |c.flow.bufs[0]|);
      if r.Ok? {
        BookedLocal(|streams|, c.flow, 0, r.value.1);
        Halves(streams[0].packed, InPos(c), r.value.1.consumed, InPos(c) + |avail|);
      }
    }
  }

  lemma ComesFeeds(streams: seq<Stream>, c: State, avail: seq<byte>, fin: bool)
    requires Shaped(|streams|, c) && Comes(streams, c, avail, fin) && (avail != [] || fin)
    ensures Feeds(streams[0].packed, InPos(c), avail)
  {
  }

  /** What the turn of a later stage comes to. */
  ghost predicate Kept(streams: seq<Stream>, c: State, i: nat, room: nat, t: Turned)
    requires Shaped(|streams|, c) && Shaped(|streams|, t.chain)
  {
    && Standing(streams, t.chain) && t.consumed == 0 && |t.bytes| <= room
    && InPos(t.chain) == InPos(c) && Gives(streams, c, t.chain, t.bytes)
    && (i + 1 < |streams| ==> t.bytes == []) && (!t.moved ==> t.bytes == [])
    && Told(c, t.chain, t.moved)
    && (forall k :: 0 <= k < |streams| && k != i ==> t.chain.flow.ended[k] == c.flow.ended[k])
  }

  lemma LaterSound(streams: seq<Stream>, c: State, i: nat, room: nat)
    requires Linked(streams) && Standing(streams, c) && 0 < i < |streams|
    ensures var r := Later(streams, c, i, room);
            && (Lively(streams[i]) ==> r.Ok?)
            && (r.Ok? ==>
                  && Kept(streams, c, i, room, r.value)
                  && (!r.value.moved && Lively(streams[i]) && room > 0 ==> Stuck(r.value.chain.flow, i, false)))
  {
    var f, last := c.flow, i + 1 == |streams|;
    LinkFits(streams, f, i - 1);
    if !last {
      LinkFits(streams, f, i);
    }
    hide Lively, Linked, Flowing, Standing, RunStage, Kept;
    KeptIdle(streams, c, i, room);
    if !f.ended[i] && (Rest(f, i - 1) != [] || f.ended[i - 1]) && (last || |f.bufs[i]| < STAGE_BUF) {
      var space := if last then room else STAGE_BUF - |f.bufs[i]|;
      LaterRuns(streams, c, i, space);
      if !last {
        KeptAnyRoom(streams, c, i, room, space);
      }
    }
  }

  lemma KeptIdle(streams: seq<Stream>, c: State, i: nat, room: nat)
    requires Standing(streams, c)
    ensures Kept(streams, c, i, room, Idle(c))
  {
    hide Standing;
    GivesNothing(streams, c);
  }

  /** Only the last stage has any use for the caller's room. */
  lemma KeptAnyRoom(streams: seq<Stream>, c: State, i: nat, room: nat, space: nat)
    requires Shaped(|streams|, c) && i + 1 < |streams|
    ensures forall t: Turned :: Shaped(|streams|, t.chain) && Kept(streams, c, i, space, t) ==>
              Kept(streams, c, i, room, t)
  {
    hide Standing, Gives, Told;
  }

  lemma LaterRuns(streams: seq<Stream>, c: State, i: nat, space: nat)
    requires Linked(streams) && Standing(streams, c) && 0 < i < |streams| && !c.flow.ended[i]
    requires Rest(c.flow, i - 1) == [] ==> c.flow.ended[i - 1]
    requires i + 1 < |streams| ==> |c.flow.bufs[i]| + space == STAGE_BUF
    ensures var r := RunStage(streams, c, i, Rest(c.flow, i - 1), space);
            && (Lively(streams[i]) && space > 0 ==> r.Ok?)
            && (r.Ok? ==>
                  var (d, run) := r.value;
                  var moved := run.consumed > 0 || run.bytes != [];
                  && Kept(streams, c, i, space, Turned(d, 0, if i + 1 == |streams| then run.bytes else [], moved))
                  && (!moved && Lively(streams[i]) && space > 0 ==> Stuck(d.flow, i, false)))
  {
    var src := Rest(c.flow, i - 1);
    LinkFits(streams, c.flow, i - 1);
    SourceFeeds(streams, c.flow, i);
    hide Lively, Linked, Flowing, Standing, StandsAt, Booked, Moved, RunStage, Feeds, Gives, Told, Allowed;
    RunSound(streams, c, i, src, space);
    var r := RunStage(streams, c, i, src, space);
    if r.Ok? {
      BookedLocal(|streams|, c.flow, i, r.value.1);
      BookedGives(streams, c, r.value.0, i, r.value.1);
    }
  }

  lemma BookedGives(streams: seq<Stream>, c: State, d: State, i: nat, run: Ran)
    requires Standing(streams, c) && Shaped(|streams|, d) && 0 < i < |streams| && Allowed(streams, c.flow, i, run)
    requires d.flow == Booked(|streams|, c.flow, i, run)
    ensures InPos(d) == InPos(c) && Gives(streams, c, d, if i + 1 == |streams| then run.bytes else [])
  {
    hide StandsAt, Booked, Holds;
    BookedLocal(|streams|, c.flow, i, run);
    GivesNothing(streams, c);
  }

  lemma GivesNothing(streams: seq<Stream>, c: State)
    requires Standing(streams, c)
    ensures OutPos(c) <= |streams[|streams| - 1].data| && Gives(streams, c, c, [])
  {
  }

  lemma GivesOn(streams: seq<Stream>, c: State, d: State, e: State, first: seq<byte>, second: seq<byte>)
    requires Shaped(|streams|, c) && Shaped(|streams|, d) && Shaped(|streams|, e)
    requires Gives(streams, c, d, first) && Gives(streams, d, e, second)
    ensures Gives(streams, c, e, first + second)
  {
    Joined(streams[|streams| - 1].data, OutPos(c), OutPos(d), OutPos(e));
  }

  /** Turns one after the other; `dry` says what the stages before are stuck
      for want of. */
  lemma {:induction false} TurnsSound(streams: seq<Stream>, c: State, i: nat, room: nat, dry: bool)
    requires Linked(streams) && Standing(streams, c) && 0 < i <= |streams|
    ensures var r := Turns(streams, c, i, room);
            && (AllLively(streams) ==> r.Ok?)
            && (r.Ok? ==>
                  var t := r.value;
                  && Standing(streams, t.chain) && t.consumed == 0 && |t.bytes| <= room
                  && InPos(t.chain) == InPos(c) && Gives(streams, c, t.chain, t.bytes)
                  && (i == |streams| ==> t.bytes == []) && (!t.moved ==> t.bytes == [])
                  && Told(c, t.chain, t.moved)
                  && (!t.moved && AllLively(streams) && room > 0 && AllStuck(c.flow, i, dry) ==>
                        AllStuck(t.chain.flow, |streams|, dry)))
    decreases |streams| - i
  {
    hide Lively, Linked, Flowing, StandsAt, Moved, Later, Standing, Stuck;
    if i == |streams| {
      GivesNothing(streams, c);
    } else {
      LaterSound(streams, c, i, room);
      var r := Later(streams, c, i, room);
      if r.Ok? {
        var d := r.value.chain;
        TurnsSound(streams, d, i + 1, room, dry);
        var s := Turns(streams, d, i + 1, room);
        if s.Ok? {
          GivesOn(streams, c, d, s.value.chain, r.value.bytes, s.value.bytes);
          if !r.value.moved && AllLively(streams) && room > 0 && AllStuck(c.flow, i, dry) {
            StuckEither(d.flow, i, dry);
            StuckOn(c.flow, d.flow, i, dry);
          }
        }
      }
    }
  }

  lemma StuckEither(f: Flow, j: nat, dry: bool)
    requires 0 < j < |f.ended| && |f.bufs| == |f.read| == |f.ended| - 1 && Stuck(f, j, false)
    ensures Stuck(f, j, dry)
  {
  }

  lemma PassSound(streams: seq<Stream>, c: State, avail: seq<byte>, fin: bool, room: nat)
    requires Linked(streams) && Standing(streams, c) && Comes(streams, c, avail, fin) && room > 0
    ensures var r := Pass(streams, c, avail, fin, room);
            && (AllLively(streams) ==> r.Ok?)
            && (r.Ok? ==>
                  var t := r.value;
                  && Standing(streams, t.chain) && t.consumed <= |avail| && |t.bytes| <= room
                  && InPos(t.chain) == InPos(c) + t.consumed && Gives(streams, c, t.chain, t.bytes)
                  && Comes(streams, t.chain, avail[t.consumed..], fin) && Told(c, t.chain, t.moved)
                  && (!t.moved && AllLively(streams) && !Finished(t.chain) ==> avail == [] && !fin))
  {
    hide Lively, Linked, Flowing, StandsAt, Moved, First, Turns, Standing, Stuck, AllStuck;
    FirstSound(streams, c, avail, fin);
    var r := First(streams, c, avail, fin);
    if r.Ok? {
      var d, dry := r.value.chain, avail == [] && !fin;
      TurnsSound(streams, d, 1, room, dry);
      var s := Turns(streams, d, 1, room);
      if s.Ok? {
        assert [] + s.value.bytes == s.value.bytes;
        if !r.value.moved && !s.value.moved && AllLively(streams) {
          OneStuck(c.flow, d.flow, dry);
          Ended(streams, s.value.chain, dry);
        }
      }
    }
  }

  lemma OneStuck(f: Flow, g: Flow, dry: bool)
    requires 0 < |g.ended| && |g.bufs| == |g.read| == |g.ended| - 1 && Stuck(g, 0, dry)
    ensures AllStuck(g, 1, dry)
  {
  }

  lemma Ended(streams: seq<Stream>, c: State, dry: bool)
    requires Standing(streams, c) && AllStuck(c.flow, |streams|, dry)
    ensures Finished(c) || dry
  {
    hide AllStuck, StandsAt;
    if !Finished(c) {
      Dry(streams, c.flow, |streams| - 1, dry);
    }
  }

  lemma {:induction false} PassesSound(streams: seq<Stream>, c: State, avail: seq<byte>, fin: bool, room: nat)
    requires Linked(streams) && Standing(streams, c) && Comes(streams, c, avail, fin)
    ensures var r := Passes(streams, c, avail, fin, room);
            && (AllLively(streams) ==> r.Ok?)
            && (r.Ok? ==>
                  var t := r.value;
                  && Standing(streams, t.chain) && t.consumed <= |avail| && |t.bytes| <= room
                  && InPos(t.chain) == InPos(c) + t.consumed && Gives(streams, c, t.chain, t.bytes)
                  && (AllLively(streams) ==> Finished(t.chain) || |t.bytes| == room || (t.consumed == |avail| && !fin)))
    decreases Bound(streams) - Moved(c.flow.totals)
  {
    hide Lively, Linked, Flowing, StandsAt, Moved, Bound, Pass, Standing;
    GivesNothing(streams, c);
    InBounds(streams, c);
    if !Finished(c) && room > 0 {
      PassSound(streams, c, avail, fin, room);
      var r := Pass(streams, c, avail, fin, room);
      if r.Ok? {
        var d := r.value.chain;
        InBounds(streams, d);
        if r.value.moved {
          PassesSound(streams, d, avail[r.value.consumed..], fin, room - |r.value.bytes|);
          var s := Passes(streams, d, avail[r.value.consumed..], fin, room - |r.value.bytes|);
          if s.Ok? {
            GivesOn(streams, c, d, s.value.chain, r.value.bytes, s.value.bytes);
          }
        }
      }
    }
  }

  lemma InBounds(streams: seq<Stream>, c: State)
    requires Standing(streams, c)
    ensures Moved(c.flow.totals) <= Bound(streams)
    ensures InPos(c) <= |streams[0].packed| && OutPos(c) <= |streams[|streams| - 1].data|
    ensures Finished(c) ==> OutPos(c) == |streams[|streams| - 1].data|
  {
    MovedBounded(streams, c.flow.totals);
  }

  /** `whole` is what passes over `input` come to, `acc` is what some of them
      came to, and the rest is still to be done. */
  ghost predicate OnTrack(streams: seq<Stream>, whole: Result<Turned, Error>, acc: Turned, input: seq<byte>,
                          room: nat)
  {
    && Shaped(|streams|, acc.chain) && acc.consumed <= |input| && |acc.bytes| <= room
    && Comes(streams, acc.chain, input[acc.consumed..], input == [])
    && whole == Then(acc, Passes(streams, acc.chain, input[acc.consumed..], input == [], room - |acc.bytes|))
  }

  lemma TrackStarts(streams: seq<Stream>, c: State, input: seq<byte>, room: nat)
    requires Shaped(|streams|, c) && Comes(streams, c, input, input == [])
    ensures OnTrack(streams, Passes(streams, c, input, input == [], room), Idle(c), input, room)
  {
    hide Passes, Comes;
    assert input[0..] == input;
    ThenIdle(Idle(c), Passes(streams, c, input, input == [], room));
  }

  lemma TrackEnds(streams: seq<Stream>, whole: Result<Turned, Error>, acc: Turned, input: seq<byte>, room: nat)
    requires OnTrack(streams, whole, acc, input, room) && (Finished(acc.chain) || |acc.bytes| == room)
    ensures whole == Ok(acc)
  {
    hide Pass, Comes;
    ThenIdle(acc, whole);
  }

  /** A pass, and what is left to do after it. */
  lemma PassesStep(streams: seq<Stream>, c: State, avail: seq<byte>, fin: bool, room: nat)
    requires Linked(streams) && Standing(streams, c) && Comes(streams, c, avail, fin) && room > 0 && !Finished(c)
    ensures var all, r := Passes(streams, c, avail, fin, room), Pass(streams, c, avail, fin, room);
            && (r.Err? ==> all == r)
            && (r.Ok? && !r.value.moved ==> all == r)
            && (r.Ok? ==>
                  && r.value.consumed <= |avail| && |r.value.bytes| <= room
                  && Comes(streams, r.value.chain, avail[r.value.consumed..], fin))
            && (r.Ok? && r.value.moved ==>
                  && Moved(c.flow.totals) < Moved(r.value.chain.flow.totals) <= Bound(streams)
                  && all == Then(r.value, Passes(streams, r.value.chain, avail[r.value.consumed..], fin,
                                                 room - |r.value.bytes|)))
  {
    hide Linked, Standing, Pass, Comes, Gives, Moved, Bound;
    PassSound(streams, c, avail, fin, room);
    var r := Pass(streams, c, avail, fin, room);
    if r.Ok? {
      InBounds(streams, r.value.chain);
    }
  }

  /** One more pass. */
  lemma TrackStep(streams: seq<Stream>, whole: Result<Turned, Error>, acc: Turned, input: seq<byte>, room: nat)
    requires OnTrack(streams, whole, acc, input, room) && Linked(streams) && Standing(streams, acc.chain)
    requires !Finished(acc.chain) && |acc.bytes| < room
    ensures var r := Pass(streams, acc.chain, input[acc.consumed..], input == [], room - |acc.bytes|);
            && (r.Err? ==> whole == r)
            && (r.Ok? && !r.value.moved ==> whole == Ok(After(acc, r.value)))
            && (r.Ok? && r.value.moved ==>
                  && OnTrack(streams, whole, After(acc, r.value), input, room)
                  && Moved(acc.chain.flow.totals) < Moved(r.value.chain.flow.totals) <= Bound(streams))
  {
    hide Linked, Standing, Shaped, Pass, Passes, Comes, Moved, Bound, OnTrack, Then, After;
    TrackOpens(streams, whole, acc, input, room);
    var avail, fin, left := input[acc.consumed..], input == [], room - |acc.bytes|;
    PassesStep(streams, acc.chain, avail, fin, left);
    var r := Pass(streams, acc.chain, avail, fin, left);
    ThenGoes(acc, r);
    if r.Ok? && r.value.moved {
      TrackOn(streams, acc, r.value, input, room);
    }
  }

  lemma TrackOpens(streams: seq<Stream>, whole: Result<Turned, Error>, acc: Turned, input: seq<byte>, room: nat)
    requires OnTrack(streams, whole, acc, input, room)
    ensures Shaped(|streams|, acc.chain) && acc.consumed <= |input| && |acc.bytes| <= room
    ensures Comes(streams, acc.chain, input[acc.consumed..], input == [])
    ensures whole == Then(acc, Passes(streams, acc.chain, input[acc.consumed..], input == [], room - |acc.bytes|))
  {
  }

  lemma TrackOn(streams: seq<Stream>, acc: Turned, t: Turned, input: seq<byte>, room: nat)
    requires Shaped(|streams|, t.chain) && acc.consumed <= |input| && |acc.bytes| <= room
    requires t.consumed <= |input| - acc.consumed && |t.bytes| <= room - |acc.bytes|
    requires Comes(streams, t.chain, input[acc.consumed..][t.consumed..], input == [])
    ensures var rest := input[acc.consumed..][t.consumed..];
            var left := Passes(streams, t.chain, rest, input == [], room - |acc.bytes| - |t.bytes|);
            OnTrack(streams, Then(acc, Then(t, left)), After(acc, t), input, room)
  {
    hide Passes, Comes, Shaped;
    DropDrop(input, acc.consumed, t.consumed);
    ThenGoes(acc, Ok(t));
    hide Then, After;
    ThenTwice(acc, t, Passes(streams, t.chain, input[acc.consumed + t.consumed..], input == [],
                             room - |acc.bytes| - |t.bytes|));
  }

  lemma ThenGoes(t: Turned, r: Result<Turned, Error>)
    ensures if r.Ok? then Then(t, r) == Ok(After(t, r.value)) else Then(t, r) == r
    ensures r.Ok? ==>
              var u := After(t, r.value);
              && u.chain == r.value.chain && u.consumed == t.consumed + r.value.consumed
              && |u.bytes| == |t.bytes| + |r.value.bytes|
  {
  }

  // ─── The chain keeps the contract ────────────────────────────────

  lemma StepSound(streams: seq<Stream>, c: State, input: seq<byte>, room: nat)
    requires Linked(streams) && Standing(streams, c) && Feeds(streams[0].packed, InPos(c), input)
    ensures Sound(ChainStream(streams), InPos(c), OutPos(c), input, room, Decode(streams, c, input, room))
    ensures AllLively(streams) && room > 0 ==> Moves(Decode(streams, c, input, room))
  {
    hide Lively, Linked, Flowing, StandsAt, Passes, Standing;
    PassesSound(streams, c, input, input == [], room);
    var r := Passes(streams, c, input, input == [], room);
    if r.Ok? {
      InBounds(streams, r.value.chain);
    }
  }

  /** The first stages, saved: all but stage 0 where they stand. */
  ghost predicate SavedAs(streams: seq<Stream>, c: State, saved: seq<Saved>)
    requires Shaped(|streams|, c) && |saved| <= |streams|
  {
    forall k :: 0 <= k < |saved| ==> StageSaved(streams[k], c.flow.totals[k], saved[k], k > 0)
  }

  ghost predicate StageSaved(s: Stream, t: Totals, saved: Saved, exact: bool) {
    && saved.back <= t.taken && (exact ==> saved.back == 0)
    && Stands(s, saved.state, t.taken - saved.back, t.given)
  }

  lemma {:induction false} SavesStages(streams: seq<Stream>, c: State, n: nat)
    requires Linked(streams) && Standing(streams, c) && n <= |streams|
    ensures var r := SaveStages(streams, c.states, n);
            && (r.Ok? && r.value.Some? ==> SavedAs(streams, c, r.value.value))
            && (AllSkip(streams) ==> r.Ok?) && (AllSave(streams) ==> r.Ok? && r.value.Some?)
    decreases n
  {
    hide Linked, Standing, AllSkip, AllSave;
    if n > 0 {
      hide SavedAs;
      SavesStages(streams, c, n - 1);
      SavesNext(streams, c, n - 1);
    }
  }

  lemma SavesNext(streams: seq<Stream>, c: State, k: nat)
    requires Linked(streams) && Standing(streams, c) && k < |streams|
    ensures var r := streams[k].codec.save(c.states[k]);
            && (AllSkip(streams) ==> r.Ok?)
            && (AllSave(streams) ==> r.Ok? && r.value.Some? && (k > 0 ==> r.value.value.back == 0))
            && (r.Ok? && r.value.Some? && (k > 0 ==> r.value.value.back == 0) ==>
                  forall before :: |before| == k && SavedAs(streams, c, before) ==>
                    SavedAs(streams, c, before + [r.value.value]))
  {
    assert StandsAt(streams, c, k) && Lawful(streams[k]);
    assert AllSkip(streams) ==> SavesOrSkips(streams[k]);
    hide Flowing, Stands, Lawful, SavesOrSkips, SavesAnywhere, SavesExactly;
    StageSaves(streams[k], c.states[k], c.flow.totals[k].taken, c.flow.totals[k].given);
  }

  lemma StageSaves(s: Stream, state: State, i: nat, o: nat)
    requires Lawful(s) && Stands(s, state, i, o)
    ensures SavedSound(s, i, o, s.codec.save(state))
    ensures SavesOrSkips(s) ==> s.codec.save(state).Ok?
    ensures SavesAnywhere(s) ==> s.codec.save(state).Ok? && s.codec.save(state).value.Some?
    ensures SavesExactly(s) ==> ExactlySaved(s.codec.save(state))
  {
  }

  /** The bytes in flight, with nothing of them read, link the same counts. */
  lemma CompactedFlows(streams: seq<Stream>, c: State, states: seq<State>, back: nat)
    requires Standing(streams, c) && back <= InPos(c)
    ensures var f := Compacted(c, states, back).flow;
            Flowing(streams, f.bufs, f.read, f.totals, f.ended)
  {
    hide Holds, StandsAt;
    var f, g := c.flow, Compacted(c, states, back).flow;
    forall i, j | 0 <= i < |streams| && i < j < |streams| && j == i + 1
      ensures Holds(streams[i].data, g.bufs[i], g.read[i], g.totals[j].taken, g.totals[i].given)
    {
      assert Holds(streams[i].data, f.bufs[i], f.read[i], f.totals[j].taken, f.totals[i].given);
      StillHolds(streams[i].data, f.bufs[i], f.read[i], f.totals[j].taken, f.totals[i].given);
    }
  }

  lemma StillHolds(data: seq<byte>, buf: seq<byte>, at: nat, taken: nat, given: nat)
    requires Holds(data, buf, at, taken, given)
    ensures at <= |buf| && Holds(data, buf[at..], 0, taken, given)
  {
  }

  lemma SaveSound(streams: seq<Stream>, c: State)
    requires Linked(streams) && Standing(streams, c)
    ensures SavedSound(ChainStream(streams), InPos(c), OutPos(c), Save(streams, c))
    ensures AllSkip(streams) ==> Save(streams, c).Ok?
    ensures AllSave(streams) ==> Save(streams, c).Ok? && Save(streams, c).value.Some?
  {
    hide Linked, AllSkip, AllSave, SaveStages, Standing, Compacted, SavedAs;
    SavesStages(streams, c, |streams|);
    var r := SaveStages(streams, c.states, |streams|);
    if r.Ok? && r.value.Some? {
      SavedStands(streams, c, r.value.value);
    }
  }

  lemma SavedStands(streams: seq<Stream>, c: State, saved: seq<Saved>)
    requires Standing(streams, c) && |saved| == |streams|
    requires SavedAs(streams, c, saved)
    ensures var d := Compacted(c, StatesOf(saved), saved[0].back);
            && Standing(streams, d) && saved[0].back <= InPos(c)
            && InPos(d) == InPos(c) - saved[0].back && OutPos(d) == OutPos(c)
  {
    hide Flowing, Stands, Unread;
    var d := Compacted(c, StatesOf(saved), saved[0].back);
    assert StageSaved(streams[0], c.flow.totals[0], saved[0], false);
    CompactedFlows(streams, c, StatesOf(saved), saved[0].back);
    forall k | 0 <= k < |streams|
      ensures StandsAt(streams, d, k)
    {
    }
  }

  lemma StartStands(streams: seq<Stream>)
    requires Linked(streams)
    ensures Standing(streams, StartOf(streams)) && InPos(StartOf(streams)) == 0 && OutPos(StartOf(streams)) == 0
  {
    StartFlows(streams);
    var c := StartOf(streams);
    forall k | 0 <= k < |streams|
      ensures StandsAt(streams, c, k)
    {
    }
  }

  lemma {:induction false} EmptyAlong(streams: seq<Stream>, i: nat)
    requires Linked(streams) && i < |streams| && streams[0].packed == []
    ensures streams[i].packed == [] && streams[i].data == []
  {
    hide Sound, Stands, SavedSound;
    if i > 0 {
      EmptyAlong(streams, i - 1);
      var j := i - 1;
      assert streams[j].data == streams[i].packed;
    }
  }

  /** A chain of lawful stages that agree on the streams between them is a
      lawful stream of its own. */
  lemma ChainIsLawful(streams: seq<Stream>)
    requires Linked(streams)
    ensures Lawful(ChainStream(streams))
  {
    hide Linked, Standing, Decode, Sound, SavedSound, StartOf;
    var s := ChainStream(streams);
    StartStands(streams);
    if s.packed == [] {
      EmptyAlong(streams, |streams| - 1);
    }
    forall c: State, i: nat, o: nat | Stands(s, c, i, o)
      ensures i <= |s.packed| && o <= |s.data| && SavedSound(s, i, o, s.codec.save(c))
    {
      InBounds(streams, c);
      SaveSound(streams, c);
    }
    forall c: State, i: nat, o: nat, input: seq<byte>, room: nat | Stands(s, c, i, o) && Feeds(s.packed, i, input)
      ensures Sound(s, i, o, input, room, Apply(s, c, input, room))
    {
      StepSound(streams, c, input, room);
    }
  }

  /** What its stages have in common, it has. */
  lemma ChainIsUnfailing(streams: seq<Stream>)
    requires Linked(streams)
    ensures AllLively(streams) ==> Lively(ChainStream(streams))
    ensures AllReload(streams) ==> Reloads(ChainStream(streams))
    ensures AllSkip(streams) ==> SavesOrSkips(ChainStream(streams))
    ensures AllSave(streams) ==> SavesAnywhere(ChainStream(streams))
  {
    hide Linked, Decode, Sound, SavedSound, StartOf, Standing, Moves, Save, AllLively;
    var s := ChainStream(streams);
    forall c: State, i: nat, o: nat | Stands(s, c, i, o)
      ensures AllReload(streams) ==> s.codec.loads(c)
      ensures AllSkip(streams) ==> s.codec.save(c).Ok?
      ensures AllSave(streams) ==> s.codec.save(c).Ok? && s.codec.save(c).value.Some?
    {
      SaveSound(streams, c);
      StandingLoads(streams, c);
    }
    forall c: State, i: nat, o: nat, input: seq<byte>, room: nat |
      Stands(s, c, i, o) && Feeds(s.packed, i, input) && room > 0
      ensures AllLively(streams) ==> Moves(Apply(s, c, input, room))
    {
      StepSound(streams, c, input, room);
    }
  }

  lemma StandingLoads(streams: seq<Stream>, c: State)
    requires Standing(streams, c)
    ensures AllReload(streams) ==> AllLoad(streams, c)
  {
    forall k | 0 <= k < |streams|
      ensures Reloads(streams[k]) ==> streams[k].codec.loads(c.states[k])
    {
      assert StandsAt(streams, c, k);
    }
  }
}
