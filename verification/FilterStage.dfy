/**
  Stages that undo a branch converter or a Delta filter.

  `Whole` converts a stream at one go. A stage that is fed pieces of it keeps
  bytes back until they cannot change any more, and what it has given out,
  followed by its `Future`, is `Whole` of all it will ever be fed.
 */
module FilterStage {
  import opened Bytes
  import opened Sequences
  import opened Wrappers
  import opened X86Branch

  /** The most a call takes in. */
  const CHUNK := 0x1_0000

  const DELTA_HISTORY := 256

  /** x86, or a converter that settles the first bytes of a window of `look`
      bytes at a time. */
  datatype Arch =
    | X86Arch
    | Windowed(look: nat, settle: (seq<byte>, nat) -> seq<byte>)

  function SettleWindow(arch: Arch, w: seq<byte>, pos: nat): seq<byte>
    requires arch.Windowed?
  {
    arch.settle(w, pos)
  }

  ghost predicate WellFormed(arch: Arch) {
    arch.Windowed? ==>
      && arch.look >= 1
      && forall w: seq<byte>, pos: nat :: |w| == arch.look ==> 1 <= |SettleWindow(arch, w, pos)| <= arch.look
  }

  // ─── Conversion of a whole stream ────────────────────────────────

  /** A windowed converter settles windows while it has them. */
  function WindowReach(arch: Arch, s: seq<byte>, pos: nat): (out: seq<byte>)
    requires arch.Windowed? && WellFormed(arch)
    ensures |out| <= |s| && |s| - |out| < arch.look
    decreases |s|
  {
    if |s| < arch.look then [] else
    var out := SettleWindow(arch, s[..arch.look], pos);
    out + WindowReach(arch, s[|out|..], pos + |out|)
  }

  function WindowConvert(arch: Arch, s: seq<byte>, pos: nat): seq<byte>
    requires arch.Windowed? && WellFormed(arch)
  {
    var out := WindowReach(arch, s, pos);
    out + s[|out|..]
  }

  /** Delta adds to every byte the output `distance` bytes before it; `past`
      is the output so far. */
  function DeltaDecode(distance: nat, past: seq<byte>, s: seq<byte>): (out: seq<byte>)
    requires 1 <= distance <= |past|
    ensures |out| == |s|
    decreases |s|
  {
    if s == [] then [] else
    var b := AddBytes(s[0], past[|past| - distance]);
    [b] + DeltaDecode(distance, past + [b], s[1..])
  }

  /** What a stage still remembers of the bytes it has settled. */
  datatype Flow =
    | X86Flow(mask: bv8)
    | WindowFlow(arch: Arch)
    | DeltaFlow(distance: nat, past: seq<byte>)

  ghost predicate Sound(flow: Flow) {
    match flow
    case X86Flow(_) => true
    case WindowFlow(arch) => arch.Windowed? && WellFormed(arch)
    case DeltaFlow(distance, past) => 1 <= distance <= |past|
  }

  /** The conversion of the rest `s` of a stream, from position `at` on. */
  function Whole(flow: Flow, s: seq<byte>, at: nat): seq<byte>
    requires Sound(flow)
  {
    match flow
    case X86Flow(mask) => Convert(false, s, mask, at)
    case WindowFlow(arch) => WindowConvert(arch, s, at)
    case DeltaFlow(distance, past) => DeltaDecode(distance, past, s)
  }

  lemma {:induction false} DeltaSplit(distance: nat, past: seq<byte>, s: seq<byte>, t: seq<byte>)
    requires 1 <= distance <= |past|
    ensures var out := DeltaDecode(distance, past, s);
            DeltaDecode(distance, past, s + t) == out + DeltaDecode(distance, past + out, t)
    decreases |s|
  {
    if s == [] {
      assert s + t == t && past + [] == past;
      assert [] + DeltaDecode(distance, past, t) == DeltaDecode(distance, past, t);
    } else {
      var b := AddBytes(s[0], past[|past| - distance]);
      DeltaSplit(distance, past + [b], s[1..], t);
      assert (s + t)[1..] == s[1..] + t;
      var rest := DeltaDecode(distance, past + [b], s[1..]);
      assert (past + [b]) + rest == past + ([b] + rest);
      Associates([b], rest, DeltaDecode(distance, past + ([b] + rest), t));
    }
  }

  /** Delta decoding in closed form: every output byte is the input byte plus
      the output byte `distance` before it, zero before the start. */
  lemma {:induction false} DeltaAt(distance: nat, past: seq<byte>, s: seq<byte>, i: nat)
    requires 1 <= distance <= |past| && i < |s|
    ensures var all := past + DeltaDecode(distance, past, s);
            all[|past| + i] == AddBytes(s[i], all[|past| + i - distance])
    decreases |s|
  {
    var b := AddBytes(s[0], past[|past| - distance]);
    var rest := DeltaDecode(distance, past + [b], s[1..]);
    assert (past + [b]) + rest == past + ([b] + rest);
    if i > 0 {
      DeltaAt(distance, past + [b], s[1..], i - 1);
    }
  }

  lemma {:induction false} WindowSplit(arch: Arch, s: seq<byte>, t: seq<byte>, pos: nat)
    requires arch.Windowed? && WellFormed(arch)
    ensures var out := WindowReach(arch, s, pos);
            WindowConvert(arch, s + t, pos) == out + WindowConvert(arch, s[|out|..] + t, pos + |out|)
    decreases |s|
  {
    hide WindowConvert, WindowReach, WellFormed;
    if |s| < arch.look {
      WindowShort(arch, s, pos);
      assert s[0..] + t == s + t;
      var whole := WindowConvert(arch, s + t, pos);
      assert [] + whole == whole;
      return;
    }
    var out, rest := WindowFirst(arch, s, t, pos);
    WindowSplit(arch, rest, t, pos + |out|);
    var r := WindowReach(arch, rest, pos + |out|);
    DropDrop(s, |out|, |r|);
    Associates(out, r, WindowConvert(arch, rest[|r|..] + t, pos + |out| + |r|));
  }

  lemma FrontOf(s: seq<byte>, t: seq<byte>, n: nat)
    requires n <= |s|
    ensures (s + t)[..n] == s[..n] && (s + t)[n..] == s[n..] + t
  {
  }

  lemma WindowFirst(arch: Arch, s: seq<byte>, t: seq<byte>, pos: nat) returns (out: seq<byte>, rest: seq<byte>)
    requires arch.Windowed? && WellFormed(arch) && |s| >= arch.look
    ensures out == SettleWindow(arch, s[..arch.look], pos) && 1 <= |out| <= |s| && rest == s[|out|..]
    ensures WindowReach(arch, s, pos) == out + WindowReach(arch, rest, pos + |out|)
    ensures WindowConvert(arch, s + t, pos) == out + WindowConvert(arch, rest + t, pos + |out|)
  {
    hide WindowReach, WindowConvert, WellFormed, SettleWindow;
    FrontOf(s, t, arch.look);
    FirstReached(arch, s, pos);
    FirstReached(arch, s + t, pos);
    out := SettleWindow(arch, s[..arch.look], pos);
    rest := s[|out|..];
    WindowCovers(arch, s + t, pos);
    WindowCovers(arch, rest + t, pos + |out|);
    FrontOf(s, t, |out|);
    var r := WindowReach(arch, rest + t, pos + |out|);
    DropDrop(s + t, |out|, |r|);
    Associates(out, r, (rest + t)[|r|..]);
  }

  lemma FirstReached(arch: Arch, s: seq<byte>, pos: nat)
    requires arch.Windowed? && WellFormed(arch) && |s| >= arch.look
    ensures var out := SettleWindow(arch, s[..arch.look], pos);
            1 <= |out| <= |s| && WindowReach(arch, s, pos) == out + WindowReach(arch, s[|out|..], pos + |out|)
  {
  }

  // ─── The stage ───────────────────────────────────────────────────

  datatype FilterState =
    | BcjState(arch: Arch, prevMask: bv8, prevPos: u32)
    | DeltaState(distance: nat, history: seq<byte>, histPos: byte)

  datatype Progress = Progress(consumed: nat, produced: nat, ended: bool)

  /** How many outputs ago cell `j` of the ring was written. */
  function Age(j: byte, histPos: byte): (k: nat)
    ensures 1 <= k <= DELTA_HISTORY
  {
    if j > histPos then j - histPos else DELTA_HISTORY + j - histPos
  }

  function Previous(histPos: byte): byte {
    if histPos == 0 then 0xFF else histPos - 1
  }

  /** The ring holds the last 256 outputs, the newest just after `histPos`. */
  ghost predicate RingHolds(history: seq<byte>, histPos: byte, past: seq<byte>) {
    && |history| == DELTA_HISTORY <= |past|
    && forall j: byte :: history[j] == past[|past| - Age(j, histPos)]
  }

  lemma RingStep(history: seq<byte>, histPos: byte, past: seq<byte>, b: byte)
    requires RingHolds(history, histPos, past)
    ensures RingHolds(history[histPos := b], Previous(histPos), past + [b])
  {
    forall j: byte
      ensures history[histPos := b][j] == (past + [b])[|past| + 1 - Age(j, Previous(histPos))]
    {
      assert history[j] == past[|past| - Age(j, histPos)];
    }
  }

  /** Decodes `data` through the ring. */
  method DeltaRun(distance: nat, history: seq<byte>, histPos: byte, ghost past: seq<byte>, data: seq<byte>)
    returns (out: seq<byte>, history': seq<byte>, histPos': byte)
    requires 1 <= distance <= DELTA_HISTORY && RingHolds(history, histPos, past)
    ensures out == DeltaDecode(distance, past, data)
    ensures RingHolds(history', histPos', past + out)
  {
    hide RingHolds, DeltaDecode;
    RingLength(history, histPos, past);
    DeltaNothing(distance, past);
    out, history', histPos' := [], history, histPos;
    assert past + [] == past && data[..0] == [];
    for i := 0 to |data|
      invariant |history'| == DELTA_HISTORY && |past| >= DELTA_HISTORY
      invariant out == DeltaDecode(distance, past, data[..i])
      invariant RingHolds(history', histPos', past + out)
    {
      var b := AddBytes(data[i], history'[(distance + histPos') % DELTA_HISTORY]);
      RingAt(history', histPos', past + out, distance);
      DeltaNext(distance, past, data, i);
      RingStep(history', histPos', past + out, b);
      Associates(past, out, [b]);
      history' := history'[histPos' := b];
      histPos' := Previous(histPos');
      out := out + [b];
    }
    assert data[..|data|] == data;
  }

  lemma DeltaNothing(distance: nat, past: seq<byte>)
    requires 1 <= distance <= |past|
    ensures DeltaDecode(distance, past, []) == []
  {
  }

  lemma RingLength(history: seq<byte>, histPos: byte, past: seq<byte>)
    requires RingHolds(history, histPos, past)
    ensures |history| == DELTA_HISTORY <= |past|
  {
  }

  lemma RingAt(history: seq<byte>, histPos: byte, past: seq<byte>, distance: nat)
    requires 1 <= distance <= DELTA_HISTORY && RingHolds(history, histPos, past)
    ensures |history| == DELTA_HISTORY <= |past|
    ensures history[(distance + histPos) % DELTA_HISTORY] == past[|past| - distance]
  {
    var j: byte := (distance + histPos) % DELTA_HISTORY;
    assert Age(j, histPos) == distance;
  }

  lemma DeltaNext(distance: nat, past: seq<byte>, data: seq<byte>, i: nat)
    requires 1 <= distance <= |past| && i < |data|
    ensures var all := past + DeltaDecode(distance, past, data[..i]);
            && DeltaDecode(distance, past, data[..i + 1])
            == DeltaDecode(distance, past, data[..i]) + [AddBytes(data[i], all[|all| - distance])]
  {
    DeltaSplit(distance, past, data[..i], [data[i]]);
    assert data[..i + 1] == data[..i] + [data[i]];
    assert [data[i]][1..] == [];
  }

  /** The bytes a stage settles of `s`, and what it remembers then. */
  function Settled(flow: Flow, s: seq<byte>, at: nat): (r: (seq<byte>, Flow))
    requires Sound(flow)
    ensures |r.0| <= |s| && Sound(r.1)
  {
    match flow
    case X86Flow(mask) =>
      var r := Reach(false, s, mask, at);
      (r.out, X86Flow(r.mask))
    case WindowFlow(arch) => (WindowReach(arch, s, at), flow)
    case DeltaFlow(distance, past) =>
      var out := DeltaDecode(distance, past, s);
      (out, DeltaFlow(distance, past + out))
  }

  /** Settling and going on is converting the whole; and what never settles is
      given out raw. */
  lemma SettledSplit(flow: Flow, s: seq<byte>, t: seq<byte>, at: nat)
    requires Sound(flow)
    ensures var (out, next) := Settled(flow, s, at);
            && Whole(flow, s + t, at) == out + Whole(next, s[|out|..] + t, at + |out|)
            && Whole(flow, s, at) == out + s[|out|..]
  {
    hide Convert, Reach, WindowConvert, WindowReach, DeltaDecode;
    match flow {
      case X86Flow(mask) =>
        ConvertSplit(false, s, t, mask, at);
        ReachCovers(false, s, mask, at);
      case WindowFlow(arch) =>
        WindowSplit(arch, s, t, at);
        WindowCovers(arch, s, at);
      case DeltaFlow(distance, past) =>
        DeltaSplit(distance, past, s, t);
        var out := DeltaDecode(distance, past, s);
        assert s[|out|..] == [] && [] + t == t && out + [] == out;
    }
  }

  lemma WindowCovers(arch: Arch, s: seq<byte>, at: nat)
    requires arch.Windowed? && WellFormed(arch)
    ensures WindowConvert(arch, s, at) == WindowReach(arch, s, at) + s[|WindowReach(arch, s, at)|..]
  {
  }

  lemma WindowShort(arch: Arch, s: seq<byte>, at: nat)
    requires arch.Windowed? && WellFormed(arch)
    ensures |s| < arch.look ==> WindowReach(arch, s, at) == []
    ensures WindowReach(arch, s, at) == [] + WindowReach(arch, s[0..], at)
  {
    assert s[0..] == s;
  }

  /** Converts a windowed stretch in place. */
  method WindowRun(arch: Arch, buf: array<byte>, at: nat) returns (done: nat)
    requires arch.Windowed? && WellFormed(arch)
    modifies buf
    ensures done == |WindowReach(arch, old(buf[..]), at)| <= buf.Length
    ensures buf[..done] == WindowReach(arch, old(buf[..]), at)
    ensures buf[done..] == old(buf[done..])
  {
    hide WindowReach, SettleWindow, WellFormed;
    ghost var s := buf[..];
    done := 0;
    WindowShort(arch, s, at);
    while done + arch.look <= buf.Length
      invariant done <= buf.Length
      invariant buf[done..] == s[done..]
      invariant WindowReach(arch, s, at) == buf[..done] + WindowReach(arch, s[done..], at + done)
      decreases buf.Length - done
    {
      ghost var before := buf[..done];
      ghost var out, rest := WindowFirst(arch, s[done..], [], at + done);
      DropDrop(s, done, |out|);
      var window := buf[done..done + arch.look];
      assert window == s[done..][..arch.look];
      var settled := SettleWindow(arch, window, at + done);
      CopyInto(settled, buf, done);
      assert buf[done + |settled|..] == s[done + |settled|..];
      Associates(before, out, WindowReach(arch, rest, at + done + |out|));
      done := done + |settled|;
    }
    WindowShort(arch, s[done..], at + done);
  }

  datatype Error = CheckpointError

  /** A snapshot: of the start, of a filter stage, or of some other codec. */
  datatype Snapshot =
    | NoState
    | OfFilter(pos: nat, held: seq<byte>, filtered: nat, state: FilterState, finished: bool)
    | OtherState

  ghost predicate Known(state: FilterState) {
    match state
    case BcjState(arch, _, _) => WellFormed(arch)
    case DeltaState(distance, _, _) => 1 <= distance <= DELTA_HISTORY
  }

  /** The state a filter of this kind starts in. */
  function AtStart(state: FilterState): FilterState {
    match state
    case BcjState(arch, _, _) => BcjState(arch, 0, Wrap32(-5))
    case DeltaState(distance, _, _) => DeltaState(distance, seq(DELTA_HISTORY, _ => 0), 0)
  }

  /** How such a filter decodes a stream from its start. */
  ghost function StartFlow(state: FilterState): Flow {
    match state
    case BcjState(X86Arch, _, _) => X86Flow(0)
    case BcjState(arch, _, _) => WindowFlow(arch)
    case DeltaState(distance, _, _) => DeltaFlow(distance, seq(DELTA_HISTORY, _ => 0))
  }

  class FilterDecompressor {
    var state: FilterState
    /** How much has been given out. */
    var pos: nat
    /** Taken in and not given out: `filtered` settled bytes, then raw ones. */
    var buf: seq<byte>
    var filtered: nat
    var finished: bool
    /** Position of the last x86 marker; all of Delta's output. */
    ghost var last: int
    ghost var past: seq<byte>

    /** What the filter remembers when the next raw byte is at `at`. */
    ghost function FlowAt(at: nat): Flow
      reads this`state, this`last, this`past
    {
      match state
      case BcjState(X86Arch, mask, _) => X86Flow(if last <= at then ShiftedBy(mask, at - last) else 0)
      case BcjState(arch, _, _) => WindowFlow(arch)
      case DeltaState(distance, _, _) => DeltaFlow(distance, past)
    }

    ghost predicate Ready(raw: seq<byte>, at: nat)
      reads this`state, this`last, this`past
      ensures Ready(raw, at) ==> Sound(FlowAt(at))
    {
      && Sound(FlowAt(at))
      && match state
         case BcjState(X86Arch, mask, prevPos) =>
           -5 <= last < at < last + TWO_32 && prevPos == Wrap32(last) && Truthful(FlowAt(at).mask, raw)
         case BcjState(_, _, _) => true
         case DeltaState(distance, history, histPos) =>
           distance <= DELTA_HISTORY && RingHolds(history, histPos, past)
    }

    ghost predicate Held()
      reads this
      ensures Held() ==> filtered <= |buf| && (finished ==> filtered == |buf|)
    {
      && filtered <= |buf| && Known(state)
      && (finished ==> filtered == |buf|)
      && (!finished ==> Ready(buf[filtered..], pos + filtered))
    }

    /** Between calls, what x86 holds back is too short to convert. */
    ghost predicate Valid()
      reads this
      ensures Valid() ==> Held()
    {
      Held() && (IsX86() && !finished ==> |buf| - filtered < 5)
    }

    /** Everything the stage will still emit when `rest` is what it will
        still be given. */
    ghost function Future(rest: seq<byte>): seq<byte>
      reads this
      requires Held()
    {
      if finished then buf else buf[..filtered] + Whole(FlowAt(pos + filtered), buf[filtered..] + rest, pos + filtered)
    }

    predicate IsX86()
      reads this`state
    {
      state.BcjState? && state.arch.X86Arch?
    }

    constructor Bcj(arch: Arch)
      requires WellFormed(arch)
      ensures Valid() && pos == 0 && buf == [] && !finished
      ensures FlowAt(0) == StartFlow(state) == if arch.X86Arch? then X86Flow(0) else WindowFlow(arch)
    {
      state := BcjState(arch, 0, Wrap32(-5));
      pos, buf, filtered, finished := 0, [], 0, false;
      last, past := -5, [];
      new;
      ClearStaysClear(5);
    }

    constructor Delta(distance: nat)
      requires 1 <= distance <= DELTA_HISTORY
      ensures Valid() && pos == 0 && buf == [] && !finished
      ensures FlowAt(0) == StartFlow(state) == DeltaFlow(distance, seq(DELTA_HISTORY, _ => 0))
    {
      state := DeltaState(distance, seq(DELTA_HISTORY, _ => 0), 0);
      pos, buf, filtered, finished := 0, [], 0, false;
      last, past := -5, seq(DELTA_HISTORY, _ => 0);
    }

    /** Converts `raw` in place; the first `done` bytes are settled by it. */
    method Settle(raw: seq<byte>, at: nat) returns (bytes: seq<byte>, done: nat)
      requires Ready(raw, at)
      requires IsX86() ==> |raw| <= CHUNK + 5
      modifies this`state, this`last, this`past
      ensures done <= |bytes| == |raw| && bytes[done..] == raw[done..]
      ensures Settled(old(FlowAt(at)), raw, at) == (bytes[..done], FlowAt(at + done))
      ensures Ready(raw[done..], at + done)
      ensures IsX86() ==> |raw| - done < 5
      ensures IsX86() == old(IsX86()) && (old(Known(state)) ==> Known(state))
    {
      hide Truthful, RingHolds, WindowReach, Reach, DeltaDecode, WellFormed;
      match state {
        case DeltaState(distance, history, histPos) =>
          RingLength(history, histPos, past);
          var out, history', histPos' := DeltaRun(distance, history, histPos, past, raw);
          state := DeltaState(distance, history', histPos');
          past := past + out;
          assert out[..|out|] == out;
          return out, |out|;
        case BcjState(arch, mask, prevPos) =>
          var data := new byte[|raw|](i requires 0 <= i < |raw| => raw[i]);
          assert data[..] == raw;
          if arch.X86Arch? {
            ghost var now := FlowAt(at).mask;
            ReachTruthful(false, raw, now, at);
            var mask', prevPos';
            done, mask', prevPos', last := X86(false, data, at, mask, prevPos, last);
            state := BcjState(arch, mask', prevPos');
          } else {
            done := WindowRun(arch, data, at);
          }
          bytes := data[..];
      }
    }

    /** Settles what it can of the raw bytes held, and at the end of the
        stream lets the rest go as it is. */
    method Run(end: bool, ghost rest: seq<byte>)
      requires Held() && !finished && (IsX86() ==> |buf| - filtered <= CHUNK + 5) && (end ==> rest == [])
      modifies this`state, this`last, this`past, this`buf, this`filtered, this`finished
      ensures Valid() && finished == end && Future(rest) == old(Future(rest))
      ensures |buf| == old(|buf|) && IsX86() == old(IsX86())
    {
      hide Ready, FlowAt, Whole, Settled, Sound;
      var start := filtered;
      ghost var was, raw, at := buf[..start], buf[start..], pos + start;
      SettledSplit(FlowAt(at), raw, rest, at);
      var bytes, done := Settle(buf[start..], pos + start);
      buf := buf[..start] + bytes;
      filtered := if end then |buf| else start + done;
      finished := end;
      ghost var out := bytes[..done];
      assert bytes == out + raw[done..];
      if end {
        assert raw + [] == raw;
      } else {
        assert buf[..filtered] == was + out;
        assert buf[filtered..] == raw[done..];
        Associates(was, out, Whole(FlowAt(pos + filtered), raw[done..] + rest, pos + filtered));
      }
    }

    /** Hands out settled bytes. */
    method Emit(output: array<byte>, at: nat, ghost rest: seq<byte>) returns (n: nat)
      requires Valid() && at <= output.Length
      modifies this`pos, this`buf, this`filtered, output
      ensures n <= old(|buf|) && at + n <= output.Length
      ensures Valid() && old(Future(rest)) == old(buf[..n]) + Future(rest)
      ensures output[..at + n] == old(output[..at]) + old(buf[..n])
      ensures output[at + n..] == old(output[at + n..])
      ensures pos == old(pos) + n && |buf| == old(|buf|) - n
      ensures at + n == output.Length || filtered == 0
    {
      hide Valid, Future;
      SettledFits();
      n := if filtered <= output.Length - at then filtered else output.Length - at;
      CopyInto(buf[..n], output, at);
      Release(n, rest);
    }

    lemma SettledFits()
      requires Valid()
      ensures filtered <= |buf|
    {
    }

    /** Forgets settled bytes that were handed out. */
    method Release(n: nat, ghost rest: seq<byte>)
      requires Valid() && n <= filtered <= |buf|
      modifies this`pos, this`buf, this`filtered
      ensures Valid() && old(Future(rest)) == old(buf[..n]) + Future(rest)
      ensures pos == old(pos) + n && |buf| == old(|buf|) - n && filtered == old(filtered) - n
    {
      hide Ready, FlowAt, Whole, Sound, Known;
      ghost var was := buf;
      buf := buf[n..];
      DropDrop(was, n, filtered - n);
      assert was[..filtered] == was[..n] + buf[..filtered - n];
      filtered := filtered - n;
      pos := pos + n;
      if !finished {
        Associates(was[..n], buf[..filtered], Whole(FlowAt(pos + filtered), buf[filtered..] + rest, pos + filtered));
      } else {
        assert was == was[..n] + buf;
      }
    }

    method Extend(input: seq<byte>, ghost rest: seq<byte>)
      requires Held() && !finished
      modifies this`buf
      ensures Held() && buf == old(buf) + input
      ensures Future(rest) == old(Future(input + rest))
    {
      hide Whole, Sound;
      ghost var raw := buf[filtered..];
      buf := buf + input;
      assert buf[filtered..] == raw + input && buf[..filtered] == old(buf[..filtered]);
      Associates(raw, input, rest);
      match state {
        case BcjState(X86Arch, _, _) => TruthfulGrows(FlowAt(pos + filtered).mask, raw, input);
        case _ =>
      }
    }

    /** Takes in some of the input, or its end, and settles what it can. */
    method Take(input: seq<byte>, ghost rest: seq<byte>) returns (consumed: nat)
      requires Valid() && !finished && (input == [] ==> rest == [])
      modifies this`state, this`last, this`past, this`buf, this`filtered, this`finished
      ensures Valid() && consumed <= |input| && consumed <= CHUNK
      ensures Future(input[consumed..] + rest) == old(Future(input + rest))
      ensures finished <==> input == []
      ensures consumed == 0 ==> input == []
      ensures |buf| == old(|buf|) + consumed && IsX86() == old(IsX86())
    {
      hide Ready, Future;
      if input == [] {
        assert input + rest == [] && input[0..] + rest == [];
        Run(true, []);
        return 0;
      }
      consumed := if |input| <= CHUNK then |input| else CHUNK;
      Associates(input[..consumed], input[consumed..], rest);
      assert input == input[..consumed] + input[consumed..];
      Extend(input[..consumed], input[consumed..] + rest);
      Run(false, input[consumed..] + rest);
    }

    method Save() returns (cp: Snapshot)
      ensures cp == OfFilter(pos, buf, filtered, state, finished)
    {
      cp := OfFilter(pos, buf, filtered, state, finished);
    }

    /** Goes to a snapshot that was taken of `from`. */
    method Restore(cp: Snapshot, ghost from: FilterDecompressor) returns (r: Result<(), Error>)
      requires Valid() && from.Valid()
      requires cp.OfFilter? && cp.filtered <= |cp.held| ==>
                 cp == OfFilter(from.pos, from.buf, from.filtered, from.state, from.finished)
      modifies this
      ensures r.Ok? <==> cp.NoState? || (cp.OfFilter? && cp.filtered <= |cp.held|)
      ensures r.Err? ==> unchanged(this)
      ensures Valid()
      ensures r.Ok? && cp.OfFilter? ==>
                && pos == old(from.pos) && buf == old(from.buf) && finished == old(from.finished)
                && forall rest :: Future(rest) == old(from.Future(rest))
      ensures r.Ok? && cp.NoState? ==> pos == 0 && buf == [] && !finished && FlowAt(0) == StartFlow(old(state))
    {
      hide Whole, WellFormed, Truthful, RingHolds, StartFlow, AtStart, Sound;
      match cp {
        case OtherState => return Err(CheckpointError);
        case OfFilter(at, held, settled, now, ended) =>
          if settled > |held| {
            return Err(CheckpointError);
          }
          pos, buf, filtered, state, finished := at, held, settled, now, ended;
          last, past := from.last, from.past;
        case NoState => Reset();
      }
      return Ok(());
    }

    /** Goes back to the start of a stream. */
    method Reset()
      requires Valid()
      modifies this
      ensures Valid() && pos == 0 && buf == [] && !finished && FlowAt(0) == StartFlow(old(state))
    {
      hide WellFormed;
      ClearStaysClear(5);
      state := AtStart(state);
      pos, buf, filtered, finished := 0, [], 0, false;
      last, past := -5, seq(DELTA_HISTORY, _ => 0);
    }

    /** Takes in input and hands out, behind what is in `output` already, what
        that settled. */
    method TakeAndEmit(input: seq<byte>, output: array<byte>, at: nat, ghost rest: seq<byte>)
      returns (consumed: nat, n: nat)
      requires Valid() && !finished && (input == [] ==> rest == []) && at < output.Length
      modifies this, output
      ensures Valid() && consumed <= |input| && at + n <= output.Length
      ensures old(Future(input + rest)) == output[at..at + n] + Future(input[consumed..] + rest)
      ensures output[..at] == old(output[..at]) && output[at + n..] == old(output[at + n..])
      ensures pos == old(pos) + n && |buf| == old(|buf|) + consumed - n
      ensures finished <==> input == []
      ensures consumed == 0 ==> input == []
      ensures at + n == output.Length || filtered == 0
      ensures IsX86() == old(IsX86())
    {
      hide Ready, Future, FlowAt, Whole, Known, Sound, Valid;
      consumed := Take(input, rest);
      n := Emit(output, at, input[consumed..] + rest);
      assert output[..at] == output[..at + n][..at];
      assert output[at..at + n] == output[..at + n][at..];
    }

    /** One call of the stage. `rest` is all that later calls will be given:
        for any `rest` at all, what is delivered now and what will be
        delivered later is what was still to be delivered before. */
    method Decompress(input: seq<byte>, output: array<byte>, ghost rest: seq<byte>) returns (r: Progress)
      requires Valid() && (input == [] ==> rest == [])
      modifies this, output
      ensures Valid()
      ensures r.consumed <= |input| && r.produced <= output.Length
      ensures old(Future(input + rest)) == output[..r.produced] + Future(input[r.consumed..] + rest)
      ensures output[r.produced..] == old(output[r.produced..])
      ensures pos + |buf| == old(pos + |buf|) + r.consumed && pos == old(pos) + r.produced
      ensures old(finished) ==> finished && r.consumed == 0
      ensures !old(finished) && finished ==> input == []
      ensures r.produced < output.Length ==> (finished && buf == []) || r.consumed > 0
      ensures r.ended <==> finished && buf == []
      ensures IsX86() == old(IsX86())
    {
      hide Held, Valid, Future;
      ghost var all := input + rest;
      var produced := Emit(output, 0, all);
      assert input[0..] + rest == all;
      if produced == output.Length || finished {
        return Progress(0, produced, finished && buf == []);
      }
      ghost var mid := output[..];
      var consumed, more := TakeAndEmit(input, output, produced, rest);
      ghost var due := Future(input[consumed..] + rest);
      Onwards(mid, output[..], produced, more);
      Associates(mid[..produced], output[produced..produced + more], due);
      return Progress(consumed, produced + more, finished && buf == []);
    }
  }

  /** Output written behind what was there. */
  lemma Onwards(was: seq<byte>, now: seq<byte>, at: nat, n: nat)
    requires |was| == |now| && at + n <= |was| && now[..at] == was[..at] && now[at + n..] == was[at + n..]
    ensures now[..at + n] == was[..at] + now[at..at + n] && now[at + n..] == was[at..][n..]
  {
  }

  /** A stage restored from another's snapshot will emit what that one would,
      whatever the rest of the stream is. */
  method SaveAndRestore(stage: FilterDecompressor) returns (r: FilterDecompressor)
    requires stage.Valid()
    ensures fresh(r) && r.Valid() && r.finished == stage.finished
    ensures r.pos == stage.pos && r.buf == stage.buf
    ensures forall rest :: r.Future(rest) == stage.Future(rest)
  {
    var cp := stage.Save();
    r := new FilterDecompressor.Delta(1);
    var restored := r.Restore(cp, stage);
  }

  /** Drives a fresh stage over `data`, handing it `takes(k)` bytes and an
      output buffer of `rooms(k)` bytes at the k-th call, and going on with a
      restored snapshot where `saves(k)`: it emits the conversion of the whole
      stream, its raw tail included. */
  method DecodeChunked(stage: FilterDecompressor, data: seq<byte>, takes: nat -> nat, rooms: nat -> nat,
                       saves: nat -> bool)
    returns (out: seq<byte>)
    requires stage.Valid() && !stage.finished && stage.pos == 0 && stage.buf == []
    requires forall k :: takes(k) > 0 && rooms(k) > 0
    modifies stage
    ensures Sound(old(stage.FlowAt(0))) && out == Whole(old(stage.FlowAt(0)), data, 0)
  {
    hide Whole, WellFormed;
    var now := stage;
    ghost var flow := stage.FlowAt(0);
    ghost var goal := Whole(flow, data, 0);
    out := [];
    var pos, k := 0, 0;
    assert stage.buf[0..] + data == data && data[0..] == data;
    assert [] + goal == goal;
    while true
      invariant now == stage || fresh(now)
      invariant pos <= |data| && now.Valid()
      invariant now.pos + |now.buf| == pos
      invariant out + now.Future(data[pos..]) == goal
      invariant now.finished ==> pos == |data|
      decreases |data| - pos, |now.buf|, if now.finished then 0 else 1
    {
      hide FilterDecompressor.Future, FilterDecompressor.Valid, FilterDecompressor.FlowAt;
      var take := if takes(k) < |data| - pos then takes(k) else |data| - pos;
      var chunk, next, ended := CallOnce(now, data, pos, take, rooms(k));
      Associates(out, chunk, now.Future(data[next..]));
      out := out + chunk;
      if ended {
        EmptyFuture(now, data[next..]);
        assert out + [] == out;
        return;
      }
      if saves(k) {
        now := SaveAndRestore(now);
      }
      pos, k := next, k + 1;
    }
  }

  /** Hands the stage `take` bytes from `pos` on and a buffer of `room` bytes. */
  method CallOnce(stage: FilterDecompressor, data: seq<byte>, pos: nat, take: nat, room: nat)
    returns (chunk: seq<byte>, next: nat, ended: bool)
    requires stage.Valid() && pos + take <= |data| && (take == 0 ==> pos == |data|) && room > 0
    requires stage.pos + |stage.buf| == pos
    modifies stage
    ensures stage.Valid() && pos <= next <= |data| && stage.pos + |stage.buf| == next
    ensures old(stage.Future(data[pos..])) == chunk + stage.Future(data[next..])
    ensures stage.IsX86() == old(stage.IsX86())
    ensures old(stage.finished) ==> stage.finished && next == pos
    ensures !old(stage.finished) && stage.finished ==> take == 0
    ensures ended <==> stage.finished && stage.buf == []
    ensures ended || next > pos || |stage.buf| < old(|stage.buf|)
  {
    hide FilterDecompressor.Future, FilterDecompressor.Valid, FilterDecompressor.FlowAt;
    var input := data[pos..pos + take];
    ghost var rest := data[pos + take..];
    CutMiddle(data, pos, take);
    var buf := new byte[room](_ => 0);
    var r := stage.Decompress(input, buf, rest);
    DropMiddle(data, pos, take, r.consumed);
    return buf[..r.produced], pos + r.consumed, r.ended;
  }

  lemma CutMiddle(data: seq<byte>, pos: nat, take: nat)
    requires pos + take <= |data|
    ensures data[pos..pos + take] + data[pos + take..] == data[pos..]
  {
  }

  lemma DropMiddle(data: seq<byte>, pos: nat, take: nat, n: nat)
    requires n <= take && pos + take <= |data|
    ensures data[pos..pos + take][n..] + data[pos + take..] == data[pos + n..]
  {
  }

  lemma EmptyFuture(stage: FilterDecompressor, rest: seq<byte>)
    requires stage.Valid() && stage.finished && stage.buf == []
    ensures stage.Future(rest) == []
  {
  }

  /** An x86 stage fed what the encoder wrote, in pieces of any sizes and
      through any snapshots, emits the original. */
  method X86RoundTripChunked(plain: seq<byte>, takes: nat -> nat, rooms: nat -> nat, saves: nat -> bool)
    returns (out: seq<byte>)
    requires forall k :: takes(k) > 0 && rooms(k) > 0
    ensures out == plain
  {
    hide Convert, FilterDecompressor.FlowAt;
    RoundTrip(plain);
    var stage := new FilterDecompressor.Bcj(X86Arch);
    out := DecodeChunked(stage, Convert(true, plain, 0, 0), takes, rooms, saves);
  }
}
