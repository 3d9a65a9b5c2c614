/**
  The LZMA dictionary: a circular buffer, copied in chunks and saved in
  linear form.

  Its meaning is the sequence of the last `size` bytes in the order they
  were written, zeros standing for bytes not yet written. A saved window
  has the same meaning as the live one, so nothing can tell them apart.
 */
module LzmaWindow {
  import opened Arithmetic
  import opened Bytes
  import opened Wrappers

  /** `past` is the last bytes, oldest first; `live` counts those written. */
  datatype Window = Window(past: seq<byte>, live: nat, total: nat)
  {
    predicate Fits() {
      |past| > 0 && live <= |past|
    }

    function Get(dist: nat): byte
      requires 1 <= dist <= |past|
    {
      past[|past| - dist]
    }

    function Append(bytes: seq<byte>): (w: Window)
      requires Fits()
      ensures w.Fits() && |w.past| == |past|
    {
      Window((past + bytes)[|bytes|..], Min(live + |bytes|, |past|), total + |bytes|)
    }

    function Put(b: byte): (w: Window)
      requires Fits()
      ensures w.Fits() && |w.past| == |past|
    {
      Append([b])
    }
  }

  /** `len` rounds of reading `dist` back and writing what was read. */
  function Copied(w: Window, dist: nat, len: nat): (r: Window)
    requires w.Fits() && 1 <= dist <= |w.past|
    ensures r.Fits() && |r.past| == |w.past|
    decreases len
  {
    if len > 0 then Copied(w.Put(w.Get(dist)), dist, len - 1) else w
  }

  /** The bytes such a copy writes: `past` continued with period `dist`. */
  function Continued(past: seq<byte>, dist: nat, len: nat): (out: seq<byte>)
    requires 1 <= dist <= |past|
    ensures |out| == len
    decreases len
  {
    if len > 0 then
      var b := past[|past| - dist];
      [b] + Continued(past + [b], dist, len - 1)
    else []
  }

  lemma AppendNothing(w: Window)
    requires w.Fits()
    ensures w.Append([]) == w
  {
    assert (w.past + [])[0..] == w.past;
  }

  lemma AppendTwice(w: Window, a: seq<byte>, b: seq<byte>)
    requires w.Fits()
    ensures w.Append(a).Append(b) == w.Append(a + b)
  {
    var p := w.past;
    assert (p + a)[|a|..] + b == (p + a + b)[|a|..];
    assert p + (a + b) == p + a + b;
    assert (p + a + b)[|a|..][|b|..] == (p + a + b)[|a| + |b|..];
  }

  /** Only the last `dist` bytes matter to the continuation. */
  lemma {:induction false} ContinuedDrops(past: seq<byte>, n: nat, dist: nat, len: nat)
    requires 1 <= dist <= |past| - n
    ensures Continued(past[n..], dist, len) == Continued(past, dist, len)
    decreases len
  {
    if len > 0 {
      var b := past[|past| - dist];
      assert past[n..] + [b] == (past + [b])[n..];
      ContinuedDrops(past + [b], n, dist, len - 1);
    }
  }

  lemma {:induction false} CopiedAppends(w: Window, dist: nat, len: nat)
    requires w.Fits() && 1 <= dist <= |w.past|
    ensures Copied(w, dist, len) == w.Append(Continued(w.past, dist, len))
    decreases len
  {
    if len == 0 {
      AppendNothing(w);
    } else {
      var b := w.Get(dist);
      var v, tail := w.Put(b), Continued(w.past + [b], dist, len - 1);
      assert v.past == (w.past + [b])[1..];
      assert Copied(w, dist, len) == Copied(v, dist, len - 1) && Continued(w.past, dist, len) == [b] + tail;
      hide Copied, Continued, Window.Append;
      CopiedAppends(v, dist, len - 1);
      ContinuedDrops(w.past + [b], 1, dist, len - 1);
      AppendTwice(w, [b], tail);
    }
  }

  lemma {:induction false} CopiedSplit(w: Window, dist: nat, m: nat, n: nat)
    requires w.Fits() && 1 <= dist <= |w.past|
    ensures Copied(w, dist, m + n) == Copied(Copied(w, dist, m), dist, n)
    decreases m
  {
    if m > 0 {
      CopiedSplit(w.Put(w.Get(dist)), dist, m - 1, n);
    }
  }

  lemma {:induction false} ContinuedSplit(past: seq<byte>, dist: nat, m: nat, n: nat)
    requires 1 <= dist <= |past|
    ensures Continued(past, dist, m + n)
         == Continued(past, dist, m) + Continued(past + Continued(past, dist, m), dist, n)
    decreases m
  {
    if m == 0 {
      assert past + [] == past;
      assert [] + Continued(past, dist, n) == Continued(past, dist, n);
    } else {
      var b := past[|past| - dist];
      var rest := Continued(past + [b], dist, m - 1);
      ContinuedSplit(past + [b], dist, m - 1, n);
      assert (past + [b]) + rest == past + ([b] + rest);
    }
  }

  /** Up to one period, the continuation is a plain copy. */
  lemma ContinuedWithinPeriod(past: seq<byte>, dist: nat, len: nat)
    requires len <= dist && 1 <= dist <= |past|
    ensures Continued(past, dist, len) == past[|past| - dist..|past| - dist + len]
  {
    PeriodicIsContinued(past, dist, past[|past| - dist..|past| - dist + len]);
  }

  /** Any bytes of period `dist` are the continuation. */
  lemma {:induction false} PeriodicIsContinued(past: seq<byte>, dist: nat, out: seq<byte>)
    requires 1 <= dist <= |past|
    requires forall k :: 0 <= k < |out| ==> out[k] == (past + out)[|past| + k - dist]
    ensures out == Continued(past, dist, |out|)
    decreases |out|
  {
    if out != [] {
      var b := past[|past| - dist];
      assert out[0] == b;
      var p, rest := past + [b], out[1..];
      assert p + rest == past + out;
      forall k | 0 <= k < |rest|
        ensures rest[k] == (p + rest)[|p| + k - dist]
      {
        assert rest[k] == out[k + 1];
      }
      PeriodicIsContinued(p, dist, rest);
      assert out == [b] + rest;
    }
  }

  lemma ContinuedAfter(w: Window, dist: nat, m: nat, n: nat)
    requires w.Fits() && 1 <= dist <= |w.past|
    ensures Continued(w.past, dist, m + n)
         == Continued(w.past, dist, m) + Continued(Copied(w, dist, m).past, dist, n)
  {
    ContinuedSplit(w.past, dist, m, n);
    CopiedAppends(w, dist, m);
    ContinuedDrops(w.past + Continued(w.past, dist, m), m, dist, n);
  }

  // ─── The circular buffer ─────────────────────────────────────────

  /** The cells in the order they were written. */
  function Linear(cells: seq<byte>, pos: nat): (s: seq<byte>)
    requires pos <= |cells|
    ensures |s| == |cells|
  {
    cells[pos..] + cells[..pos]
  }

  function Slot(size: nat, pos: nat, dist: nat): nat
    requires pos < size && 1 <= dist <= size
  {
    if dist <= pos then pos - dist else size - dist + pos
  }

  lemma SlotIsAge(cells: seq<byte>, pos: nat, dist: nat)
    requires pos < |cells| && 1 <= dist <= |cells|
    ensures Linear(cells, pos)[|cells| - dist] == cells[Slot(|cells|, pos, dist)]
  {
  }

  /** Overwriting cells from the cursor on appends to the linear form. */
  lemma OverwriteAppends(cells: seq<byte>, pos: nat, bytes: seq<byte>, after: seq<byte>)
    requires pos + |bytes| <= |cells| == |after|
    requires after[..pos] == cells[..pos] && after[pos..pos + |bytes|] == bytes
    requires after[pos + |bytes|..] == cells[pos + |bytes|..]
    ensures Linear(after, pos + |bytes|) == (Linear(cells, pos) + bytes)[|bytes|..]
    ensures pos + |bytes| == |cells| ==> Linear(after, 0) == (Linear(cells, pos) + bytes)[|bytes|..]
  {
    var n := |bytes|;
    assert after[..pos + n] == cells[..pos] + bytes;
    assert cells[pos..] == cells[pos..pos + n] + cells[pos + n..];
    assert (Linear(cells, pos) + bytes)[n..] == cells[pos + n..] + (cells[..pos] + bytes);
  }

  /** From `dst` on, `n` cells repeat with period `dist`; the rest is as it was. */
  ghost predicate Repeats(was: seq<byte>, cells: seq<byte>, dst: nat, dist: nat, n: nat) {
    && dist <= dst && dst + n <= |cells| == |was|
    && (forall j :: 0 <= j < dst || dst + n <= j < |was| ==> cells[j] == was[j])
    && (forall j :: dst <= j < dst + n ==> cells[j] == cells[j - dist])
  }

  /** `out` shows the same `n` cells from `at` on. */
  ghost predicate Shows(was: seq<byte>, out: seq<byte>, at: nat, cells: seq<byte>, dst: nat, n: nat) {
    && at + n <= |out| == |was| && dst + n <= |cells|
    && (forall j :: 0 <= j < at || at + n <= j < |was| ==> out[j] == was[j])
    && (forall j :: at <= j < at + n ==> out[j] == cells[j - at + dst])
  }

  lemma Spliced(was: seq<byte>, now: seq<byte>, at: nat, chunk: seq<byte>)
    requires at + |chunk| <= |was| == |now|
    requires now[..at] == was[..at] && now[at..at + |chunk|] == chunk
    requires now[at + |chunk|..] == was[at + |chunk|..]
    ensures now == was[..at] + chunk + was[at + |chunk|..]
    ensures forall j :: 0 <= j < at || at + |chunk| <= j < |was| ==> now[j] == was[j]
    ensures forall j :: at <= j < at + |chunk| ==> now[j] == chunk[j - at]
  {
    assert now == now[..at] + now[at..at + |chunk|] + now[at + |chunk|..];
  }

  lemma RepeatsMore(was: seq<byte>, b: seq<byte>, b': seq<byte>, dst: nat, dist: nat, done: nat, k: nat, size: nat)
    requires Repeats(was, b, dst, dist, done)
    requires k <= done <= k + size && size <= dist && dst + k + size <= |b| == |b'|
    requires forall j :: 0 <= j < dst + k || dst + k + size <= j < |b| ==> b'[j] == b[j]
    requires forall j :: dst + k <= j < dst + k + size ==> b'[j] == b[j - dist]
    ensures Repeats(was, b', dst, dist, k + size)
    ensures forall j :: 0 <= j < dst + done ==> b'[j] == b[j]
  {
    forall j | 0 <= j < dst + done
      ensures b'[j] == b[j]
    {
      if dst + k <= j {
        assert b[j] == b[j - dist];
      }
    }
    forall j | dst <= j < dst + k + size
      ensures b'[j] == b'[j - dist]
    {
      assert b'[j - dist] == b[j - dist];
      if j < dst + k {
        assert b[j] == b[j - dist];
      }
    }
  }

  lemma ShowsMore(was: seq<byte>, o: seq<byte>, o': seq<byte>, at: nat, b: seq<byte>, b': seq<byte>,
                  dst: nat, dist: nat, done: nat, k: nat, size: nat)
    requires Shows(was, o, at, b, dst, done) && dist <= dst
    requires k <= done <= k + size && at + k + size <= |o| == |o'| && dst + k + size <= |b| == |b'|
    requires forall j :: 0 <= j < dst + done ==> b'[j] == b[j]
    requires forall j :: 0 <= j < dst + k || dst + k + size <= j < |b| ==> b'[j] == b[j]
    requires forall j :: dst + k <= j < dst + k + size ==> b'[j] == b[j - dist]
    requires forall j :: 0 <= j < at + k || at + k + size <= j < |o| ==> o'[j] == o[j]
    requires forall j :: at + k <= j < at + k + size ==> o'[j] == b[j - at + dst - dist]
    ensures Shows(was, o', at, b', dst, k + size)
  {
    forall j | at <= j < at + k + size
      ensures o'[j] == b'[j - at + dst]
    {
      if j < at + k {
        assert o[j] == b[j - at + dst];
      }
    }
  }

  /** One chunk, possibly overlapping the one before, keeps the repetition. */
  lemma ChunkRepeats(was: seq<byte>, b: seq<byte>, b': seq<byte>, dst: nat, dist: nat, done: nat, k: nat, size: nat,
                     outWas: seq<byte>, o: seq<byte>, o': seq<byte>, at: nat)
    requires Repeats(was, b, dst, dist, done) && Shows(outWas, o, at, b, dst, done)
    requires k <= done <= k + size && size <= dist <= dst
    requires dst + k + size <= |b| == |b'| && at + k + size <= |o| == |o'|
    requires b'[..dst + k] == b[..dst + k] && b'[dst + k + size..] == b[dst + k + size..]
    requires o'[..at + k] == o[..at + k] && o'[at + k + size..] == o[at + k + size..]
    requires b'[dst + k..dst + k + size] == o'[at + k..at + k + size] == b[dst - dist + k..dst - dist + k + size]
    ensures Repeats(was, b', dst, dist, k + size) && Shows(outWas, o', at, b', dst, k + size)
  {
    hide Repeats, Shows;
    var chunk := b[dst - dist + k..dst - dist + k + size];
    Spliced(b, b', dst + k, chunk);
    Spliced(o, o', at + k, chunk);
    RepeatsMore(was, b, b', dst, dist, done, k, size);
    ShowsMore(outWas, o, o', at, b, b', dst, dist, done, k, size);
  }

  /** The compact saved form: the live bytes only. */
  datatype Saved = Saved(size: nat, total: nat, data: seq<byte>, pending: seq<byte>)

  /** Where the cursor of a buffer of `size` cells is, `n` bytes after `pos`. */
  function Onward(pos: nat, n: nat, size: nat): nat
    requires size > 0
  {
    Remainder(pos + n, size)
  }

  lemma OnwardNowhere(pos: nat, size: nat)
    requires pos < size
    ensures Onward(pos, 0, size) == pos
  {
  }

  lemma OnwardNear(pos: nat, n: nat, size: nat)
    requires pos < size && pos + n <= size
    ensures Onward(pos, n, size) == if pos + n == size then 0 else pos + n
  {
  }

  lemma OnwardTwice(pos: nat, a: nat, b: nat, size: nat)
    requires size > 0
    ensures Onward(Onward(pos, a, size), b, size) == Onward(pos, a + b, size)
  {
    ModShift(pos + a, b, size);
  }

  class SlidingWindow {
    const buf: array<byte>
    var pos: nat
    var isFull: bool
    var totalPos: nat
    /** What the caller has still to be given. */
    var pending: seq<byte>

    ghost predicate Valid()
      reads this, buf
      ensures Valid() ==> pos < buf.Length
    {
      pos < buf.Length && (!isFull ==> buf[pos..] == Zeros(buf.Length - pos))
    }

    ghost function Value(): (w: Window)
      reads this, buf
      requires Valid()
      ensures w.Fits() && |w.past| == buf.Length && w.total == totalPos
    {
      Window(Linear(buf[..], pos), if isFull then buf.Length else pos, totalPos)
    }

    constructor (size: nat)
      requires size > 0
      ensures Valid() && fresh(buf)
      ensures Value() == Window(Zeros(size), 0, 0) && pending == []
    {
      buf := new byte[size](_ => 0);
      pos, isFull, totalPos, pending := 0, false, 0, [];
      new;
      assert buf[..] == Zeros(size);
    }

    function GetByte(dist: nat): (b: byte)
      reads this, buf
      requires Valid() && 1 <= dist <= buf.Length
      ensures b == Value().Get(dist)
    {
      SlotIsAge(buf[..], pos, dist);
      if dist <= pos then buf[pos - dist] else buf[buf.Length - dist + pos]
    }

    predicate CheckDistance(dist: nat)
      reads this, buf
      requires Valid()
      ensures CheckDistance(dist) <==> dist < Value().live
    {
      if isFull then dist < buf.Length else dist < pos
    }

    predicate IsEmpty()
      reads this, buf
      requires Valid()
      ensures IsEmpty() <==> Value().live == 0
    {
      pos == 0 && !isFull
    }

    /** Moves the cursor past bytes that were just written at it. */
    method Commit(n: nat, ghost was: seq<byte>)
      requires pos + n <= buf.Length == |was| && pos < buf.Length
      requires !isFull ==> was[pos..] == Zeros(buf.Length - pos)
      requires buf[..pos] == was[..pos] && buf[pos + n..] == was[pos + n..]
      modifies this`pos, this`totalPos, this`isFull
      ensures pos == Onward(old(pos), n, buf.Length)
      ensures Valid()
      ensures Value() == Window(Linear(was, old(pos)), if old(isFull) then buf.Length else old(pos), old(totalPos))
                         .Append(old(buf[pos..pos + n]))
    {
      hide Onward, Linear, Window.Append;
      OnwardNear(pos, n, buf.Length);
      assert buf[..pos] == buf[..][..pos] && buf[pos + n..] == buf[..][pos + n..];
      assert buf[pos..pos + n] == buf[..][pos..pos + n];
      CommitMeans(was, buf[..], pos, n, isFull, totalPos);
      pos := pos + n;
      totalPos := totalPos + n;
      if pos == buf.Length {
        pos := 0;
        isFull := true;
      }
    }

    method PutByteDirect(b: byte)
      requires Valid()
      modifies this`pos, this`totalPos, this`isFull, buf
      ensures pos == Onward(old(pos), 1, buf.Length)
      ensures Valid() && Value() == old(Value()).Put(b)
    {
      ghost var was := buf[..];
      buf[pos] := b;
      assert buf[pos..pos + 1] == [b];
      Commit(1, was);
    }

    method PutByte(b: byte)
      requires Valid()
      modifies this, buf
      ensures pos == Onward(old(pos), 1, buf.Length)
      ensures Valid() && Value() == old(Value()).Put(b) && pending == old(pending) + [b]
    {
      PutByteDirect(b);
      pending := pending + [b];
    }

    /** The byte-by-byte copy that the chunked one must equal. */
    method CopyMatch(dist: nat, len: nat)
      requires Valid() && 1 <= dist <= buf.Length
      modifies this, buf
      ensures pos == Onward(old(pos), len, buf.Length)
      ensures Valid() && Value() == Copied(old(Value()), dist, len)
      ensures pending == old(pending) + Continued(old(Value()).past, dist, len)
    {
      hide Copied, Continued, Valid, Onward;
      ghost var w, start := Value(), pos;
      CopiedNothing(w, dist);
      OnwardNowhere(pos, buf.Length);
      for k := 0 to len
        invariant Valid() && Value() == Copied(w, dist, k)
        invariant pending == old(pending) + Continued(w.past, dist, k)
        invariant pos == Onward(start, k, buf.Length)
      {
        OnwardTwice(start, k, 1, buf.Length);
        CopiedSplit(w, dist, k, 1);
        ContinuedAfter(w, dist, k, 1);
        CopiedOnce(Value(), dist);
        var b := GetByte(dist);
        PutByte(b);
      }
    }

    /** Several bytes at once, around the end of the buffer. */
    method PutSliceDirect(data: seq<byte>)
      requires Valid()
      modifies this`pos, this`totalPos, this`isFull, buf
      ensures pos == Onward(old(pos), |data|, buf.Length)
      ensures Valid() && Value() == old(Value()).Append(data)
    {
      hide Valid, Value, Window.Append, Window.Fits, Onward;
      ghost var w, start := Value(), pos;
      AppendNothing(w);
      OnwardNowhere(pos, buf.Length);
      var done := 0;
      assert data[..0] == [];
      while done < |data|
        invariant done <= |data| && Valid()
        invariant Value() == w.Append(data[..done])
        invariant pos == Onward(start, done, buf.Length)
      {
        var n := Min(|data| - done, buf.Length - pos);
        var part := data[done..done + n];
        AppendTwice(w, data[..done], part);
        assert data[..done] + part == data[..done + n];
        OnwardTwice(start, done, n, buf.Length);
        WriteAt(part);
        done := done + n;
      }
      assert data[..done] == data;
    }

    /** Writes bytes that fit before the end of the buffer. */
    method WriteAt(bytes: seq<byte>)
      requires Valid() && pos + |bytes| <= buf.Length
      modifies this`pos, this`totalPos, this`isFull, buf
      ensures pos == Onward(old(pos), |bytes|, buf.Length)
      ensures Valid() && Value() == old(Value()).Append(bytes)
    {
      ghost var was := buf[..];
      CopyInto(bytes, buf, pos);
      assert buf[pos..pos + |bytes|] == bytes;
      Commit(|bytes|, was);
    }

    /** Copies one chunk within the buffer and to `out`. */
    method CopyChunk(src: nat, dst: nat, n: nat, out: array<byte>, at: nat)
      requires src + n <= buf.Length && dst + n <= buf.Length && at + n <= out.Length
      requires out != buf
      modifies buf, out
      ensures buf[..dst] == old(buf[..dst]) && buf[dst + n..] == old(buf[dst + n..])
      ensures out[..at] == old(out[..at]) && out[at + n..] == old(out[at + n..])
      ensures buf[dst..dst + n] == out[at..at + n] == old(buf[src..src + n])
    {
      var chunk := buf[src..src + n];
      CopyInto(chunk, buf, dst);
      CopyInto(chunk, out, at);
    }

    method CopyBytes(dst: nat, dist: nat, len: nat, out: array<byte>, at: nat)
      requires 1 <= dist <= dst && dst + len <= buf.Length && at + len <= out.Length && out != buf
      modifies buf, out
      ensures Repeats(old(buf[..]), buf[..], dst, dist, len) && Shows(old(out[..]), out[..], at, buf[..], dst, len)
    {
      for k := 0 to len
        invariant Repeats(old(buf[..]), buf[..], dst, dist, k) && Shows(old(out[..]), out[..], at, buf[..], dst, k)
      {
        var b := buf[dst - dist + k];
        buf[dst + k] := b;
        out[at + k] := b;
      }
    }

    /** Chunks of `size` bytes, the last one pulled back to end exactly at `len`. */
    method CopyChunks(dst: nat, dist: nat, len: nat, size: nat, out: array<byte>, at: nat)
      requires 1 <= size <= dist <= dst && size <= len
      requires dst + len <= buf.Length && at + len <= out.Length && out != buf
      modifies buf, out
      ensures Repeats(old(buf[..]), buf[..], dst, dist, len) && Shows(old(out[..]), out[..], at, buf[..], dst, len)
    {
      hide Repeats, Shows;
      RepeatsNothing(buf[..], dst, dist, out[..], at);
      var k := 0;
      ghost var done := 0;
      while true
        invariant k <= done <= len && k + size <= len
        invariant done == k || k == len - size
        invariant Repeats(old(buf[..]), buf[..], dst, dist, done)
        invariant Shows(old(out[..]), out[..], at, buf[..], dst, done)
        decreases len - done
      {
        ghost var b, o := buf[..], out[..];
        CopyChunk(dst - dist + k, dst + k, size, out, at + k);
        ChunkRepeats(old(buf[..]), b, buf[..], dst, dist, done, k, size, old(out[..]), o, out[..], at);
        done := k + size;
        if k + size == len {
          break;
        }
        k := Min(k + size, len - size);
      }
    }

    /** The repeated stretch is what the byte-by-byte copy writes. */
    method CommitRepeats(dist: nat, len: nat, ghost was: seq<byte>)
      requires 1 <= dist <= pos && pos < buf.Length == |was| && Repeats(was, buf[..], pos, dist, len)
      requires !isFull ==> was[pos..] == Zeros(buf.Length - pos)
      modifies this`pos, this`totalPos, this`isFull
      ensures pos == Onward(old(pos), len, buf.Length)
      ensures Valid()
      ensures buf[old(pos)..old(pos) + len] == Continued(Linear(was, old(pos)), dist, len)
      ensures Value() == Copied(Window(Linear(was, old(pos)), if old(isFull) then buf.Length else old(pos),
                                       old(totalPos)),
                                dist, len)
    {
      hide Copied, Continued, Window.Append, Onward;
      ghost var w := Window(Linear(was, pos), if isFull then buf.Length else pos, totalPos);
      ghost var out := buf[pos..pos + len];
      RepeatsContinue(was, buf[..], pos, dist, len);
      CopiedAppends(w, dist, len);
      RepeatsOutside(was, buf[..], pos, dist, len);
      assert buf[..pos] == buf[..][..pos] && buf[pos + len..] == buf[..][pos + len..];
      hide Repeats, Linear;
      Commit(len, was);
    }

    /** A match copy in chunks: the window, its cursor and the output are as
        `CopyMatch` would leave them. */
    method CopyMatchTo(dist: nat, len: nat, out: array<byte>, at: nat)
      requires Valid() && 1 <= dist <= buf.Length && at + len <= out.Length && out != buf
      modifies this`pos, this`totalPos, this`isFull, buf, out
      ensures pos == Onward(old(pos), len, buf.Length)
      ensures Valid() && Value() == Copied(old(Value()), dist, len)
      ensures out[at..at + len] == Continued(old(Value()).past, dist, len)
      ensures out[..at] == old(out[..at]) && out[at + len..] == old(out[at + len..])
    {
      if dist <= pos && pos + len <= buf.Length && ((len >= 8 && dist >= 8) || len < 16) {
        CopyInPlace(dist, len, out, at);
      } else if dist == 1 {
        CopyRun(len, out, at);
      } else {
        CopyAround(dist, len, out, at);
      }
    }

    /** Neither source nor destination wraps. */
    method CopyInPlace(dist: nat, len: nat, out: array<byte>, at: nat)
      requires Valid() && 1 <= dist <= pos && pos + len <= buf.Length && at + len <= out.Length && out != buf
      modifies this`pos, this`totalPos, this`isFull, buf, out
      ensures pos == Onward(old(pos), len, buf.Length)
      ensures Valid() && Value() == Copied(old(Value()), dist, len)
      ensures out[at..at + len] == Continued(old(Value()).past, dist, len)
      ensures out[..at] == old(out[..at]) && out[at + len..] == old(out[at + len..])
    {
      hide Repeats, Shows, Copied, Continued, Onward;
      ghost var was, outWas, from := buf[..], out[..], pos;
      if len < 8 || dist < 8 {
        CopyBytes(pos, dist, len, out, at);
      } else if dist >= 16 && len >= 16 {
        CopyChunks(pos, dist, len, 16, out, at);
      } else {
        CopyChunks(pos, dist, len, 8, out, at);
      }
      ShowsSlices(outWas, out[..], at, buf[..], from, len);
      CommitRepeats(dist, len, was);
    }

    /** A run of one byte. */
    method CopyRun(len: nat, out: array<byte>, at: nat)
      requires Valid() && at + len <= out.Length && out != buf
      modifies this`pos, this`totalPos, this`isFull, buf, out
      ensures pos == Onward(old(pos), len, buf.Length)
      ensures Valid() && Value() == Copied(old(Value()), 1, len)
      ensures out[at..at + len] == Continued(old(Value()).past, 1, len)
      ensures out[..at] == old(out[..at]) && out[at + len..] == old(out[at + len..])
    {
      hide Copied, Continued, Valid, Onward;
      var b := GetByte(1);
      RunIsContinued(Value().past, b, len);
      CopyInto(seq(len, _ => b), out, at);
      FillRun(b, len);
    }

    method FillRun(b: byte, len: nat)
      requires Valid() && Value().Get(1) == b
      modifies this`pos, this`totalPos, this`isFull, buf
      ensures pos == Onward(old(pos), len, buf.Length)
      ensures Valid() && Value() == Copied(old(Value()), 1, len)
    {
      hide Copied, Continued, Valid, Onward;
      ghost var w, start := Value(), pos;
      CopiedNothing(w, 1);
      OnwardNowhere(pos, buf.Length);
      var done := 0;
      while done < len
        invariant done <= len && Valid()
        invariant Value() == Copied(w, 1, done)
        invariant Value().Get(1) == b
        invariant pos == Onward(start, done, buf.Length)
      {
        var n := Min(len - done, buf.Length - pos);
        OnwardTwice(start, done, n, buf.Length);
        CopiedSplit(w, 1, done, n);
        RunIsContinued(Value().past, b, n);
        CopiedAppends(Value(), 1, n);
        RunKeepsLast(Value(), b, n);
        WriteAt(seq(n, _ => b));
        done := done + n;
      }
    }

    /** Chunks of at most one period, cut where source or destination wraps. */
    method CopyAround(dist: nat, len: nat, out: array<byte>, at: nat)
      requires Valid() && 1 <= dist <= buf.Length && at + len <= out.Length && out != buf
      modifies this`pos, this`totalPos, this`isFull, buf, out
      ensures pos == Onward(old(pos), len, buf.Length)
      ensures Valid() && Value() == Copied(old(Value()), dist, len)
      ensures out[at..at + len] == Continued(old(Value()).past, dist, len)
      ensures out[..at] == old(out[..at]) && out[at + len..] == old(out[at + len..])
    {
      hide Copied, Continued, Valid, Onward;
      ghost var w, outWas, start := Value(), out[..], pos;
      CopiedNothing(w, dist);
      OnwardNowhere(pos, buf.Length);
      var done := 0;
      while done < len
        invariant done <= len && Valid()
        invariant Value() == Copied(w, dist, done)
        invariant out[at..at + done] == Continued(w.past, dist, done)
        invariant out[..at] == outWas[..at] && out[at + done..] == outWas[at + done..]
        invariant pos == Onward(start, done, buf.Length)
      {
        ghost var mid := out[..];
        var n := CopySpan(dist, len - done, out, at + done);
        CopiedSplit(w, dist, done, n);
        ContinuedAfter(w, dist, done, n);
        OnwardTwice(start, done, n, buf.Length);
        PieceJoins(outWas, mid, out[..], at, done, n);
        done := done + n;
      }
    }

    method CopySpan(dist: nat, limit: nat, out: array<byte>, at: nat) returns (n: nat)
      requires Valid() && 1 <= dist <= buf.Length && limit > 0 && at + limit <= out.Length && out != buf
      modifies this`pos, this`totalPos, this`isFull, buf, out
      ensures pos == Onward(old(pos), n, buf.Length)
      ensures 1 <= n <= limit && Valid()
      ensures Value() == Copied(old(Value()), dist, n)
      ensures out[at..at + n] == Continued(old(Value()).past, dist, n)
      ensures out[..at] == old(out[..at]) && out[at + n..] == old(out[at + n..])
    {
      hide Copied, Continued, Window.Append, Linear, Onward;
      ghost var w, cells := Value(), buf[..];
      var src := if dist <= pos then pos - dist else buf.Length - (dist - pos);
      n := Min(Min(limit, buf.Length - src), Min(buf.Length - pos, dist));
      SpanIsContinued(cells, pos, dist, n);
      CopiedAppends(w, dist, n);
      var span := buf[src..src + n];
      WriteAt(span);
      CopyInto(span, out, at);
    }

    /** Hands pending bytes to the caller. */
    method DrainOutput(out: array<byte>, at: nat) returns (n: nat)
      requires at <= out.Length && out != buf
      modifies this`pending, out
      ensures n == Min(old(|pending|), out.Length - at)
      ensures out[..at + n] == old(out[..at]) + old(pending[..n])
      ensures out[at + n..] == old(out[at + n..])
      ensures pending == old(pending[n..])
    {
      n := Min(|pending|, out.Length - at);
      CopyInto(pending[..n], out, at);
      pending := pending[n..];
    }

    // ─── Saving and restoring ────────────────────────────────────

    method GetWindowData() returns (data: seq<byte>)
      requires Valid()
      ensures data == Value().past[|Value().past| - Value().live..]
    {
      if !isFull {
        data := buf[..pos];
      } else {
        data := buf[pos..] + buf[..pos];
      }
    }

    method Save() returns (saved: Saved)
      requires Valid()
      ensures saved == Saved(buf.Length, totalPos, Value().past[buf.Length - Value().live..], pending)
    {
      var data := GetWindowData();
      saved := Saved(buf.Length, totalPos, data, pending);
    }

    /** The saved bytes at the front, the cursor after them. */
    constructor Restored(saved: Saved)
      requires 0 < saved.size && |saved.data| <= saved.size
      ensures Valid() && fresh(buf) && pending == saved.pending
      ensures Value() == Window(Zeros(saved.size - |saved.data|) + saved.data, |saved.data|, saved.total)
    {
      var n, data := |saved.data|, saved.data;
      buf := new byte[saved.size](i => if 0 <= i < n then data[i] else 0);
      isFull := n == saved.size;
      pos := if n == saved.size then 0 else n;
      totalPos, pending := saved.total, saved.pending;
      new;
      assert buf[..] == data + Zeros(saved.size - n);
      assert !isFull ==> buf[pos..] == Zeros(saved.size - n) && buf[..pos] == data;
      assert isFull ==> Linear(buf[..], 0) == data;
    }
  }

  /** The largest window the deserializer accepts. */
  const MAX_WINDOW := 0x8000_0000

  predicate Accepted(saved: Saved) {
    0 < saved.size <= MAX_WINDOW && |saved.data| <= saved.size
  }

  method Restore(saved: Saved) returns (r: SlidingWindow?)
    ensures r == null <==> !Accepted(saved)
    ensures r != null ==> fresh(r) && fresh(r.buf) && r.Valid() && r.pending == saved.pending
    ensures r != null ==>
              r.Value() == Window(Zeros(saved.size - |saved.data|) + saved.data, |saved.data|, saved.total)
  {
    if !Accepted(saved) {
      return null;
    }
    r := new SlidingWindow.Restored(saved);
  }

  /** A window restored from its saved form means what the original meant, so
      every later read, check, write and copy behaves the same. Exactly the
      windows over 2 GiB cannot be restored. */
  method SaveAndRestore(w: SlidingWindow) returns (r: SlidingWindow?)
    requires w.Valid()
    ensures r == null <==> w.buf.Length > MAX_WINDOW
    ensures r != null ==> fresh(r) && fresh(r.buf) && r.Valid() && r.buf.Length == w.buf.Length
    ensures r != null ==> r.Value() == w.Value() && r.pending == w.pending
  {
    hide Linear;
    var saved := w.Save();
    r := Restore(saved);
    UnwrittenIsZero(w);
  }

  /** The dictionary size an LZMA2 property byte asks for. */
  function PropSize(prop: byte): Option<nat> {
    if prop > 40 then None
    else if prop == 40 then Some(0xFFFF_FFFF)
    else Some((2 + prop % 2) * Pow2(prop / 2 + 11))
  }

  /** The two largest sizes a stream may ask for give checkpoints that are
      refused when they are read back, whatever was decoded; no other does. */
  lemma RestorableSizes(prop: byte, saved: Saved)
    requires PropSize(prop) == Some(saved.size) && |saved.data| <= saved.size
    ensures Accepted(saved) <==> prop <= 38
  {
    hide Pow2;
    LargePowers();
    if prop < 38 {
      var k: nat, odd: nat := prop / 2, prop % 2;
      Pow2Mono(k + 11, 29);
      assert odd == 0 || odd == 1;
    }
  }

  /** 3 GiB: the checkpoint of a decoder that has not read a byte yet is
      already lost. */
  lemma ThreeGiBIsLost()
    ensures PropSize(39) == Some(0xC000_0000)
    ensures !Accepted(Saved(0xC000_0000, 0, [], []))
  {
    LargePowers();
  }

  lemma LargePowers()
    ensures Pow2(29) == 0x2000_0000 && Pow2(30) == 0x4000_0000
  {
    SmallPowers();
    Pow2Add(8, 7);
    Pow2Add(15, 14);
    Pow2Add(8, 6);
  }

  lemma UnwrittenIsZero(w: SlidingWindow)
    requires w.Valid()
    ensures var v := w.Value();
            v.past == Zeros(|v.past| - v.live) + v.past[|v.past| - v.live..]
  {
    var v := w.Value();
    if !w.isFull {
      assert v.past[..|v.past| - v.live] == w.buf[w.pos..];
    }
    assert v.past == v.past[..|v.past| - v.live] + v.past[|v.past| - v.live..];
  }

  lemma RepeatsOutside(was: seq<byte>, cells: seq<byte>, pos: nat, dist: nat, len: nat)
    requires Repeats(was, cells, pos, dist, len)
    ensures cells[..pos] == was[..pos] && cells[pos + len..] == was[pos + len..]
  {
  }

  lemma RepeatsContinue(was: seq<byte>, cells: seq<byte>, pos: nat, dist: nat, len: nat)
    requires 1 <= dist <= pos < |was| && Repeats(was, cells, pos, dist, len)
    ensures cells[pos..pos + len] == Continued(Linear(was, pos), dist, len)
  {
    var past, out := Linear(was, pos), cells[pos..pos + len];
    forall k | 0 <= k < |out|
      ensures out[k] == (past + out)[|past| + k - dist]
    {
      assert out[k] == cells[pos + k - dist];
      if k < dist {
        assert past[|past| + k - dist] == was[pos + k - dist];
      } else {
        assert out[k - dist] == cells[pos + k - dist];
      }
    }
    PeriodicIsContinued(past, dist, out);
  }

  lemma ShowsSlices(was: seq<byte>, out: seq<byte>, at: nat, cells: seq<byte>, dst: nat, n: nat)
    requires Shows(was, out, at, cells, dst, n)
    ensures at + n <= |out| == |was| && dst + n <= |cells|
    ensures out[..at] == was[..at] && out[at + n..] == was[at + n..]
    ensures out[at..at + n] == cells[dst..dst + n]
  {
  }

  /** What the window stands for when the cursor has moved past `n` new bytes. */
  lemma CommitMeans(was: seq<byte>, now: seq<byte>, pos: nat, n: nat, full: bool, total: nat)
    requires pos + n <= |now| == |was| && pos < |now|
    requires !full ==> was[pos..] == Zeros(|now| - pos)
    requires now[..pos] == was[..pos] && now[pos + n..] == was[pos + n..]
    ensures var at := if pos + n == |now| then 0 else pos + n;
            && (!full && at > 0 ==> now[at..] == Zeros(|now| - at))
            && Window(Linear(now, at), if full || pos + n == |now| then |now| else at, total + n)
               == Window(Linear(was, pos), if full then |now| else pos, total).Append(now[pos..pos + n])
  {
    hide Linear;
    OverwriteAppends(was, pos, now[pos..pos + n], now);
    if !full {
      StillZeros(was, now, pos, n);
    }
  }

  lemma StillZeros(was: seq<byte>, cells: seq<byte>, pos: nat, n: nat)
    requires pos + n <= |cells| == |was| && was[pos..] == Zeros(|was| - pos)
    requires cells[pos + n..] == was[pos + n..]
    ensures cells[pos + n..] == Zeros(|cells| - pos - n)
  {
    assert was[pos + n..] == was[pos..][n..];
  }

  lemma PieceJoins(was: seq<byte>, mid: seq<byte>, now: seq<byte>, at: nat, a: nat, n: nat)
    requires |was| == |mid| == |now| && at + a + n <= |now|
    requires mid[..at] == was[..at] && mid[at + a..] == was[at + a..]
    requires now[..at + a] == mid[..at + a] && now[at + a + n..] == mid[at + a + n..]
    ensures now[..at] == was[..at] && now[at + a + n..] == was[at + a + n..]
    ensures now[at..at + a + n] == mid[at..at + a] + now[at + a..at + a + n]
  {
    assert now[..at] == now[..at + a][..at] == mid[..at + a][..at];
    assert mid[at + a + n..] == mid[at + a..][n..] == was[at + a..][n..];
    assert now[at..at + a] == now[..at + a][at..];
  }

  lemma RunIsContinued(past: seq<byte>, b: byte, n: nat)
    requires |past| > 0 && Window(past, 0, 0).Get(1) == b
    ensures Continued(past, 1, n) == seq(n, _ => b)
  {
    PeriodicIsContinued(past, 1, seq(n, _ => b));
  }

  lemma RunKeepsLast(w: Window, b: byte, n: nat)
    requires w.Fits() && w.Get(1) == b
    ensures w.Append(seq(n, _ => b)).Get(1) == b
  {
  }

  lemma SpanIsContinued(cells: seq<byte>, pos: nat, dist: nat, n: nat)
    requires pos < |cells| && 1 <= dist <= |cells| && n <= dist
    requires var src := Slot(|cells|, pos, dist); src + n <= |cells|
    ensures var src := Slot(|cells|, pos, dist);
            Continued(Linear(cells, pos), dist, n) == cells[src..src + n]
  {
    var line, src := Linear(cells, pos), Slot(|cells|, pos, dist);
    ContinuedWithinPeriod(line, dist, n);
    var from := |cells| - dist;
    forall j | from <= j < from + n
      ensures line[j] == cells[src + (j - from)]
    {
      SlotIsAge(cells, pos, |cells| - j);
    }
    assert line[from..from + n] == cells[src..src + n];
  }

  lemma RepeatsNothing(cells: seq<byte>, dst: nat, dist: nat, out: seq<byte>, at: nat)
    requires dist <= dst <= |cells| && at <= |out|
    ensures Repeats(cells, cells, dst, dist, 0) && Shows(out, out, at, cells, dst, 0)
  {
  }

  lemma CopiedNothing(w: Window, dist: nat)
    requires w.Fits() && 1 <= dist <= |w.past|
    ensures Copied(w, dist, 0) == w && Continued(w.past, dist, 0) == []
  {
  }

  lemma CopiedOnce(w: Window, dist: nat)
    requires w.Fits() && 1 <= dist <= |w.past|
    ensures Copied(w, dist, 1) == w.Put(w.Get(dist)) && Continued(w.past, dist, 1) == [w.Get(dist)]
  {
    assert Copied(w, dist, 1) == Copied(w.Put(w.Get(dist)), dist, 0);
    assert Continued(w.past, dist, 1) == [w.Get(dist)] + Continued(w.past + [w.Get(dist)], dist, 0);
  }
}
