/**
  The incremental ar parser, and the archives a GNU-style writer makes.

  What a parser does with bytes is a run of a machine that takes one byte at a
  time, so it cannot depend on how the bytes were cut. Parsing what was written
  gives the members back: names, sizes and where their data is.
 */
module ArParsing {
  import opened Arithmetic
  import opened Bytes
  import opened Digits
  import opened Wrappers

  /** `!<arch>` and a newline. */
  const AR_MAGIC: seq<byte> := [0x21, 0x3C, 0x61, 0x72, 0x63, 0x68, 0x3E, 0x0A]
  const FMAG: seq<byte> := [0x60, 0x0A]
  const HEADER_SIZE := 60
  const MAX_NAME_SIZE := 0x1_0000
  const MAX_NAME_TABLE_SIZE := 0x400_0000

  const SLASH: byte := 0x2F
  const NEWLINE: byte := 0x0A

  /** `#1/` and `__.SYMDEF`. */
  const BSD_PREFIX: seq<byte> := [0x23, 0x31, 0x2F]
  const SYMDEF: seq<byte> := [0x5F, 0x5F, 0x2E, 0x53, 0x59, 0x4D, 0x44, 0x45, 0x46]

  datatype Error = InvalidArHeader | TruncatedArchive

  datatype Header = Header(name: seq<byte>, mtime: nat, uid: nat, gid: nat, mode: nat, size: nat)

  datatype Entry = Entry(path: seq<byte>, size: nat, mode: nat, uid: nat, gid: nat, mtime: nat, dataOffset: nat)

  /** What a member header announces. */
  datatype Member = Skip | NameTable | BsdName(len: nat) | Named(path: seq<byte>)

  /** `pad` of the bytes left to skip are the pad byte. */
  datatype ArState =
    | ReadingMagic
    | ReadingHeader
    | ReadingNameTable(remaining: nat, pad: nat, buf: seq<byte>)
    | ReadingBsdName(header: Header, remaining: nat, buf: seq<byte>)
    | SkippingData(remaining: nat, pad: nat)

  datatype Parser = Parser(
    state: ArState,
    headerBuf: seq<byte>,
    pos: nat,
    table: Option<seq<byte>>,
    entries: seq<Entry>)

  const FRESH := Parser(ReadingMagic, [], 0, None, [])

  // ─── Headers ─────────────────────────────────────────────────────

  /** A blank field is zero. */
  function ParseField(s: seq<byte>, radix: nat): Result<nat, Error> {
    var t := TrimEnd(s, SPACE);
    if t == [] then Ok(0) else
    match ParseUnsigned(t, radix)
    case Some(n) => Ok(n)
    case None => Err(InvalidArHeader)
  }

  function ParseHeader(data: seq<byte>): Result<Header, Error> {
    if |data| < HEADER_SIZE || data[58..60] != FMAG then Err(InvalidArHeader) else
    match (ParseField(data[16..28], 10), ParseField(data[28..34], 10), ParseField(data[34..40], 10),
           ParseField(data[40..48], 8), ParseField(data[48..58], 10))
    case (Ok(mtime), Ok(uid), Ok(gid), Ok(mode), Ok(size)) =>
      Ok(Header(TrimEnd(data[..16], SPACE), mtime, uid, gid, mode, size))
    case _ => Err(InvalidArHeader)
  }

  /** A number inside a member name: digits and nothing else. */
  function ParseNameNumber(digits: seq<byte>): Option<nat> {
    if digits == [] then None else
    match Folded(digits, 10)
    case Some(n) => if n <= MAX_U64 then Some(n) else None
    case None => None
  }

  function StripSlash(name: seq<byte>): seq<byte> {
    if name != [] && name[|name| - 1] == SLASH then name[..|name| - 1] else name
  }

  /** The bytes before the first newline or NUL. */
  function Line(s: seq<byte>): (t: seq<byte>) {
    if s == [] || s[0] == NEWLINE || s[0] == 0 then [] else [s[0]] + Line(s[1..])
  }

  function LookupLongName(table: Option<seq<byte>>, offset: nat): Result<seq<byte>, Error> {
    if table.None? || offset > |table.value| then Err(InvalidArHeader) else
    var name := StripSlash(Line(table.value[offset..]));
    if name == [] then Err(InvalidArHeader) else Ok(name)
  }

  function Classify(table: Option<seq<byte>>, name: seq<byte>, size: nat): Result<Member, Error> {
    if name == [SLASH, SLASH] then Ok(NameTable)
    else if [SLASH] <= name then
      match ParseNameNumber(name[1..])
      case None => Ok(Skip)
      case Some(offset) =>
        match LookupLongName(table, offset)
        case Ok(path) => Ok(Named(path))
        case Err(e) => Err(e)
    else if BSD_PREFIX <= name then
      match ParseNameNumber(name[3..])
      case Some(len) => if len <= MAX_NAME_SIZE && len <= size then Ok(BsdName(len)) else Err(InvalidArHeader)
      case None => Err(InvalidArHeader)
    else if SYMDEF <= name then Ok(Skip)
    else
      var path := StripSlash(name);
      if path == [] then Err(InvalidArHeader) else Ok(Named(path))
  }

  // ─── The machine ─────────────────────────────────────────────────

  function Skipping(data: nat, pad: nat): ArState {
    if data + pad == 0 then ReadingHeader else SkippingData(data + pad, pad)
  }

  function EntryAt(p: Parser, path: seq<byte>, h: Header, size: nat): Entry {
    Entry(path, size, h.mode % 0x1000, h.uid, h.gid, h.mtime, p.pos)
  }

  /** The header `raw` is complete; `p` stands after it. */
  function OnHeader(p: Parser, raw: seq<byte>): Result<Parser, Error> {
    match ParseHeader(raw)
    case Err(e) => Err(e)
    case Ok(h) =>
      var pad := h.size % 2;
      match Classify(p.table, h.name, h.size)
      case Err(e) => Err(e)
      case Ok(Skip) => Ok(p.(state := Skipping(h.size, pad)))
      case Ok(NameTable) =>
        if h.size > MAX_NAME_TABLE_SIZE then Err(InvalidArHeader)
        else Ok(p.(state := ReadingNameTable(h.size, pad, [])))
      case Ok(BsdName(len)) => Ok(p.(state := ReadingBsdName(h, len, [])))
      case Ok(Named(path)) =>
        Ok(p.(state := Skipping(h.size, pad), entries := p.entries + [EntryAt(p, path, h, h.size)]))
  }

  function OnMagic(p: Parser, raw: seq<byte>): Result<Parser, Error> {
    if raw == AR_MAGIC then Ok(p.(state := ReadingHeader)) else Err(InvalidArHeader)
  }

  function OnTable(p: Parser, pad: nat, buf: seq<byte>): Parser {
    p.(state := Skipping(0, pad), table := Some(buf))
  }

  /** The inline name is part of the member's size and padded with NULs. */
  function OnBsdName(p: Parser, h: Header, buf: seq<byte>): Result<Parser, Error> {
    var name := TrimEnd(buf, 0);
    var size := if h.size >= |buf| then h.size - |buf| else 0;
    var skip := Skipping(size, h.size % 2);
    if SYMDEF <= name then Ok(p.(state := skip))
    else if name == [] then Err(InvalidArHeader)
    else Ok(p.(state := skip, entries := p.entries + [EntryAt(p, name, h, size)]))
  }

  /** Something of no bytes is complete as soon as there are bytes after it. */
  predicate Settles(p: Parser) {
    (p.state.ReadingNameTable? || p.state.ReadingBsdName?) && p.state.remaining == 0
  }

  function Settle(p: Parser): Result<Parser, Error>
    requires Settles(p)
  {
    match p.state
    case ReadingNameTable(_, pad, buf) => Ok(OnTable(p, pad, buf))
    case ReadingBsdName(h, _, buf) => OnBsdName(p, h, buf)
  }

  /** One byte. */
  function Take(p: Parser, b: byte): Result<Parser, Error>
    requires !Settles(p)
  {
    var next := p.(pos := p.pos + 1);
    var raw := p.headerBuf + [b];
    match p.state
    case ReadingMagic =>
      if |raw| < |AR_MAGIC| then Ok(next.(headerBuf := raw)) else OnMagic(next.(headerBuf := []), raw)
    case ReadingHeader =>
      if |raw| < HEADER_SIZE then Ok(next.(headerBuf := raw)) else OnHeader(next.(headerBuf := []), raw)
    case ReadingNameTable(remaining, pad, buf) =>
      if remaining == 1 then Ok(OnTable(next, pad, buf + [b]))
      else Ok(next.(state := ReadingNameTable(remaining - 1, pad, buf + [b])))
    case ReadingBsdName(h, remaining, buf) =>
      if remaining == 1 then OnBsdName(next, h, buf + [b])
      else Ok(next.(state := ReadingBsdName(h, remaining - 1, buf + [b])))
    case SkippingData(remaining, pad) =>
      Ok(next.(state := if remaining <= 1 then ReadingHeader else SkippingData(remaining - 1, Min(pad, remaining - 1))))
  }

  /** What becomes of a parser that is given `s`. */
  function Run(p: Parser, s: seq<byte>): Result<Parser, Error>
    decreases |s|, if Settles(p) then 1 else 0
  {
    if s == [] then Ok(p)
    else if Settles(p) then
      match Settle(p)
      case Err(e) => Err(e)
      case Ok(next) => Run(next, s)
    else
      match Take(p, s[0])
      case Err(e) => Err(e)
      case Ok(next) => Run(next, s[1..])
  }

  function Onwards(r: Result<Parser, Error>, s: seq<byte>): Result<Parser, Error> {
    match r
    case Err(e) => Err(e)
    case Ok(p) => Run(p, s)
  }

  lemma {:induction false} RunSplit(p: Parser, s: seq<byte>, t: seq<byte>)
    ensures Run(p, s + t) == Onwards(Run(p, s), t)
    decreases |s|, if Settles(p) then 1 else 0
  {
    hide Take, Settle;
    if s == [] {
      assert s + t == t;
    } else if Settles(p) {
      SettlesOnce(p);
      if Settle(p).Ok? {
        RunSplit(Settle(p).value, s, t);
      }
    } else {
      assert (s + t)[0] == s[0] && (s + t)[1..] == s[1..] + t;
      if Take(p, s[0]).Ok? {
        RunSplit(Take(p, s[0]).value, s[1..], t);
      }
    }
  }

  lemma SettlesOnce(p: Parser)
    requires Settles(p)
    ensures Settle(p).Ok? ==> !Settles(Settle(p).value)
  {
  }

  lemma SettledRun(p: Parser, s: seq<byte>)
    requires Settles(p) && s != []
    ensures Run(p, s) == Onwards(Settle(p), s)
  {
  }

  /** Entries are only ever added. */
  lemma {:induction false} EntriesGrow(p: Parser, s: seq<byte>)
    ensures Run(p, s).Ok? ==> p.entries <= Run(p, s).value.entries
    decreases |s|, if Settles(p) then 1 else 0
  {
    hide ParseHeader, Classify;
    if s != [] && Settles(p) {
      if Settle(p).Ok? {
        EntriesGrow(Settle(p).value, s);
      }
    } else if s != [] && Take(p, s[0]).Ok? {
      EntriesGrow(Take(p, s[0]).value, s[1..]);
    }
  }

  lemma RunOne(p: Parser, b: byte)
    requires !Settles(p)
    ensures Run(p, [b]) == Take(p, b)
  {
  }

  // ─── Many bytes at once ──────────────────────────────────────────

  lemma {:induction false} MagicFills(p: Parser, s: seq<byte>)
    requires p.state.ReadingMagic? && |p.headerBuf| + |s| < |AR_MAGIC|
    ensures Run(p, s) == Ok(p.(headerBuf := p.headerBuf + s, pos := p.pos + |s|))
    decreases |s|
  {
    if s == [] {
      assert p.headerBuf + s == p.headerBuf;
    } else {
      var next := Take(p, s[0]).value;
      MagicFills(next, s[1..]);
      assert next.headerBuf + s[1..] == p.headerBuf + s;
    }
  }

  lemma {:induction false} HeaderFills(p: Parser, s: seq<byte>)
    requires p.state.ReadingHeader? && |p.headerBuf| + |s| < HEADER_SIZE
    ensures Run(p, s) == Ok(p.(headerBuf := p.headerBuf + s, pos := p.pos + |s|))
    decreases |s|
  {
    hide OnHeader;
    if s == [] {
      assert p.headerBuf + s == p.headerBuf;
    } else {
      var next := Take(p, s[0]).value;
      HeaderFills(next, s[1..]);
      assert next.headerBuf + s[1..] == p.headerBuf + s;
    }
  }

  /** The last byte of `s`, after the ones before it. */
  lemma RunLast(p: Parser, s: seq<byte>, q: Parser)
    requires s != [] && Run(p, s[..|s| - 1]) == Ok(q) && !Settles(q)
    ensures Run(p, s) == Take(q, s[|s| - 1])
  {
    hide Run, Take;
    var n := |s| - 1;
    assert s == s[..n] + [s[n]];
    RunSplit(p, s[..n], [s[n]]);
    RunOne(q, s[n]);
  }

  lemma MagicFull(p: Parser, s: seq<byte>)
    requires p.state.ReadingMagic? && |p.headerBuf| + |s| == |AR_MAGIC| && s != []
    ensures Run(p, s) == OnMagic(p.(headerBuf := [], pos := p.pos + |s|), p.headerBuf + s)
  {
    hide Run, OnMagic;
    var n := |s| - 1;
    MagicFills(p, s[..n]);
    RunLast(p, s, p.(headerBuf := p.headerBuf + s[..n], pos := p.pos + n));
    assert p.headerBuf + s == (p.headerBuf + s[..n]) + [s[n]];
  }

  lemma HeaderFull(p: Parser, s: seq<byte>)
    requires p.state.ReadingHeader? && |p.headerBuf| + |s| == HEADER_SIZE && s != []
    ensures Run(p, s) == OnHeader(p.(headerBuf := [], pos := p.pos + |s|), p.headerBuf + s)
  {
    hide Run, OnHeader;
    var n := |s| - 1;
    HeaderFills(p, s[..n]);
    RunLast(p, s, p.(headerBuf := p.headerBuf + s[..n], pos := p.pos + n));
    assert p.headerBuf + s == (p.headerBuf + s[..n]) + [s[n]];
  }

  lemma {:induction false} TableFills(p: Parser, s: seq<byte>)
    requires p.state.ReadingNameTable? && |s| <= p.state.remaining && s != []
    ensures var left, buf := p.state.remaining - |s|, p.state.buf + s;
            var next := p.(pos := p.pos + |s|);
            Run(p, s) == Ok(if left == 0 then OnTable(next, p.state.pad, buf)
                            else next.(state := ReadingNameTable(left, p.state.pad, buf)))
    decreases |s|
  {
    var next := Take(p, s[0]).value;
    if |s| > 1 {
      assert Run(p, s) == Run(next, s[1..]);
      TableFills(next, s[1..]);
      assert next.state.buf + s[1..] == p.state.buf + s;
      assert next.pos + |s[1..]| == p.pos + |s| && next.state.remaining - |s[1..]| == p.state.remaining - |s|;
    } else {
      assert s == [s[0]];
      RunOne(p, s[0]);
    }
  }

  /** What state the parser was in does not matter once the name is read. */
  lemma SameOnBsdName(p: Parser, q: Parser, h: Header, buf: seq<byte>)
    requires q.(state := p.state) == p
    ensures OnBsdName(p, h, buf) == OnBsdName(q, h, buf)
  {
  }

  lemma {:induction false} BsdFills(p: Parser, s: seq<byte>)
    requires p.state.ReadingBsdName? && |s| <= p.state.remaining && s != []
    ensures var left, buf := p.state.remaining - |s|, p.state.buf + s;
            var next := p.(pos := p.pos + |s|);
            Run(p, s) == if left == 0 then OnBsdName(next, p.state.header, buf)
                         else Ok(next.(state := ReadingBsdName(p.state.header, left, buf)))
    decreases |s|
  {
    hide OnBsdName;
    if |s| > 1 {
      var h, remaining, buf := p.state.header, p.state.remaining, p.state.buf;
      var next := p.(pos := p.pos + 1, state := ReadingBsdName(h, remaining - 1, buf + [s[0]]));
      assert Take(p, s[0]) == Ok(next) && Run(p, s) == Run(next, s[1..]);
      BsdFills(next, s[1..]);
      assert buf + [s[0]] + s[1..] == buf + s;
      assert next.pos + |s[1..]| == p.pos + |s| && remaining - 1 - |s[1..]| == remaining - |s|;
      SameOnBsdName(p.(pos := p.pos + |s|), next.(pos := p.pos + |s|), h, buf + s);
    } else {
      assert s == [s[0]];
      RunOne(p, s[0]);
    }
  }

  lemma {:induction false} SkipSkips(p: Parser, s: seq<byte>)
    requires p.state.SkippingData? && |s| <= p.state.remaining && s != []
    ensures var left := p.state.remaining - |s|;
            Run(p, s) == Ok(p.(pos := p.pos + |s|,
                               state := if left == 0 then ReadingHeader
                                   else SkippingData(left, Min(p.state.pad, left))))
    decreases |s|
  {
    if |s| > 1 {
      var r, pad := p.state.remaining, p.state.pad;
      var next := p.(pos := p.pos + 1, state := SkippingData(r - 1, Min(pad, r - 1)));
      assert Take(p, s[0]) == Ok(next) && Run(p, s) == Run(next, s[1..]);
      SkipSkips(next, s[1..]);
      assert Min(Min(pad, r - 1), r - |s|) == Min(pad, r - |s|);
      assert next.pos + |s[1..]| == p.pos + |s| && r - 1 - |s[1..]| == r - |s|;
    } else {
      assert s == [s[0]];
      RunOne(p, s[0]);
    }
  }

  // ─── The parser ──────────────────────────────────────────────────

  datatype Event = NeedData | EntryEvent(entry: Entry)

  datatype Fed = Fed(consumed: nat, event: Event)

  class ArParser {
    var state: ArState
    /** The part of a global or member header read so far. */
    var headerBuf: seq<byte>
    var streamPos: nat
    var nameTable: Option<seq<byte>>
    ghost var emitted: seq<Entry>

    ghost function Value(): Parser
      reads this
    {
      Parser(state, headerBuf, streamPos, nameTable, emitted)
    }

    ghost predicate Valid()
      reads this
    {
      && (state.ReadingMagic? ==> |headerBuf| < |AR_MAGIC|)
      && (state.ReadingHeader? ==> |headerBuf| < HEADER_SIZE)
      && (!state.ReadingMagic? && !state.ReadingHeader? ==> headerBuf == [])
      && (state.SkippingData? ==> state.remaining > 0)
    }

    constructor ()
      ensures Valid() && Value() == FRESH
    {
      state, headerBuf, streamPos, nameTable, emitted := ReadingMagic, [], 0, None, [];
    }

    /** What one call does, with `data` at hand. */
    ghost predicate Step(was: Parser, data: seq<byte>, r: Result<Fed, Error>)
      reads this
    {
      match r
      case Err(e) => Run(was, data) == Err(e)
      case Ok(fed) =>
        && Valid() && fed.consumed <= |data| && Run(was, data) == Run(Value(), data[fed.consumed..])
        && emitted == was.entries + (if fed.event.NeedData? then [] else [fed.event.entry])
    }

    lemma Steps(was: Parser, data: seq<byte>, n: nat, now: Parser)
      requires n <= |data| && Run(was, data[..n]) == Ok(now)
      ensures Run(was, data) == Run(now, data[n..])
    {
      hide Run;
      assert data == data[..n] + data[n..];
      RunSplit(was, data[..n], data[n..]);
    }

    lemma Fails(was: Parser, data: seq<byte>, n: nat, e: Error)
      requires n <= |data| && Run(was, data[..n]) == Err(e)
      ensures Run(was, data) == Err(e)
    {
      hide Run;
      assert data == data[..n] + data[n..];
      RunSplit(was, data[..n], data[n..]);
    }

    method FillHeaderBuf(data: seq<byte>, size: nat) returns (take: nat, full: bool)
      requires |headerBuf| < size
      modifies this`headerBuf, this`streamPos
      ensures take == Min(|data|, size - old(|headerBuf|)) && full == (|headerBuf| == size)
      ensures headerBuf == old(headerBuf) + data[..take] && streamPos == old(streamPos) + take
    {
      take := Min(|data|, size - |headerBuf|);
      headerBuf := headerBuf + data[..take];
      streamPos := streamPos + take;
      full := |headerBuf| == size;
    }

    method FeedMagic(data: seq<byte>) returns (r: Result<Fed, Error>)
      requires Valid() && data != [] && state.ReadingMagic?
      modifies this
      ensures Step(old(Value()), data, r)
      ensures r.Ok? ==> r.value.consumed > 0
    {
      hide Run;
      ghost var was := Value();
      var take, full := FillHeaderBuf(data, |AR_MAGIC|);
      assert was.entries + [] == was.entries;
      if !full {
        MagicFills(was, data[..take]);
        Steps(was, data, take, Value());
        return Ok(Fed(take, NeedData));
      }
      MagicFull(was, data[..take]);
      if headerBuf != AR_MAGIC {
        Fails(was, data, take, InvalidArHeader);
        return Err(InvalidArHeader);
      }
      headerBuf := [];
      state := ReadingHeader;
      Steps(was, data, take, Value());
      return Ok(Fed(take, NeedData));
    }

    method FeedHeader(data: seq<byte>) returns (r: Result<Fed, Error>)
      requires Valid() && data != [] && state.ReadingHeader?
      modifies this
      ensures Step(old(Value()), data, r)
      ensures r.Ok? ==> r.value.consumed > 0
    {
      hide Run, ParseHeader, Classify;
      ghost var was := Value();
      var take, full := FillHeaderBuf(data, HEADER_SIZE);
      assert was.entries + [] == was.entries;
      if !full {
        HeaderFills(was, data[..take]);
        Steps(was, data, take, Value());
        return Ok(Fed(take, NeedData));
      }
      HeaderFull(was, data[..take]);
      var parsed := ParseHeader(headerBuf);
      if parsed.Err? {
        Fails(was, data, take, parsed.error);
        return Err(parsed.error);
      }
      var h := parsed.value;
      headerBuf := [];
      var pad := h.size % 2;
      var member := Classify(nameTable, h.name, h.size);
      if member.Err? {
        Fails(was, data, take, member.error);
        return Err(member.error);
      }
      var event := NeedData;
      match member.value {
        case Skip =>
          state := Skipping(h.size, pad);
        case NameTable =>
          if h.size > MAX_NAME_TABLE_SIZE {
            Fails(was, data, take, InvalidArHeader);
            return Err(InvalidArHeader);
          }
          state := ReadingNameTable(h.size, pad, []);
        case BsdName(len) =>
          state := ReadingBsdName(h, len, []);
        case Named(path) =>
          var entry := Entry(path, h.size, h.mode % 0x1000, h.uid, h.gid, h.mtime, streamPos);
          state := Skipping(h.size, pad);
          event := EntryEvent(entry);
          emitted := emitted + [entry];
      }
      Steps(was, data, take, Value());
      return Ok(Fed(take, event));
    }

    method FeedNameTable(data: seq<byte>) returns (r: Result<Fed, Error>)
      requires Valid() && data != [] && state.ReadingNameTable?
      modifies this
      ensures Step(old(Value()), data, r)
      ensures r.Ok? ==> r.value.consumed > 0 || (Settles(old(Value())) && !Settles(Value()))
    {
      hide Run;
      ghost var was := Value();
      var take := Min(|data|, state.remaining);
      var buf := state.buf + data[..take];
      var left, pad := state.remaining - take, state.pad;
      assert was.entries + [] == was.entries;
      TableGoesOn(was, data, take);
      streamPos := streamPos + take;
      if left > 0 {
        state := ReadingNameTable(left, pad, buf);
        return Ok(Fed(take, NeedData));
      }
      nameTable := Some(buf);
      state := Skipping(0, pad);
      return Ok(Fed(take, NeedData));
    }

    lemma TableGoesOn(p: Parser, data: seq<byte>, take: nat)
      requires p.state.ReadingNameTable? && data != [] && take == Min(|data|, p.state.remaining)
      ensures var left, buf := p.state.remaining - take, p.state.buf + data[..take];
              var next := p.(pos := p.pos + take);
              Run(p, data) == Run(if left == 0 then OnTable(next, p.state.pad, buf)
                                  else next.(state := ReadingNameTable(left, p.state.pad, buf)), data[take..])
    {
      if take > 0 {
        hide Run;
        TableFills(p, data[..take]);
        var left, buf := p.state.remaining - take, p.state.buf + data[..take];
        var next := p.(pos := p.pos + take);
        Steps(p, data, take, if left == 0 then OnTable(next, p.state.pad, buf)
                             else next.(state := ReadingNameTable(left, p.state.pad, buf)));
      } else {
        assert p.state.buf + data[..0] == p.state.buf && data[0..] == data;
      }
    }

    method FeedBsdName(data: seq<byte>) returns (r: Result<Fed, Error>)
      requires Valid() && data != [] && state.ReadingBsdName?
      modifies this
      ensures Step(old(Value()), data, r)
      ensures r.Ok? ==> r.value.consumed > 0 || (Settles(old(Value())) && !Settles(Value()))
    {
      hide Run, TrimEnd, ParseHeader, Classify, Take;
      ghost var was := Value();
      var take := Min(|data|, state.remaining);
      var buf := state.buf + data[..take];
      var left, h := state.remaining - take, state.header;
      assert was.entries + [] == was.entries;
      BsdGoesOn(was, data, take);
      streamPos := streamPos + take;
      if left > 0 {
        state := ReadingBsdName(h, left, buf);
        return Ok(Fed(take, NeedData));
      }
      var name := TrimEnd(buf, 0);
      var size := if h.size >= |buf| then h.size - |buf| else 0;
      if SYMDEF <= name {
        state := Skipping(size, h.size % 2);
        return Ok(Fed(take, NeedData));
      }
      if name == [] {
        return Err(InvalidArHeader);
      }
      var entry := Entry(name, size, h.mode % 0x1000, h.uid, h.gid, h.mtime, streamPos);
      state := Skipping(size, h.size % 2);
      emitted := emitted + [entry];
      return Ok(Fed(take, EntryEvent(entry)));
    }

    lemma BsdGoesOn(p: Parser, data: seq<byte>, take: nat)
      requires p.state.ReadingBsdName? && data != [] && take == Min(|data|, p.state.remaining)
      ensures var left, buf := p.state.remaining - take, p.state.buf + data[..take];
              var next := p.(pos := p.pos + take);
              Run(p, data) == Onwards(if left == 0 then OnBsdName(next, p.state.header, buf)
                                      else Ok(next.(state := ReadingBsdName(p.state.header, left, buf))), data[take..])
    {
      hide OnBsdName;
      if take > 0 {
        hide Run;
        BsdFills(p, data[..take]);
        RunSplit(p, data[..take], data[take..]);
        assert data == data[..take] + data[take..];
      } else {
        assert p.state.buf + data[..0] == p.state.buf && data[0..] == data;
      }
    }

    method FeedSkipData(data: seq<byte>) returns (r: Result<Fed, Error>)
      requires Valid() && data != [] && state.SkippingData?
      modifies this
      ensures Step(old(Value()), data, r)
      ensures r.Ok? ==> r.value.consumed > 0
    {
      hide Run;
      ghost var was := Value();
      var skip := Min(|data|, state.remaining);
      SkipSkips(was, data[..skip]);
      var left, pad := state.remaining - skip, state.pad;
      streamPos := streamPos + skip;
      state := if left == 0 then ReadingHeader else SkippingData(left, Min(pad, left));
      assert was.entries + [] == was.entries;
      Steps(was, data, skip, Value());
      return Ok(Fed(skip, NeedData));
    }

    /** Takes some of `data`; at most one entry comes of it. */
    method Feed(data: seq<byte>) returns (r: Result<Fed, Error>)
      requires Valid()
      modifies this
      ensures Step(old(Value()), data, r)
      ensures data != [] && r.Ok? ==> r.value.consumed > 0 || (Settles(old(Value())) && !Settles(Value()))
      ensures data == [] ==> r == Ok(Fed(0, NeedData)) && Value() == old(Value())
    {
      hide Run;
      if data == [] {
        assert emitted + [] == emitted && data[0..] == data;
        return Ok(Fed(0, NeedData));
      }
      match state {
        case ReadingMagic => r := FeedMagic(data);
        case ReadingHeader => r := FeedHeader(data);
        case ReadingNameTable(_, _, _) => r := FeedNameTable(data);
        case ReadingBsdName(_, _, _) => r := FeedBsdName(data);
        case SkippingData(_, _) => r := FeedSkipData(data);
      }
    }

    /** Nothing is missing, unless it is the pad byte of the last member. */
    method EndOfStream() returns (r: Result<(), Error>)
      ensures r.Ok? <==> Complete(Value())
      ensures r.Err? ==> r.error == TruncatedArchive
    {
      match state {
        case ReadingHeader => return if headerBuf == [] then Ok(()) else Err(TruncatedArchive);
        case SkippingData(remaining, pad) => return if remaining <= pad then Ok(()) else Err(TruncatedArchive);
        case _ => return Err(TruncatedArchive);
      }
    }
  }

  predicate Complete(p: Parser) {
    match p.state
    case ReadingHeader => p.headerBuf == []
    case SkippingData(remaining, pad) => remaining <= pad
    case _ => false
  }

  /** Feeds a whole stream in pieces of any sizes and collects the entries. */
  method ParseChunked(data: seq<byte>, takes: nat -> nat) returns (r: Result<Parser, Error>)
    requires forall k :: takes(k) > 0
    ensures r == Run(FRESH, data)
  {
    hide Run;
    var parser := new ArParser();
    var offset, k := 0, 0;
    var entries: seq<Entry> := [];
    assert data[0..] == data;
    while offset < |data|
      invariant fresh(parser) && parser.Valid() && offset <= |data| && parser.emitted == entries
      invariant Run(FRESH, data) == Run(parser.Value(), data[offset..])
      decreases |data| - offset, if Settles(parser.Value()) then 1 else 0
    {
      var n := Min(takes(k), |data| - offset);
      ghost var was := parser.Value();
      var fed := parser.Feed(data[offset..offset + n]);
      FedPart(was, data, offset, n, fed, parser.Value());
      if fed.Err? {
        return Err(fed.error);
      }
      match fed.value.event {
        case EntryEvent(entry) => entries := entries + [entry];
        case NeedData =>
      }
      offset := offset + fed.value.consumed;
      k := k + 1;
    }
    assert data[offset..] == [];
    RunNothing(parser.Value());
    return Ok(Parser(parser.state, parser.headerBuf, parser.streamPos, parser.nameTable, entries));
  }

  lemma RunNothing(p: Parser)
    ensures Run(p, []) == Ok(p)
  {
  }

  lemma FedPart(was: Parser, data: seq<byte>, offset: nat, n: nat, r: Result<Fed, Error>, now: Parser)
    requires offset + n <= |data|
    requires match r
             case Err(e) => Run(was, data[offset..offset + n]) == Err(e)
             case Ok(fed) =>
               fed.consumed <= n && Run(was, data[offset..offset + n])
                   == Run(now, data[offset..offset + n][fed.consumed..])
    ensures match r
            case Err(e) => Run(was, data[offset..]) == Err(e)
            case Ok(fed) => Run(was, data[offset..]) == Run(now, data[offset + fed.consumed..])
  {
    hide Run;
    var piece, rest := data[offset..offset + n], data[offset + n..];
    assert data[offset..] == piece + rest;
    RunSplit(was, piece, rest);
    if r.Ok? {
      var c := r.value.consumed;
      assert data[offset + c..] == piece[c..] + rest;
      RunSplit(now, piece[c..], rest);
    }
  }
}
