/**
  The incremental cpio parser.

  Reading members out of the bytes is a machine that takes one byte at a time;
  what the members become is the policy on hard links. The parser does both at
  once, and what it gives out does not depend on how the bytes were cut.
 */
module CpioParsing {
  import opened Arithmetic
  import opened Bytes
  import opened CpioLinks
  import opened Digits
  import opened Wrappers

  datatype Error = InvalidCpioHeader | TruncatedArchive

  datatype SubFormat = Newc | NewcCrc | Odc

  const NEWC_MAGIC: seq<byte> := [0x30, 0x37, 0x30, 0x37, 0x30, 0x31]
  const NEWC_CRC_MAGIC: seq<byte> := [0x30, 0x37, 0x30, 0x37, 0x30, 0x32]
  const ODC_MAGIC: seq<byte> := [0x30, 0x37, 0x30, 0x37, 0x30, 0x37]
  const MAGIC_SIZE := 6
  const NEWC_HEADER_SIZE := 110
  const ODC_HEADER_SIZE := 76
  const MAX_NAME_SIZE := 0x1_0000

  /** `TRAILER!!!` */
  const TRAILER_NAME: seq<byte> := [0x54, 0x52, 0x41, 0x49, 0x4C, 0x45, 0x52, 0x21, 0x21, 0x21]

  datatype Header = Header(
    ino: nat,
    mode: nat,
    uid: nat,
    gid: nat,
    nlink: nat,
    mtime: nat,
    filesize: nat,
    devmajor: nat,
    devminor: nat,
    namesize: nat)

  datatype Phase =
    | ReadingHeader
    | ReadingFilename(header: Header, remaining: nat, buf: seq<byte>)
    | SkippingNamePad(entry: Entry, remaining: nat, inode: Inode, nlink: nat)
    | ReadingLinkTarget(entry: Entry, remaining: nat, buf: seq<byte>)
    | SkippingData(remaining: nat)
    | SkippingDataPad(remaining: nat)
    | End

  /** The members read so far stand for all that the policy remembers. */
  datatype Parser = Parser(
    phase: Phase,
    headerBuf: seq<byte>,
    pos: nat,
    sub: Option<SubFormat>,
    members: seq<Member>)

  const FRESH := Parser(ReadingHeader, [], 0, None, [])

  // ─── Headers ─────────────────────────────────────────────────────

  function Detect(magic: seq<byte>): Option<SubFormat> {
    if magic == NEWC_MAGIC then Some(Newc)
    else if magic == NEWC_CRC_MAGIC then Some(NewcCrc)
    else if magic == ODC_MAGIC then Some(Odc)
    else None
  }

  function HeaderSize(sub: Option<SubFormat>): (n: nat)
    ensures n == ODC_HEADER_SIZE || n == NEWC_HEADER_SIZE
  {
    if sub == Some(Odc) then ODC_HEADER_SIZE else NEWC_HEADER_SIZE
  }

  /** newc and newc with checksums may mix. */
  predicate MagicOk(sub: Option<SubFormat>, magic: seq<byte>) {
    if sub == Some(Odc) then magic == ODC_MAGIC else magic == NEWC_MAGIC || magic == NEWC_CRC_MAGIC
  }

  /** The magics are 070701, 070702 and 070707, and an archive does not mix the
      last with the others. */
  lemma MagicsAre(magic: seq<byte>, sub: SubFormat)
    ensures Detect(magic).Some? <==>
              |magic| == 6 && magic[..5] == [0x30, 0x37, 0x30, 0x37, 0x30] && magic[5] in {0x31, 0x32, 0x37}
    ensures Detect(magic) == Some(Odc) <==> Detect(magic).Some? && magic[5] == 0x37
    ensures MagicOk(Some(sub), magic) <==> Detect(magic).Some? && (sub == Odc <==> magic[5] == 0x37)
  {
    if |magic| == 6 {
      assert magic == magic[..5] + [magic[5]];
    }
  }

  /** Numbers from `cuts[0]` to `cuts[1]`, from there to `cuts[2]` and so on. */
  function ParseFields(data: seq<byte>, cuts: seq<nat>, radix: nat): (r: Option<seq<nat>>)
    ensures r.Some? && cuts != [] ==> |r.value| == |cuts| - 1
  {
    if |cuts| < 2 then Some([])
    else if cuts[0] > cuts[1] || cuts[1] > |data| then None
    else
      match (ParseUnsigned(data[cuts[0]..cuts[1]], radix), ParseFields(data, cuts[1..], radix))
      case (Some(n), Some(rest)) => Some([n] + rest)
      case _ => None
  }

  const NEWC_CUTS: seq<nat> := [6, 14, 22, 30, 38, 46, 54, 62, 70, 78, 86, 94, 102]
  const ODC_CUTS: seq<nat> := [6, 12, 18, 24, 30, 36, 42, 48, 59, 65, 76]

  function ParseNewc(data: seq<byte>): Result<Header, Error> {
    match ParseFields(data, NEWC_CUTS, 16)
    case None => Err(InvalidCpioHeader)
    case Some(f) => Ok(Header(f[0], f[1], f[2], f[3], f[4], f[5], f[6], f[7], f[8], f[11]))
  }

  /** One device number holds both parts. */
  function ParseOdc(data: seq<byte>): Result<Header, Error> {
    match ParseFields(data, ODC_CUTS, 8)
    case None => Err(InvalidCpioHeader)
    case Some(f) => Ok(Header(f[1], f[2], f[3], f[4], f[5], f[7], f[9], f[0] / 0x100, f[0] % 0x100, f[8]))
  }

  function KindOf(mode: nat): EntryType {
    var code := mode / 0x1000 % 16;
    if code == 8 then Regular
    else if code == 4 then Directory
    else if code == 10 then SymLink
    else if code == 2 then CharDevice
    else if code == 6 then BlockDevice
    else if code == 1 then Fifo
    else if code == 12 then Socket
    else Other(mode / 0x1000 % 0x100)
  }

  /** The bytes up to a multiple of four, in the formats that pad. */
  function Padding(sub: Option<SubFormat>, n: nat): nat {
    if sub == Some(Odc) then 0 else (4 - n % 4) % 4
  }

  // ─── The machine ─────────────────────────────────────────────────

  function OnHeader(p: Parser, raw: seq<byte>): Result<Parser, Error>
    requires |raw| >= MAGIC_SIZE
  {
    if !MagicOk(p.sub, raw[..MAGIC_SIZE]) then Err(InvalidCpioHeader) else
    match if p.sub == Some(Odc) then ParseOdc(raw) else ParseNewc(raw)
    case Err(e) => Err(e)
    case Ok(h) =>
      if h.namesize > MAX_NAME_SIZE then Err(InvalidCpioHeader)
      else Ok(p.(phase := ReadingFilename(h, h.namesize, [])))
  }

  function NamedEntry(p: Parser, h: Header, name: seq<byte>, pad: nat): Entry {
    Entry(name, h.filesize, KindOf(h.mode), h.mode % 0x1000, h.uid, h.gid, h.mtime, None, p.pos + pad)
  }

  function InodeOf(h: Header): Inode {
    Inode(h.devmajor, h.devminor, h.ino)
  }

  /** The name is read; trailing NULs are not part of it. */
  function OnName(p: Parser, h: Header, buf: seq<byte>): Result<Parser, Error> {
    var name := TrimEnd(buf, 0);
    if name == TRAILER_NAME then Ok(p.(phase := End)) else
    var pad := Padding(p.sub, HeaderSize(p.sub) + h.namesize);
    var entry := NamedEntry(p, h, name, pad);
    if pad > 0 then Ok(p.(phase := SkippingNamePad(entry, pad, InodeOf(h), h.nlink)))
    else OnData(p, entry, InodeOf(h), h.nlink)
  }

  /** The data starts here. That of a symbolic link is its target. */
  function OnData(p: Parser, entry: Entry, inode: Inode, nlink: nat): Result<Parser, Error> {
    var here := entry.(dataOffset := p.pos);
    if entry.kind == SymLink && entry.size > 0 then
      if entry.size > MAX_NAME_SIZE then Err(InvalidCpioHeader)
      else Ok(p.(phase := ReadingLinkTarget(here, entry.size, [])))
    else
      Ok(p.(phase := if entry.size > 0 then SkippingData(entry.size + Padding(p.sub, entry.size)) else ReadingHeader,
            members := p.members + [Member(here, inode, nlink)]))
  }

  /** A symbolic link is never one of a set. */
  const NO_INODE := Inode(0, 0, 0)

  function TargetEntry(entry: Entry, buf: seq<byte>): Entry {
    entry.(linkTarget := Some(buf), size := 0)
  }

  function OnTarget(p: Parser, entry: Entry, buf: seq<byte>): Parser {
    var pad := Padding(p.sub, |buf|);
    p.(phase := if pad > 0 then SkippingDataPad(pad) else ReadingHeader,
       members := p.members + [Member(TargetEntry(entry, buf), NO_INODE, 1)])
  }

  predicate Settles(p: Parser) {
    p.phase.ReadingFilename? && p.phase.remaining == 0
  }

  /** A name of no bytes is complete as soon as there are bytes after it. */
  function Settle(p: Parser): Result<Parser, Error>
    requires Settles(p)
  {
    OnName(p.(phase := ReadingHeader), p.phase.header, p.phase.buf)
  }

  /** Another byte of a header; the first six say how long it is. */
  function TakeHeader(p: Parser, raw: seq<byte>): Result<Parser, Error> {
    if p.sub == None && |raw| < MAGIC_SIZE then Ok(p.(headerBuf := raw)) else
    var sub := if p.sub == None && |raw| >= MAGIC_SIZE then Detect(raw[..MAGIC_SIZE]) else p.sub;
    if sub == None then Err(InvalidCpioHeader)
    else if |raw| < HeaderSize(sub) then Ok(p.(headerBuf := raw, sub := sub))
    else OnHeader(p.(headerBuf := [], sub := sub), raw)
  }

  /** One byte. */
  function Take(p: Parser, b: byte): Result<Parser, Error>
    requires !Settles(p)
  {
    var next := p.(pos := p.pos + 1, phase := ReadingHeader);
    match p.phase
    case ReadingHeader => TakeHeader(next, p.headerBuf + [b])
    case ReadingFilename(h, remaining, buf) =>
      if remaining == 1 then OnName(next, h, buf + [b])
      else Ok(next.(phase := ReadingFilename(h, remaining - 1, buf + [b])))
    case SkippingNamePad(entry, remaining, inode, nlink) =>
      if remaining <= 1 then OnData(next, entry, inode, nlink)
      else Ok(next.(phase := SkippingNamePad(entry, remaining - 1, inode, nlink)))
    case ReadingLinkTarget(entry, remaining, buf) =>
      if remaining <= 1 then Ok(OnTarget(next, entry, buf + [b]))
      else Ok(next.(phase := ReadingLinkTarget(entry, remaining - 1, buf + [b])))
    case SkippingData(remaining) =>
      Ok(next.(phase := if remaining <= 1 then ReadingHeader else SkippingData(remaining - 1)))
    case SkippingDataPad(remaining) =>
      Ok(next.(phase := if remaining <= 1 then ReadingHeader else SkippingDataPad(remaining - 1)))
    case End => Ok(p)
  }

  /** What becomes of a parser that is given `s`. */
  function Run(p: Parser, s: seq<byte>): Result<Parser, Error>
    decreases |s|, if Settles(p) then 1 else 0
  {
    if s == [] || p.phase.End? then Ok(p)
    else if Settles(p) then
      match Settle(p)
      case Err(e) => Err(e)
      case Ok(next) => SettlesOnce(p); Run(next, s)
    else
      match Take(p, s[0])
      case Err(e) => Err(e)
      case Ok(next) => Run(next, s[1..])
  }

  lemma SettlesOnce(p: Parser)
    requires Settles(p)
    ensures Settle(p).Ok? ==> !Settles(Settle(p).value)
  {
  }

  function Onwards(r: Result<Parser, Error>, s: seq<byte>): Result<Parser, Error> {
    match r
    case Err(e) => Err(e)
    case Ok(p) => Run(p, s)
  }

  lemma {:induction false} RunSplit(p: Parser, s: seq<byte>, t: seq<byte>)
    ensures Run(p, s + t) == Onwards(Run(p, s), t)
    decreases |s|, if Settles(p) then 1 else 0
  {
    hide Take, Settle;
    if s == [] {
      assert s + t == t;
    } else if !p.phase.End? {
      if Settles(p) {
        SettlesOnce(p);
        if Settle(p).Ok? {
          RunSplit(Settle(p).value, s, t);
        }
      } else {
        assert (s + t)[0] == s[0] && (s + t)[1..] == s[1..] + t;
        if Take(p, s[0]).Ok? {
          RunSplit(Take(p, s[0]).value, s[1..], t);
        }
      }
    }
  }

  /** Members are only ever added. */
  lemma {:induction false} MembersGrow(p: Parser, s: seq<byte>)
    ensures Run(p, s).Ok? ==> p.members <= Run(p, s).value.members
    decreases |s|, if Settles(p) then 1 else 0
  {
    hide TakeHeader, KindOf, TrimEnd;
    if s != [] && !p.phase.End? {
      if Settles(p) {
        SettlesOnce(p);
        if Settle(p).Ok? {
          MembersGrow(Settle(p).value, s);
        }
      } else {
        TakeGrows(p, s[0]);
        hide Take;
        if Take(p, s[0]).Ok? {
          MembersGrow(Take(p, s[0]).value, s[1..]);
        }
      }
    }
  }

  lemma TakeGrows(p: Parser, b: byte)
    requires !Settles(p)
    ensures Take(p, b).Ok? ==> p.members <= Take(p, b).value.members
  {
    hide ParseOdc, ParseNewc, Detect, KindOf, TrimEnd;
  }

  lemma RunOne(p: Parser, b: byte)
    requires !Settles(p)
    ensures Run(p, [b]) == Take(p, b)
  {
  }

  lemma RunNothing(p: Parser)
    ensures Run(p, []) == Ok(p)
  {
  }

  /** The last byte of `s`, after the ones before it. */
  lemma RunLast(p: Parser, s: seq<byte>, q: Parser)
    requires s != [] && Run(p, s[..|s| - 1]) == Ok(q) && !Settles(q)
    ensures Run(p, s) == Take(q, s[|s| - 1])
  {
    hide Run, Take;
    var n := |s| - 1;
    assert s == s[..n] + [s[n]];
    RunSplit(p, s[..n], [s[n]]);
    RunOne(q, s[n]);
  }

  // ─── Many bytes at once ──────────────────────────────────────────

  /** Bytes that neither complete the magic nor the header. */
  lemma {:induction false} HeaderFills(p: Parser, s: seq<byte>)
    requires p.phase.ReadingHeader?
    requires |p.headerBuf| + |s| < if p.sub == None then MAGIC_SIZE else HeaderSize(p.sub)
    ensures Run(p, s) == Ok(p.(headerBuf := p.headerBuf + s, pos := p.pos + |s|))
    decreases |s|
  {
    hide OnHeader;
    if s == [] {
      assert p.headerBuf + s == p.headerBuf;
    } else {
      var next := p.(headerBuf := p.headerBuf + [s[0]], pos := p.pos + 1);
      HeaderFills(next, s[1..]);
      assert next.headerBuf + s[1..] == p.headerBuf + s;
    }
  }

  lemma MagicLast(q: Parser, b: byte)
    requires q.phase.ReadingHeader? && q.sub == None && |q.headerBuf| + 1 == MAGIC_SIZE
    ensures var raw := q.headerBuf + [b];
            Take(q, b) == if Detect(raw) == None then Err(InvalidCpioHeader)
                          else Ok(q.(headerBuf := raw, pos := q.pos + 1, sub := Detect(raw)))
  {
    hide OnHeader, Detect;
    var raw := q.headerBuf + [b];
    assert raw[..MAGIC_SIZE] == raw;
  }

  lemma HeaderLast(q: Parser, b: byte)
    requires q.phase.ReadingHeader? && q.sub.Some? && |q.headerBuf| + 1 == HeaderSize(q.sub)
    ensures Take(q, b) == OnHeader(q.(headerBuf := [], pos := q.pos + 1), q.headerBuf + [b])
  {
    hide OnHeader, Detect;
  }

  lemma MagicFull(p: Parser, s: seq<byte>)
    requires p.phase.ReadingHeader? && p.sub == None && |p.headerBuf| + |s| == MAGIC_SIZE && s != []
    ensures var raw := p.headerBuf + s;
            Run(p, s) == if Detect(raw) == None then Err(InvalidCpioHeader)
                         else Ok(p.(headerBuf := raw, pos := p.pos + |s|, sub := Detect(raw)))
  {
    hide Run, Take, Detect, HeaderSize;
    var n := |s| - 1;
    var q := p.(headerBuf := p.headerBuf + s[..n], pos := p.pos + n);
    HeaderFills(p, s[..n]);
    RunLast(p, s, q);
    MagicLast(q, s[n]);
    assert p.headerBuf + s == (p.headerBuf + s[..n]) + [s[n]];
  }

  lemma HeaderFull(p: Parser, s: seq<byte>)
    requires p.phase.ReadingHeader? && p.sub.Some? && |p.headerBuf| + |s| == HeaderSize(p.sub) && s != []
    ensures Run(p, s) == OnHeader(p.(headerBuf := [], pos := p.pos + |s|), p.headerBuf + s)
  {
    hide Run, Take, OnHeader, HeaderSize;
    var n := |s| - 1;
    var q := p.(headerBuf := p.headerBuf + s[..n], pos := p.pos + n);
    HeaderFills(p, s[..n]);
    RunLast(p, s, q);
    HeaderLast(q, s[n]);
    assert p.headerBuf + s == (p.headerBuf + s[..n]) + [s[n]];
  }

  lemma {:induction false} NameFills(p: Parser, s: seq<byte>)
    requires p.phase.ReadingFilename? && |s| <= p.phase.remaining && s != []
    ensures var left, buf := p.phase.remaining - |s|, p.phase.buf + s;
            var next := p.(pos := p.pos + |s|, phase := ReadingHeader);
            Run(p, s) == if left == 0 then OnName(next, p.phase.header, buf)
                         else Ok(next.(phase := ReadingFilename(p.phase.header, left, buf)))
    decreases |s|
  {
    hide OnName;
    if |s| > 1 {
      var h, r, buf := p.phase.header, p.phase.remaining, p.phase.buf;
      var next := p.(pos := p.pos + 1, phase := ReadingFilename(h, r - 1, buf + [s[0]]));
      assert Take(p, s[0]) == Ok(next) && Run(p, s) == Run(next, s[1..]);
      NameFills(next, s[1..]);
      assert (buf + [s[0]]) + s[1..] == buf + s;
      assert next.pos + |s[1..]| == p.pos + |s| && r - 1 - |s[1..]| == r - |s|;
    } else {
      assert s == [s[0]];
      RunOne(p, s[0]);
    }
  }

  lemma {:induction false} TargetFills(p: Parser, s: seq<byte>)
    requires p.phase.ReadingLinkTarget? && |s| <= p.phase.remaining && s != []
    ensures var left, buf := p.phase.remaining - |s|, p.phase.buf + s;
            var next := p.(pos := p.pos + |s|, phase := ReadingHeader);
            Run(p, s) == Ok(if left == 0 then OnTarget(next, p.phase.entry, buf)
                            else next.(phase := ReadingLinkTarget(p.phase.entry, left, buf)))
    decreases |s|
  {
    hide OnTarget;
    if |s| > 1 {
      var e, r, buf := p.phase.entry, p.phase.remaining, p.phase.buf;
      var next := p.(pos := p.pos + 1, phase := ReadingLinkTarget(e, r - 1, buf + [s[0]]));
      assert Take(p, s[0]) == Ok(next) && Run(p, s) == Run(next, s[1..]);
      TargetFills(next, s[1..]);
      assert (buf + [s[0]]) + s[1..] == buf + s;
      assert next.pos + |s[1..]| == p.pos + |s| && r - 1 - |s[1..]| == r - |s|;
    } else {
      assert s == [s[0]];
      RunOne(p, s[0]);
    }
  }

  lemma {:induction false} NamePadSkips(p: Parser, s: seq<byte>)
    requires p.phase.SkippingNamePad? && |s| <= p.phase.remaining && s != []
    ensures var left, next := p.phase.remaining - |s|, p.(pos := p.pos + |s|, phase := ReadingHeader);
            Run(p, s) == if left == 0 then OnData(next, p.phase.entry, p.phase.inode, p.phase.nlink)
                         else Ok(next.(phase := SkippingNamePad(p.phase.entry, left, p.phase.inode, p.phase.nlink)))
    decreases |s|
  {
    hide OnData;
    if |s| > 1 {
      var r := p.phase.remaining;
      var next := p.(pos := p.pos + 1, phase := SkippingNamePad(p.phase.entry, r - 1, p.phase.inode, p.phase.nlink));
      assert Take(p, s[0]) == Ok(next) && Run(p, s) == Run(next, s[1..]);
      NamePadSkips(next, s[1..]);
      assert next.pos + |s[1..]| == p.pos + |s| && r - 1 - |s[1..]| == r - |s|;
    } else {
      assert s == [s[0]];
      RunOne(p, s[0]);
    }
  }

  lemma {:induction false} DataSkips(p: Parser, s: seq<byte>)
    requires (p.phase.SkippingData? || p.phase.SkippingDataPad?) && |s| <= p.phase.remaining && s != []
    ensures var left := p.phase.remaining - |s|;
            Run(p, s) == Ok(p.(pos := p.pos + |s|,
                               phase := if left == 0 then ReadingHeader
                                        else if p.phase.SkippingData? then SkippingData(left)
                                            else SkippingDataPad(left)))
    decreases |s|
  {
    if |s| > 1 {
      var next := Take(p, s[0]).value;
      DataSkips(next, s[1..]);
      assert Run(p, s) == Run(next, s[1..]);
    } else {
      assert s == [s[0]];
      RunOne(p, s[0]);
    }
  }

  // ─── What the parser remembers of the members ────────────────────

  function Untagged(s: seq<Tagged>): (r: seq<Entry>)
    ensures |r| == |s| && forall i :: 0 <= i < |s| ==> r[i] == s[i].entry
  {
    seq(|s|, i requires 0 <= i < |s| => s[i].entry)
  }

  function UntaggedTable(d: Table<Tagged>): Table<Entry> {
    if d == [] then [] else [(d[0].0, Untagged(d[0].1))] + UntaggedTable(d[1..])
  }

  lemma UntaggedJoins(s: seq<Tagged>, t: seq<Tagged>)
    ensures Untagged(s + t) == Untagged(s) + Untagged(t)
  {
  }

  lemma {:induction false} UntaggedAdd(d: Table<Tagged>, key: Inode, t: Tagged)
    ensures UntaggedTable(Add(d, key, t)) == Add(UntaggedTable(d), key, t.entry)
    decreases |d|
  {
    assert Untagged([t]) == [t.entry];
    if d == [] {
      assert Add(d, key, t)[1..] == [];
    } else if d[0].0 == key {
      UntaggedJoins(d[0].1, [t]);
      assert Add(d, key, t)[1..] == d[1..];
    } else if Before(key, d[0].0) {
      assert Add(d, key, t)[1..] == d;
    } else {
      assert Add(d, key, t)[1..] == Add(d[1..], key, t);
      assert UntaggedTable(d)[1..] == UntaggedTable(d[1..]);
      UntaggedAdd(d[1..], key, t);
    }
  }

  lemma {:induction false} UntaggedRemove(d: Table<Tagged>, key: Inode)
    ensures UntaggedTable(Remove(d, key)) == Remove(UntaggedTable(d), key)
    ensures Untagged(Lookup(d, key)) == Lookup(UntaggedTable(d), key)
    decreases |d|
  {
    if d != [] {
      assert UntaggedTable(d)[1..] == UntaggedTable(d[1..]);
      if d[0].0 != key {
        assert Remove(d, key)[1..] == Remove(d[1..], key);
        UntaggedRemove(d[1..], key);
      }
    }
  }

  lemma {:induction false} UntaggedFlat(d: Table<Tagged>)
    ensures Untagged(Flat(d)) == Flat(UntaggedTable(d))
    decreases |d|
  {
    if d != [] {
      assert UntaggedTable(d)[1..] == UntaggedTable(d[1..]);
      UntaggedJoins(d[0].1, Flat(d[1..]));
      UntaggedFlat(d[1..]);
    }
  }

  /** The entries of the members that `p` has read, in the order they go out. */
  function Out(p: Parser): seq<Entry> {
    Untagged(if p.phase.End? then Output(p.members) else AfterAll(p.members).out)
  }

  // ─── The parser ──────────────────────────────────────────────────

  datatype Event = NeedData | EntryEvent(entry: Entry) | EndOfArchive

  datatype Fed = Fed(consumed: nat, event: Event)

  function Handed(event: Event): seq<Entry> {
    if event.EntryEvent? then [event.entry] else []
  }

  lemma Steps(was: Parser, data: seq<byte>, n: nat, now: Parser)
    requires n <= |data| && Run(was, data[..n]) == Ok(now)
    ensures Run(was, data) == Run(now, data[n..])
  {
    hide Run;
    assert data == data[..n] + data[n..];
    RunSplit(was, data[..n], data[n..]);
  }

  lemma Fails(was: Parser, data: seq<byte>, n: nat, e: Error)
    requires n <= |data| && Run(was, data[..n]) == Err(e)
    ensures Run(was, data) == Err(e)
  {
    hide Run;
    assert data == data[..n] + data[n..];
    RunSplit(was, data[..n], data[n..]);
  }

  class CpioParser {
    var state: Phase
    var headerBuf: seq<byte>
    var streamPos: nat
    var subFormat: Option<SubFormat>
    /** The path that carries the data of an inode. */
    var resolvedInodes: map<Inode, seq<byte>>
    /** Members without data whose data has not come yet. */
    var deferredLinks: Table<Entry>
    /** Entries to hand over before anything more is read. */
    var pending: seq<Entry>
    ghost var members: seq<Member>
    ghost var delivered: seq<Entry>

    ghost function Value(): Parser
      reads this
    {
      Parser(state, headerBuf, streamPos, subFormat, members)
    }

    ghost predicate Shaped()
      reads this`state, this`headerBuf, this`subFormat
    {
      && (state.ReadingHeader? ==> |headerBuf| < if subFormat == None then MAGIC_SIZE else HeaderSize(subFormat))
      && (!state.ReadingHeader? ==> headerBuf == [] && subFormat.Some?)
      && (state.SkippingNamePad? || state.ReadingLinkTarget? || state.SkippingData? || state.SkippingDataPad? ==>
            state.remaining > 0)
    }

    /** The maps and queues hold what the policy has made of the members. */
    ghost predicate Remembers(handed: seq<Entry>)
      reads this`resolvedInodes, this`deferredLinks, this`pending, this`members
    {
      var l := AfterAll(members);
      && resolvedInodes == l.resolved && deferredLinks == UntaggedTable(l.waiting)
      && handed + pending == Untagged(l.out)
    }

    ghost predicate Valid()
      reads this
    {
      && Shaped()
      && (!state.End? ==> Remembers(delivered))
      && delivered + pending == Out(Value())
    }

    constructor ()
      ensures Valid() && Value() == FRESH && delivered == [] && pending == []
    {
      state, headerBuf, streamPos, subFormat := ReadingHeader, [], 0, None;
      resolvedInodes, deferredLinks, pending := map[], [], [];
      members, delivered := [], [];
    }

    /** What one call does, with `data` at hand. */
    ghost predicate Step(was: Parser, given: seq<Entry>, data: seq<byte>, r: Result<Fed, Error>)
      reads this
    {
      match r
      case Err(e) => Run(was, data) == Err(e)
      case Ok(fed) =>
        && Valid() && fed.consumed <= |data| && Run(was, data) == Run(Value(), data[fed.consumed..])
        && delivered == given + Handed(fed.event)
        && (!fed.event.EntryEvent? ==> pending == [])
        && (fed.event.EndOfArchive? ==> state.End?)
    }

    /** Nothing read so far is lost: it is handed over, about to be, or held back. */
    lemma Accounts()
      requires Valid() && !state.End?
      ensures |members| == |delivered| + |pending| + |Flat(deferredLinks)|
    {
      var l := AfterAll(members);
      AfterAllConserves(members);
      FromSize(l.out);
      FromSize(Flat(l.waiting));
      UpToSize(|members|);
      UntaggedFlat(l.waiting);
    }

    /** One more member. Gives back its entry unless that has to wait. */
    method ApplyHardlinkPolicy(entry: Entry, inode: Inode, nlink: nat) returns (r: Option<Entry>)
      requires Remembers(delivered) && pending == []
      modifies this`resolvedInodes, this`deferredLinks, this`pending, this`members
      ensures members == old(members) + [Member(entry, inode, nlink)]
      ensures Remembers(delivered + if r.Some? then [r.value] else [])
      ensures r.None? ==> pending == []
      ensures !Linked(Member(entry, inode, nlink)) ==> r == Some(entry)
    {
      hide AfterAll, Add, Remove, Lookup, Untagged, UntaggedTable;
      ghost var l, n, m := AfterAll(members), |members|, Member(entry, inode, nlink);
      OfferedLast(members, m);
      OfferedOut(l, n, m);
      members := members + [m];
      assert delivered + [] == delivered;
      if entry.kind != Regular || nlink <= 1 {
        return Some(entry);
      }
      if entry.size > 0 {
        resolvedInodes := resolvedInodes[inode := entry.path];
        pending := LinksTo(Lookup(deferredLinks, inode), entry.path);
        deferredLinks := Remove(deferredLinks, inode);
        assert delivered + ([entry] + pending) == (delivered + [entry]) + pending;
        return Some(entry);
      }
      if inode in resolvedInodes {
        return Some(AsLink(entry, resolvedInodes[inode]));
      }
      deferredLinks := Add(deferredLinks, inode, entry);
      return None;
    }

    /** The name and its padding are read: the data is next. */
    method TransitionToData(entry: Entry, inode: Inode, nlink: nat) returns (r: Result<Event, Error>)
      requires Remembers(delivered) && pending == [] && headerBuf == [] && subFormat.Some?
      modifies this
      ensures match r
              case Err(e) => OnData(old(Value().(phase := ReadingHeader)), entry, inode, nlink) == Err(e)
              case Ok(event) =>
                && OnData(old(Value().(phase := ReadingHeader)), entry, inode, nlink) == Ok(Value())
                && Valid() && delivered == old(delivered) + Handed(event)
                && !event.EndOfArchive? && (event.NeedData? ==> pending == [])
                && !state.ReadingFilename?
    {
      hide AfterAll, UntaggedTable, Untagged;
      var here := entry.(dataOffset := streamPos);
      if entry.kind == SymLink && entry.size > 0 {
        if entry.size > MAX_NAME_SIZE {
          return Err(InvalidCpioHeader);
        }
        state := ReadingLinkTarget(here, entry.size, []);
        assert delivered + [] == delivered;
        return Ok(NeedData);
      }
      state := if entry.size > 0 then SkippingData(entry.size + Padding(subFormat, entry.size)) else ReadingHeader;
      var out := ApplyHardlinkPolicy(here, inode, nlink);
      if out.None? {
        assert delivered + [] == delivered;
        return Ok(NeedData);
      }
      delivered := delivered + [out.value];
      return Ok(EntryEvent(out.value));
    }

    method ProcessHeader(take: nat, ghost was: Parser, ghost given: seq<Entry>, ghost data: seq<byte>)
      returns (r: Result<Fed, Error>)
      requires state.ReadingHeader? && subFormat.Some? && |headerBuf| == HeaderSize(subFormat)
      requires Remembers(delivered) && pending == [] && given == delivered && take <= |data|
      requires Run(was, data) == Onwards(OnHeader(Value().(headerBuf := []), headerBuf), data[take..])
      modifies this
      ensures Step(was, given, data, r) && (r.Ok? ==> r.value.consumed == take)
    {
      hide Run, AfterAll, UntaggedTable, Untagged, ParseNewc, ParseOdc;
      assert delivered + [] == delivered;
      if !MagicOk(subFormat, headerBuf[..MAGIC_SIZE]) {
        return Err(InvalidCpioHeader);
      }
      var parsed := if subFormat == Some(Odc) then ParseOdc(headerBuf) else ParseNewc(headerBuf);
      if parsed.Err? {
        return Err(parsed.error);
      }
      if parsed.value.namesize > MAX_NAME_SIZE {
        return Err(InvalidCpioHeader);
      }
      headerBuf := [];
      state := ReadingFilename(parsed.value, parsed.value.namesize, []);
      return Ok(Fed(take, NeedData));
    }

    /** The six bytes that say which format this is. */
    method FeedMagic(data: seq<byte>) returns (consumed: nat, r: Result<bool, Error>)
      requires Valid() && state.ReadingHeader? && subFormat == None && data != []
      modifies this`headerBuf, this`streamPos, this`subFormat
      ensures 0 < consumed <= |data|
      ensures match r
              case Err(e) => Run(old(Value()), data) == Err(e)
              case Ok(known) =>
                && Run(old(Value()), data) == Run(Value(), data[consumed..])
                && known == subFormat.Some? && Shaped() && (!known ==> consumed == |data|)
    {
      hide Run, AfterAll, UntaggedTable, Untagged, Detect;
      ghost var was := Value();
      consumed := Min(|data|, MAGIC_SIZE - |headerBuf|);
      headerBuf := headerBuf + data[..consumed];
      streamPos := streamPos + consumed;
      if |headerBuf| < MAGIC_SIZE {
        HeaderFills(was, data[..consumed]);
        Steps(was, data, consumed, Value());
        return consumed, Ok(false);
      }
      MagicFull(was, data[..consumed]);
      subFormat := Detect(headerBuf);
      if subFormat == None {
        Fails(was, data, consumed, InvalidCpioHeader);
        return consumed, Err(InvalidCpioHeader);
      }
      Steps(was, data, consumed, Value());
      return consumed, Ok(true);
    }

    /** The rest of a header whose length is known. */
    method FillHeader(rest: seq<byte>, done: nat, ghost was: Parser, ghost given: seq<Entry>, ghost data: seq<byte>)
      returns (r: Result<Fed, Error>)
      requires Shaped() && Remembers(delivered) && pending == [] && given == delivered
      requires state.ReadingHeader? && subFormat.Some?
      requires done <= |data| && rest == data[done..] && Run(was, data) == Run(Value(), rest)
      modifies this
      ensures Step(was, given, data, r) && (r.Ok? ==> r.value.consumed >= done)
      ensures r.Ok? && rest != [] ==> r.value.consumed > done
    {
      hide Run, AfterAll, UntaggedTable, Untagged, OnHeader;
      ghost var mid := Value();
      var available := Min(|rest|, HeaderSize(subFormat) - |headerBuf|);
      var part := rest[..available];
      assert delivered + [] == delivered;
      assert rest == part + rest[available..] && data[done + available..] == rest[available..];
      RunSplit(mid, part, rest[available..]);
      headerBuf := headerBuf + part;
      streamPos := streamPos + available;
      if |headerBuf| < HeaderSize(subFormat) {
        HeaderFills(mid, part);
        return Ok(Fed(done + available, NeedData));
      }
      HeaderFull(mid, part);
      r := ProcessHeader(done + available, was, given, data);
    }

    method FeedHeader(data: seq<byte>) returns (r: Result<Fed, Error>)
      requires Valid() && state.ReadingHeader? && pending == [] && data != []
      modifies this
      ensures Step(old(Value()), old(delivered), data, r) && (r.Ok? ==> r.value.consumed > 0)
    {
      hide Run, AfterAll, UntaggedTable, Untagged, HeaderSize;
      ghost var was := Value();
      assert delivered + [] == delivered && data[0..] == data;
      if subFormat != None {
        r := FillHeader(data, 0, was, delivered, data);
        return;
      }
      var consumed, magic := FeedMagic(data);
      if magic.Err? {
        return Err(magic.error);
      }
      if !magic.value {
        return Ok(Fed(consumed, NeedData));
      }
      r := FillHeader(data[consumed..], consumed, was, delivered, data);
    }

    /** The name is complete. */
    method NameDone(h: Header, buf: seq<byte>) returns (r: Result<Event, Error>)
      requires Remembers(delivered) && pending == [] && headerBuf == [] && subFormat.Some?
      modifies this
      ensures match r
              case Err(e) => OnName(old(Value().(phase := ReadingHeader)), h, buf) == Err(e)
              case Ok(event) =>
                && OnName(old(Value().(phase := ReadingHeader)), h, buf) == Ok(Value())
                && Valid() && delivered == old(delivered) + Handed(event)
                && (!event.EntryEvent? ==> pending == []) && (event.EndOfArchive? ==> state.End?)
                && !state.ReadingFilename?
    {
      hide AfterAll, UntaggedTable, Untagged, OnData, Padding, KindOf, HeaderSize, TrimEnd;
      assert delivered + [] == delivered;
      var name := TrimEnd(buf, 0);
      if name == TRAILER_NAME {
        var event := FinishArchive();
        return Ok(event);
      }
      var pad := Padding(subFormat, HeaderSize(subFormat) + h.namesize);
      var entry := Entry(name, h.filesize, KindOf(h.mode), h.mode % 0x1000, h.uid, h.gid, h.mtime, None,
                         streamPos + pad);
      if pad > 0 {
        state := SkippingNamePad(entry, pad, InodeOf(h), h.nlink);
        return Ok(NeedData);
      }
      r := TransitionToData(entry, InodeOf(h), h.nlink);
    }

    method FeedFilename(data: seq<byte>) returns (r: Result<Fed, Error>)
      requires Valid() && state.ReadingFilename? && pending == [] && data != []
      modifies this
      ensures Step(old(Value()), old(delivered), data, r)
      ensures r.Ok? ==> r.value.consumed > 0 || (Settles(old(Value())) && !Settles(Value()))
    {
      hide Run, AfterAll, UntaggedTable, Untagged, OnName, HeaderSize;
      ghost var was := Value();
      var take := Min(|data|, state.remaining);
      var buf := state.buf + data[..take];
      var h, left := state.header, state.remaining - take;
      NameGoesOn(was, data, take);
      streamPos := streamPos + take;
      if left > 0 {
        assert delivered + [] == delivered;
        state := ReadingFilename(h, left, buf);
        return Ok(Fed(take, NeedData));
      }
      var event := NameDone(h, buf);
      if event.Err? {
        return Err(event.error);
      }
      return Ok(Fed(take, event.value));
    }

    /** The trailer: what still waits goes out as it was read. */
    method FinishArchive() returns (event: Event)
      requires Remembers(delivered) && pending == [] && headerBuf == [] && subFormat.Some?
      modifies this
      ensures Value() == old(Value().(phase := End)) && Valid() && !event.NeedData?
      ensures delivered == old(delivered) + Handed(event)
      ensures event.EndOfArchive? ==> pending == []
    {
      ghost var l := AfterAll(members);
      UntaggedFlat(l.waiting);
      UntaggedJoins(l.out, Flat(l.waiting));
      hide AfterAll, UntaggedTable, Untagged, Flat;
      pending := Flat(deferredLinks);
      deferredLinks := [];
      state := End;
      assert delivered + [] == delivered;
      if pending != [] {
        var entry := pending[0];
        assert pending == [entry] + pending[1..];
        assert delivered + ([entry] + pending[1..]) == (delivered + [entry]) + pending[1..];
        pending := pending[1..];
        delivered := delivered + [entry];
        return EntryEvent(entry);
      }
      return EndOfArchive;
    }

    method FeedSkipNamePad(data: seq<byte>) returns (r: Result<Fed, Error>)
      requires Valid() && state.SkippingNamePad? && pending == [] && data != []
      modifies this
      ensures Step(old(Value()), old(delivered), data, r) && (r.Ok? ==> r.value.consumed > 0)
    {
      hide Run, AfterAll, UntaggedTable, Untagged, OnData;
      ghost var was := Value();
      var skip := Min(|data|, state.remaining);
      var left, entry, inode, nlink := state.remaining - skip, state.entry, state.inode, state.nlink;
      NamePadSkips(was, data[..skip]);
      assert data == data[..skip] + data[skip..];
      RunSplit(was, data[..skip], data[skip..]);
      streamPos := streamPos + skip;
      assert delivered + [] == delivered;
      if left > 0 {
        state := SkippingNamePad(entry, left, inode, nlink);
        return Ok(Fed(skip, NeedData));
      }
      var event := TransitionToData(entry, inode, nlink);
      if event.Err? {
        return Err(event.error);
      }
      return Ok(Fed(skip, event.value));
    }

    method FeedLinkTarget(data: seq<byte>) returns (r: Result<Fed, Error>)
      requires Valid() && state.ReadingLinkTarget? && pending == [] && data != []
      modifies this
      ensures Step(old(Value()), old(delivered), data, r) && (r.Ok? ==> r.value.consumed > 0)
    {
      hide Run, AfterAll, UntaggedTable, Untagged;
      ghost var was := Value();
      var take := Min(|data|, state.remaining);
      var buf := state.buf + data[..take];
      var left, entry := state.remaining - take, state.entry;
      TargetFills(was, data[..take]);
      assert data == data[..take] + data[take..];
      RunSplit(was, data[..take], data[take..]);
      streamPos := streamPos + take;
      assert delivered + [] == delivered;
      if left > 0 {
        state := ReadingLinkTarget(entry, left, buf);
        return Ok(Fed(take, NeedData));
      }
      var done := entry.(linkTarget := Some(buf), size := 0);
      var pad := Padding(subFormat, |buf|);
      var given := ApplyHardlinkPolicy(done, NO_INODE, 1);
      assert given == Some(done);
      state := if pad > 0 then SkippingDataPad(pad) else ReadingHeader;
      delivered := delivered + [done];
      return Ok(Fed(take, EntryEvent(done)));
    }

    method FeedSkipData(data: seq<byte>) returns (r: Result<Fed, Error>)
      requires Valid() && (state.SkippingData? || state.SkippingDataPad?) && pending == [] && data != []
      modifies this
      ensures Step(old(Value()), old(delivered), data, r) && (r.Ok? ==> r.value.consumed > 0)
    {
      hide Run, AfterAll, UntaggedTable, Untagged;
      ghost var was := Value();
      var skip := Min(|data|, state.remaining);
      var left := state.remaining - skip;
      DataSkips(was, data[..skip]);
      streamPos := streamPos + skip;
      state := if left == 0 then ReadingHeader
               else if state.SkippingData? then SkippingData(left) else SkippingDataPad(left);
      assert delivered + [] == delivered;
      Steps(was, data, skip, Value());
      return Ok(Fed(skip, NeedData));
    }

    /** What is pending goes first; then some of `data` is read. */
    method Feed(data: seq<byte>) returns (r: Result<Fed, Error>)
      requires Valid()
      modifies this
      ensures Step(old(Value()), old(delivered), data, r)
      ensures r.Ok? && r.value.consumed == 0 ==>
                || (Value() == old(Value()) && |pending| < old(|pending|) && r.value.event.EntryEvent?)
                || r.value.event.EndOfArchive?
                || (Settles(old(Value())) && !Settles(Value()))
                || (data == [] && r.value.event.NeedData?)
    {
      hide Run, AfterAll, UntaggedTable, Untagged, HeaderSize;
      if pending != [] {
        var entry := pending[0];
        assert pending == [entry] + pending[1..] && data[0..] == data;
        assert delivered + ([entry] + pending[1..]) == (delivered + [entry]) + pending[1..];
        pending := pending[1..];
        delivered := delivered + [entry];
        return Ok(Fed(0, EntryEvent(entry)));
      }
      assert delivered + [] == delivered && data[0..] == data;
      if data == [] && !state.End? {
        return Ok(Fed(0, NeedData));
      }
      match state {
        case ReadingHeader => r := FeedHeader(data);
        case ReadingFilename(_, _, _) => r := FeedFilename(data);
        case SkippingNamePad(_, _, _, _) => r := FeedSkipNamePad(data);
        case ReadingLinkTarget(_, _, _) => r := FeedLinkTarget(data);
        case SkippingData(_) => r := FeedSkipData(data);
        case SkippingDataPad(_) => r := FeedSkipData(data);
        case End => return Ok(Fed(0, EndOfArchive));
      }
    }

    /** Only the trailer ends an archive. */
    method EndOfStream() returns (r: Result<(), Error>)
      ensures r.Ok? <==> Value().phase.End?
      ensures r.Err? ==> r.error == TruncatedArchive
    {
      return if state.End? then Ok(()) else Err(TruncatedArchive);
    }
  }

  function LinksTo(s: seq<Entry>, path: seq<byte>): seq<Entry> {
    seq(|s|, i requires 0 <= i < |s| => AsLink(s[i], path))
  }

  /** What a member changes, without the tags. */
  lemma OfferedOut(l: Links, n: nat, m: Member)
    ensures var next, out, waiting := Offer(l, n, m), Untagged(l.out), UntaggedTable(l.waiting);
            if !Linked(m) then Untagged(next.out) == out + [m.entry] && UntaggedTable(next.waiting) == waiting
            else if Bears(m) then
              && Untagged(next.out) == out + ([m.entry] + LinksTo(Lookup(waiting, m.inode), m.entry.path))
              && UntaggedTable(next.waiting) == Remove(waiting, m.inode)
            else if m.inode in l.resolved then
              && Untagged(next.out) == out + [AsLink(m.entry, l.resolved[m.inode])]
              && UntaggedTable(next.waiting) == waiting
            else Untagged(next.out) == out && UntaggedTable(next.waiting) == Add(waiting, m.inode, m.entry)
  {
    hide Add, Remove, Lookup, UntaggedTable;
    var t := Tagged(n, m.entry);
    if !Linked(m) {
      UntaggedJoins(l.out, [t]);
      assert Untagged([t]) == [m.entry];
    } else if Bears(m) {
      UntaggedRemove(l.waiting, m.inode);
      var made := AllAsLinks(Lookup(l.waiting, m.inode), m.entry.path);
      assert Untagged(made) == LinksTo(Lookup(UntaggedTable(l.waiting), m.inode), m.entry.path);
      UntaggedJoins(l.out, [t] + made);
      assert Untagged([t] + made) == [m.entry] + Untagged(made);
    } else if m.inode in l.resolved {
      var u := Tagged(n, AsLink(m.entry, l.resolved[m.inode]));
      UntaggedJoins(l.out, [u]);
      assert Untagged([u]) == [u.entry];
    } else {
      UntaggedAdd(l.waiting, m.inode, t);
    }
  }

  lemma OfferedLast(ms: seq<Member>, m: Member)
    ensures AfterAll(ms + [m]) == Offer(AfterAll(ms), |ms|, m)
  {
    assert (ms + [m])[..|ms|] == ms;
  }

  lemma NameGoesOn(p: Parser, data: seq<byte>, take: nat)
    requires p.phase.ReadingFilename? && data != [] && take == Min(|data|, p.phase.remaining)
    ensures var left, buf := p.phase.remaining - take, p.phase.buf + data[..take];
            var next := p.(pos := p.pos + take, phase := ReadingHeader);
            Run(p, data) == Onwards(if left == 0 then OnName(next, p.phase.header, buf)
                                    else Ok(next.(phase := ReadingFilename(p.phase.header, left, buf))), data[take..])
  {
    hide OnName;
    if take > 0 {
      hide Run;
      NameFills(p, data[..take]);
      RunSplit(p, data[..take], data[take..]);
      assert data == data[..take] + data[take..];
    } else {
      assert p.phase.buf + data[..0] == p.phase.buf && data[0..] == data;
    }
  }

  lemma FedPart(was: Parser, data: seq<byte>, offset: nat, n: nat, r: Result<Fed, Error>, now: Parser)
    requires offset + n <= |data|
    requires match r
             case Err(e) => Run(was, data[offset..offset + n]) == Err(e)
             case Ok(fed) =>
               fed.consumed <= n && Run(was, data[offset..offset + n])
                   == Run(now, data[offset..offset + n][fed.consumed..])
    ensures match r
            case Err(e) => Run(was, data[offset..]) == Err(e)
            case Ok(fed) => Run(was, data[offset..]) == Run(now, data[offset + fed.consumed..])
  {
    hide Run;
    var piece, rest := data[offset..offset + n], data[offset + n..];
    assert data[offset..] == piece + rest;
    RunSplit(was, piece, rest);
    if r.Ok? {
      var c := r.value.consumed;
      assert data[offset + c..] == piece[c..] + rest;
      RunSplit(now, piece[c..], rest);
    }
  }

  lemma RunEnded(p: Parser, s: seq<byte>)
    requires p.phase.End?
    ensures Run(p, s) == Ok(p)
  {
  }

  /** Feeds a whole stream in pieces of any sizes until it ends or runs dry. */
  method ParseChunked(data: seq<byte>, takes: nat -> nat) returns (r: Result<seq<Entry>, Error>)
    requires forall k :: takes(k) > 0
    ensures match Run(FRESH, data)
            case Err(e) => r == Err(e)
            case Ok(p) => r == Ok(Out(p))
  {
    hide Run, Out, HeaderSize;
    var parser := new CpioParser();
    var offset, k := 0, 0;
    var entries: seq<Entry> := [];
    assert data[0..] == data;
    while true
      invariant fresh(parser) && parser.Valid() && offset <= |data| && parser.delivered == entries
      invariant Run(FRESH, data) == Run(parser.Value(), data[offset..])
      decreases |data| - offset, if Settles(parser.Value()) then 1 else 0, |parser.pending|
    {
      var n := Min(takes(k), |data| - offset);
      ghost var was := parser.Value();
      var fed := parser.Feed(data[offset..offset + n]);
      FedPart(was, data, offset, n, fed, parser.Value());
      if fed.Err? {
        return Err(fed.error);
      }
      offset := offset + fed.value.consumed;
      k := k + 1;
      match fed.value.event {
        case EntryEvent(entry) =>
          entries := entries + [entry];
        case EndOfArchive =>
          RunEnded(parser.Value(), data[offset..]);
          assert entries + [] == entries;
          return Ok(entries);
        case NeedData =>
          if offset >= |data| {
            assert data[offset..] == [] && entries + [] == entries;
            RunNothing(parser.Value());
            return Ok(entries);
          }
      }
    }
  }

  /** An archive that ends with its trailer gives every member exactly once,
      each as it was read or as a link to one given before it. */
  lemma ArchiveConserves(data: seq<byte>, p: Parser)
    requires Run(FRESH, data) == Ok(p) && p.phase.End?
    ensures Out(p) == Untagged(Output(p.members)) && |Out(p)| == |p.members|
    ensures forall i: nat :: From(Output(p.members))[i] == if i < |p.members| then 1 else 0
    ensures forall k: nat :: k < |Out(p)| ==> Resolved(p.members, Output(p.members), k)
  {
    hide Run, From, Resolved, Output;
    OutputConserves(p.members);
  }
}
