/**
  Archives as cpio writes them, in the newc layout, with hexadecimal fields and
  padding to four bytes, and in the older odc layout, with octal fields and
  none: the members and the trailer that ends them.
 */
module CpioWriting {
  import opened Arithmetic
  import opened Bytes
  import opened CpioLinks
  import opened CpioParsing
  import opened Digits
  import opened Sequences
  import opened Wrappers

  /** A member: its name, its bytes, and what its header says of it. The bytes
      of a symbolic link are its target. */
  datatype File = File(
    path: seq<byte>,
    data: seq<byte>,
    ino: nat,
    mode: nat,
    uid: nat,
    gid: nat,
    nlink: nat,
    mtime: nat,
    devmajor: nat,
    devminor: nat)

  const TRAILER := File(TRAILER_NAME, [], 0, 0, 0, 0, 1, 0, 0, 0)

  function Sub(odc: bool): SubFormat {
    if odc then Odc else Newc
  }

  function Magic(odc: bool): (m: seq<byte>)
    ensures |m| == MAGIC_SIZE && Detect(m) == Some(Sub(odc)) && MagicOk(Some(Sub(odc)), m)
  {
    if odc then ODC_MAGIC else NEWC_MAGIC
  }

  function Radix(odc: bool): nat {
    if odc then 8 else 16
  }

  // ─── Headers ─────────────────────────────────────────────────────

  const NEWC_WIDTHS: seq<nat> := [8, 8, 8, 8, 8, 8, 8, 8, 8, 8, 8, 8]
  const ODC_WIDTHS: seq<nat> := [6, 6, 6, 6, 6, 6, 6, 11, 6, 11]

  function Widths(odc: bool): seq<nat> {
    if odc then ODC_WIDTHS else NEWC_WIDTHS
  }

  /** The numbers of a header in their order. */
  function Numbers(odc: bool, f: File): (ns: seq<nat>)
    ensures |ns| == |Widths(odc)|
  {
    if odc then
      [f.devmajor * 0x100 + f.devminor, f.ino, f.mode, f.uid, f.gid, f.nlink, 0, f.mtime, |f.path| + 1, |f.data|]
    else
      [f.ino, f.mode, f.uid, f.gid, f.nlink, f.mtime, |f.data|, f.devmajor, f.devminor, 0, 0, |f.path| + 1]
  }

  /** Every number has room in its field. */
  predicate FieldsFit(ns: seq<nat>, ws: seq<nat>, radix: nat) {
    |ns| == |ws| && forall i :: 0 <= i < |ns| ==> ws[i] >= 1 && ns[i] < Pow(radix, ws[i]) && ns[i] <= MAX_U64
  }

  predicate Writable(odc: bool, f: File) {
    FieldsFit(Numbers(odc, f), Widths(odc), Radix(odc)) && (odc ==> f.devminor < 0x100)
  }

  function Fields(ns: seq<nat>, ws: seq<nat>, radix: nat): (s: seq<byte>)
    requires |ns| == |ws| && 2 <= radix <= 36
    decreases |ns|
  {
    if ns == [] then [] else Zeroed(ns[0], radix, ws[0]) + Fields(ns[1..], ws[1..], radix)
  }

  /** The cuts bound fields of these widths. */
  ghost predicate Bound(cuts: seq<nat>, ws: seq<nat>) {
    |cuts| == |ws| + 1 && forall i, j :: 0 <= i < |ws| && j == i + 1 ==> cuts[j] == cuts[i] + ws[i]
  }

  lemma CutsAreBound()
    ensures Bound(NEWC_CUTS, NEWC_WIDTHS) && Bound(ODC_CUTS, ODC_WIDTHS)
  {
  }

  lemma {:induction false} FieldsParse(before: seq<byte>, ns: seq<nat>, ws: seq<nat>, radix: nat, after: seq<byte>,
                                       cuts: seq<nat>)
    requires FieldsFit(ns, ws, radix) && 2 <= radix <= 36 && Bound(cuts, ws) && cuts[0] == |before|
    ensures |before + Fields(ns, ws, radix)| == cuts[|ws|]
    ensures ParseFields(before + Fields(ns, ws, radix) + after, cuts, radix) == Some(ns)
    decreases |ns|
  {
    hide ParseUnsigned, Zeroed, Pow;
    if ns != [] {
      var first, rest := Zeroed(ns[0], radix, ws[0]), Fields(ns[1..], ws[1..], radix);
      var data := before + (first + rest) + after;
      assert data == (before + first) + rest + after;
      assert before + (first + rest) == (before + first) + rest;
      assert cuts[1] == |before + first| && data[cuts[0]..cuts[1]] == first;
      ZeroedParses(ns[0], radix, ws[0]);
      FieldsParse(before + first, ns[1..], ws[1..], radix, after, cuts[1..]);
      assert ns == [ns[0]] + ns[1..];
    }
  }

  function Check(odc: bool): seq<byte> {
    if odc then [] else Zeroed(0, 16, 8)
  }

  function HeaderBytes(odc: bool, f: File): (h: seq<byte>)
    requires Writable(odc, f)
    ensures |h| == HeaderSize(Some(Sub(odc))) && h[..MAGIC_SIZE] == Magic(odc)
  {
    HeaderFields(odc, f);
    Magic(odc) + Fields(Numbers(odc, f), Widths(odc), Radix(odc)) + Check(odc)
  }

  lemma HeaderFields(odc: bool, f: File)
    requires Writable(odc, f)
    ensures var fields := Fields(Numbers(odc, f), Widths(odc), Radix(odc));
            && |Magic(odc) + fields + Check(odc)| == HeaderSize(Some(Sub(odc)))
            && ParseFields(Magic(odc) + fields + Check(odc), if odc then ODC_CUTS else NEWC_CUTS, Radix(odc))
            == Some(Numbers(odc, f))
  {
    hide FieldsFit, Fields, ParseFields;
    CutsAreBound();
    FieldsParse(Magic(odc), Numbers(odc, f), Widths(odc), Radix(odc), Check(odc), if odc then ODC_CUTS else NEWC_CUTS);
  }

  function HeaderOf(f: File): Header {
    Header(f.ino, f.mode, f.uid, f.gid, f.nlink, f.mtime, |f.data|, f.devmajor, f.devminor, |f.path| + 1)
  }

  lemma NewcParses(raw: seq<byte>, f: File)
    requires ParseFields(raw, NEWC_CUTS, 16) == Some(Numbers(false, f))
    ensures ParseNewc(raw) == Ok(HeaderOf(f))
  {
    hide ParseFields;
  }

  lemma OdcParses(raw: seq<byte>, f: File)
    requires ParseFields(raw, ODC_CUTS, 8) == Some(Numbers(true, f)) && f.devminor < 0x100
    ensures ParseOdc(raw) == Ok(HeaderOf(f))
  {
    hide ParseFields;
  }

  lemma HeaderParses(odc: bool, f: File)
    requires Writable(odc, f)
    ensures (if odc then ParseOdc(HeaderBytes(odc, f)) else ParseNewc(HeaderBytes(odc, f))) == Ok(HeaderOf(f))
  {
    hide FieldsFit, Fields, ParseFields, ParseOdc, ParseNewc, Numbers, HeaderOf, Check;
    HeaderFields(odc, f);
    if odc {
      OdcParses(HeaderBytes(odc, f), f);
    } else {
      NewcParses(HeaderBytes(odc, f), f);
    }
  }

  // ─── Records ─────────────────────────────────────────────────────

  function NamePad(odc: bool, f: File): seq<byte> {
    Zeros(Padding(Some(Sub(odc)), HeaderSize(Some(Sub(odc))) + (|f.path| + 1)))
  }

  function DataPad(odc: bool, f: File): seq<byte> {
    Zeros(Padding(Some(Sub(odc)), |f.data|))
  }

  /** The layouts, in bytes: `070701` or `070707` starts a header of 110 or 76
      bytes; in newc, and only there, zeros bring the name and the data to a
      multiple of four; and the last name is `TRAILER!!!`. */
  lemma LayoutIs(odc: bool, f: File)
    ensures Magic(odc) == [0x30, 0x37, 0x30, 0x37, 0x30, if odc then 0x37 else 0x31]
    ensures HeaderSize(Some(Sub(odc))) == if odc then 76 else 110
    ensures odc ==> NamePad(odc, f) == [] && DataPad(odc, f) == []
    ensures !odc ==>
              && (110 + |f.path| + 1 + |NamePad(odc, f)|) % 4 == 0 && |NamePad(odc, f)| < 4
              && (|f.data| + |DataPad(odc, f)|) % 4 == 0 && |DataPad(odc, f)| < 4
    ensures TRAILER.path == [0x54, 0x52, 0x41, 0x49, 0x4C, 0x45, 0x52, 0x21, 0x21, 0x21]
  {
  }

  function NameBytes(odc: bool, f: File): seq<byte> {
    f.path + [0] + NamePad(odc, f)
  }

  function RecordBytes(odc: bool, f: File): seq<byte>
    requires Writable(odc, f)
  {
    HeaderBytes(odc, f) + (NameBytes(odc, f) + (f.data + DataPad(odc, f)))
  }

  predicate IsSymLink(f: File) {
    KindOf(f.mode) == SymLink && f.data != []
  }

  /** What the parser makes of a name: trailing NULs are not part of it. */
  function NameRead(f: File): seq<byte> {
    TrimEnd(f.path + [0], 0)
  }

  function HereEntry(f: File, at: nat): Entry {
    Entry(NameRead(f), |f.data|, KindOf(f.mode), f.mode % 0x1000, f.uid, f.gid, f.mtime, None, at)
  }

  /** The member of a record, its data at `at`. */
  function MemberOf(f: File, at: nat): Member {
    var e := HereEntry(f, at);
    if IsSymLink(f) then Member(TargetEntry(e, f.data), NO_INODE, 1)
    else Member(e, Inode(f.devmajor, f.devminor, f.ino), f.nlink)
  }

  /** A parser between records of this layout. */
  predicate Between(p: Parser, odc: bool) {
    p.phase.ReadingHeader? && p.headerBuf == [] && (p.sub == None || p.sub == Some(Sub(odc)))
  }

  function AfterHeader(p: Parser, odc: bool, f: File): Parser {
    p.(sub := Some(Sub(odc)), pos := p.pos + HeaderSize(Some(Sub(odc))),
       phase := ReadingFilename(HeaderOf(f), |f.path| + 1, []))
  }

  lemma HeaderTaken(p: Parser, odc: bool, f: File)
    requires Writable(odc, f) && p.phase.ReadingHeader? && p.headerBuf == [] && p.sub == Some(Sub(odc))
    ensures OnHeader(p, HeaderBytes(odc, f))
         == if |f.path| + 1 > MAX_NAME_SIZE then Err(InvalidCpioHeader)
            else Ok(p.(phase := ReadingFilename(HeaderOf(f), |f.path| + 1, [])))
  {
    hide ParseOdc, ParseNewc, HeaderBytes, Magic, MagicOk, Detect, HeaderSize, Writable, OnHeader;
    HeaderParses(odc, f);
    OnHeaderIs(p, HeaderBytes(odc, f), HeaderOf(f));
  }

  lemma OnHeaderIs(p: Parser, raw: seq<byte>, h: Header)
    requires |raw| >= MAGIC_SIZE && MagicOk(p.sub, raw[..MAGIC_SIZE])
    requires (if p.sub == Some(Odc) then ParseOdc(raw) else ParseNewc(raw)) == Ok(h)
    ensures OnHeader(p, raw)
         == if h.namesize > MAX_NAME_SIZE then Err(InvalidCpioHeader)
            else Ok(p.(phase := ReadingFilename(h, h.namesize, [])))
  {
    hide ParseOdc, ParseNewc, MagicOk;
  }

  lemma MagicFirst(p: Parser, odc: bool, raw: seq<byte>)
    requires Between(p, odc) && p.sub == None
    requires |raw| == HeaderSize(Some(Sub(odc))) && raw[..MAGIC_SIZE] == Magic(odc)
    ensures Run(p, raw) == Run(p.(headerBuf := Magic(odc), pos := p.pos + MAGIC_SIZE, sub := Some(Sub(odc))),
                               raw[MAGIC_SIZE..])
  {
    var magic := Magic(odc);
    assert Detect(magic) == Some(Sub(odc));
    hide Run, Magic, Detect, Sub;
    MagicFull(p, magic);
    assert [] + magic == magic;
    RunSplit(p, magic, raw[MAGIC_SIZE..]);
    assert raw == magic + raw[MAGIC_SIZE..];
  }

  /** A whole header, whether or not it is the first. */
  lemma HeaderWhole(p: Parser, odc: bool, raw: seq<byte>)
    requires Between(p, odc) && |raw| == HeaderSize(Some(Sub(odc))) && raw[..MAGIC_SIZE] == Magic(odc)
    ensures Run(p, raw) == OnHeader(p.(sub := Some(Sub(odc)), pos := p.pos + |raw|), raw)
  {
    hide Run, OnHeader, Magic, HeaderSize;
    var there := p.(sub := Some(Sub(odc)), pos := p.pos + |raw|);
    if p.sub == None {
      var q := p.(headerBuf := Magic(odc), pos := p.pos + MAGIC_SIZE, sub := Some(Sub(odc)));
      var rest := raw[MAGIC_SIZE..];
      MagicFirst(p, odc, raw);
      HeaderFull(q, rest);
      assert Magic(odc) + rest == raw;
      assert q.(headerBuf := [], pos := q.pos + |rest|) == there;
    } else {
      HeaderFull(p, raw);
      assert [] + raw == raw;
      assert p.(headerBuf := [], pos := p.pos + |raw|) == there;
    }
  }

  lemma HeaderRun(p: Parser, odc: bool, f: File)
    requires Writable(odc, f) && Between(p, odc)
    ensures Run(p, HeaderBytes(odc, f))
         == if |f.path| + 1 > MAX_NAME_SIZE then Err(InvalidCpioHeader) else Ok(AfterHeader(p, odc, f))
  {
    hide Run, OnHeader, HeaderBytes, Magic, HeaderOf, HeaderSize, Writable;
    var raw := HeaderBytes(odc, f);
    HeaderTaken(p.(sub := Some(Sub(odc)), pos := p.pos + |raw|), odc, f);
    HeaderWhole(p, odc, raw);
  }

  /** After the name comes its padding, if there is any. */
  lemma PadRun(next: Parser, odc: bool, f: File)
    requires next.sub == Some(Sub(odc)) && next.phase == ReadingHeader
    ensures var pad := NamePad(odc, f);
            Onwards(OnName(next, HeaderOf(f), f.path + [0]), pad)
            == if NameRead(f) == TRAILER_NAME then Ok(next.(phase := End))
               else OnData(next.(pos := next.pos + |pad|), HereEntry(f, next.pos + |pad|), InodeOf(HeaderOf(f)),
                   f.nlink)
  {
    hide Run, OnData, HeaderSize, KindOf, TrimEnd;
    var pad := NamePad(odc, f);
    if NameRead(f) == TRAILER_NAME {
      RunEnded(next.(phase := End), pad);
    } else {
      var e := HereEntry(f, next.pos + |pad|);
      assert NamedEntry(next, HeaderOf(f), NameRead(f), |pad|) == e;
      if pad == [] {
        assert next.(pos := next.pos + 0) == next;
        DataRunsOn(OnData(next, e, InodeOf(HeaderOf(f)), f.nlink));
      } else {
        NamePadSkips(next.(phase := SkippingNamePad(e, |pad|, InodeOf(HeaderOf(f)), f.nlink)), pad);
      }
    }
  }

  lemma DataRunsOn(r: Result<Parser, Error>)
    ensures Onwards(r, []) == r
  {
  }

  lemma NameRun(p: Parser, odc: bool, f: File)
    requires p.sub == Some(Sub(odc)) && p.phase == ReadingFilename(HeaderOf(f), |f.path| + 1, [])
    ensures var after := p.pos + |NameBytes(odc, f)|;
            Run(p, NameBytes(odc, f))
            == if NameRead(f) == TRAILER_NAME then Ok(p.(phase := End, pos := p.pos + |f.path| + 1))
               else OnData(p.(phase := ReadingHeader, pos := after), HereEntry(f, after), InodeOf(HeaderOf(f)), f.nlink)
  {
    hide Run, OnData, OnName, HereEntry, NameRead, HeaderOf, NamePad;
    var name := f.path + [0];
    assert [] + name == name;
    NameFills(p, name);
    RunSplit(p, name, NamePad(odc, f));
    PadRun(p.(pos := p.pos + |name|, phase := ReadingHeader), odc, f);
  }

  /** The data and its padding, the targets of symbolic links included. */
  lemma DataRun(p: Parser, odc: bool, f: File)
    requires p.sub == Some(Sub(odc)) && p.phase == ReadingHeader
    ensures var m := MemberOf(f, p.pos);
            var all := f.data + DataPad(odc, f);
            Onwards(OnData(p, HereEntry(f, p.pos), InodeOf(HeaderOf(f)), f.nlink), all)
            == if IsSymLink(f) && |f.data| > MAX_NAME_SIZE then Err(InvalidCpioHeader)
               else Ok(p.(pos := p.pos + |all|, members := p.members + [m]))
  {
    hide Run, KindOf, NameRead, Padding;
    var all := f.data + DataPad(odc, f);
    var e := HereEntry(f, p.pos);
    assert e.(dataOffset := p.pos) == e;
    if IsSymLink(f) {
      if |f.data| <= MAX_NAME_SIZE {
        TargetRun(p, odc, f);
      }
    } else {
      var q := p.(members := p.members + [MemberOf(f, p.pos)]);
      if f.data == [] {
        NoPad(odc);
        assert all == [];
        RunNothing(q);
      } else {
        DataSkips(q.(phase := SkippingData(|all|)), all);
      }
    }
  }

  lemma NoPad(odc: bool)
    ensures Padding(Some(Sub(odc)), 0) == 0
  {
  }

  lemma TargetRun(p: Parser, odc: bool, f: File)
    requires p.sub == Some(Sub(odc)) && p.phase == ReadingHeader && f.data != []
    ensures var e, all := HereEntry(f, p.pos), f.data + DataPad(odc, f);
            Run(p.(phase := ReadingLinkTarget(e, |f.data|, [])), all)
            == Ok(p.(pos := p.pos + |all|, members := p.members + [Member(TargetEntry(e, f.data), NO_INODE, 1)]))
  {
    hide Run, KindOf, NameRead, Padding, HereEntry, TargetEntry;
    var e, pad := HereEntry(f, p.pos), DataPad(odc, f);
    var q := p.(phase := ReadingLinkTarget(e, |f.data|, []));
    TargetFills(q, f.data);
    assert [] + f.data == f.data;
    RunSplit(q, f.data, pad);
    var done := OnTarget(p.(pos := p.pos + |f.data|), e, f.data);
    if pad == [] {
      RunNothing(done);
    } else {
      DataSkips(done, pad);
    }
  }

  /** The names and sizes that survive. */
  predicate Plain(f: File) {
    && (f.path == [] || f.path[|f.path| - 1] != 0) && f.path != TRAILER_NAME
    && |f.path| + 1 <= 0x1_0000 && (IsSymLink(f) ==> |f.data| <= 0x1_0000)
  }

  /** What a record does to a parser, whatever its name. */
  function Outcome(p: Parser, odc: bool, f: File): Result<Parser, Error>
    requires Writable(odc, f)
  {
    var at := p.pos + HeaderSize(Some(Sub(odc)));
    if |f.path| + 1 > MAX_NAME_SIZE then Err(InvalidCpioHeader)
    else if NameRead(f) == TRAILER_NAME then
      Ok(p.(sub := Some(Sub(odc)), phase := End, pos := at + |f.path| + 1))
    else if IsSymLink(f) && |f.data| > MAX_NAME_SIZE then Err(InvalidCpioHeader)
    else Ok(AfterRecord(p, odc, f))
  }

  /** Where the data of a record at `pos` starts. */
  function DataAt(odc: bool, f: File, pos: nat): nat {
    pos + HeaderSize(Some(Sub(odc))) + |NameBytes(odc, f)|
  }

  function AfterRecord(p: Parser, odc: bool, f: File): Parser
    requires Writable(odc, f)
  {
    p.(sub := Some(Sub(odc)), pos := p.pos + |RecordBytes(odc, f)|,
       members := p.members + [MemberOf(f, DataAt(odc, f, p.pos))])
  }

  lemma RecordRun(p: Parser, odc: bool, f: File)
    requires Writable(odc, f) && Between(p, odc)
    ensures Run(p, RecordBytes(odc, f)) == Outcome(p, odc, f)
  {
    hide Run, OnData, HeaderBytes, HeaderSize, HeaderOf, NameBytes, DataPad, MemberOf, HereEntry, NameRead, Writable;
    var h, n, d := HeaderBytes(odc, f), NameBytes(odc, f), f.data + DataPad(odc, f);
    HeaderRun(p, odc, f);
    RunSplit(p, h, n + d);
    if |f.path| + 1 <= MAX_NAME_SIZE {
      var q := AfterHeader(p, odc, f);
      NameRun(q, odc, f);
      RunSplit(q, n, d);
      if NameRead(f) == TRAILER_NAME {
        RunEnded(q.(phase := End, pos := q.pos + |f.path| + 1), d);
      } else {
        DataRun(q.(phase := ReadingHeader, pos := q.pos + |n|), odc, f);
      }
    }
  }

  // ─── Archives ────────────────────────────────────────────────────

  predicate AllWritable(odc: bool, files: seq<File>) {
    forall i :: 0 <= i < |files| ==> Writable(odc, files[i])
  }

  predicate AllPlain(files: seq<File>) {
    forall i :: 0 <= i < |files| ==> Plain(files[i])
  }

  lemma NameBack(f: File)
    ensures NameRead(f) == f.path <==> f.path == [] || f.path[|f.path| - 1] != 0
  {
    var s, path := f.path + [0], f.path;
    assert s[|s| - 1] == 0 && s[..|s| - 1] == path;
    assert NameRead(f) == TrimEnd(path, 0);
    if path != [] && path[|path| - 1] == 0 {
      assert |TrimEnd(path[..|path| - 1], 0)| < |path|;
    }
  }

  lemma TrailerFits(odc: bool)
    ensures Writable(odc, TRAILER) && |TRAILER.path| + 1 <= MAX_NAME_SIZE && NameRead(TRAILER) == TRAILER_NAME
  {
    var ns, ws, radix := Numbers(odc, TRAILER), Widths(odc), Radix(odc);
    forall i | 0 <= i < |ns| ensures ws[i] >= 1 && ns[i] < Pow(radix, ws[i]) {
      AtLeastTwoDigits(radix, ws[i]);
    }
    NameBack(TRAILER);
  }

  lemma AtLeastTwoDigits(radix: nat, k: nat)
    requires radix >= 8 && k >= 2
    ensures Pow(radix, k) >= 64
  {
    assert Pow(radix, 1) == radix;
    if k > 2 {
      AtLeastTwoDigits(radix, k - 1);
    }
  }

  /** The records, and the trailer after them. */
  function Archive(odc: bool, files: seq<File>): seq<byte>
    requires AllWritable(odc, files)
  {
    TrailerFits(odc);
    if files == [] then RecordBytes(odc, TRAILER) else RecordBytes(odc, files[0]) + Archive(odc, files[1..])
  }

  /** The members of records laid out from `pos` on. */
  function MembersOf(odc: bool, files: seq<File>, pos: nat): (ms: seq<Member>)
    requires AllWritable(odc, files)
    ensures |ms| == |files|
  {
    if files == [] then [] else
    [MemberOf(files[0], DataAt(odc, files[0], pos))]
    + MembersOf(odc, files[1..], pos + |RecordBytes(odc, files[0])|)
  }

  /** The first record's outcome decides how the parser goes on. */
  lemma FirstRecord(p: Parser, odc: bool, files: seq<File>)
    requires files != [] && AllWritable(odc, files) && Between(p, odc)
    ensures Run(p, Archive(odc, files)) == Onwards(Outcome(p, odc, files[0]), Archive(odc, files[1..]))
  {
    hide Run, RecordBytes, Outcome, Between;
    RecordRun(p, odc, files[0]);
    RunSplit(p, RecordBytes(odc, files[0]), Archive(odc, files[1..]));
  }

  lemma StillBetween(p: Parser, odc: bool, f: File)
    requires Writable(odc, f) && Between(p, odc)
    ensures Between(AfterRecord(p, odc, f), odc)
  {
  }

  lemma TrailerEnds(p: Parser, odc: bool)
    requires Between(p, odc)
    ensures AllWritable(odc, []) && Run(p, Archive(odc, [])).Ok?
    ensures var q := Run(p, Archive(odc, [])).value; q.phase.End? && q.members == p.members
  {
    TrailerFits(odc);
    hide Run, RecordBytes, NameRead, Writable;
    RecordRun(p, odc, TRAILER);
  }

  lemma PlainOutcome(p: Parser, odc: bool, f: File)
    requires Writable(odc, f)
    ensures Plain(f) ==> NameRead(f) == f.path && Outcome(p, odc, f) == Ok(AfterRecord(p, odc, f))
    ensures !Plain(f) && Outcome(p, odc, f).Ok? ==> NameRead(f) != f.path || NameRead(f) == TRAILER_NAME
  {
    hide HeaderSize, AfterRecord, Writable;
    NameBack(f);
    hide NameRead;
  }

  lemma {:induction false} MembersRun(p: Parser, odc: bool, files: seq<File>)
    requires AllWritable(odc, files) && AllPlain(files) && Between(p, odc)
    ensures Run(p, Archive(odc, files)).Ok?
    ensures var q := Run(p, Archive(odc, files)).value;
            q.phase.End? && q.members == p.members + MembersOf(odc, files, p.pos)
    decreases |files|
  {
    hide Run, RecordBytes, Outcome, Between, MemberOf, DataAt, Plain, Archive, Writable;
    if files == [] {
      TrailerEnds(p, odc);
      assert p.members + [] == p.members;
    } else {
      var q := AfterRecord(p, odc, files[0]);
      FirstRecord(p, odc, files);
      PlainOutcome(p, odc, files[0]);
      StillBetween(p, odc, files[0]);
      MembersRun(q, odc, files[1..]);
      Associates(p.members, [MemberOf(files[0], DataAt(odc, files[0], p.pos))], MembersOf(odc, files[1..], q.pos));
    }
  }

  // ─── Members describe the files ──────────────────────────────────

  /** The kinds, by the four bits of the mode that say them. */
  predicate IsKind(kind: EntryType, mode: nat) {
    var m := mode % 0x1_0000;
    && (kind.Regular? <==> 0x8000 <= m < 0x9000)
    && (kind.Directory? <==> 0x4000 <= m < 0x5000)
    && (kind.SymLink? <==> 0xA000 <= m < 0xB000)
    && (kind.CharDevice? <==> 0x2000 <= m < 0x3000)
    && (kind.BlockDevice? <==> 0x6000 <= m < 0x7000)
    && (kind.Fifo? <==> 0x1000 <= m < 0x2000)
    && (kind.Socket? <==> 0xC000 <= m < 0xD000)
    && !kind.HardLink?
    && (kind.Other? ==> 0x1000 * kind.code <= mode % 0x10_0000 < 0x1000 * kind.code + 0x1000)
  }

  lemma KindIs(mode: nat)
    ensures IsKind(KindOf(mode), mode)
  {
    var high, low := mode / 0x1000, mode % 0x1000;
    ModMod(high, 16, 16);
    DivModUnique(mode, 0x1_0000, high / 16, 0x1000 * (high % 16) + low);
    DivModUnique(mode, 0x10_0000, high / 0x100, 0x1000 * (high % 0x100) + low);
  }

  /** The member is the file: a symbolic link says where it points, and of
      anything else the bytes are found in the archive. */
  predicate Describes(m: Member, f: File, archive: seq<byte>) {
    && m.entry.path == f.path && IsKind(m.entry.kind, f.mode) && m.entry.mode == f.mode % 0x1000
    && m.entry.uid == f.uid && m.entry.gid == f.gid && m.entry.mtime == f.mtime
    && (if m.entry.kind.SymLink? && f.data != [] then m.entry.size == 0 && m.entry.linkTarget == Some(f.data)
        else m.entry.size == |f.data| && m.entry.linkTarget == None
             && m.nlink == f.nlink && m.inode == Inode(f.devmajor, f.devminor, f.ino))
    && m.entry.dataOffset + |f.data| <= |archive|
    && archive[m.entry.dataOffset..m.entry.dataOffset + |f.data|] == f.data
  }

  predicate Lists(ms: seq<Member>, files: seq<File>, archive: seq<byte>) {
    |ms| == |files| && forall k :: 0 <= k < |files| ==> Describes(ms[k], files[k], archive)
  }

  lemma FirstDescribed(odc: bool, f: File, before: seq<byte>, after: seq<byte>)
    requires Writable(odc, f) && Plain(f)
    ensures Describes(MemberOf(f, DataAt(odc, f, |before|)), f, before + (RecordBytes(odc, f) + after))
  {
    NameBack(f);
    KindIs(f.mode);
    hide HeaderBytes, NameBytes, DataPad, NameRead, KindOf, Writable, HeaderSize, IsKind;
    var h, n := HeaderBytes(odc, f), NameBytes(odc, f);
    var archive := before + (RecordBytes(odc, f) + after);
    assert archive == (before + h + n) + f.data + (DataPad(odc, f) + after);
    assert |before + h + n| == DataAt(odc, f, |before|);
  }

  lemma {:induction false} MembersDescribe(odc: bool, files: seq<File>, before: seq<byte>)
    requires AllWritable(odc, files) && AllPlain(files)
    ensures Lists(MembersOf(odc, files, |before|), files, before + Archive(odc, files))
    decreases |files|
  {
    hide RecordBytes, Describes, MemberOf, DataAt, Plain, Writable;
    if files != [] {
      var bytes, rest := RecordBytes(odc, files[0]), files[1..];
      FirstDescribed(odc, files[0], before, Archive(odc, rest));
      MembersDescribe(odc, rest, before + bytes);
      Associates(before, bytes, Archive(odc, rest));
    }
  }

  // ─── Only plain files come back ──────────────────────────────────

  lemma {:induction false} AtMostOneEach(p: Parser, odc: bool, files: seq<File>)
    requires AllWritable(odc, files) && Between(p, odc)
    ensures var r := Run(p, Archive(odc, files)); r.Ok? ==> |r.value.members| <= |p.members| + |files|
    decreases |files|
  {
    hide Run, RecordBytes, Between, MemberOf, DataAt, Archive, Writable, NameRead, HeaderSize, IsSymLink;
    if files == [] {
      TrailerEnds(p, odc);
    } else {
      FirstRecord(p, odc, files);
      StillBetween(p, odc, files[0]);
      var o := Outcome(p, odc, files[0]);
      if o.Ok? && o.value.phase.End? {
        RunEnded(o.value, Archive(odc, files[1..]));
      } else if o.Ok? {
        AtMostOneEach(AfterRecord(p, odc, files[0]), odc, files[1..]);
      }
    }
  }

  /** The members from the `n`-th on are those of the files, name by name. */
  predicate NamesOf(ms: seq<Member>, n: nat, files: seq<File>) {
    |ms| == n + |files| && forall k :: 0 <= k < |files| ==> ms[n + k].entry.path == files[k].path
  }

  lemma WrongName(r: Result<Parser, Error>, n: nat, files: seq<File>, ms: seq<Member>)
    requires files != [] && n < |ms| && ms[n].entry.path != files[0].path
    requires r.Ok? ==> ms <= r.value.members
    ensures r.Ok? ==> !NamesOf(r.value.members, n, files)
  {
    if r.Ok? && |r.value.members| == n + |files| {
      assert r.value.members[n + 0].entry.path != files[0].path;
    }
  }

  lemma FirstLost(p: Parser, odc: bool, files: seq<File>)
    requires files != [] && AllWritable(odc, files) && Between(p, odc) && !Plain(files[0])
    ensures var r := Run(p, Archive(odc, files)); r.Ok? ==> !NamesOf(r.value.members, |p.members|, files)
  {
    hide Run, RecordBytes, Between, DataAt, Archive, Writable, HeaderSize, Plain, NameRead;
    var f, rest := files[0], Archive(odc, files[1..]);
    FirstRecord(p, odc, files);
    PlainOutcome(p, odc, f);
    var o := Outcome(p, odc, f);
    if o.Ok? && o.value.phase.End? {
      RunEnded(o.value, rest);
    } else if o.Ok? {
      MembersGrow(o.value, rest);
      assert o.value.members[|p.members|].entry.path == NameRead(f);
      WrongName(Run(p, Archive(odc, files)), |p.members|, files, o.value.members);
    }
  }

  lemma NamesOfRest(r: Result<Parser, Error>, n: nat, files: seq<File>)
    requires files != []
    ensures r.Ok? && NamesOf(r.value.members, n, files) ==> NamesOf(r.value.members, n + 1, files[1..])
  {
    if r.Ok? && NamesOf(r.value.members, n, files) {
      forall k | 0 <= k < |files[1..]| ensures r.value.members[n + 1 + k].entry.path == files[1..][k].path {
        assert r.value.members[n + (k + 1)].entry.path == files[k + 1].path;
      }
    }
  }

  lemma {:induction false} SomeLost(p: Parser, odc: bool, files: seq<File>)
    requires AllWritable(odc, files) && Between(p, odc) && !AllPlain(files)
    ensures var r := Run(p, Archive(odc, files)); r.Ok? ==> !NamesOf(r.value.members, |p.members|, files)
    decreases |files|
  {
    hide Run, RecordBytes, Outcome, Between, MemberOf, DataAt, Plain, Archive, Writable, NamesOf;
    if !Plain(files[0]) {
      FirstLost(p, odc, files);
    } else {
      FirstRecord(p, odc, files);
      PlainOutcome(p, odc, files[0]);
      StillBetween(p, odc, files[0]);
      SomeLost(AfterRecord(p, odc, files[0]), odc, files[1..]);
      NamesOfRest(Run(p, Archive(odc, files)), |p.members|, files);
    }
  }

  // ─── Writing and reading ─────────────────────────────────────────

  /** The trailer was reached, and the members are the files. */
  predicate ReadsBack(r: Result<Parser, Error>, files: seq<File>, archive: seq<byte>) {
    r.Ok? && r.value.phase.End? && Lists(r.value.members, files, archive)
  }

  lemma ListsNames(ms: seq<Member>, files: seq<File>, archive: seq<byte>)
    requires Lists(ms, files, archive)
    ensures NamesOf(ms, 0, files)
  {
    forall k | 0 <= k < |files| ensures ms[0 + k].entry.path == files[k].path {
      assert Describes(ms[k], files[k], archive);
    }
  }

  /** Exactly the plain files are read back as they were written. */
  lemma ReadsBackExactly(odc: bool, files: seq<File>)
    requires AllWritable(odc, files)
    ensures ReadsBack(Run(FRESH, Archive(odc, files)), files, Archive(odc, files)) <==> AllPlain(files)
    ensures AllPlain(files) ==> Run(FRESH, Archive(odc, files)).value.members == MembersOf(odc, files, 0)
  {
    hide Run, Archive, AllPlain, AllWritable, Lists, NamesOf, Describes;
    var archive := Archive(odc, files);
    var r := Run(FRESH, archive);
    if AllPlain(files) {
      MembersRun(FRESH, odc, files);
      assert [] + MembersOf(odc, files, 0) == MembersOf(odc, files, 0);
      MembersDescribe(odc, files, []);
      assert [] + archive == archive;
    } else {
      SomeLost(FRESH, odc, files);
      if r.Ok? && Lists(r.value.members, files, archive) {
        ListsNames(r.value.members, files, archive);
      }
    }
  }

  /** A file called like the trailer ends the archive: neither it nor anything
      after it is read. */
  lemma TrailerNameEnds(odc: bool, f: File, files: seq<File>)
    requires AllWritable(odc, [f] + files) && f.path == TRAILER_NAME
    ensures Run(FRESH, Archive(odc, [f] + files)).Ok?
    ensures var p := Run(FRESH, Archive(odc, [f] + files)).value; p.phase.End? && p.members == []
  {
    hide Run, Writable, HeaderSize, NameRead, Archive;
    assert ([f] + files)[1..] == files;
    NameBack(f);
    FirstRecord(FRESH, odc, [f] + files);
    RunEnded(Outcome(FRESH, odc, f).value, Archive(odc, files));
  }

  // ─── Without hard links ──────────────────────────────────────────

  function EntriesIn(ms: seq<Member>): (es: seq<Entry>)
    ensures |es| == |ms| && forall k :: 0 <= k < |ms| ==> es[k] == ms[k].entry
  {
    seq(|ms|, k requires 0 <= k < |ms| => ms[k].entry)
  }

  lemma {:induction false} NoneLinked(ms: seq<Member>)
    requires forall k :: 0 <= k < |ms| ==> !Linked(ms[k])
    ensures AfterAll(ms).waiting == [] && Untagged(AfterAll(ms).out) == EntriesIn(ms)
    decreases |ms|
  {
    if ms != [] {
      NoneLinked(ms[..|ms| - 1]);
      assert EntriesIn(ms) == EntriesIn(ms[..|ms| - 1]) + [ms[|ms| - 1].entry];
    }
  }

  predicate Single(f: File) {
    f.nlink <= 1
  }

  lemma {:induction false} SinglesUnlinked(odc: bool, files: seq<File>, pos: nat)
    requires AllWritable(odc, files) && forall k :: 0 <= k < |files| ==> Single(files[k])
    ensures forall k :: 0 <= k < |files| ==> !Linked(MembersOf(odc, files, pos)[k])
    decreases |files|
  {
    hide Writable, RecordBytes, DataAt, NameRead, KindOf;
    if files != [] {
      SinglesUnlinked(odc, files[1..], pos + |RecordBytes(odc, files[0])|);
    }
  }

  /** However it is cut, an archive written of plain files gives its members
      as the policy on hard links makes of them, and one without hard links
      the files themselves, in their order. */
  method RoundTripChunked(odc: bool, files: seq<File>, takes: nat -> nat) returns (r: Result<seq<Entry>, Error>)
    requires AllWritable(odc, files) && forall k :: takes(k) > 0
    ensures AllPlain(files) ==> r == Ok(Untagged(Output(MembersOf(odc, files, 0))))
    ensures AllPlain(files) ==> Lists(MembersOf(odc, files, 0), files, Archive(odc, files))
    ensures AllPlain(files) && (forall k :: 0 <= k < |files| ==> Single(files[k])) ==>
              r == Ok(EntriesIn(MembersOf(odc, files, 0)))
    ensures ReadsBack(Run(FRESH, Archive(odc, files)), files, Archive(odc, files)) <==> AllPlain(files)
  {
    hide Run, Archive, Writable, Lists, Describes, Plain, AfterAll;
    var archive := Archive(odc, files);
    r := ParseChunked(archive, takes);
    ReadsBackExactly(odc, files);
    if AllPlain(files) {
      MembersRun(FRESH, odc, files);
      if forall k :: 0 <= k < |files| ==> Single(files[k]) {
        SinglesUnlinked(odc, files, 0);
        NoneLinked(MembersOf(odc, files, 0));
        ClosedPlain(MembersOf(odc, files, 0));
      }
    }
  }

  lemma ClosedPlain(ms: seq<Member>)
    requires AfterAll(ms).waiting == []
    ensures Output(ms) == AfterAll(ms).out
  {
  }
}
