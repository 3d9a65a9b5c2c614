/**
  Archives as GNU ar lays them out: a symbol table, a table of the names over
  15 bytes if there are any, and the members.
 */
module ArWriting {
  import opened ArParsing
  import opened Bytes
  import opened Digits
  import opened Sequences
  import opened Wrappers

  /** What a header says of a member beside its name and size. */
  datatype Meta = Meta(mtime: nat, uid: nat, gid: nat, mode: nat)

  datatype File = File(path: seq<byte>, data: seq<byte>, meta: Meta)

  predicate Fits(m: Meta) {
    m.mtime < Pow(10, 12) && m.uid < Pow(10, 6) && m.gid < Pow(10, 6) && m.mode < Pow(8, 8)
  }

  function Field(n: nat, radix: nat, width: nat): (f: seq<byte>)
    requires 2 <= radix <= 10 && width >= 1 && n < Pow(radix, width)
    ensures |f| == width
  {
    WrittenFits(n, radix, width);
    Padded(Written(n, radix), width)
  }

  function HeaderBytes(name: seq<byte>, m: Meta, size: nat): (h: seq<byte>)
    requires |name| <= 16 && Fits(m) && size < Pow(10, 10)
    ensures |h| == HEADER_SIZE
  {
    Padded(name, 16) + Field(m.mtime, 10, 12) + Field(m.uid, 10, 6) + Field(m.gid, 10, 6)
    + Field(m.mode, 8, 8) + Field(size, 10, 10) + FMAG
  }

  function PadByte(data: seq<byte>): seq<byte> {
    if |data| % 2 == 1 then [NEWLINE] else []
  }

  function Push(name: seq<byte>, m: Meta, data: seq<byte>): seq<byte>
    requires |name| <= 16 && Fits(m) && |data| < Pow(10, 10)
  {
    HeaderBytes(name, m, |data|) + (data + PadByte(data))
  }

  predicate IsLong(path: seq<byte>) {
    |path| > 15
  }

  /** A file's line in the table of long names. */
  function TableLine(path: seq<byte>): seq<byte> {
    if IsLong(path) then path + [SLASH, NEWLINE] else []
  }

  function Table(files: seq<File>): seq<byte> {
    if files == [] then [] else TableLine(files[0].path) + Table(files[1..])
  }

  predicate Writable(files: seq<File>) {
    forall i :: 0 <= i < |files| ==> |files[i].data| < Pow(10, 10) && Fits(files[i].meta)
  }

  function NameField(path: seq<byte>, offset: nat): (name: seq<byte>)
    requires offset < Pow(10, 10)
    ensures |name| <= 16
  {
    WrittenFits(offset, 10, 10);
    if IsLong(path) then [SLASH] + Written(offset, 10) else path + [SLASH]
  }

  /** The members from one on whose line is at `offset` in the table. */
  function Members(files: seq<File>, offset: nat): seq<byte>
    requires Writable(files) && offset + |Table(files)| < Pow(10, 10)
  {
    if files == [] then [] else
    Push(NameField(files[0].path, offset), files[0].meta, files[0].data)
    + Members(files[1..], offset + |TableLine(files[0].path)|)
  }

  function TableMember(table: seq<byte>, stamp: Meta): seq<byte>
    requires Fits(stamp) && |table| < Pow(10, 10)
  {
    if table == [] then [] else Push([SLASH, SLASH], stamp, table)
  }

  function GnuArchive(files: seq<File>, stamp: Meta): seq<byte>
    requires Writable(files) && Fits(stamp) && |Table(files)| < Pow(10, 10)
  {
    BigEnough();
    AR_MAGIC + (Push([SLASH], stamp, [0, 0, 0, 0]) + (TableMember(Table(files), stamp) + Members(files, 0)))
  }

  /** The layout, in bytes: spaces after a name, a grave accent and a newline
      at the end of its header, a newline after odd data; and a slash at the end
      of a name of up to 15 bytes or of its line in the table. */
  lemma LayoutIs(name: seq<byte>, m: Meta, data: seq<byte>, path: seq<byte>, offset: nat)
    requires |name| <= 16 && Fits(m) && |data| < Pow(10, 10) && offset < Pow(10, 10)
    ensures AR_MAGIC == [0x21, 0x3C, 0x61, 0x72, 0x63, 0x68, 0x3E, 0x0A]
    ensures |Push(name, m, data)| == 60 + |data| + |data| % 2
    ensures Push(name, m, data)[..16] == name + seq(16 - |name|, _ => 0x20)
    ensures Push(name, m, data)[58..60] == [0x60, 0x0A] && Push(name, m, data)[60..60 + |data|] == data
    ensures |data| % 2 == 1 ==> Push(name, m, data)[60 + |data|] == 0x0A
    ensures if |path| > 15 then TableLine(path) == path + [0x2F, 0x0A] && NameField(path, offset)[0] == 0x2F
            else TableLine(path) == [] && NameField(path, offset) == path + [0x2F]
  {
    hide Pow, Field;
    var h := HeaderBytes(name, m, |data|);
    assert h[..16] == Padded(name, 16) == name + seq(16 - |name|, _ => 0x20);
    assert h[58..60] == FMAG;
    assert Push(name, m, data) == h + data + PadByte(data);
  }

  lemma BigEnough()
    ensures 4 < Pow(10, 10) && MAX_NAME_TABLE_SIZE + 2 < Pow(10, 10) <= MAX_U64
    ensures Pow(10, 12) <= MAX_U64 && Pow(10, 6) <= MAX_U64 && Pow(8, 8) <= MAX_U64
  {
    assert Pow(10, 2) == 100;
    assert Pow(10, 4) == 10_000;
    assert Pow(10, 6) == 1_000_000;
    assert Pow(10, 8) == 100_000_000;
    assert Pow(10, 10) == 10_000_000_000;
    assert Pow(8, 2) == 64;
    assert Pow(8, 4) == 0x1000;
    assert Pow(8, 6) == 0x4_0000;
  }

  // ─── Headers parse ───────────────────────────────────────────────

  lemma FieldParses(n: nat, radix: nat, width: nat)
    requires 2 <= radix <= 10 && width >= 1 && n < Pow(radix, width) && n <= MAX_U64
    ensures ParseField(Field(n, radix, width), radix) == Ok(n)
  {
    hide Written, ParseUnsigned, TrimEnd;
    WrittenFits(n, radix, width);
    var s := Written(n, radix);
    assert s[|s| - 1] != SPACE;
    PaddedTrims(s, width);
    WrittenParses(n, radix);
  }

  lemma HeaderSlices(a: seq<byte>, b: seq<byte>, c: seq<byte>, d: seq<byte>, e: seq<byte>, f: seq<byte>, g: seq<byte>)
    requires |a| == 16 && |b| == 12 && |c| == 6 && |d| == 6 && |e| == 8 && |f| == 10 && |g| == 2
    ensures var h := a + b + c + d + e + f + g;
            && h[..16] == a && h[16..28] == b && h[28..34] == c && h[34..40] == d
            && h[40..48] == e && h[48..58] == f && h[58..60] == g
  {
  }

  lemma HeaderParses(name: seq<byte>, m: Meta, size: nat)
    requires |name| <= 16 && Fits(m) && size < Pow(10, 10) && (name == [] || name[|name| - 1] != SPACE)
    ensures ParseHeader(HeaderBytes(name, m, size)) == Ok(Header(name, m.mtime, m.uid, m.gid, m.mode, size))
  {
    hide Pow, Field, ParseField, Padded, TrimEnd;
    BigEnough();
    HeaderSlices(Padded(name, 16), Field(m.mtime, 10, 12), Field(m.uid, 10, 6), Field(m.gid, 10, 6),
                 Field(m.mode, 8, 8), Field(size, 10, 10), FMAG);
    PaddedTrims(name, 16);
    FieldParses(m.mtime, 10, 12);
    FieldParses(m.uid, 10, 6);
    FieldParses(m.gid, 10, 6);
    FieldParses(m.mode, 8, 8);
    FieldParses(size, 10, 10);
  }

  // ─── Names come back ─────────────────────────────────────────────

  /** The paths that survive: a long one is ended by a newline or a NUL, a
      short one must not look like a special name once a slash is added. */
  predicate Plain(path: seq<byte>) {
    if IsLong(path) then NEWLINE !in path && 0 !in path
    else
      && path != [] && path[0] != SLASH
      && !(BSD_PREFIX <= path + [SLASH]) && !(SYMDEF <= path + [SLASH])
  }

  lemma {:induction false} LineOf(s: seq<byte>, t: seq<byte>)
    requires NEWLINE !in s && 0 !in s
    ensures Line(s + [NEWLINE] + t) == s
    decreases |s|
  {
    var all := s + [NEWLINE] + t;
    if s != [] {
      assert all[0] == s[0] && all[1..] == s[1..] + [NEWLINE] + t;
      LineOf(s[1..], t);
    }
  }

  lemma {:induction false} LineStops(s: seq<byte>, t: seq<byte>)
    requires NEWLINE in s || 0 in s
    ensures |Line(s + t)| < |s|
    decreases |s|
  {
    if s[0] != NEWLINE && s[0] != 0 {
      assert (s + t)[0] == s[0] && (s + t)[1..] == s[1..] + t;
      LineStops(s[1..], t);
    }
  }

  /** Exactly the plain paths among the long ones are looked up as written. */
  lemma LongNameBack(table: seq<byte>, offset: nat, path: seq<byte>, rest: seq<byte>)
    requires IsLong(path) && offset <= |table| && table[offset..] == TableLine(path) + rest
    ensures LookupLongName(Some(table), offset) == Ok(path) <==> Plain(path)
  {
    if Plain(path) {
      assert table[offset..] == (path + [SLASH]) + [NEWLINE] + rest;
      LineOf(path + [SLASH], rest);
      assert (path + [SLASH])[..|path|] == path;
    } else {
      assert table[offset..] == path + ([SLASH, NEWLINE] + rest);
      LineStops(path, [SLASH, NEWLINE] + rest);
    }
  }

  lemma {:induction false} FoldedAllDigits(s: seq<byte>, i: nat)
    requires i < |s| && DigitOf(s[i], 10).None?
    ensures Folded(s, 10).None?
    decreases |s|
  {
    if i < |s| - 1 {
      FoldedAllDigits(s[..|s| - 1], i);
    }
  }

  /** Exactly the plain paths among the short ones. */
  lemma ShortNameBack(table: Option<seq<byte>>, path: seq<byte>, size: nat)
    requires !IsLong(path)
    ensures Classify(table, path + [SLASH], size) == Ok(Named(path)) <==> Plain(path)
  {
    var name := path + [SLASH];
    assert StripSlash(name) == path;
    if path == [] {
      assert name[1..] == [];
    } else if path[0] == SLASH {
      var digits := name[1..];
      assert digits[|digits| - 1] == SLASH;
      FoldedAllDigits(digits, |digits| - 1);
    }
  }

  lemma NumberBack(n: nat)
    requires n <= MAX_U64
    ensures ParseNameNumber(Written(n, 10)) == Some(n)
  {
    WrittenFolds(n, 10);
  }

  /** A member's header name names the path, given the table it points into. */
  lemma NameBack(table: Option<seq<byte>>, path: seq<byte>, offset: nat, rest: seq<byte>, size: nat)
    requires Plain(path) && offset < Pow(10, 10)
    requires IsLong(path) ==> table.Some? && offset <= |table.value| && table.value[offset..] == TableLine(path) + rest
    ensures Classify(table, NameField(path, offset), size) == Ok(Named(path))
    ensures NameField(path, offset) != [] && NameField(path, offset)[|NameField(path, offset)| - 1] != SPACE
  {
    if IsLong(path) {
      hide Plain, LookupLongName;
      BigEnough();
      hide Pow;
      var name := NameField(path, offset);
      assert name[1..] == Written(offset, 10);
      assert name != [SLASH, SLASH];
      NumberBack(offset);
      LongNameBack(table.value, offset, path, rest);
    } else {
      ShortNameBack(table, path, size);
    }
  }

  // ─── Members parse ───────────────────────────────────────────────

  /** A parser between members. */
  predicate Between(p: Parser) {
    p.state.ReadingHeader? && p.headerBuf == []
  }

  lemma SkipsData(p: Parser, data: seq<byte>)
    requires p.state == Skipping(|data|, |data| % 2) && p.headerBuf == []
    ensures Run(p, data + PadByte(data)) == Ok(p.(state := ReadingHeader, pos := p.pos + |data + PadByte(data)|))
  {
    hide Run;
    var all := data + PadByte(data);
    assert |all| == |data| + |data| % 2;
    if all == [] {
      RunNothing(p);
    } else {
      SkipSkips(p, all);
    }
  }

  lemma HeaderRun(p: Parser, name: seq<byte>, m: Meta, size: nat)
    requires Between(p) && |name| <= 16 && Fits(m) && size < Pow(10, 10)
    ensures Run(p, HeaderBytes(name, m, size)) == OnHeader(p.(pos := p.pos + HEADER_SIZE), HeaderBytes(name, m, size))
  {
    hide Run, OnHeader, HeaderBytes;
    HeaderFull(p, HeaderBytes(name, m, size));
    assert [] + HeaderBytes(name, m, size) == HeaderBytes(name, m, size);
  }

  function EntryOf(f: File, pos: nat): Entry {
    Entry(f.path, |f.data|, f.meta.mode % 0x1000, f.meta.uid, f.meta.gid, f.meta.mtime, pos + HEADER_SIZE)
  }

  lemma MemberRun(p: Parser, name: seq<byte>, f: File)
    requires Between(p) && 0 < |name| <= 16 && name[|name| - 1] != SPACE && Fits(f.meta) && |f.data| < Pow(10, 10)
    requires Classify(p.table, name, |f.data|) == Ok(Named(f.path))
    ensures Run(p, Push(name, f.meta, f.data))
         == Ok(p.(pos := p.pos + |Push(name, f.meta, f.data)|, entries := p.entries + [EntryOf(f, p.pos)]))
  {
    hide Run, ParseHeader, Classify, HeaderBytes, PadByte, Pow, Fits;
    var h := HeaderBytes(name, f.meta, |f.data|);
    HeaderRun(p, name, f.meta, |f.data|);
    HeaderParses(name, f.meta, |f.data|);
    RunSplit(p, h, f.data + PadByte(f.data));
    var q := p.(pos := p.pos + HEADER_SIZE, state := Skipping(|f.data|, |f.data| % 2),
                entries := p.entries + [EntryOf(f, p.pos)]);
    SkipsData(q, f.data);
  }

  /** A member cut off after its first `k` bytes: the archive is complete before
      it, and again when nothing is missing but a pad byte. */
  lemma CutMember(p: Parser, name: seq<byte>, f: File, k: nat)
    requires Between(p) && 0 < |name| <= 16 && name[|name| - 1] != SPACE && Fits(f.meta) && |f.data| < Pow(10, 10)
    requires Classify(p.table, name, |f.data|) == Ok(Named(f.path)) && k <= |Push(name, f.meta, f.data)|
    ensures var r := Run(p, Push(name, f.meta, f.data)[..k]);
            r.Ok? && (Complete(r.value) <==> k == 0 || k >= 60 + |f.data|)
  {
    hide Run, ParseHeader, Classify, HeaderBytes, Pow, Fits;
    var h := HeaderBytes(name, f.meta, |f.data|);
    var all := f.data + PadByte(f.data);
    if k < 60 {
      assert Push(name, f.meta, f.data)[..k] == h[..k];
      HeaderFills(p, h[..k]);
    } else {
      HeaderRun(p, name, f.meta, |f.data|);
      HeaderParses(name, f.meta, |f.data|);
      var q := p.(pos := p.pos + HEADER_SIZE, state := Skipping(|f.data|, |f.data| % 2),
                  entries := p.entries + [EntryOf(f, p.pos)]);
      assert Push(name, f.meta, f.data)[..k] == h + all[..k - 60];
      RunSplit(p, h, all[..k - 60]);
      if k == 60 {
        RunNothing(q);
      } else {
        SkipSkips(q, all[..k - 60]);
      }
    }
  }

  lemma SlashIsSkipped(table: Option<seq<byte>>, size: nat)
    ensures Classify(table, [SLASH], size) == Ok(Skip)
  {
    assert [SLASH][1..] == [];
  }

  lemma SkippedHeader(p: Parser, name: seq<byte>, m: Meta, size: nat)
    requires Between(p) && 0 < |name| <= 16 && name[|name| - 1] != SPACE && Fits(m) && size < Pow(10, 10)
    requires Classify(p.table, name, size) == Ok(Skip)
    ensures Run(p, HeaderBytes(name, m, size)) == Ok(p.(pos := p.pos + HEADER_SIZE, state := Skipping(size, size % 2)))
  {
    hide Run, ParseHeader, Classify, HeaderBytes, Pow, Fits;
    HeaderRun(p, name, m, size);
    HeaderParses(name, m, size);
  }

  lemma SkippedRun(p: Parser, name: seq<byte>, m: Meta, data: seq<byte>)
    requires Between(p) && 0 < |name| <= 16 && name[|name| - 1] != SPACE && Fits(m) && |data| < Pow(10, 10)
    requires Classify(p.table, name, |data|) == Ok(Skip)
    ensures Run(p, Push(name, m, data)) == Ok(p.(pos := p.pos + |Push(name, m, data)|))
  {
    hide Run, Classify, HeaderBytes, PadByte, Pow, Fits;
    var h := HeaderBytes(name, m, |data|);
    SkippedHeader(p, name, m, |data|);
    RunSplit(p, h, data + PadByte(data));
    SkipsData(p.(pos := p.pos + HEADER_SIZE, state := Skipping(|data|, |data| % 2)), data);
  }

  lemma NameTableHeader(p: Parser, m: Meta, table: seq<byte>)
    requires Between(p) && Fits(m) && |table| < Pow(10, 10)
    ensures Run(p, HeaderBytes([SLASH, SLASH], m, |table|))
         == if |table| > MAX_NAME_TABLE_SIZE then Err(InvalidArHeader)
            else Ok(p.(pos := p.pos + HEADER_SIZE, state := ReadingNameTable(|table|, |table| % 2, [])))
  {
    assert Classify(p.table, [SLASH, SLASH], |table|) == Ok(NameTable);
    hide Run, ParseHeader, Classify, HeaderBytes, Pow, Fits;
    HeaderRun(p, [SLASH, SLASH], m, |table|);
    HeaderParses([SLASH, SLASH], m, |table|);
  }

  /** The table is kept; one over 64 MiB is refused. */
  lemma NameTableRun(p: Parser, m: Meta, table: seq<byte>)
    requires Between(p) && Fits(m) && 0 < |table| < Pow(10, 10)
    ensures Run(p, Push([SLASH, SLASH], m, table))
         == if |table| > MAX_NAME_TABLE_SIZE then Err(InvalidArHeader)
            else Ok(p.(pos := p.pos + |Push([SLASH, SLASH], m, table)|, table := Some(table)))
  {
    hide Run, HeaderBytes, Pow, Fits;
    var h := HeaderBytes([SLASH, SLASH], m, |table|);
    NameTableHeader(p, m, table);
    RunSplit(p, h, table + PadByte(table));
    if |table| <= MAX_NAME_TABLE_SIZE {
      var q := p.(pos := p.pos + HEADER_SIZE, state := ReadingNameTable(|table|, |table| % 2, []));
      RunSplit(q, table, PadByte(table));
      TableFills(q, table);
      assert [] + table == table;
      var done := OnTable(q.(pos := q.pos + |table|), |table| % 2, table);
      if |table| % 2 == 1 {
        SkipSkips(done, PadByte(table));
      } else {
        RunNothing(done);
      }
    }
  }

  // ─── Archives parse ──────────────────────────────────────────────

  /** The entries of members laid out from `pos` on. */
  function EntriesOf(files: seq<File>, pos: nat, offset: nat): seq<Entry>
    requires Writable(files) && offset + |Table(files)| < Pow(10, 10)
  {
    if files == [] then [] else
    var n := |Push(NameField(files[0].path, offset), files[0].meta, files[0].data)|;
    [EntryOf(files[0], pos)] + EntriesOf(files[1..], pos + n, offset + |TableLine(files[0].path)|)
  }

  predicate AllPlain(files: seq<File>) {
    forall i :: 0 <= i < |files| ==> Plain(files[i].path)
  }

  /** What is left of the table is about what is left of the members. */
  predicate Covers(p: Parser, files: seq<File>, offset: nat) {
    Table(files) != [] ==> p.table.Some? && offset <= |p.table.value| && p.table.value[offset..] == Table(files)
  }

  lemma CoversRest(p: Parser, files: seq<File>, offset: nat)
    requires files != [] && Covers(p, files, offset)
    ensures Covers(p, files[1..], offset + |TableLine(files[0].path)|)
    ensures IsLong(files[0].path) ==>
              p.table.Some? && offset <= |p.table.value|
              && p.table.value[offset..] == TableLine(files[0].path) + Table(files[1..])
  {
    var line := TableLine(files[0].path);
    if Table(files) != [] {
      DropDrop(p.table.value, offset, |line|);
      assert Table(files)[|line|..] == Table(files[1..]);
    }
  }

  /** The parser after the first of the members. */
  function AfterFirst(p: Parser, files: seq<File>, offset: nat): Parser
    requires files != [] && Writable(files) && offset + |Table(files)| < Pow(10, 10)
  {
    p.(pos := p.pos + |Push(NameField(files[0].path, offset), files[0].meta, files[0].data)|,
       entries := p.entries + [EntryOf(files[0], p.pos)])
  }

  lemma FirstName(p: Parser, files: seq<File>, offset: nat)
    requires files != [] && Plain(files[0].path) && offset < Pow(10, 10) && Covers(p, files, offset)
    ensures var name := NameField(files[0].path, offset);
            && name != [] && name[|name| - 1] != SPACE
            && Classify(p.table, name, |files[0].data|) == Ok(Named(files[0].path))
  {
    hide Covers, Plain, Pow, NameField, Classify, Table;
    CoversRest(p, files, offset);
    NameBack(p.table, files[0].path, offset, Table(files[1..]), |files[0].data|);
  }

  lemma FirstRun(p: Parser, files: seq<File>, offset: nat)
    requires files != [] && Between(p) && Writable(files) && offset + |Table(files)| < Pow(10, 10)
    requires Covers(p, files, offset) && Plain(files[0].path)
    ensures Run(p, Push(NameField(files[0].path, offset), files[0].meta, files[0].data))
        == Ok(AfterFirst(p, files, offset))
  {
    hide Run, Covers, Plain, Fits, Pow, NameField, Push, Classify, EntryOf, Table;
    FirstName(p, files, offset);
    MemberRun(p, NameField(files[0].path, offset), files[0]);
  }

  /** Past the first member, the same holds of the rest. */
  lemma FirstPasses(p: Parser, files: seq<File>, offset: nat)
    requires files != [] && Between(p) && Writable(files) && offset + |Table(files)| < Pow(10, 10)
    requires Covers(p, files, offset) && Plain(files[0].path)
    ensures var rest, next, q := files[1..], offset + |TableLine(files[0].path)|, AfterFirst(p, files, offset);
            && Between(q) && Writable(rest) && next + |Table(rest)| < Pow(10, 10) && Covers(q, rest, next)
            && Run(p, Members(files, offset)) == Run(q, Members(rest, next))
  {
    hide Run, Covers, Plain, Fits, Pow, NameField, Push, EntryOf;
    var rest, next := files[1..], offset + |TableLine(files[0].path)|;
    FirstRun(p, files, offset);
    CoversRest(p, files, offset);
    SameTable(p, AfterFirst(p, files, offset), rest, next);
    RunSplit(p, Push(NameField(files[0].path, offset), files[0].meta, files[0].data), Members(rest, next));
  }

  lemma {:induction false} MembersRun(p: Parser, files: seq<File>, offset: nat)
    requires Between(p) && Writable(files) && AllPlain(files) && offset + |Table(files)| < Pow(10, 10)
    requires Covers(p, files, offset)
    ensures Run(p, Members(files, offset))
         == Ok(p.(pos := p.pos + |Members(files, offset)|, entries := p.entries + EntriesOf(files, p.pos, offset)))
    decreases |files|
  {
    hide Run, Covers, Plain, Fits, Pow, NameField, Push, EntryOf, Table;
    if files == [] {
      RunNothing(p);
      assert p.entries + [] == p.entries;
    } else {
      var rest, next := files[1..], offset + |TableLine(files[0].path)|;
      var q := AfterFirst(p, files, offset);
      FirstPasses(p, files, offset);
      MembersRun(q, rest, next);
      Associates(p.entries, [EntryOf(files[0], p.pos)], EntriesOf(rest, q.pos, next));
    }
  }

  lemma SameTable(p: Parser, q: Parser, files: seq<File>, offset: nat)
    requires q.table == p.table && Covers(p, files, offset)
    ensures Covers(q, files, offset)
  {
  }

  lemma MagicRun()
    ensures Run(FRESH, AR_MAGIC) == Ok(FRESH.(state := ReadingHeader, pos := |AR_MAGIC|))
  {
    hide Run;
    MagicFull(FRESH, AR_MAGIC);
    assert [] + AR_MAGIC == AR_MAGIC;
  }

  /** What comes before the members. */
  function Front(table: seq<byte>, stamp: Meta): seq<byte>
    requires Fits(stamp) && |table| < Pow(10, 10)
  {
    BigEnough();
    AR_MAGIC + Push([SLASH], stamp, [0, 0, 0, 0]) + TableMember(table, stamp)
  }

  lemma FrontRun(table: seq<byte>, stamp: Meta)
    requires Fits(stamp) && |table| < Pow(10, 10)
    ensures Run(FRESH, Front(table, stamp))
         == if |table| > MAX_NAME_TABLE_SIZE then Err(InvalidArHeader)
            else Ok(FRESH.(state := ReadingHeader, pos := |Front(table, stamp)|,
                                   table := if table == [] then None else Some(table)))
  {
    hide Run, Push, Pow, Fits;
    BigEnough();
    var symbols := Push([SLASH], stamp, [0, 0, 0, 0]);
    var p := FRESH.(state := ReadingHeader, pos := |AR_MAGIC|);
    var q := p.(pos := p.pos + |symbols|);
    MagicRun();
    SlashIsSkipped(p.table, 4);
    SkippedRun(p, [SLASH], stamp, [0, 0, 0, 0]);
    RunSplit(FRESH, AR_MAGIC, symbols);
    RunSplit(FRESH, AR_MAGIC + symbols, TableMember(table, stamp));
    if table != [] {
      NameTableRun(q, stamp, table);
    } else {
      RunNothing(q);
    }
  }

  /** Parsing what was written: with plain paths, everything comes back unless
      the table of long names is over the parser's limit. */
  lemma ArchiveParses(files: seq<File>, stamp: Meta)
    requires Writable(files) && AllPlain(files) && Fits(stamp) && |Table(files)| < Pow(10, 10)
    ensures var table, archive := Table(files), GnuArchive(files, stamp);
            Run(FRESH, archive)
            == if |table| > MAX_NAME_TABLE_SIZE then Err(InvalidArHeader)
               else Ok(Parser(ReadingHeader, [], |archive|, if table == [] then None else Some(table),
                              EntriesOf(files, |Front(table, stamp)|, 0)))
  {
    hide Run, Push, Pow, Fits, Writable, AllPlain, EntriesOf, Members, TableMember, Table;
    BigEnough();
    var table := Table(files);
    var front, members := Front(table, stamp), Members(files, 0);
    assert GnuArchive(files, stamp) == front + members;
    FrontRun(table, stamp);
    RunSplit(FRESH, front, members);
    if |table| <= MAX_NAME_TABLE_SIZE {
      var p := FRESH.(state := ReadingHeader, pos := |front|, table := if table == [] then None else Some(table));
      assert table[0..] == table;
      MembersRun(p, files, 0);
      assert [] + EntriesOf(files, |front|, 0) == EntriesOf(files, |front|, 0);
    }
  }

  // ─── Entries describe the members ────────────────────────────────

  predicate Describes(e: Entry, f: File, archive: seq<byte>) {
    && e.path == f.path && e.size == |f.data|
    && e.mode == f.meta.mode % 0x1000 && e.uid == f.meta.uid && e.gid == f.meta.gid && e.mtime == f.meta.mtime
    && e.dataOffset + e.size <= |archive| && archive[e.dataOffset..e.dataOffset + e.size] == f.data
  }

  predicate Lists(entries: seq<Entry>, files: seq<File>, archive: seq<byte>) {
    |entries| == |files| && forall k :: 0 <= k < |files| ==> Describes(entries[k], files[k], archive)
  }

  lemma FirstDescribed(f: File, name: seq<byte>, before: seq<byte>, after: seq<byte>)
    requires |name| <= 16 && Fits(f.meta) && |f.data| < Pow(10, 10)
    ensures Describes(EntryOf(f, |before|), f, before + (Push(name, f.meta, f.data) + after))
  {
    hide HeaderBytes, Pow, Fits;
    var h := HeaderBytes(name, f.meta, |f.data|);
    var archive := before + (Push(name, f.meta, f.data) + after);
    assert archive == (before + h) + f.data + (PadByte(f.data) + after);
  }

  lemma {:induction false} EntriesDescribe(files: seq<File>, before: seq<byte>, offset: nat)
    requires Writable(files) && offset + |Table(files)| < Pow(10, 10)
    ensures Lists(EntriesOf(files, |before|, offset), files, before + Members(files, offset))
    decreases |files|
  {
    hide Push, Pow, Fits, NameField, Describes, EntryOf;
    if files != [] {
      var f, rest, next := files[0], files[1..], offset + |TableLine(files[0].path)|;
      var bytes := Push(NameField(f.path, offset), f.meta, f.data);
      FirstDescribed(f, NameField(f.path, offset), before, Members(rest, next));
      EntriesDescribe(rest, before + bytes, next);
      Associates(before, bytes, Members(rest, next));
    }
  }

  // ─── Only plain paths come back ──────────────────────────────────

  lemma NameShape(path: seq<byte>, offset: nat)
    requires offset < Pow(10, 10)
    ensures var name := NameField(path, offset);
            && name != [] && name[|name| - 1] != SPACE && (BSD_PREFIX <= name ==> name[|name| - 1] == SLASH)
  {
    hide Pow, Written;
    var name := NameField(path, offset);
    if IsLong(path) {
      var digits := Written(offset, 10);
      assert name == [SLASH] + digits && name[|name| - 1] == digits[|digits| - 1];
      assert name[0] == SLASH;
    } else {
      assert name[|name| - 1] == SLASH;
    }
  }

  /** A name that ends with a slash does not give the length of a BSD name. */
  lemma NoBsdName(table: Option<seq<byte>>, name: seq<byte>, size: nat)
    requires name != [] && (BSD_PREFIX <= name ==> name[|name| - 1] == SLASH)
    ensures Classify(table, name, size).Ok? ==> !Classify(table, name, size).value.BsdName?
  {
    if BSD_PREFIX <= name && |name| > 3 {
      FoldedAllDigits(name[3..], |name| - 4);
    }
  }

  /** A header that is refused ends the run. */
  lemma RefusedRun(p: Parser, name: seq<byte>, m: Meta, data: seq<byte>, rest: seq<byte>)
    requires Between(p) && 0 < |name| <= 16 && name[|name| - 1] != SPACE && Fits(m) && |data| < Pow(10, 10)
    requires Classify(p.table, name, |data|).Err?
    ensures Run(p, Push(name, m, data) + rest).Err?
  {
    hide Run, ParseHeader, Classify, HeaderBytes, PadByte, Pow, Fits;
    var h := HeaderBytes(name, m, |data|);
    HeaderRun(p, name, m, |data|);
    HeaderParses(name, m, |data|);
    RunSplit(p, h, data + PadByte(data) + rest);
    assert Push(name, m, data) + rest == h + (data + PadByte(data) + rest);
  }

  lemma EmptyTableRun(p: Parser, m: Meta, rest: seq<byte>)
    requires Between(p) && Fits(m)
    ensures 0 < Pow(10, 10)
    ensures var q := p.(pos := p.pos + HEADER_SIZE, table := Some([]));
            var r := Run(p, Push([SLASH, SLASH], m, []) + rest);
            if rest == [] then r.Ok? && r.value.entries == p.entries else r == Run(q, rest)
  {
    BigEnough();
    hide Run, HeaderBytes, Pow, Fits;
    var h := HeaderBytes([SLASH, SLASH], m, 0);
    assert Push([SLASH, SLASH], m, []) + rest == h + rest;
    NameTableHeader(p, m, []);
    RunSplit(p, h, rest);
    var open := p.(pos := p.pos + HEADER_SIZE, state := ReadingNameTable(0, 0, []));
    if rest == [] {
      RunNothing(open);
    } else {
      SettledRun(open, rest);
      assert OnTable(open, 0, []) == p.(pos := p.pos + HEADER_SIZE, table := Some([]));
    }
  }

  lemma TablePasses(p: Parser, m: Meta, data: seq<byte>, rest: seq<byte>) returns (q: Parser)
    requires Between(p) && Fits(m) && |data| < Pow(10, 10)
    ensures Between(q) && q.entries == p.entries
    ensures var r := Run(p, Push([SLASH, SLASH], m, data) + rest);
            r.Ok? ==> r == Run(q, rest) || (rest == [] && r.value.entries == q.entries)
  {
    hide Run, Pow, Fits, Push;
    if data == [] {
      EmptyTableRun(p, m, rest);
      q := p.(pos := p.pos + HEADER_SIZE, table := Some([]));
    } else {
      var bytes := Push([SLASH, SLASH], m, data);
      NameTableRun(p, m, data);
      q := p.(pos := p.pos + |bytes|, table := Some(data));
      RunSplit(p, bytes, rest);
    }
  }

  /** What a member does whatever its name: it is refused, or the parser stands
      behind it with an entry more if the name said it is a member of a path. */
  lemma MemberPasses(p: Parser, name: seq<byte>, f: File, rest: seq<byte>) returns (q: Parser)
    requires Between(p) && 0 < |name| <= 16 && name[|name| - 1] != SPACE && Fits(f.meta) && |f.data| < Pow(10, 10)
    requires BSD_PREFIX <= name ==> name[|name| - 1] == SLASH
    ensures Between(q)
    ensures match Classify(p.table, name, |f.data|)
            case Ok(Named(path)) => q.entries == p.entries + [EntryOf(f.(path := path), p.pos)]
            case _ => q.entries == p.entries
    ensures var r := Run(p, Push(name, f.meta, f.data) + rest);
            r.Ok? ==> r == Run(q, rest) || (rest == [] && r.value.entries == q.entries)
  {
    NoBsdName(p.table, name, |f.data|);
    var c := Classify(p.table, name, |f.data|);
    assert c == Ok(NameTable) ==> name == [SLASH, SLASH];
    hide Run, Classify, HeaderBytes, PadByte, Pow, Fits, Push, EntryOf;
    var bytes := Push(name, f.meta, f.data);
    q := p;
    match c {
      case Err(_) =>
        RefusedRun(p, name, f.meta, f.data, rest);
      case Ok(Named(path)) =>
        var g := f.(path := path);
        MemberRun(p, name, g);
        q := p.(pos := p.pos + |bytes|, entries := p.entries + [EntryOf(g, p.pos)]);
        RunSplit(p, bytes, rest);
      case Ok(Skip) =>
        SkippedRun(p, name, f.meta, f.data);
        q := p.(pos := p.pos + |bytes|);
        RunSplit(p, bytes, rest);
      case Ok(NameTable) =>
        q := TablePasses(p, f.meta, f.data, rest);
      case Ok(BsdName(_)) =>
    }
  }

  lemma {:induction false} AtMostOneEach(p: Parser, files: seq<File>, offset: nat)
    requires Between(p) && Writable(files) && offset + |Table(files)| < Pow(10, 10)
    ensures var r := Run(p, Members(files, offset)); r.Ok? ==> |r.value.entries| <= |p.entries| + |files|
    decreases |files|
  {
    hide Run, Classify, Fits, Pow, NameField, Push, EntryOf;
    if files == [] {
      RunNothing(p);
    } else {
      var f, rest, next := files[0], files[1..], offset + |TableLine(files[0].path)|;
      NameShape(f.path, offset);
      var q := MemberPasses(p, NameField(f.path, offset), f, Members(rest, next));
      AtMostOneEach(q, rest, next);
    }
  }

  /** The entries from the `n`-th on are those of the files, name by name. */
  predicate NamesOf(entries: seq<Entry>, n: nat, files: seq<File>) {
    |entries| == n + |files| && forall k :: 0 <= k < |files| ==> entries[n + k].path == files[k].path
  }

  /** A path that is not plain is not what the parser makes of it. */
  lemma NameLost(p: Parser, files: seq<File>, offset: nat)
    requires files != [] && !Plain(files[0].path) && offset < Pow(10, 10) && Covers(p, files, offset)
    ensures Classify(p.table, NameField(files[0].path, offset), |files[0].data|) != Ok(Named(files[0].path))
  {
    var path := files[0].path;
    if IsLong(path) {
      hide Covers, LookupLongName, Table;
      CoversRest(p, files, offset);
      LongNameBack(p.table.value, offset, path, Table(files[1..]));
      BigEnough();
      hide Plain, Pow;
      var name := NameField(path, offset);
      assert name[1..] == Written(offset, 10);
      assert name != [SLASH, SLASH];
      NumberBack(offset);
    } else {
      ShortNameBack(p.table, path, |files[0].data|);
    }
  }

  lemma WrongName(r: Result<Parser, Error>, n: nat, files: seq<File>, entries: seq<Entry>)
    requires files != [] && n < |entries| && entries[n].path != files[0].path
    requires r.Ok? ==> entries <= r.value.entries
    ensures r.Ok? ==> !NamesOf(r.value.entries, n, files)
  {
    if r.Ok? && |r.value.entries| == n + |files| {
      assert r.value.entries[n + 0].path != files[0].path;
    }
  }

  lemma FirstLost(p: Parser, files: seq<File>, offset: nat)
    requires files != [] && Between(p) && Writable(files) && offset + |Table(files)| < Pow(10, 10)
    requires Covers(p, files, offset) && !Plain(files[0].path)
    ensures var r := Run(p, Members(files, offset)); r.Ok? ==> !NamesOf(r.value.entries, |p.entries|, files)
  {
    hide Run, Covers, Plain, Classify, Fits, Pow, NameField, Push;
    var f, rest, next := files[0], files[1..], offset + |TableLine(files[0].path)|;
    NameShape(f.path, offset);
    NameLost(p, files, offset);
    var q := MemberPasses(p, NameField(f.path, offset), f, Members(rest, next));
    AtMostOneEach(q, rest, next);
    EntriesGrow(q, Members(rest, next));
    match Classify(p.table, NameField(f.path, offset), |f.data|) {
      case Ok(Named(path)) =>
        assert q.entries[|p.entries|].path == path;
        WrongName(Run(p, Members(files, offset)), |p.entries|, files, q.entries);
      case _ =>
    }
  }

  lemma NamesOfRest(r: Result<Parser, Error>, n: nat, files: seq<File>)
    requires files != []
    ensures r.Ok? && NamesOf(r.value.entries, n, files) ==> NamesOf(r.value.entries, n + 1, files[1..])
  {
    if r.Ok? && NamesOf(r.value.entries, n, files) {
      forall k | 0 <= k < |files[1..]| ensures r.value.entries[n + 1 + k].path == files[1..][k].path {
        assert r.value.entries[n + (k + 1)].path == files[k + 1].path;
      }
    }
  }

  lemma {:induction false} SomeLost(p: Parser, files: seq<File>, offset: nat)
    requires Between(p) && Writable(files) && !AllPlain(files) && offset + |Table(files)| < Pow(10, 10)
    requires Covers(p, files, offset)
    ensures var r := Run(p, Members(files, offset)); r.Ok? ==> !NamesOf(r.value.entries, |p.entries|, files)
    decreases |files|
  {
    hide Run, Covers, Plain, Fits, Pow, NameField, Push, EntryOf, Table, Members, NamesOf;
    if !Plain(files[0].path) {
      FirstLost(p, files, offset);
    } else {
      FirstPasses(p, files, offset);
      SomeLost(AfterFirst(p, files, offset), files[1..], offset + |TableLine(files[0].path)|);
      NamesOfRest(Run(p, Members(files, offset)), |p.entries|, files);
    }
  }

  /** Everything is back: all names, sizes and times, and where the data is. */
  predicate ReadsBack(r: Result<Parser, Error>, files: seq<File>, archive: seq<byte>) {
    r.Ok? && Complete(r.value) && Lists(r.value.entries, files, archive)
  }

  lemma PlainComesBack(files: seq<File>, stamp: Meta)
    requires Writable(files) && AllPlain(files) && Fits(stamp) && |Table(files)| <= MAX_NAME_TABLE_SIZE
    ensures MAX_NAME_TABLE_SIZE < Pow(10, 10)
    ensures ReadsBack(Run(FRESH, GnuArchive(files, stamp)), files, GnuArchive(files, stamp))
  {
    hide Run, Push, Pow, Fits, Writable, AllPlain, EntriesOf, Members, TableMember, Table, Lists;
    BigEnough();
    ArchiveParses(files, stamp);
    var front := Front(Table(files), stamp);
    assert GnuArchive(files, stamp) == front + Members(files, 0);
    EntriesDescribe(files, front, 0);
  }

  lemma ListsNames(entries: seq<Entry>, files: seq<File>, archive: seq<byte>)
    requires Lists(entries, files, archive)
    ensures NamesOf(entries, 0, files)
  {
    forall k | 0 <= k < |files| ensures entries[0 + k].path == files[k].path {
      assert Describes(entries[k], files[k], archive);
    }
  }

  lemma OthersAreLost(files: seq<File>, stamp: Meta)
    requires Writable(files) && Fits(stamp) && |Table(files)| < Pow(10, 10)
    requires !AllPlain(files) || |Table(files)| > MAX_NAME_TABLE_SIZE
    ensures !ReadsBack(Run(FRESH, GnuArchive(files, stamp)), files, GnuArchive(files, stamp))
  {
    hide Run, Push, Pow, Fits, Writable, AllPlain, Members, TableMember, Table, Lists, NamesOf;
    BigEnough();
    var table := Table(files);
    var front, archive := Front(table, stamp), GnuArchive(files, stamp);
    assert archive == front + Members(files, 0);
    FrontRun(table, stamp);
    RunSplit(FRESH, front, Members(files, 0));
    if |table| <= MAX_NAME_TABLE_SIZE {
      var p := FRESH.(state := ReadingHeader, pos := |front|, table := if table == [] then None else Some(table));
      assert table[0..] == table;
      SomeLost(p, files, 0);
      var r := Run(FRESH, archive);
      assert r.Ok? ==> !NamesOf(r.value.entries, 0, files);
      if r.Ok? && Lists(r.value.entries, files, archive) {
        ListsNames(r.value.entries, files, archive);
      }
    }
  }

  /** A file called `#1` is refused, whatever it holds: with a slash after it,
      its name announces a BSD name without a length. */
  lemma HashOneIsRefused(table: Option<seq<byte>>, size: nat)
    ensures var path := [0x23, 0x31]; !Plain(path) && Classify(table, path + [SLASH], size) == Err(InvalidArHeader)
  {
    assert [0x23, 0x31] + [SLASH] == BSD_PREFIX;
    assert BSD_PREFIX[3..] == [];
  }

  /** One file with a path of 64 MiB: its name table, with the slash and the
      newline after the path, is over what the parser takes. */
  lemma LongPathIsRefused(stamp: Meta)
    requires Fits(stamp)
    ensures var files := [File(seq(MAX_NAME_TABLE_SIZE, _ => 0x61), [], stamp)];
            && Writable(files) && AllPlain(files) && |Table(files)| < Pow(10, 10)
            && Run(FRESH, GnuArchive(files, stamp)) == Err(InvalidArHeader)
  {
    hide Run, Push, Pow, Fits, EntriesOf, Members, TableMember;
    BigEnough();
    var files := [File(seq(MAX_NAME_TABLE_SIZE, _ => 0x61), [], stamp)];
    assert Table(files[1..]) == [];
    assert |Table(files)| == MAX_NAME_TABLE_SIZE + 2;
    ArchiveParses(files, stamp);
  }

  /** The writer and the parser are inverse for exactly the archives whose
      paths are plain and whose long names fit, however the archive is cut. */
  method RoundTripChunked(files: seq<File>, stamp: Meta, takes: nat -> nat) returns (r: Result<Parser, Error>)
    requires Writable(files) && Fits(stamp) && |Table(files)| < Pow(10, 10)
    requires forall k :: takes(k) > 0
    ensures ReadsBack(r, files, GnuArchive(files, stamp)) <==>
              AllPlain(files) && |Table(files)| <= 0x400_0000
  {
    hide Run, Push, Pow, Fits, Writable, AllPlain, Members, TableMember, Table, ReadsBack;
    var archive := GnuArchive(files, stamp);
    r := ParseChunked(archive, takes);
    if AllPlain(files) && |Table(files)| <= MAX_NAME_TABLE_SIZE {
      PlainComesBack(files, stamp);
    } else {
      OthersAreLost(files, stamp);
    }
  }
}
