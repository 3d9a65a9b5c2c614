/**
  Archives as BSD and Apple ar lay them out: a header announces how many bytes
  of the member are its name, padded with NULs, and the data comes after them.
 */
module ArBsdWriting {
  import opened ArParsing
  import opened ArWriting
  import opened Bytes
  import opened Digits
  import opened Sequences
  import opened Wrappers

  /** A file and the NULs put after its name. */
  datatype Inline = Inline(file: File, nulls: nat)

  function NameArea(f: Inline): seq<byte> {
    f.file.path + Zeros(f.nulls)
  }

  function Body(f: Inline): seq<byte> {
    NameArea(f) + f.file.data
  }

  predicate RecordFits(f: Inline) {
    |Body(f)| < Pow(10, 10) && Fits(f.file.meta)
  }

  predicate AllFit(fs: seq<Inline>) {
    forall i :: 0 <= i < |fs| ==> RecordFits(fs[i])
  }

  /** `#1/` and a length. */
  function Announced(len: nat): (name: seq<byte>)
    requires len < Pow(10, 10)
    ensures |name| <= 16
  {
    WrittenFits(len, 10, 10);
    BSD_PREFIX + Written(len, 10)
  }

  function Record(f: Inline): seq<byte>
    requires RecordFits(f)
  {
    Push(Announced(|NameArea(f)|), f.file.meta, Body(f))
  }

  function Records(fs: seq<Inline>): seq<byte>
    requires AllFit(fs)
  {
    if fs == [] then [] else Record(fs[0]) + Records(fs[1..])
  }

  /** `__.SYMDEF SORTED`. */
  function SymbolTable(symbols: seq<byte>, stamp: Meta): Inline {
    Inline(File(SYMDEF + [0x20, 0x53, 0x4F, 0x52, 0x54, 0x45, 0x44], symbols, stamp), 4)
  }

  function BsdArchive(fs: seq<Inline>, symbols: seq<byte>, stamp: Meta): seq<byte>
    requires AllFit(fs) && RecordFits(SymbolTable(symbols, stamp))
  {
    AR_MAGIC + (Record(SymbolTable(symbols, stamp)) + Records(fs))
  }

  /** The layout, in bytes. */
  lemma LayoutIs(f: Inline)
    requires RecordFits(f)
    ensures AR_MAGIC == [0x21, 0x3C, 0x61, 0x72, 0x63, 0x68, 0x3E, 0x0A]
    ensures |Record(f)| == 60 + |Body(f)| + |Body(f)| % 2
    ensures Record(f)[..3] == [0x23, 0x31, 0x2F] && Record(f)[58..60] == [0x60, 0x0A]
    ensures Record(f)[60..60 + |Body(f)|] == Body(f)
    ensures |Body(f)| % 2 == 1 ==> Record(f)[|Record(f)| - 1] == 0x0A
  {
    hide Pow, Field;
    var name := Announced(|NameArea(f)|);
    var h := HeaderBytes(name, f.file.meta, |Body(f)|);
    assert h[..3] == Padded(name, 16)[..3] == BSD_PREFIX;
    assert h[58..60] == FMAG;
    assert Record(f) == h + Body(f) + PadByte(Body(f));
  }

  // ─── One record ──────────────────────────────────────────────────

  /** The name as the parser has it. */
  function Seen(f: Inline): seq<byte> {
    TrimEnd(NameArea(f), 0)
  }

  predicate Kept(f: Inline) {
    |NameArea(f)| <= 0x1_0000 && Seen(f) != []
  }

  function Listed(f: Inline, pos: nat): seq<Entry> {
    if SYMDEF <= Seen(f) then [] else [EntryOf(f.file.(path := Seen(f)), pos + |NameArea(f)|)]
  }

  /** A name is refused if it is over 64 KiB or longer than its member. */
  lemma AnnouncedBack(table: Option<seq<byte>>, len: nat, size: nat)
    requires len < Pow(10, 10)
    ensures var name := Announced(len);
            && 0 < |name| && name[|name| - 1] != SPACE
            && Classify(table, name, size)
            == if len <= 0x1_0000 && len <= size then Ok(BsdName(len)) else Err(InvalidArHeader)
  {
    BigEnough();
    hide Pow;
    var name := Announced(len);
    assert name[3..] == Written(len, 10);
    assert name[0] == 0x23;
    NumberBack(len);
  }

  /** The parser with the header of a record behind it. */
  function Opened(p: Parser, f: Inline): Parser {
    var m := f.file.meta;
    var h := Header(BSD_PREFIX + Written(|NameArea(f)|, 10), m.mtime, m.uid, m.gid, m.mode, |Body(f)|);
    p.(pos := p.pos + HEADER_SIZE, state := ReadingBsdName(h, |NameArea(f)|, []))
  }

  lemma OnBsdHeader(p: Parser, raw: seq<byte>, h: Header, len: nat)
    requires ParseHeader(raw) == Ok(h) && Classify(p.table, h.name, h.size) == Ok(BsdName(len))
    ensures OnHeader(p, raw) == Ok(p.(state := ReadingBsdName(h, len, [])))
  {
    hide ParseHeader, Classify;
  }

  lemma HeaderOpens(p: Parser, f: Inline)
    requires Between(p) && RecordFits(f) && |NameArea(f)| <= 0x1_0000
    ensures Run(p, HeaderBytes(Announced(|NameArea(f)|), f.file.meta, |Body(f)|)) == Ok(Opened(p, f))
  {
    hide Run, OnHeader, ParseHeader, Classify, HeaderBytes, Pow, Fits, NameArea;
    var name, m, size := Announced(|NameArea(f)|), f.file.meta, |Body(f)|;
    AnnouncedBack(p.table, |NameArea(f)|, size);
    HeaderRun(p, name, m, size);
    HeaderParses(name, m, size);
    OnBsdHeader(p.(pos := p.pos + HEADER_SIZE), HeaderBytes(name, m, size),
                Header(name, m.mtime, m.uid, m.gid, m.mode, size), |NameArea(f)|);
  }

  lemma RecordOpens(p: Parser, f: Inline, rest: seq<byte>)
    requires Between(p) && RecordFits(f)
    ensures var r := Run(p, Record(f) + rest);
            if |NameArea(f)| > 0x1_0000 then r.Err?
            else r == Run(Opened(p, f), NameArea(f) + (f.file.data + PadByte(Body(f)) + rest))
  {
    hide Run, Classify, HeaderBytes, PadByte, Pow, Fits, NameArea, Announced, Opened;
    var name, body := Announced(|NameArea(f)|), Body(f);
    AnnouncedBack(p.table, |NameArea(f)|, |body|);
    if |NameArea(f)| > 0x1_0000 {
      RefusedRun(p, name, f.file.meta, body, rest);
    } else {
      var h := HeaderBytes(name, f.file.meta, |body|);
      var after := NameArea(f) + (f.file.data + PadByte(body) + rest);
      HeaderOpens(p, f);
      RunSplit(p, h, after);
      assert Record(f) + rest == h + after;
    }
  }

  /** What the data and the pad byte are skipped to. */
  lemma SkipsBody(p: Parser, data: seq<byte>, pad: seq<byte>, rest: seq<byte>)
    requires p.state == Skipping(|data|, |pad|) && p.headerBuf == []
    ensures Run(p, data + pad + rest) == Run(p.(state := ReadingHeader, pos := p.pos + |data + pad|), rest)
  {
    hide Run;
    RunSplit(p, data + pad, rest);
    if data + pad == [] {
      RunNothing(p);
    } else {
      SkipSkips(p, data + pad);
    }
  }

  /** The parser with the name behind it too. */
  function Sorted(p: Parser, f: Inline): Parser {
    p.(pos := p.pos + HEADER_SIZE + |NameArea(f)|, state := Skipping(|f.file.data|, |Body(f)| % 2),
       entries := p.entries + Listed(f, p.pos))
  }

  lemma NameRead(p: Parser, f: Inline)
    requires Between(p)
    ensures var open := Opened(p, f);
            OnBsdName(open.(pos := open.pos + |NameArea(f)|), open.state.header, NameArea(f))
            == if Seen(f) == [] then Err(InvalidArHeader) else Ok(Sorted(p, f))
  {
    hide TrimEnd, NameArea, Written;
    assert |Body(f)| - |NameArea(f)| == |f.file.data|;
    assert p.entries + [] == p.entries;
  }

  lemma NameTaken(p: Parser, f: Inline, rest: seq<byte>)
    requires Between(p) && NameArea(f) != []
    ensures var r := Run(Opened(p, f), NameArea(f) + rest);
            if Seen(f) == [] then r.Err? else r == Run(Sorted(p, f), rest)
  {
    hide Run, OnBsdName, NameArea, Written, Seen, Sorted;
    var area, open := NameArea(f), Opened(p, f);
    NameRead(p, f);
    BsdFills(open, area);
    assert [] + area == area;
    RunSplit(open, area, rest);
  }

  lemma NothingToTake(p: Parser, f: Inline, rest: seq<byte>)
    requires Between(p) && NameArea(f) == []
    ensures var r := Run(Opened(p, f), rest); r.Ok? ==> !Complete(r.value)
  {
    hide Run;
    if rest == [] {
      RunNothing(Opened(p, f));
    } else {
      SettledRun(Opened(p, f), rest);
    }
  }

  /** A record the parser keeps leaves it between records, with the entry unless
      the record is a symbol table; any other spoils the archive. */
  lemma RecordRun(p: Parser, f: Inline, rest: seq<byte>)
    requires Between(p) && RecordFits(f)
    ensures var r := Run(p, Record(f) + rest);
            if Kept(f) then
              r == Run(p.(pos := p.pos + |Record(f)|, entries := p.entries + Listed(f, p.pos)), rest)
            else r.Ok? ==> !Complete(r.value)
  {
    hide Run, Pow, Fits, NameArea, TrimEnd, Complete, Opened, Sorted;
    RecordOpens(p, f, rest);
    var pad := PadByte(Body(f));
    var after := f.file.data + pad + rest;
    if |NameArea(f)| <= 0x1_0000 {
      if NameArea(f) == [] {
        NothingToTake(p, f, after);
        assert NameArea(f) + after == after;
        NothingSeen(f);
      } else {
        NameTaken(p, f, after);
        if Seen(f) != [] {
          BodySkipped(p, f, rest);
        }
      }
    }
  }

  lemma NothingSeen(f: Inline)
    requires NameArea(f) == []
    ensures Seen(f) == []
  {
  }

  lemma BodySkipped(p: Parser, f: Inline, rest: seq<byte>)
    requires Between(p) && RecordFits(f)
    ensures Run(Sorted(p, f), f.file.data + PadByte(Body(f)) + rest)
         == Run(p.(pos := p.pos + |Record(f)|, entries := p.entries + Listed(f, p.pos)), rest)
  {
    hide Run, Pow, Fits, NameArea, Listed;
    var data, pad := f.file.data, PadByte(Body(f));
    SkipsBody(Sorted(p, f), data, pad, rest);
    assert |Record(f)| == HEADER_SIZE + |NameArea(f)| + |data + pad|;
  }

  // ─── All records ─────────────────────────────────────────────────

  predicate AllKept(fs: seq<Inline>) {
    forall i :: 0 <= i < |fs| ==> Kept(fs[i])
  }

  /** The entries of records laid out from `pos` on. */
  function AllListed(fs: seq<Inline>, pos: nat): seq<Entry>
    requires AllFit(fs)
  {
    if fs == [] then [] else Listed(fs[0], pos) + AllListed(fs[1..], pos + |Record(fs[0])|)
  }

  lemma {:induction false} RecordsRun(p: Parser, fs: seq<Inline>)
    requires Between(p) && AllFit(fs)
    ensures var r := Run(p, Records(fs));
            if AllKept(fs) then
              r == Ok(p.(pos := p.pos + |Records(fs)|, entries := p.entries + AllListed(fs, p.pos)))
            else r.Ok? ==> !Complete(r.value)
    decreases |fs|
  {
    hide Run, Record, RecordFits, Kept, Listed, Complete;
    if fs == [] {
      RunNothing(p);
      assert p.entries + [] == p.entries;
    } else {
      RecordRun(p, fs[0], Records(fs[1..]));
      if Kept(fs[0]) {
        var q := p.(pos := p.pos + |Record(fs[0])|, entries := p.entries + Listed(fs[0], p.pos));
        RecordsRun(q, fs[1..]);
        Associates(p.entries, Listed(fs[0], p.pos), AllListed(fs[1..], q.pos));
        assert AllKept(fs) <==> AllKept(fs[1..]);
      }
    }
  }

  // ─── Which names come back ───────────────────────────────────────

  /** The names that survive: not empty, not ended by a NUL, not those of a
      symbol table, and with their NULs at most 64 KiB long. */
  predicate PlainInline(f: Inline) {
    && f.file.path != [] && f.file.path[|f.file.path| - 1] != 0
    && !(SYMDEF <= f.file.path) && |f.file.path| + f.nulls <= 0x1_0000
  }

  predicate AllPlainInline(fs: seq<Inline>) {
    forall i :: 0 <= i < |fs| ==> PlainInline(fs[i])
  }

  lemma {:induction false} TrimNulls(s: seq<byte>, n: nat)
    ensures TrimEnd(s + Zeros(n), 0) == TrimEnd(s, 0)
    decreases n
  {
    if n == 0 {
      assert s + Zeros(0) == s;
    } else {
      var t := s + Zeros(n);
      assert t[..|t| - 1] == s + Zeros(n - 1);
      TrimNulls(s, n - 1);
    }
  }

  /** Exactly the plain names are listed as written. */
  lemma PlainIsListed(f: Inline)
    ensures PlainInline(f) <==> Kept(f) && !(SYMDEF <= Seen(f)) && Seen(f) == f.file.path
  {
    TrimNulls(f.file.path, f.nulls);
  }

  /** At most one entry a record, and with one for each, in order. */
  lemma {:induction false} ListedInOrder(fs: seq<Inline>, pos: nat)
    requires AllFit(fs)
    ensures |AllListed(fs, pos)| <= |fs|
    ensures |AllListed(fs, pos)| == |fs| ==>
              forall k :: 0 <= k < |fs| ==>
                            AllListed(fs, pos)[k].path == Seen(fs[k]) && !(SYMDEF <= AllListed(fs, pos)[k].path)
    decreases |fs|
  {
    hide Record, RecordFits, Seen;
    if fs != [] {
      ListedInOrder(fs[1..], pos + |Record(fs[0])|);
    }
  }

  predicate ListsInline(entries: seq<Entry>, fs: seq<Inline>, archive: seq<byte>) {
    |entries| == |fs| && forall k :: 0 <= k < |fs| ==> Describes(entries[k], fs[k].file, archive)
  }

  lemma ListedIsPlain(fs: seq<Inline>, pos: nat, archive: seq<byte>)
    requires AllFit(fs) && AllKept(fs) && ListsInline(AllListed(fs, pos), fs, archive)
    ensures AllPlainInline(fs)
  {
    hide RecordFits, Kept, Seen, PlainInline, AllListed;
    ListedInOrder(fs, pos);
    forall i | 0 <= i < |fs|
      ensures PlainInline(fs[i])
    {
      PlainIsListed(fs[i]);
      assert Describes(AllListed(fs, pos)[i], fs[i].file, archive);
    }
  }

  lemma RecordDescribed(f: Inline, before: seq<byte>, after: seq<byte>)
    requires RecordFits(f) && PlainInline(f)
    ensures |Listed(f, |before|)| == 1
    ensures Describes(Listed(f, |before|)[0], f.file, before + (Record(f) + after))
  {
    hide HeaderBytes, Pow, Fits, TrimEnd, NameArea;
    PlainIsListed(f);
    var h := HeaderBytes(Announced(|NameArea(f)|), f.file.meta, |Body(f)|);
    assert before + (Record(f) + after)
        == (before + h + NameArea(f)) + f.file.data + (PadByte(Body(f)) + after);
  }

  lemma {:induction false} PlainIsDescribed(fs: seq<Inline>, before: seq<byte>)
    requires AllFit(fs) && AllPlainInline(fs)
    ensures AllKept(fs) && ListsInline(AllListed(fs, |before|), fs, before + Records(fs))
    decreases |fs|
  {
    hide Record, RecordFits, Kept, Seen, PlainInline, Listed, Describes;
    if fs != [] {
      var rest := Records(fs[1..]);
      PlainIsListed(fs[0]);
      RecordDescribed(fs[0], before, rest);
      PlainIsDescribed(fs[1..], before + Record(fs[0]));
      Associates(before, Record(fs[0]), rest);
    }
  }

  // ─── Archives ────────────────────────────────────────────────────

  lemma SymbolsAreSkipped(symbols: seq<byte>, stamp: Meta)
    ensures Kept(SymbolTable(symbols, stamp)) && SYMDEF <= Seen(SymbolTable(symbols, stamp))
  {
    var f := SymbolTable(symbols, stamp);
    TrimNulls(f.file.path, f.nulls);
  }

  lemma ArchiveRun(fs: seq<Inline>, symbols: seq<byte>, stamp: Meta)
    requires AllFit(fs) && RecordFits(SymbolTable(symbols, stamp))
    ensures var r, before := Run(FRESH, BsdArchive(fs, symbols, stamp)), AR_MAGIC + Record(SymbolTable(symbols, stamp));
            if AllKept(fs) then r.Ok? && Complete(r.value) && r.value.entries == AllListed(fs, |before|)
            else r.Ok? ==> !Complete(r.value)
  {
    hide Run, Record, RecordFits, Kept, Seen, SymbolTable, AllKept;
    var f := SymbolTable(symbols, stamp);
    var p := FRESH.(state := ReadingHeader, pos := |AR_MAGIC|);
    MagicRun();
    RunSplit(FRESH, AR_MAGIC, Record(f) + Records(fs));
    SymbolsAreSkipped(symbols, stamp);
    RecordRun(p, f, Records(fs));
    assert p.entries + Listed(f, p.pos) == [];
    var q := p.(pos := p.pos + |Record(f)|);
    RecordsRun(q, fs);
    assert [] + AllListed(fs, q.pos) == AllListed(fs, q.pos);
  }

  /** Each file is back: its name, the size of its data alone, and where the
      data is. */
  predicate ReadsBackInline(r: Result<Parser, Error>, fs: seq<Inline>, archive: seq<byte>) {
    r.Ok? && Complete(r.value) && ListsInline(r.value.entries, fs, archive)
  }

  lemma ReadsBackExactly(fs: seq<Inline>, symbols: seq<byte>, stamp: Meta)
    requires AllFit(fs) && RecordFits(SymbolTable(symbols, stamp))
    ensures var archive := BsdArchive(fs, symbols, stamp);
            ReadsBackInline(Run(FRESH, archive), fs, archive) <==> AllPlainInline(fs)
  {
    hide Run, Record, RecordFits, SymbolTable, AllKept, AllFit, AllPlainInline, ListsInline, Complete;
    var f, archive := SymbolTable(symbols, stamp), BsdArchive(fs, symbols, stamp);
    var before := AR_MAGIC + Record(f);
    ArchiveRun(fs, symbols, stamp);
    Associates(AR_MAGIC, Record(f), Records(fs));
    if AllPlainInline(fs) {
      PlainIsDescribed(fs, before);
    } else if AllKept(fs) && ListsInline(AllListed(fs, |before|), fs, archive) {
      ListedIsPlain(fs, |before|, archive);
    }
  }

  /** However such an archive is cut, it reads back for exactly the plain
      names. */
  method RoundTripChunked(fs: seq<Inline>, symbols: seq<byte>, stamp: Meta, takes: nat -> nat)
    returns (r: Result<Parser, Error>)
    requires AllFit(fs) && RecordFits(SymbolTable(symbols, stamp)) && forall k :: takes(k) > 0
    ensures ReadsBackInline(r, fs, BsdArchive(fs, symbols, stamp)) <==> AllPlainInline(fs)
  {
    hide Run, Record, RecordFits, SymbolTable, AllFit, AllPlainInline, ReadsBackInline;
    r := ParseChunked(BsdArchive(fs, symbols, stamp), takes);
    ReadsBackExactly(fs, symbols, stamp);
  }
}
