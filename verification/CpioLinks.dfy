/**
  Hard links in a cpio archive.

  Of the members that share an inode, one carries the data, often the last.
  Members without data wait for it and then become links to it; the trailer
  lets go of those it never came for. Nothing may be lost or said twice, and a
  link must name a member that was already given out.
 */
module CpioLinks {
  import opened Bytes
  import opened Wrappers

  datatype EntryType =
    | Regular | Directory | SymLink | HardLink | CharDevice | BlockDevice | Fifo | Socket
    | Other(code: nat)

  datatype Entry = Entry(
    path: seq<byte>,
    size: nat,
    kind: EntryType,
    mode: nat,
    uid: nat,
    gid: nat,
    mtime: nat,
    linkTarget: Option<seq<byte>>,
    dataOffset: nat)

  /** Inode numbers are unique only on their device. */
  datatype Inode = Inode(major: nat, minor: nat, number: nat)

  datatype Member = Member(entry: Entry, inode: Inode, nlink: nat)

  // ─── Lists by inode ──────────────────────────────────────────────

  predicate Before(a: Inode, b: Inode) {
    || a.major < b.major
    || (a.major == b.major && a.minor < b.minor)
    || (a.major == b.major && a.minor == b.minor && a.number < b.number)
  }

  /** A sorted table of lists. */
  type Table<T> = seq<(Inode, seq<T>)>

  ghost predicate Sorted<T>(d: Table<T>) {
    forall i, j :: 0 <= i < j < |d| ==> Before(d[i].0, d[j].0)
  }

  function Add<T>(d: Table<T>, key: Inode, t: T): Table<T> {
    if d == [] then [(key, [t])]
    else if d[0].0 == key then [(key, d[0].1 + [t])] + d[1..]
    else if Before(key, d[0].0) then [(key, [t])] + d
    else [d[0]] + Add(d[1..], key, t)
  }

  function Lookup<T>(d: Table<T>, key: Inode): seq<T> {
    if d == [] then [] else if d[0].0 == key then d[0].1 else Lookup(d[1..], key)
  }

  function Remove<T>(d: Table<T>, key: Inode): Table<T> {
    if d == [] then [] else if d[0].0 == key then d[1..] else [d[0]] + Remove(d[1..], key)
  }

  function Flat<T>(d: Table<T>): seq<T> {
    if d == [] then [] else d[0].1 + Flat(d[1..])
  }

  lemma {:induction false} AddSorted<T>(d: Table<T>, key: Inode, t: T)
    requires Sorted(d)
    ensures Sorted(Add(d, key, t))
    ensures forall i :: 0 <= i < |Add(d, key, t)| ==>
              Add(d, key, t)[i].0 == key || exists j :: 0 <= j < |d| && Add(d, key, t)[i].0 == d[j].0
  {
    if d != [] && d[0].0 != key && !Before(key, d[0].0) {
      AddSorted(d[1..], key, t);
    }
  }

  lemma {:induction false} RemoveSorted<T>(d: Table<T>, key: Inode)
    requires Sorted(d)
    ensures Sorted(Remove(d, key))
    ensures forall i :: 0 <= i < |Remove(d, key)| ==>
              Remove(d, key)[i].0 != key && exists j :: 0 <= j < |d| && Remove(d, key)[i] == d[j]
  {
    if d != [] && d[0].0 != key {
      RemoveSorted(d[1..], key);
      var r := Remove(d[1..], key);
      forall i | 0 <= i < |Remove(d, key)|
        ensures Remove(d, key)[i].0 != key && exists j :: 0 <= j < |d| && Remove(d, key)[i] == d[j]
      {
        if i == 0 {
          assert Remove(d, key)[0] == d[0];
        } else {
          var j :| 0 <= j < |d[1..]| && r[i - 1] == d[1..][j];
          assert Remove(d, key)[i] == d[j + 1];
        }
      }
    }
  }

  // ─── The policy ──────────────────────────────────────────────────

  /** An entry, and the number of the member it comes from. */
  datatype Tagged = Tagged(from: nat, entry: Entry)

  datatype Links = Links(resolved: map<Inode, seq<byte>>, waiting: Table<Tagged>, out: seq<Tagged>)

  const NO_LINKS := Links(map[], [], [])

  predicate Linked(m: Member) {
    m.entry.kind == Regular && m.nlink > 1
  }

  predicate Bears(m: Member) {
    Linked(m) && m.entry.size > 0
  }

  predicate Empty(m: Member) {
    Linked(m) && m.entry.size == 0
  }

  function AsLink(e: Entry, path: seq<byte>): Entry {
    e.(kind := HardLink, linkTarget := Some(path))
  }

  function AllAsLinks(s: seq<Tagged>, path: seq<byte>): (r: seq<Tagged>)
    ensures |r| == |s|
    ensures forall i :: 0 <= i < |s| ==> r[i] == Tagged(s[i].from, AsLink(s[i].entry, path))
  {
    seq(|s|, i requires 0 <= i < |s| => Tagged(s[i].from, AsLink(s[i].entry, path)))
  }

  /** What member `n` brings. */
  function Offer(l: Links, n: nat, m: Member): Links {
    var t := Tagged(n, m.entry);
    if !Linked(m) then l.(out := l.out + [t])
    else if Bears(m) then
      Links(l.resolved[m.inode := m.entry.path], Remove(l.waiting, m.inode),
            l.out + ([t] + AllAsLinks(Lookup(l.waiting, m.inode), m.entry.path)))
    else if m.inode in l.resolved then
      l.(out := l.out + [Tagged(n, AsLink(m.entry, l.resolved[m.inode]))])
    else l.(waiting := Add(l.waiting, m.inode, t))
  }

  /** The trailer. */
  function Close(l: Links): Links {
    l.(waiting := [], out := l.out + Flat(l.waiting))
  }

  function AfterAll(ms: seq<Member>): Links {
    if ms == [] then NO_LINKS else
    var n := |ms| - 1;
    Offer(AfterAll(ms[..n]), n, ms[n])
  }

  // ─── Nothing lost, nothing twice ─────────────────────────────────

  function From(s: seq<Tagged>): multiset<nat> {
    if s == [] then multiset{} else multiset{s[0].from} + From(s[1..])
  }

  function UpTo(n: nat): multiset<nat> {
    if n > 0 then UpTo(n - 1) + multiset{n - 1} else multiset{}
  }

  lemma {:induction false} FromJoins(s: seq<Tagged>, t: seq<Tagged>)
    ensures From(s + t) == From(s) + From(t)
    decreases |s|
  {
    if s == [] {
      assert s + t == t;
    } else {
      assert (s + t)[1..] == s[1..] + t;
      FromJoins(s[1..], t);
    }
  }

  lemma {:induction false} FromLinks(s: seq<Tagged>, path: seq<byte>)
    ensures From(AllAsLinks(s, path)) == From(s)
    decreases |s|
  {
    if s != [] {
      assert AllAsLinks(s, path)[1..] == AllAsLinks(s[1..], path);
      FromLinks(s[1..], path);
    }
  }

  lemma {:induction false} FromSize(s: seq<Tagged>)
    ensures |From(s)| == |s|
    decreases |s|
  {
    if s != [] {
      FromSize(s[1..]);
    }
  }

  lemma {:induction false} UpToSize(n: nat)
    ensures |UpTo(n)| == n
    ensures forall i: nat :: UpTo(n)[i] == if i < n then 1 else 0
  {
    if n > 0 {
      UpToSize(n - 1);
    }
  }

  lemma FromOne(t: Tagged)
    ensures From([t]) == multiset{t.from}
  {
    assert [t][1..] == [];
  }

  lemma {:induction false} AddBrings(d: Table<Tagged>, key: Inode, t: Tagged)
    ensures From(Flat(Add(d, key, t))) == From(Flat(d)) + multiset{t.from}
    decreases |d|
  {
    assert From([]) == multiset{};
    hide From;
    FromOne(t);
    if d == [] {
      assert Add(d, key, t)[1..] == [] && [t] + [] == [t];
    } else if d[0].0 == key {
      FromJoins(d[0].1, [t]);
      FromJoins(d[0].1 + [t], Flat(d[1..]));
      FromJoins(d[0].1, Flat(d[1..]));
      assert Add(d, key, t)[1..] == d[1..];
    } else if Before(key, d[0].0) {
      assert Add(d, key, t)[1..] == d;
      FromJoins([t], Flat(d));
    } else {
      assert Add(d, key, t)[1..] == Add(d[1..], key, t);
      AddBrings(d[1..], key, t);
      FromJoins(d[0].1, Flat(Add(d[1..], key, t)));
      FromJoins(d[0].1, Flat(d[1..]));
    }
  }

  lemma {:induction false} RemoveTakes(d: Table<Tagged>, key: Inode)
    ensures From(Flat(d)) == From(Lookup(d, key)) + From(Flat(Remove(d, key)))
    decreases |d|
  {
    if d != [] {
      FromJoins(d[0].1, Flat(d[1..]));
      if d[0].0 != key {
        assert Remove(d, key)[1..] == Remove(d[1..], key);
        RemoveTakes(d[1..], key);
        FromJoins(d[0].1, Flat(Remove(d[1..], key)));
      }
    }
  }

  /** Every member so far is given out or waits, once. */
  ghost predicate Conserves(l: Links, n: nat) {
    From(l.out) + From(Flat(l.waiting)) == UpTo(n)
  }

  lemma GivenAtOnce(l: Links, n: nat, t: Tagged)
    requires Conserves(l, n) && t.from == n
    ensures Conserves(l.(out := l.out + [t]), n + 1)
  {
    hide From, Flat;
    FromOne(t);
    FromJoins(l.out, [t]);
  }

  lemma GivenWithLinks(l: Links, n: nat, m: Member)
    requires Conserves(l, n) && Linked(m) && Bears(m)
    ensures Conserves(Offer(l, n, m), n + 1)
  {
    hide From, Flat, Lookup, Remove, AllAsLinks;
    var t, held := Tagged(n, m.entry), Lookup(l.waiting, m.inode);
    var links := AllAsLinks(held, m.entry.path);
    FromOne(t);
    RemoveTakes(l.waiting, m.inode);
    FromLinks(held, m.entry.path);
    FromJoins([t], links);
    FromJoins(l.out, [t] + links);
  }

  lemma OfferConserves(l: Links, n: nat, m: Member)
    requires Conserves(l, n)
    ensures Conserves(Offer(l, n, m), n + 1)
  {
    if Linked(m) && Bears(m) {
      GivenWithLinks(l, n, m);
    } else if !Linked(m) {
      GivenAtOnce(l, n, Tagged(n, m.entry));
    } else if m.inode in l.resolved {
      GivenAtOnce(l, n, Tagged(n, AsLink(m.entry, l.resolved[m.inode])));
    } else {
      hide From, Flat, Add;
      AddBrings(l.waiting, m.inode, Tagged(n, m.entry));
    }
  }

  lemma {:induction false} AfterAllConserves(ms: seq<Member>)
    ensures Conserves(AfterAll(ms), |ms|)
    decreases |ms|
  {
    if ms != [] {
      var n := |ms| - 1;
      AfterAllConserves(ms[..n]);
      OfferConserves(AfterAll(ms[..n]), n, ms[n]);
    }
  }

  // ─── Links name what was given out before them ───────────────────

  /** `out[j]` is the member that carries the data of an inode, as it was read. */
  ghost predicate Bearer(ms: seq<Member>, out: seq<Tagged>, j: nat, inode: Inode, path: seq<byte>) {
    && j < |out| && out[j].from < |ms| && out[j].entry == ms[out[j].from].entry
    && Bears(ms[out[j].from]) && ms[out[j].from].inode == inode && out[j].entry.path == path
  }

  /** A link to a bearer that was given out before it. */
  ghost predicate LinksBack(ms: seq<Member>, out: seq<Tagged>, k: nat) {
    && k < |out| && out[k].from < |ms|
    && exists j: nat, path: seq<byte> ::
         j < k && Bearer(ms, out, j, ms[out[k].from].inode, path)
         && out[k].entry == AsLink(ms[out[k].from].entry, path)
  }

  ghost predicate Given(ms: seq<Member>, out: seq<Tagged>, k: nat) {
    && k < |out| && out[k].from < |ms|
    && if Empty(ms[out[k].from]) then LinksBack(ms, out, k) else out[k].entry == ms[out[k].from].entry
  }

  ghost predicate Waits(ms: seq<Member>, inode: Inode, t: Tagged) {
    t.from < |ms| && t.entry == ms[t.from].entry && Empty(ms[t.from]) && ms[t.from].inode == inode
  }

  ghost predicate AllGiven(ms: seq<Member>, out: seq<Tagged>) {
    forall k: nat :: k < |out| ==> Given(ms, out, k)
  }

  ghost predicate AllResolved(ms: seq<Member>, l: Links) {
    && (forall inode :: inode in l.resolved ==> exists j: nat :: Bearer(ms, l.out, j, inode, l.resolved[inode]))
    && (forall i: nat :: i < |ms| && Bears(ms[i]) ==> ms[i].inode in l.resolved)
  }

  ghost predicate AllWait(ms: seq<Member>, resolved: map<Inode, seq<byte>>, d: Table<Tagged>) {
    && Sorted(d)
    && forall i: nat :: i < |d| ==> d[i].0 !in resolved && AllOf(ms, d[i].0, d[i].1)
  }

  ghost predicate AllOf(ms: seq<Member>, inode: Inode, s: seq<Tagged>) {
    forall i: nat :: i < |s| ==> Waits(ms, inode, s[i])
  }

  ghost predicate Good(ms: seq<Member>, l: Links) {
    AllGiven(ms, l.out) && AllResolved(ms, l) && AllWait(ms, l.resolved, l.waiting)
  }

  lemma BearerStays(ms: seq<Member>, out: seq<Tagged>, j: nat, inode: Inode, path: seq<byte>, m: Member,
                    more: seq<Tagged>)
    requires Bearer(ms, out, j, inode, path)
    ensures Bearer(ms + [m], out + more, j, inode, path)
  {
  }

  lemma GivenStays(ms: seq<Member>, out: seq<Tagged>, m: Member, more: seq<Tagged>)
    requires AllGiven(ms, out)
    ensures forall k: nat :: k < |out| ==> Given(ms + [m], out + more, k)
  {
    forall k: nat | k < |out|
      ensures Given(ms + [m], out + more, k)
    {
      assert Given(ms, out, k);
      if Empty(ms[out[k].from]) {
        var j: nat, path: seq<byte> :|
          j < k && Bearer(ms, out, j, ms[out[k].from].inode, path)
              && out[k].entry == AsLink(ms[out[k].from].entry, path);
        BearerStays(ms, out, j, ms[out[k].from].inode, path, m, more);
      }
    }
  }

  lemma ResolvedStays(ms: seq<Member>, l: Links, m: Member, more: seq<Tagged>)
    requires AllResolved(ms, l)
    ensures forall inode :: inode in l.resolved ==>
        exists j: nat :: Bearer(ms + [m], l.out + more, j, inode, l.resolved[inode])
  {
    forall inode | inode in l.resolved
      ensures exists j: nat :: Bearer(ms + [m], l.out + more, j, inode, l.resolved[inode])
    {
      var j: nat :| Bearer(ms, l.out, j, inode, l.resolved[inode]);
      BearerStays(ms, l.out, j, inode, l.resolved[inode], m, more);
    }
  }

  lemma WaitStays(ms: seq<Member>, resolved: map<Inode, seq<byte>>, d: Table<Tagged>, m: Member)
    requires AllWait(ms, resolved, d)
    ensures AllWait(ms + [m], resolved, d)
  {
    forall i: nat | i < |d|
      ensures AllOf(ms + [m], d[i].0, d[i].1)
    {
      assert AllOf(ms, d[i].0, d[i].1);
      forall k: nat | k < |d[i].1|
        ensures Waits(ms + [m], d[i].0, d[i].1[k])
      {
        assert Waits(ms, d[i].0, d[i].1[k]);
      }
    }
  }

  lemma {:induction false} AddWaits(ms: seq<Member>, resolved: map<Inode, seq<byte>>, d: Table<Tagged>, key: Inode,
                                    t: Tagged)
    requires AllWait(ms, resolved, d) && key !in resolved && Waits(ms, key, t)
    ensures AllWait(ms, resolved, Add(d, key, t))
    decreases |d|
  {
    AddSorted(d, key, t);
    if d != [] && d[0].0 != key && !Before(key, d[0].0) {
      assert forall i: nat :: i < |d[1..]| ==> d[1..][i] == d[i + 1];
      AddWaits(ms, resolved, d[1..], key, t);
    }
  }

  lemma RemoveWaits(ms: seq<Member>, resolved: map<Inode, seq<byte>>, d: Table<Tagged>, key: Inode, path: seq<byte>)
    requires AllWait(ms, resolved, d)
    ensures AllWait(ms, resolved[key := path], Remove(d, key))
  {
    RemoveSorted(d, key);
  }

  lemma {:induction false} LookupWaits(ms: seq<Member>, resolved: map<Inode, seq<byte>>, d: Table<Tagged>, key: Inode)
    requires AllWait(ms, resolved, d)
    ensures AllOf(ms, key, Lookup(d, key))
    decreases |d|
  {
    if d != [] && d[0].0 != key {
      assert forall i: nat :: i < |d[1..]| ==> d[1..][i] == d[i + 1];
      LookupWaits(ms, resolved, d[1..], key);
    }
  }

  /** One more entry, given out as it was read or as a link. */
  lemma GivenOne(ms: seq<Member>, l: Links, m: Member, e: Entry)
    requires Good(ms, l) && !Bears(m)
    requires if Empty(m) then m.inode in l.resolved && e == AsLink(m.entry, l.resolved[m.inode]) else e == m.entry
    ensures Good(ms + [m], l.(out := l.out + [Tagged(|ms|, e)]))
  {
    hide Bearer;
    var all, out := ms + [m], l.out + [Tagged(|ms|, e)];
    GivenStays(ms, l.out, m, [Tagged(|ms|, e)]);
    ResolvedStays(ms, l, m, [Tagged(|ms|, e)]);
    WaitStays(ms, l.resolved, l.waiting, m);
    forall k: nat | k < |out|
      ensures Given(all, out, k)
    {
      if k == |l.out| && Empty(m) {
        EarlierBearer(ms, l, m, [Tagged(|ms|, e)]);
        var j: nat :| j < k && Bearer(all, out, j, m.inode, l.resolved[m.inode]);
      }
    }
  }

  lemma EarlierBearer(ms: seq<Member>, l: Links, m: Member, more: seq<Tagged>)
    requires AllResolved(ms, l) && m.inode in l.resolved
    ensures exists j: nat :: j < |l.out| && Bearer(ms + [m], l.out + more, j, m.inode, l.resolved[m.inode])
  {
    var j: nat :| Bearer(ms, l.out, j, m.inode, l.resolved[m.inode]);
    BearerStays(ms, l.out, j, m.inode, l.resolved[m.inode], m, more);
  }

  /** The member with the data, and the links that waited for it. */
  lemma GivenBearer(ms: seq<Member>, l: Links, m: Member)
    requires Good(ms, l) && Bears(m)
    ensures Good(ms + [m], Offer(l, |ms|, m))
  {
    hide Bearer, Add, Lookup, Remove;
    var n, all, path := |ms|, ms + [m], m.entry.path;
    var held := Lookup(l.waiting, m.inode);
    var more := [Tagged(n, m.entry)] + AllAsLinks(held, path);
    var next := Offer(l, n, m);
    GivenStays(ms, l.out, m, more);
    ResolvedStays(ms, l, m, more);
    LookupWaits(ms, l.resolved, l.waiting, m.inode);
    RemoveWaits(ms, l.resolved, l.waiting, m.inode, path);
    WaitStays(ms, next.resolved, next.waiting, m);
    IsBearer(ms, l.out, m, AllAsLinks(held, path));
    forall k: nat | k < |next.out|
      ensures Given(all, next.out, k)
    {
      if k > |l.out| {
        var t := held[k - |l.out| - 1];
        assert Waits(ms, m.inode, t);
        assert next.out[k] == Tagged(t.from, AsLink(t.entry, path));
        assert Bearer(all, next.out, |l.out|, m.inode, path);
      }
    }
  }

  lemma IsBearer(ms: seq<Member>, out: seq<Tagged>, m: Member, links: seq<Tagged>)
    requires Bears(m)
    ensures Bearer(ms + [m], out + ([Tagged(|ms|, m.entry)] + links), |out|, m.inode, m.entry.path)
  {
  }

  lemma OfferGood(ms: seq<Member>, l: Links, m: Member)
    requires Good(ms, l)
    ensures Good(ms + [m], Offer(l, |ms|, m))
  {
    if Bears(m) {
      GivenBearer(ms, l, m);
    } else if !Linked(m) {
      GivenOne(ms, l, m, m.entry);
    } else if m.inode in l.resolved {
      GivenOne(ms, l, m, AsLink(m.entry, l.resolved[m.inode]));
    } else {
      hide Bearer;
      var t := Tagged(|ms|, m.entry);
      assert l.out + [] == l.out;
      GivenStays(ms, l.out, m, []);
      ResolvedStays(ms, l, m, []);
      WaitStays(ms, l.resolved, l.waiting, m);
      AddWaits(ms + [m], l.resolved, l.waiting, m.inode, t);
    }
  }

  lemma {:induction false} AfterAllGood(ms: seq<Member>)
    ensures Good(ms, AfterAll(ms))
    decreases |ms|
  {
    if ms != [] {
      var n := |ms| - 1;
      AfterAllGood(ms[..n]);
      OfferGood(ms[..n], AfterAll(ms[..n]), ms[n]);
      assert ms == ms[..n] + [ms[n]];
    }
  }

  // ─── What an archive's members become ────────────────────────────

  function Output(ms: seq<Member>): seq<Tagged> {
    Close(AfterAll(ms)).out
  }

  ghost predicate HasBearer(ms: seq<Member>, inode: Inode) {
    exists i: nat :: i < |ms| && Bears(ms[i]) && ms[i].inode == inode
  }

  /** A member without data becomes a link just when some member carries the
      data of its inode, before or after it; all else is as it was read. */
  ghost predicate Resolved(ms: seq<Member>, out: seq<Tagged>, k: nat) {
    && k < |out| && out[k].from < |ms|
    && var m := ms[out[k].from];
       if Empty(m) && HasBearer(ms, m.inode) then LinksBack(ms, out, k) else out[k].entry == m.entry
  }

  lemma {:induction false} FlatAll(ms: seq<Member>, resolved: map<Inode, seq<byte>>, d: Table<Tagged>, k: nat)
    requires AllWait(ms, resolved, d) && k < |Flat(d)|
    ensures exists inode :: inode !in resolved && Waits(ms, inode, Flat(d)[k])
    decreases |d|
  {
    if k < |d[0].1| {
      assert AllOf(ms, d[0].0, d[0].1);
    } else {
      assert forall i: nat :: i < |d[1..]| ==> d[1..][i] == d[i + 1];
      FlatAll(ms, resolved, d[1..], k - |d[0].1|);
    }
  }

  /** Every member comes out exactly once, resolved. */
  lemma OutputConserves(ms: seq<Member>)
    ensures |Output(ms)| == |ms|
    ensures forall i: nat :: From(Output(ms))[i] == if i < |ms| then 1 else 0
    ensures forall k: nat :: k < |Output(ms)| ==> Resolved(ms, Output(ms), k)
  {
    var l := AfterAll(ms);
    AfterAllConserves(ms);
    FromJoins(l.out, Flat(l.waiting));
    FromSize(Output(ms));
    UpToSize(|ms|);
    AfterAllGood(ms);
    forall k: nat | k < |Output(ms)|
      ensures Resolved(ms, Output(ms), k)
    {
      OutputResolved(ms, l, k);
    }
  }

  lemma OutputResolved(ms: seq<Member>, l: Links, k: nat)
    requires Good(ms, l) && k < |Close(l).out|
    ensures Resolved(ms, Close(l).out, k)
  {
    hide Bearer, Flat;
    var out := Close(l).out;
    if k < |l.out| {
      assert Given(ms, l.out, k);
      if Empty(ms[l.out[k].from]) {
        LinkStays(ms, l.out, Flat(l.waiting), k);
        BearerFound(ms, l.out, k);
      }
    } else {
      FlatAll(ms, l.resolved, l.waiting, k - |l.out|);
      var inode :| inode !in l.resolved && Waits(ms, inode, Flat(l.waiting)[k - |l.out|]);
    }
  }

  lemma LinkStays(ms: seq<Member>, out: seq<Tagged>, more: seq<Tagged>, k: nat)
    requires LinksBack(ms, out, k)
    ensures LinksBack(ms, out + more, k)
  {
    var j: nat, path: seq<byte> :|
      j < k && Bearer(ms, out, j, ms[out[k].from].inode, path) && out[k].entry == AsLink(ms[out[k].from].entry, path);
    assert Bearer(ms, out + more, j, ms[out[k].from].inode, path);
  }

  lemma BearerFound(ms: seq<Member>, out: seq<Tagged>, k: nat)
    requires LinksBack(ms, out, k)
    ensures HasBearer(ms, ms[out[k].from].inode)
  {
    var j: nat, path: seq<byte> :|
      j < k && Bearer(ms, out, j, ms[out[k].from].inode, path) && out[k].entry == AsLink(ms[out[k].from].entry, path);
    assert Bears(ms[out[j].from]);
  }
}
