/**
  What comes out of a cpio archive, in which order: said member by member of
  the list of all members, without tables of what was seen or what waits.
 */
module CpioOutput {
  import opened Bytes
  import opened CpioLinks
  import opened Wrappers

  /** One of several names of a regular file. */
  predicate Shares(m: Member) {
    m.entry.kind == Regular && m.nlink >= 2
  }

  predicate Carries(m: Member, inode: Inode) {
    Shares(m) && m.entry.size >= 1 && m.inode == inode
  }

  predicate Stands(m: Member, inode: Inode) {
    Shares(m) && m.entry.size == 0 && m.inode == inode
  }

  /** The last of the first `n` members that carries the data of this inode. */
  function Carrier(ms: seq<Member>, n: nat, inode: Inode): (j: Option<nat>)
    requires n <= |ms|
    ensures j.Some? ==> j.value < n && Carries(ms[j.value], inode)
                        && forall i :: j.value < i < n ==> !Carries(ms[i], inode)
    ensures j.None? ==> forall i :: 0 <= i < n ==> !Carries(ms[i], inode)
  {
    if n > 0 then (if Carries(ms[n - 1], inode) then Some(n - 1) else Carrier(ms, n - 1, inode)) else None
  }

  /** Those of the first `n` members that only stand for it. */
  function Standing(ms: seq<Member>, n: nat, inode: Inode): seq<Tagged>
    requires n <= |ms|
  {
    if n > 0 then
      Standing(ms, n - 1, inode) + (if Stands(ms[n - 1], inode) then [Tagged(n - 1, ms[n - 1].entry)] else [])
    else []
  }

  function Link(e: Entry, path: seq<byte>): Entry {
    e.(kind := HardLink, linkTarget := Some(path))
  }

  function LinksOf(s: seq<Tagged>, path: seq<byte>): seq<Tagged> {
    if s == [] then [] else [Tagged(s[0].from, Link(s[0].entry, path))] + LinksOf(s[1..], path)
  }

  /** What comes out with member `i`: a carrier brings itself, and the first one
      of an inode all that stood for it before, as links; one that stands for it
      after a carrier is a link to the last such; without one it waits. */
  function Piece(ms: seq<Member>, i: nat): seq<Tagged>
    requires i < |ms|
  {
    var m := ms[i];
    var j := Carrier(ms, i, m.inode);
    if !Shares(m) then [Tagged(i, m.entry)]
    else if m.entry.size >= 1 then
      [Tagged(i, m.entry)] + (if j.None? then LinksOf(Standing(ms, i, m.inode), m.entry.path) else [])
    else if j.Some? then [Tagged(i, Link(m.entry, ms[j.value].entry.path))]
    else []
  }

  function Pieces(ms: seq<Member>, n: nat): seq<Tagged>
    requires n <= |ms|
  {
    if n > 0 then Pieces(ms, n - 1) + Piece(ms, n - 1) else []
  }

  // ─── Tables ──────────────────────────────────────────────────────

  lemma {:induction false} LookupAdded(d: Table<Tagged>, key: Inode, t: Tagged, k: Inode)
    requires CpioLinks.Sorted(d)
    ensures Lookup(Add(d, key, t), k) == if k == key then Lookup(d, key) + [t] else Lookup(d, k)
    decreases |d|
  {
    if d != [] && d[0].0 != key {
      if Before(key, d[0].0) {
        NotThere(d, key);
      } else {
        LookupAdded(d[1..], key, t, k);
      }
    }
  }

  lemma {:induction false} NotThere(d: Table<Tagged>, key: Inode)
    requires forall i :: 0 <= i < |d| ==> d[i].0 != key
    ensures Lookup(d, key) == []
    decreases |d|
  {
    if d != [] {
      NotThere(d[1..], key);
    }
  }

  lemma {:induction false} LookupRemoved(d: Table<Tagged>, key: Inode, k: Inode)
    requires CpioLinks.Sorted(d)
    ensures Lookup(Remove(d, key), k) == if k == key then [] else Lookup(d, k)
    decreases |d|
  {
    if d != [] {
      if d[0].0 == key {
        NotThere(d[1..], key);
      } else {
        LookupRemoved(d[1..], key, k);
      }
    }
  }

  // ─── The policy's tables hold this ───────────────────────────────

  /** Who is known to carry an inode's data, and who waits for it. */
  ghost predicate Knows(ms: seq<Member>, n: nat, l: CpioLinks.Links, inode: Inode)
    requires n <= |ms|
  {
    match Carrier(ms, n, inode)
    case Some(j) => inode in l.resolved && l.resolved[inode] == ms[j].entry.path && Lookup(l.waiting, inode) == []
    case None => inode !in l.resolved && Lookup(l.waiting, inode) == Standing(ms, n, inode)
  }

  ghost predicate KnowsAll(ms: seq<Member>, n: nat, l: CpioLinks.Links)
    requires n <= |ms|
  {
    CpioLinks.Sorted(l.waiting) && forall inode :: Knows(ms, n, l, inode)
  }

  lemma {:induction false} LinksAre(s: seq<Tagged>, path: seq<byte>)
    ensures AllAsLinks(s, path) == LinksOf(s, path)
    decreases |s|
  {
    if s != [] {
      LinksAre(s[1..], path);
      assert AllAsLinks(s, path) == [Tagged(s[0].from, AsLink(s[0].entry, path))] + AllAsLinks(s[1..], path);
    }
  }

  lemma OfferKnows(ms: seq<Member>, n: nat, l: CpioLinks.Links, inode: Inode)
    requires n < |ms| && KnowsAll(ms, n, l)
    ensures Knows(ms, n + 1, Offer(l, n, ms[n]), inode)
  {
    var m := ms[n];
    assert Knows(ms, n, l, inode) && Knows(ms, n, l, m.inode);
    LookupAdded(l.waiting, m.inode, Tagged(n, m.entry), inode);
    LookupRemoved(l.waiting, m.inode, inode);
  }

  lemma OfferSorted(ms: seq<Member>, n: nat, l: CpioLinks.Links)
    requires n < |ms| && KnowsAll(ms, n, l)
    ensures CpioLinks.Sorted(Offer(l, n, ms[n]).waiting)
  {
    AddSorted(l.waiting, ms[n].inode, Tagged(n, ms[n].entry));
    RemoveSorted(l.waiting, ms[n].inode);
  }

  lemma OfferGives(ms: seq<Member>, n: nat, l: CpioLinks.Links)
    requires n < |ms| && KnowsAll(ms, n, l)
    ensures Offer(l, n, ms[n]).out == l.out + Piece(ms, n)
  {
    var m := ms[n];
    assert Knows(ms, n, l, m.inode);
    LinksAre(Lookup(l.waiting, m.inode), m.entry.path);
  }

  lemma {:induction false} AfterSome(ms: seq<Member>, n: nat)
    requires n <= |ms|
    ensures KnowsAll(ms, n, AfterAll(ms[..n])) && AfterAll(ms[..n]).out == Pieces(ms, n)
    decreases n
  {
    hide Knows, Carrier, Standing, Piece, Offer;
    if n > 0 {
      var l := AfterAll(ms[..n - 1]);
      var next := Offer(l, n - 1, ms[n - 1]);
      AfterSome(ms, n - 1);
      assert ms[..n][..n - 1] == ms[..n - 1];
      assert AfterAll(ms[..n]) == next;
      OfferSorted(ms, n - 1, l);
      OfferGives(ms, n - 1, l);
      forall inode
        ensures Knows(ms, n, next, inode)
      {
        OfferKnows(ms, n - 1, l, inode);
      }
    } else {
      NothingKnown(ms);
    }
  }

  lemma NothingKnown(ms: seq<Member>)
    ensures AfterAll(ms[..0]) == NO_LINKS && KnowsAll(ms, 0, NO_LINKS)
  {
  }

  /** Who still waits at the trailer. */
  predicate Waits(ms: seq<Member>, w: Table<Tagged>, inode: Inode) {
    Lookup(w, inode) == if Carrier(ms, |ms|, inode).Some? then [] else Standing(ms, |ms|, inode)
  }

  /** Everything that comes out, in order: member by member, and at the trailer,
      inode by inode, those that stood for data that never came. */
  lemma OutputIs(ms: seq<Member>)
    ensures var w := AfterAll(ms).waiting;
            Output(ms) == Pieces(ms, |ms|) + Flat(w) && CpioLinks.Sorted(w) && forall inode :: Waits(ms, w, inode)
  {
    assert ms[..|ms|] == ms;
    AfterSome(ms, |ms|);
    forall inode
      ensures Waits(ms, AfterAll(ms).waiting, inode)
    {
      assert Knows(ms, |ms|, AfterAll(ms), inode);
    }
  }
}
