/**
  LZMA as its format is described: packets, the bytes they stand for, and the
  binary choices they are coded as.

  A match repeats what was written some distance back, and the last four
  distances, the latest first, need not be given again. Every choice has a
  context, and each context its own estimate in the coder's table.
 */
module LzmaPackets {
  import opened Arithmetic
  import opened Bytes
  import opened RangeCoding
  import opened Wrappers

  type Recency = k: nat | k < 4

  datatype Packet = Lit(b: byte) | Match(dist: nat, len: nat) | ShortRep | Rep(k: Recency, len: nat)

  /** How many bits of the byte before a literal, and of its position and that
      of a match, its contexts depend on. */
  datatype Props = Props(lc: nat, lp: nat, pb: nat)
  {
    predicate Fits() {
      lc <= 8 && lp <= 4 && pb <= 4
    }
  }

  // ─── What packets stand for ──────────────────────────────────────

  /** `len` bytes more, each equal to the one `dist` before it. */
  function Repeated(out: seq<byte>, dist: nat, len: nat): (r: seq<byte>)
    ensures |out| <= |r| <= |out| + len && r[..|out|] == out
    decreases len
  {
    if len > 0 && 1 <= dist <= |out| then Repeated(out + [out[|out| - dist]], dist, len - 1) else out
  }

  lemma {:induction false} RepeatedIs(out: seq<byte>, dist: nat, len: nat)
    requires 1 <= dist <= |out|
    ensures var r := Repeated(out, dist, len);
            && |r| == |out| + len
            && forall i :: |out| <= i < |r| ==> r[i] == r[i - dist]
    decreases len
  {
    if len > 0 {
      RepeatedIs(out + [out[|out| - dist]], dist, len - 1);
      var r := Repeated(out, dist, len);
      assert r[..|out| + 1] == out + [out[|out| - dist]];
      assert r[|out| - dist] == r[..|out|][|out| - dist];
    }
  }

  /** The last four distances, the latest first. */
  function Recent(ps: seq<Packet>): (r: seq<nat>)
    ensures |r| == 4
  {
    if ps == [] then [1, 1, 1, 1] else
    var was := Recent(ps[..|ps| - 1]);
    match ps[|ps| - 1]
    case Match(dist, _) => [dist] + was[..3]
    case Rep(k, _) => [was[k]] + was[..k] + was[k + 1..]
    case _ => was
  }

  function Expansion(ps: seq<Packet>): seq<byte> {
    if ps == [] then [] else
    var before := ps[..|ps| - 1];
    var out := Expansion(before);
    match ps[|ps| - 1]
    case Lit(b) => out + [b]
    case Match(dist, len) => Repeated(out, dist, len)
    case ShortRep => Repeated(out, Recent(before)[0], 1)
    case Rep(k, len) => Repeated(out, Recent(before)[k], len)
  }

  /** A match copies 2 to 273 bytes out of the last `size`. */
  predicate Matches(ps: seq<Packet>, x: Packet, size: nat) {
    var n := |Expansion(ps)|;
    match x
    case Lit(_) => true
    case Match(dist, len) => 1 <= dist <= Min(n, size) && 2 <= len <= 273
    case ShortRep => n > 0
    case Rep(_, len) => n > 0 && 2 <= len <= 273
  }

  predicate Sound(ps: seq<Packet>, size: nat) {
    ps == [] || (Sound(ps[..|ps| - 1], size) && Matches(ps[..|ps| - 1], ps[|ps| - 1], size))
  }

  lemma Last(ps: seq<Packet>, x: Packet)
    ensures (ps + [x])[..|ps + [x]| - 1] == ps && (ps + [x])[|ps + [x]| - 1] == x
  {
  }

  predicate Reach(r: seq<nat>, n: nat)
    requires |r| == 4
  {
    1 <= r[0] <= n && 1 <= r[1] <= n && 1 <= r[2] <= n && 1 <= r[3] <= n
  }

  lemma ToFront(was: seq<nat>, k: Recency, n: nat)
    requires |was| == 4 && Reach(was, n)
    ensures Reach([was[k]] + was[..k] + was[k + 1..], n)
  {
    var r := [was[k]] + was[..k] + was[k + 1..];
    assert r[1] in was && r[2] in was && r[3] in was;
  }

  /** No distance reaches behind the first byte or out of the window. */
  lemma {:induction false} RecentReach(ps: seq<Packet>, size: nat)
    requires Sound(ps, size) && size >= 1
    ensures Reach(Recent(ps), Min(if Expansion(ps) == [] then 1 else |Expansion(ps)|, size))
    decreases |ps|
  {
    if ps != [] {
      var before := ps[..|ps| - 1];
      RecentReach(before, size);
      var n := Min(if Expansion(before) == [] then 1 else |Expansion(before)|, size);
      assert |Expansion(before)| <= |Expansion(ps)|;
      match ps[|ps| - 1] {
        case Rep(k, _) => ToFront(Recent(before), k, n);
        case _ =>
      }
    }
  }

  // ─── The state ───────────────────────────────────────────────────

  predicate AfterCopy(ps: seq<Packet>) {
    ps != [] && !ps[|ps| - 1].Lit?
  }

  /** The kind of the last packet. */
  function Kind(ps: seq<Packet>): nat {
    if ps == [] then 0 else
    match ps[|ps| - 1]
    case Rep(_, _) => 1
    case ShortRep => 2
    case _ => 0
  }

  /** What literals remember of the copy before them: after another copy a
      short repetition is like any other. */
  function Trace(ps: seq<Packet>): nat {
    if ps != [] && AfterCopy(ps[..|ps| - 1]) then Min(Kind(ps), 1) else Kind(ps)
  }

  /** What the last packets were: three literals or more; two or one, and the
      copy before them; a copy after a literal; or after another copy. */
  function StateOf(ps: seq<Packet>): (s: nat)
    ensures s < 12
  {
    var n := |ps|;
    if AfterCopy(ps) then (if AfterCopy(ps[..n - 1]) then 10 else 7) + Trace(ps)
    else if n >= 2 && AfterCopy(ps[..n - 1]) then 4 + Trace(ps[..n - 1])
    else if n >= 3 && AfterCopy(ps[..n - 2]) then 1 + Trace(ps[..n - 2])
    else 0
  }

  // ─── Contexts ────────────────────────────────────────────────────

  /** The trees numbers are coded in, from the root or, from their lowest bit
      on, the two `SpecPos` and `Align`. */
  datatype Tree =
    | LowLen(rep: bool, pos: nat)
    | MidLen(rep: bool, pos: nat)
    | HighLen(rep: bool)
    | PosSlots(lenState: nat)
    | SpecPos(slot: nat)
    | Align
    | LitBits(lit: nat, plane: nat)

  datatype Context =
    | IsMatch(state: nat, pos: nat)
    | IsRep(state: nat)
    | IsRepG0(state: nat)
    | IsRepG1(state: nat)
    | IsRepG2(state: nat)
    | IsRep0Long(state: nat, pos: nat)
    | Choice(rep: bool)
    | Choice2(rep: bool)
    | Node(tree: Tree, node: nat)

  function Depth(t: Tree): nat {
    match t
    case LowLen(_, _) => 3
    case MidLen(_, _) => 3
    case HighLen(_) => 8
    case PosSlots(_) => 6
    case SpecPos(slot) => if slot < 4 then 0 else slot / 2 - 1
    case Align => 4
    case LitBits(_, _) => 8
  }

  /** The contexts there are, with `lits` kinds of literals. */
  predicate InUse(c: Context, lits: nat) {
    match c
    case IsMatch(s, pos) => s < 12 && pos < 16
    case IsRep0Long(s, pos) => s < 12 && pos < 16
    case IsRep(s) => s < 12
    case IsRepG0(s) => s < 12
    case IsRepG1(s) => s < 12
    case IsRepG2(s) => s < 12
    case Choice(_) => true
    case Choice2(_) => true
    case Node(t, node) =>
      && 1 <= node < Pow2(Depth(t))
      && match t
         case LowLen(_, pos) => pos < 16
         case MidLen(_, pos) => pos < 16
         case PosSlots(ls) => ls < 4
         case SpecPos(slot) => 4 <= slot < 14
         case LitBits(lit, plane) => lit < lits && plane < 3
         case _ => true
  }

  /** Where the trees of the slots from 4 on start. */
  const SPEC_STARTS: seq<nat> := [0, 1, 2, 5, 8, 15, 22, 37, 52, 83]

  function LenCoder(rep: bool): nat {
    if rep then 946 else 432
  }

  function Root(t: Tree): nat {
    match t
    case LowLen(rep, pos) => LenCoder(rep) + 2 + 8 * pos
    case MidLen(rep, pos) => LenCoder(rep) + 130 + 8 * pos
    case HighLen(rep) => LenCoder(rep) + 258
    case PosSlots(ls) => 1460 + 64 * ls
    case SpecPos(slot) => 1716 + (if 4 <= slot < 14 then SPEC_STARTS[slot - 4] else 0)
    case Align => 1831
    case LitBits(lit, plane) => 1847 + 0x300 * lit + 0x100 * plane
  }

  /** Where in the table the estimate of a context is. */
  function Slot(c: Context): nat {
    match c
    case IsMatch(s, pos) => 16 * s + pos
    case IsRep(s) => 192 + s
    case IsRepG0(s) => 204 + s
    case IsRepG1(s) => 216 + s
    case IsRepG2(s) => 228 + s
    case IsRep0Long(s, pos) => 240 + 16 * s + pos
    case Choice(rep) => LenCoder(rep)
    case Choice2(rep) => LenCoder(rep) + 1
    case Node(t, node) => Root(t) + node
  }

  /** The part of the table a kind of context has to itself. */
  function Part(c: Context): (nat, nat) {
    match c
    case IsMatch(_, _) => (0, 192)
    case IsRep(_) => (192, 204)
    case IsRepG0(_) => (204, 216)
    case IsRepG1(_) => (216, 228)
    case IsRepG2(_) => (228, 240)
    case IsRep0Long(_, _) => (240, 432)
    case Choice(rep) => (LenCoder(rep), LenCoder(rep) + 1)
    case Choice2(rep) => (LenCoder(rep) + 1, LenCoder(rep) + 2)
    case Node(LowLen(rep, _), _) => (LenCoder(rep) + 2, LenCoder(rep) + 130)
    case Node(MidLen(rep, _), _) => (LenCoder(rep) + 130, LenCoder(rep) + 258)
    case Node(HighLen(rep), _) => (LenCoder(rep) + 258, LenCoder(rep) + 514)
    case Node(PosSlots(_), _) => (1460, 1716)
    case Node(SpecPos(_), _) => (1716, 1831)
    case Node(Align, _) => (1831, 1847)
    case Node(LitBits(_, _), _) => (1847, 1847 + 0x300 * (if c.tree.LitBits? then c.tree.lit + 1 else 0))
  }

  lemma SpecPosIs(slot: nat, node: nat)
    requires 4 <= slot < 14 && 1 <= node < Pow2(Depth(SpecPos(slot)))
    ensures SPEC_STARTS[slot - 4] < SPEC_STARTS[slot - 4] + node < 115
    ensures slot < 13 ==> SPEC_STARTS[slot - 4] + node <= SPEC_STARTS[slot - 3]
  {
    SmallPowers();
    assert slot == 4 || slot == 5 || slot == 6 || slot == 7 || slot == 8 || slot == 9 || slot == 10 || slot == 11
           || slot == 12 || slot == 13;
  }

  lemma InPart(c: Context, lits: nat)
    requires InUse(c, lits)
    ensures Part(c).0 <= Slot(c) < Part(c).1
    ensures c.Node? ==> c.node < Pow2(Depth(c.tree))
  {
    SmallPowers();
    match c {
      case Node(SpecPos(slot), node) => SpecPosIs(slot, node);
      case _ =>
    }
  }

  lemma {:induction false} SpecStartsGrow(a: nat, b: nat)
    requires 4 <= a < b < 14
    ensures SPEC_STARTS[a - 3] <= SPEC_STARTS[b - 4]
    decreases b
  {
    assert forall i :: 0 <= i < 9 ==> SPEC_STARTS[i] < SPEC_STARTS[i + 1];
    if a + 1 < b {
      SpecStartsGrow(a, b - 1);
      assert SPEC_STARTS[b - 5] < SPEC_STARTS[b - 4];
    }
  }

  lemma SameSpecPos(a: nat, m: nat, b: nat, n: nat)
    requires 4 <= a < 14 && 1 <= m < Pow2(Depth(SpecPos(a)))
    requires 4 <= b < 14 && 1 <= n < Pow2(Depth(SpecPos(b)))
    requires SPEC_STARTS[a - 4] + m == SPEC_STARTS[b - 4] + n
    ensures a == b && m == n
  {
    SpecPosIs(a, m);
    SpecPosIs(b, n);
    if a < b {
      SpecStartsGrow(a, b);
    } else if b < a {
      SpecStartsGrow(b, a);
    }
  }

  lemma SameKind(a: Context, b: Context, lits: nat)
    requires InUse(a, lits) && InUse(b, lits) && Slot(a) == Slot(b)
    requires Part(a).0 <= Slot(a) < Part(a).1 && Part(b).0 <= Slot(b) < Part(b).1
    ensures a.Node? && a.tree.LitBits? <==> b.Node? && b.tree.LitBits?
    ensures (a.Node? && a.tree.LitBits?) || Part(a) == Part(b)
  {
    hide InUse, Slot;
  }

  lemma SameTree(a: Tree, m: nat, b: Tree, n: nat, lits: nat)
    requires InUse(Node(a, m), lits) && InUse(Node(b, n), lits) && Root(a) + m == Root(b) + n
    requires a.LitBits? <==> b.LitBits?
    requires a.LitBits? || Part(Node(a, m)) == Part(Node(b, n))
    ensures a == b && m == n
  {
    SmallPowers();
    match a {
      case SpecPos(slot) => SameSpecPos(slot, m, b.slot, n);
      case LitBits(_, _) =>
      case _ =>
    }
  }

  /** No two contexts share an estimate. */
  lemma SlotsDiffer(a: Context, b: Context, lits: nat)
    requires InUse(a, lits) && InUse(b, lits) && Slot(a) == Slot(b)
    ensures a == b
  {
    InPart(a, lits);
    InPart(b, lits);
    SameKind(a, b, lits);
    if a.Node? {
      hide Root, InUse;
      SameTree(a.tree, a.node, b.tree, b.node, lits);
    }
  }

  // ─── Numbers as choices ──────────────────────────────────────────

  function BitAt(x: nat, i: nat): bool {
    Quotient(x, Pow2(i)) % 2 == 1
  }

  /** The node reached by the top `j` of the `depth` bits of `x`. */
  function NodeAt(x: nat, depth: nat, j: nat): nat
    requires j <= depth
  {
    Quotient(Pow2(depth) + x, Pow2(depth - j))
  }

  /** The node reached by the low `i` bits, the lowest first. */
  function ReverseNodeAt(x: nat, i: nat): nat {
    if i > 0 then 2 * ReverseNodeAt(x, i - 1) + (if BitAt(x, i - 1) then 1 else 0) else 1
  }

  function Picked(c: Context, bit: bool): Event {
    Event(Slot(c), bit)
  }

  /** A bit of `x`, in the context of the bits above it. */
  function TreeEvent(t: Tree, x: nat, j: nat): Event
    requires j < Depth(t)
  {
    Picked(Node(t, NodeAt(x, Depth(t), j)), BitAt(x, Depth(t) - 1 - j))
  }

  function TreeEvents(t: Tree, x: nat): (e: seq<Event>)
    ensures |e| == Depth(t)
  {
    seq(Depth(t), j requires 0 <= j < Depth(t) => TreeEvent(t, x, j))
  }

  /** A bit of `x`, in the context of the bits below it. */
  function ReverseEvent(t: Tree, x: nat, i: nat): Event {
    Picked(Node(t, ReverseNodeAt(x, i)), BitAt(x, i))
  }

  function ReverseEvents(t: Tree, x: nat): (e: seq<Event>)
    ensures |e| == Depth(t)
  {
    seq(Depth(t), i requires 0 <= i => ReverseEvent(t, x, i))
  }

  function DirectEvents(x: nat, n: nat): (e: seq<Event>)
    ensures |e| == n
  {
    seq(n, j requires 0 <= j < n => Direct(BitAt(x, n - 1 - j)))
  }

  // ─── Packets as choices ──────────────────────────────────────────

  function ByteBack(out: seq<byte>, dist: nat): byte {
    if 1 <= dist <= |out| then out[|out| - dist] else 0
  }

  function PosBits(p: Props, out: seq<byte>): nat {
    Remainder(|out|, Pow2(p.pb))
  }

  /** The low bits of the position above the top bits of the byte before. */
  function LitKind(p: Props, out: seq<byte>): nat
    requires p.Fits()
  {
    Remainder(|out|, Pow2(p.lp)) * Pow2(p.lc) + Quotient(ByteBack(out, 1), Pow2(8 - p.lc))
  }

  /** Which tree the next bit of `b` is in: as long as it has been like `mate`,
      one that depends on the next bit of that. */
  function Plane(b: byte, mate: Option<byte>, j: nat): nat
    requires j < 8
  {
    if mate.Some? && Quotient(b, Pow2(8 - j)) == Quotient(mate.value, Pow2(8 - j)) then
      (if BitAt(mate.value, 7 - j) then 2 else 1)
    else 0
  }

  function LitEvent(lit: nat, b: byte, mate: Option<byte>, j: nat): Event
    requires j < 8
  {
    Picked(Node(LitBits(lit, Plane(b, mate, j)), NodeAt(b, 8, j)), BitAt(b, 7 - j))
  }

  function LitEvents(lit: nat, b: byte, mate: Option<byte>): (e: seq<Event>)
    ensures |e| == 8
  {
    seq(8, j requires 0 <= j < 8 => LitEvent(lit, b, mate, j))
  }

  function LenEvents(rep: bool, pos: nat, len: nat): seq<Event>
    requires 2 <= len
  {
    if len < 10 then [Picked(Choice(rep), false)] + TreeEvents(LowLen(rep, pos), len - 2)
    else if len < 18 then
      [Picked(Choice(rep), true), Picked(Choice2(rep), false)] + TreeEvents(MidLen(rep, pos), len - 10)
    else [Picked(Choice(rep), true), Picked(Choice2(rep), true)] + TreeEvents(HighLen(rep), len - 18)
  }

  function Log2(n: nat): (k: nat)
    ensures n > 0 ==> Pow2(k) <= n < 2 * Pow2(k)
  {
    if n >= 2 then Log2(n / 2) + 1 else 0
  }

  /** The two top bits of a distance less 1, and how many follow them. */
  function SlotOf(d: nat): nat {
    if d < 4 then d else 2 * Log2(d) + (if BitAt(d, Log2(d) - 1) then 1 else 0)
  }

  /** The bits below those two. */
  function FooterOf(d: nat): nat
    requires d >= 4
  {
    Remainder(d, Pow2(Log2(d) - 1))
  }

  function DistEvents(len: nat, d: nat): seq<Event>
    requires 2 <= len
  {
    TreeEvents(PosSlots(Min(len - 2, 3)), SlotOf(d))
    + (if d < 4 then []
       else if d < 128 then ReverseEvents(SpecPos(SlotOf(d)), FooterOf(d))
       else DirectEvents(FooterOf(d) / 16, Log2(d) - 5) + ReverseEvents(Align, FooterOf(d) % 16))
  }

  function MatchEvents(p: Props, ps: seq<Packet>, len: nat, d: nat): seq<Event>
    requires 2 <= len
  {
    var pos := PosBits(p, Expansion(ps));
    [Picked(IsMatch(StateOf(ps), pos), true), Picked(IsRep(StateOf(ps)), false)]
    + LenEvents(false, pos, len) + DistEvents(len, d)
  }

  /** Which of the last distances is meant. */
  function RecencyEvents(state: nat, pos: nat, k: Recency): seq<Event> {
    if k == 0 then [Picked(IsRepG0(state), false), Picked(IsRep0Long(state, pos), true)]
    else if k == 1 then [Picked(IsRepG0(state), true), Picked(IsRepG1(state), false)]
    else [Picked(IsRepG0(state), true), Picked(IsRepG1(state), true), Picked(IsRepG2(state), k == 3)]
  }

  /** What codes `x` after `ps`. */
  function PacketEvents(p: Props, ps: seq<Packet>, x: Packet, size: nat): seq<Event>
    requires p.Fits() && Matches(ps, x, size)
  {
    var state, out := StateOf(ps), Expansion(ps);
    var pos := PosBits(p, out);
    match x
    case Lit(b) =>
      [Picked(IsMatch(state, pos), false)]
      + LitEvents(LitKind(p, out), b, if AfterCopy(ps) then Some(ByteBack(out, Recent(ps)[0])) else None)
    case Match(dist, len) => MatchEvents(p, ps, len, dist - 1)
    case ShortRep =>
      [Picked(IsMatch(state, pos), true), Picked(IsRep(state), true), Picked(IsRepG0(state), false),
       Picked(IsRep0Long(state, pos), false)]
    case Rep(k, len) =>
      [Picked(IsMatch(state, pos), true), Picked(IsRep(state), true)] + RecencyEvents(state, pos, k)
      + LenEvents(true, pos, len)
  }

  /** What comes after the packets: nothing, if the size is declared; a match
      from further back than there is output, whose distance, less 1, is all
      ones in the end mark; or a repetition where there is nothing to repeat. */
  datatype Ending = AtSize | Beyond(len: nat, d: nat) | NothingToRepeat

  const MARK := Beyond(2, 0xFFFF_FFFF)

  predicate Ends(ps: seq<Packet>, e: Ending, size: nat) {
    match e
    case AtSize => true
    case Beyond(len, d) => 2 <= len <= 273 && Min(|Expansion(ps)|, size) <= d < TWO_32
    case NothingToRepeat => Expansion(ps) == []
  }

  /** The end mark ends whatever came before it. */
  lemma MarkEnds(ps: seq<Packet>, size: nat)
    requires size < TWO_32
    ensures Ends(ps, MARK, size)
  {
  }

  /** So does a match from two bytes back, after one. */
  lemma BeyondEnds(size: nat)
    ensures var ps := [Lit(0x61)];
            Sound(ps, size) && Ends(ps, Beyond(2, 1), size) && Expansion(ps) == [0x61]
  {
    var ps := [Lit(0x61)];
    assert ps[..0] == [];
  }

  function EndEvents(p: Props, ps: seq<Packet>, e: Ending, size: nat): seq<Event>
    requires Ends(ps, e, size)
  {
    match e
    case AtSize => []
    case Beyond(len, d) => MatchEvents(p, ps, len, d)
    case NothingToRepeat =>
      [Picked(IsMatch(StateOf(ps), PosBits(p, Expansion(ps))), true), Picked(IsRep(StateOf(ps)), true)]
  }

  function PacketsEvents(p: Props, ps: seq<Packet>, size: nat): seq<Event>
    requires p.Fits() && Sound(ps, size)
  {
    if ps == [] then [] else
    var before := ps[..|ps| - 1];
    PacketsEvents(p, before, size) + PacketEvents(p, before, ps[|ps| - 1], size)
  }

  /** All choices of a stream. */
  function Choices(p: Props, ps: seq<Packet>, e: Ending, size: nat): seq<Event>
    requires p.Fits() && Sound(ps, size) && Ends(ps, e, size)
  {
    PacketsEvents(p, ps, size) + EndEvents(p, ps, e, size)
  }

  // ─── Every choice has a context ──────────────────────────────────

  lemma TwoDigits(q: nat, h: nat, b: nat)
    ensures q * (2 * h + b) == 2 * q * h + q * b
    ensures b <= 1 ==> q * b == if b == 1 then q else 0
  {
  }

  /** A digit in base `q` is a digit in base `2 * q` and a bit. */
  lemma Halves(x: nat, q: nat)
    requires q > 0
    ensures Quotient(x, q) == 2 * Quotient(x, 2 * q) + Quotient(x, q) % 2
    ensures Remainder(x, 2 * q) == Remainder(x, q) + (if Quotient(x, q) % 2 == 1 then q else 0)
  {
    var d := x / q;
    TwoDigits(q, d / 2, d % 2);
    DivModUnique(x, 2 * q, d / 2, q * (d % 2) + x % q);
  }

  lemma PlusMultiple(x: nat, q: nat, m: nat)
    requires q > 0
    ensures Quotient(q * m + x, q) == m + Quotient(x, q)
  {
    assert q * m + x == q * (m + x / q) + x % q by {
      assert q * (m + x / q) == q * m + q * (x / q);
    }
    DivModUnique(q * m + x, q, m + x / q, x % q);
  }

  lemma NodeIs(x: nat, n: nat, j: nat)
    requires j <= n
    ensures NodeAt(x, n, j) == Pow2(j) + Quotient(x, Pow2(n - j))
  {
    Pow2Add(n - j, j);
    PlusMultiple(x, Pow2(n - j), Pow2(j));
  }

  /** Each bit leads to a child of the node. */
  lemma NodeNext(x: nat, n: nat, j: nat)
    requires j < n
    ensures NodeAt(x, n, j + 1) == 2 * NodeAt(x, n, j) + (if BitAt(x, n - 1 - j) then 1 else 0)
  {
    NodeIs(x, n, j);
    NodeIs(x, n, j + 1);
    Halves(x, Pow2(n - 1 - j));
  }

  lemma NodeEnds(x: nat, n: nat)
    requires x < Pow2(n)
    ensures NodeAt(x, n, 0) == 1 && NodeAt(x, n, n) == Pow2(n) + x
  {
    NodeIs(x, n, 0);
    NodeIs(x, n, n);
    DivModUnique(x, Pow2(n), 0, x);
  }

  lemma NodeRange(x: nat, n: nat, j: nat)
    requires x < Pow2(n) && j < n
    ensures 1 <= NodeAt(x, n, j) < Pow2(n)
  {
    NodeIs(x, n, j);
    Pow2Add(n - j, j);
    QuotientBelow(x, Pow2(n - j), Pow2(j));
    Pow2Mono(j + 1, n);
    Doubled(j);
  }

  lemma QuotientBelow(x: nat, q: nat, m: nat)
    requires q > 0 && x < q * m
    ensures Quotient(x, q) < m
  {
    if x / q >= m {
      MulMono(m, x / q, q);
    }
  }

  lemma {:induction false} ReverseNodeRange(x: nat, i: nat)
    ensures Pow2(i) <= ReverseNodeAt(x, i) < 2 * Pow2(i)
    decreases i
  {
    if i > 0 {
      ReverseNodeRange(x, i - 1);
    }
  }

  function LitKinds(p: Props): nat {
    Pow2(p.lc + p.lp)
  }

  ghost predicate HasContext(e: Event, lits: nat) {
    e.Event? ==> exists c: Context :: InUse(c, lits) && e.context == Slot(c)
  }

  ghost predicate AllHave(es: seq<Event>, lits: nat) {
    forall i :: 0 <= i < |es| ==> HasContext(es[i], lits)
  }

  lemma PickedHas(c: Context, bit: bool, lits: nat)
    requires InUse(c, lits)
    ensures HasContext(Picked(c, bit), lits)
  {
  }

  lemma TreeHas(t: Tree, x: nat, lits: nat)
    requires x < Pow2(Depth(t)) && InUse(Node(t, 1), lits)
    ensures AllHave(TreeEvents(t, x), lits)
  {
    hide Slot, NodeAt, BitAt, HasContext, Pow2;
    forall j | 0 <= j < Depth(t)
      ensures HasContext(TreeEvents(t, x)[j], lits)
    {
      NodeRange(x, Depth(t), j);
      PickedHas(Node(t, NodeAt(x, Depth(t), j)), BitAt(x, Depth(t) - 1 - j), lits);
    }
  }

  lemma ReverseHas(t: Tree, x: nat, lits: nat)
    requires InUse(Node(t, 1), lits)
    ensures AllHave(ReverseEvents(t, x), lits)
  {
    hide Slot, ReverseNodeAt, BitAt, HasContext, Pow2;
    forall i | 0 <= i < Depth(t)
      ensures HasContext(ReverseEvents(t, x)[i], lits)
    {
      ReverseNodeRange(x, i);
      Pow2Mono(i + 1, Depth(t));
      Doubled(i);
      PickedHas(Node(t, ReverseNodeAt(x, i)), BitAt(x, i), lits);
    }
  }

  lemma Doubled(k: nat)
    ensures Pow2(k + 1) == 2 * Pow2(k)
  {
  }

  lemma LitHas(lit: nat, b: byte, mate: Option<byte>, lits: nat)
    requires lit < lits
    ensures AllHave(LitEvents(lit, b, mate), lits)
  {
    SmallPowers();
    hide Slot, NodeAt, BitAt, HasContext, Pow2;
    forall j | 0 <= j < 8
      ensures HasContext(LitEvents(lit, b, mate)[j], lits)
    {
      NodeRange(b, 8, j);
      PickedHas(Node(LitBits(lit, Plane(b, mate, j)), NodeAt(b, 8, j)), BitAt(b, 7 - j), lits);
    }
  }

  lemma LenHas(rep: bool, pos: nat, len: nat, lits: nat)
    requires 2 <= len <= 273 && pos < 16
    ensures AllHave(LenEvents(rep, pos, len), lits)
  {
    SmallPowers();
    hide Slot, HasContext, TreeEvents, Pow2;
    PickedHas(Choice(rep), len >= 10, lits);
    PickedHas(Choice2(rep), len >= 18, lits);
    if len < 10 {
      TreeHas(LowLen(rep, pos), len - 2, lits);
    } else if len < 18 {
      TreeHas(MidLen(rep, pos), len - 10, lits);
    } else {
      TreeHas(HighLen(rep), len - 18, lits);
    }
  }

  lemma LogBound(d: nat, k: nat)
    requires d < Pow2(k) && k > 0
    ensures Log2(d) < k
  {
    hide Log2;
    Pow2Mono(Min(k, Log2(d)), Log2(d));
    if d == 0 {
      LogOfNothing();
    }
  }

  lemma LogAbove(d: nat, k: nat)
    requires d >= Pow2(k)
    ensures Log2(d) >= k
  {
    Pow2Mono(0, k);
    hide Log2;
    Pow2Mono(Min(Log2(d) + 1, k), k);
    Doubled(Log2(d));
  }

  lemma LogOfNothing()
    ensures Log2(0) == 0
  {
  }

  lemma Pow2Of32()
    ensures Pow2(32) == TWO_32
  {
    SmallPowers();
    Pow2Add(8, 8);
    Pow2Add(16, 16);
  }

  /** A slot has six bits; those from 4 to 13 have trees of their own. */
  lemma SlotBound(d: nat)
    requires d < TWO_32
    ensures SlotOf(d) < 64 && (d >= 4 ==> 2 <= Log2(d) < 32 && SlotOf(d) / 2 == Log2(d))
    ensures 4 <= d < 128 ==> 4 <= SlotOf(d) < 14
    ensures d >= 128 ==> SlotOf(d) >= 14
  {
    Pow2Of32();
    SmallPowers();
    LogBound(d, 32);
    hide Log2, BitAt;
    if d >= 4 {
      LogAbove(d, 2);
      if d < 128 {
        LogBound(d, 7);
      } else {
        LogAbove(d, 7);
      }
    }
  }

  lemma DistHas(len: nat, d: nat, lits: nat)
    requires 2 <= len && d < TWO_32
    ensures AllHave(DistEvents(len, d), lits)
  {
    SmallPowers();
    SlotBound(d);
    hide Slot, HasContext, TreeEvents, ReverseEvents, SlotOf, FooterOf, Log2;
    TreeHas(PosSlots(Min(len - 2, 3)), SlotOf(d), lits);
    if 4 <= d < 128 {
      Pow2Mono(1, Depth(SpecPos(SlotOf(d))));
      hide Pow2;
      ReverseHas(SpecPos(SlotOf(d)), FooterOf(d), lits);
    } else if d >= 128 {
      hide Pow2;
      ReverseHas(Align, FooterOf(d) % 16, lits);
    }
  }

  lemma PosBound(p: Props, out: seq<byte>)
    requires p.Fits()
    ensures PosBits(p, out) < 16
  {
    SmallPowers();
    Pow2Mono(p.pb, 4);
  }

  lemma LitBound(p: Props, out: seq<byte>)
    requires p.Fits()
    ensures LitKind(p, out) < LitKinds(p)
  {
    SmallPowers();
    Pow2Add(8 - p.lc, p.lc);
    assert 8 - p.lc + p.lc == 8;
    Pow2Add(p.lc, p.lp);
    hide Pow2, ByteBack;
    DigitsBelow(|out|, Pow2(p.lp), ByteBack(out, 1), Pow2(8 - p.lc), Pow2(p.lc));
  }

  lemma DigitsBelow(n: nat, a: nat, x: nat, q: nat, b: nat)
    requires a > 0 && q > 0 && x < q * b
    ensures Remainder(n, a) * b + Quotient(x, q) < b * a
  {
    if x / q >= b {
      MulMono(b, x / q, q);
    }
    MulMono(n % a + 1, a, b);
    assert (n % a + 1) * b == n % a * b + b;
  }

  lemma MatchHas(p: Props, ps: seq<Packet>, len: nat, d: nat, lits: nat)
    requires p.Fits() && 2 <= len <= 273 && d < TWO_32
    ensures AllHave(MatchEvents(p, ps, len, d), lits)
  {
    hide Slot, HasContext, PosBits, LenEvents, DistEvents, StateOf, Expansion;
    var pos, s := PosBits(p, Expansion(ps)), StateOf(ps);
    PosBound(p, Expansion(ps));
    PickedHas(IsMatch(s, pos), true, lits);
    PickedHas(IsRep(s), false, lits);
    LenHas(false, pos, len, lits);
    DistHas(len, d, lits);
  }

  lemma RecencyHas(s: nat, pos: nat, k: Recency, lits: nat)
    requires s < 12 && pos < 16
    ensures AllHave(RecencyEvents(s, pos, k), lits)
  {
    hide Slot, HasContext;
    PickedHas(IsRepG0(s), k > 0, lits);
    PickedHas(IsRep0Long(s, pos), true, lits);
    PickedHas(IsRepG1(s), k > 1, lits);
    PickedHas(IsRepG2(s), k == 3, lits);
  }

  lemma PacketHas(p: Props, ps: seq<Packet>, x: Packet, size: nat)
    requires p.Fits() && Matches(ps, x, size) && size < TWO_32
    ensures AllHave(PacketEvents(p, ps, x, size), LitKinds(p))
  {
    hide Slot, HasContext, PosBits, LitEvents, LenEvents, MatchEvents, RecencyEvents, StateOf, Expansion, LitKind,
         LitKinds, AfterCopy, ByteBack, Recent;
    var out, s := Expansion(ps), StateOf(ps);
    var pos, lits := PosBits(p, out), LitKinds(p);
    PosBound(p, out);
    PickedHas(IsMatch(s, pos), !x.Lit?, lits);
    PickedHas(IsRep(s), true, lits);
    match x {
      case Lit(b) =>
        LitBound(p, out);
        LitHas(LitKind(p, out), b, if AfterCopy(ps) then Some(ByteBack(out, Recent(ps)[0])) else None, lits);
      case Match(dist, len) => MatchHas(p, ps, len, dist - 1, lits);
      case ShortRep =>
        PickedHas(IsRepG0(s), false, lits);
        PickedHas(IsRep0Long(s, pos), false, lits);
      case Rep(k, len) =>
        RecencyHas(s, pos, k, lits);
        LenHas(true, pos, len, lits);
    }
  }

  lemma {:induction false} PacketsHave(p: Props, ps: seq<Packet>, size: nat)
    requires p.Fits() && Sound(ps, size) && size < TWO_32
    ensures AllHave(PacketsEvents(p, ps, size), LitKinds(p))
    decreases |ps|
  {
    hide PacketEvents, HasContext;
    if ps != [] {
      var before := ps[..|ps| - 1];
      PacketsHave(p, before, size);
      PacketHas(p, before, ps[|ps| - 1], size);
    }
  }

  lemma EndHas(p: Props, ps: seq<Packet>, e: Ending, size: nat)
    requires p.Fits() && Ends(ps, e, size)
    ensures AllHave(EndEvents(p, ps, e, size), LitKinds(p))
  {
    hide Slot, HasContext, PosBits, MatchEvents, StateOf, Expansion, LitKinds;
    match e {
      case AtSize =>
      case Beyond(len, d) => MatchHas(p, ps, len, d, LitKinds(p));
      case NothingToRepeat =>
        PosBound(p, Expansion(ps));
        PickedHas(IsMatch(StateOf(ps), PosBits(p, Expansion(ps))), true, LitKinds(p));
        PickedHas(IsRep(StateOf(ps)), true, LitKinds(p));
    }
  }

  /** Every choice is made with an estimate of its own. */
  lemma ChoicesHave(p: Props, ps: seq<Packet>, e: Ending, size: nat)
    requires p.Fits() && Sound(ps, size) && Ends(ps, e, size) && size < TWO_32
    ensures AllHave(Choices(p, ps, e, size), LitKinds(p))
    ensures InTable(Choices(p, ps, e, size), 1847 + 0x300 * LitKinds(p))
  {
    hide PacketsEvents, EndEvents, Ends, HasContext, LitKinds;
    PacketsHave(p, ps, size);
    EndHas(p, ps, e, size);
    var es := Choices(p, ps, e, size);
    forall i | 0 <= i < |es|
      ensures InRange(es[i], 1847 + 0x300 * LitKinds(p))
    {
      ContextInTable(es[i], LitKinds(p));
    }
  }

  lemma ContextInTable(e: Event, lits: nat)
    requires HasContext(e, lits)
    ensures InRange(e, 1847 + 0x300 * lits)
  {
    if e.Event? {
      var c: Context :| InUse(c, lits) && e.context == Slot(c);
      InPart(c, lits);
    }
  }
}
