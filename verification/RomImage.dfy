// The binary ROM file system image of tools/mkromfs.py: directory entries holding absolute
// addresses, laid out depth first, and a reader that follows those addresses.
module RomImage {
  import opened Options

  newtype Byte = b: int | 0 <= b < 256

  datatype Node =
    | File(name: seq<Byte>, data: seq<Byte>)
    | Folder(name: seq<Byte>, children: seq<Node>)

  /** The numbers of a directory entry. */
  datatype Dirent = Dirent(kind: nat, name: nat, data: nat, size: nat)

  /** Numbers are packed into 32 bits. */
  const Limit: nat := 0x1_0000_0000

  // ----- Layout

  function Zeros(n: nat): (s: seq<Byte>)
    ensures |s| == n
  {
    if n == 0 then [] else [0] + Zeros(n - 1)
  }

  /** Groups of four bytes for a name of `n` bytes and at least one NUL, and for `n` bytes of
      contents; counted rather than divided, see NameQuadsIs and DataQuadsIs. */
  function NameQuads(n: nat): (q: nat)
    ensures n < 4 * q
  {
    if n < 4 then 1 else 1 + NameQuads(n - 4)
  }

  function DataQuads(n: nat): (q: nat)
    ensures n <= 4 * q
  {
    if n == 0 then 0 else if n <= 4 then 1 else 1 + DataQuads(n - 4)
  }

  lemma {:induction false} NameQuadsIs(n: nat)
    ensures 4 * NameQuads(n) == n + (4 - n % 4)
  {
    if n >= 4 { NameQuadsIs(n - 4); }
  }

  lemma {:induction false} DataQuadsIs(n: nat)
    ensures 4 * DataQuads(n) == n + if n % 4 == 0 then 0 else 4 - n % 4
  {
    if n > 4 { DataQuadsIs(n - 4); }
  }

  function NameSize(n: Node): nat { 4 * NameQuads(|n.name|) }

  /** Contents filled up to a multiple of four bytes. */
  function Filled(n: nat): nat { 4 * DataQuads(n) }

  /** bin_name */
  function NameBytes(n: Node): (s: seq<Byte>)
    ensures |s| == NameSize(n)
  {
    n.name + Zeros(NameSize(n) - |n.name|)
  }

  function Digit(w: nat, i: nat): Byte {
    (match i
     case 0 => w % 0x100
     case 1 => w / 0x100 % 0x100
     case 2 => w / 0x1_0000 % 0x100
     case _ => w / 0x100_0000 % 0x100) as Byte
  }

  /** One little-endian 32-bit word. */
  function Word(w: nat): (s: seq<Byte>)
    ensures |s| == 4
  {
    seq(4, i requires 0 <= i < 4 => Digit(w, i))
  }

  function Pack(d: Dirent): (s: seq<Byte>)
    ensures |s| == 16
  {
    Word(d.kind) + (Word(d.name) + (Word(d.data) + Word(d.size)))
  }

  predicate Packable(d: Dirent) { d.kind < Limit && d.name < Limit && d.data < Limit && d.size < Limit }

  /** The entry of a node whose name, followed by its contents, stands at address `a`. */
  function EntryOf(n: Node, a: nat): Dirent {
    if n.File? then Dirent(0, a, a + NameSize(n), |n.data|) else Dirent(1, a, a + NameSize(n), |n.children|)
  }

  function Size(n: Node): nat
    decreases n, 0
  {
    match n
    case File(_, data) => |data|
    case Folder(_, cs) => 16 * |cs| + Sizes(cs, 0)
  }

  /** Space for the name and the filled-up contents of a child. */
  function Room(c: Node): nat
    decreases c, 1
  {
    NameSize(c) + Filled(Size(c))
  }

  function Sizes(cs: seq<Node>, k: nat): nat
    decreases cs, 0, |cs| - k
  {
    if k >= |cs| then 0 else Room(cs[k]) + Sizes(cs, k + 1)
  }

  /** bin_data: what a node's contents look like when placed at address `base`. */
  function Bin(n: Node, base: nat): seq<Byte>
    decreases n, 0
  {
    match n
    case File(_, data) => data
    case Folder(_, cs) => Entries(cs, 0, base + 16 * |cs|) + Payload(cs, 0, base + 16 * |cs|)
  }

  /** The directory entries of the children from `k` on, their payload starting at `v`. */
  function Entries(cs: seq<Node>, k: nat, v: nat): (s: seq<Byte>)
    ensures k <= |cs| ==> |s| == 16 * (|cs| - k)
    decreases |cs| - k
  {
    if k >= |cs| then [] else Pack(EntryOf(cs[k], v)) + Entries(cs, k + 1, v + Room(cs[k]))
  }

  function Payload(cs: seq<Node>, k: nat, v: nat): seq<Byte>
    decreases cs, 0, |cs| - k
  {
    if k >= |cs| then [] else Chunk(cs[k], v) + Payload(cs, k + 1, v + Room(cs[k]))
  }

  /** The name and the filled-up contents of a child, placed at address `v`. */
  function Chunk(c: Node, v: nat): seq<Byte>
    decreases c, 1
  {
    NameBytes(c) + (Bin(c, v + NameSize(c)) + Zeros(Filled(Size(c)) - Size(c)))
  }

  lemma {:induction false} ChunkLength(c: Node, v: nat)
    ensures |Chunk(c, v)| == Room(c)
    decreases c, 1
  {
    BinLength(c, v + NameSize(c));
  }

  lemma {:induction false} BinLength(n: Node, base: nat)
    ensures |Bin(n, base)| == Size(n)
    decreases n, 0
  {
    if n.Folder? { PayloadLength(n.children, 0, base + 16 * |n.children|); }
  }

  lemma {:induction false} PayloadLength(cs: seq<Node>, k: nat, v: nat)
    ensures |Payload(cs, k, v)| == Sizes(cs, k)
    decreases cs, 0, |cs| - k
  {
    if k < |cs| {
      ChunkLength(cs[k], v);
      PayloadLength(cs, k + 1, v + Room(cs[k]));
    }
  }

  /** Every packed number fits; otherwise packing fails. */
  predicate Packs(cs: seq<Node>, k: nat, v: nat)
    decreases cs, 0, |cs| - k
  {
    k >= |cs| || (NodePacks(cs[k], v) && Packs(cs, k + 1, v + Room(cs[k])))
  }

  predicate NodePacks(n: Node, a: nat)
    decreases n, 1
  {
    && Packable(EntryOf(n, a))
    && (n.Folder? ==> Packs(n.children, 0, a + NameSize(n) + 16 * |n.children|))
  }

  /** The root directory is called "/". */
  function Root(tree: Node): Node
    requires tree.Folder?
  {
    Folder([0x2F], tree.children)
  }

  /** get_bin_data: the root entry, its name, and the tree. */
  function Image(tree: Node, base: nat): seq<Byte>
    requires tree.Folder?
  {
    var root := Root(tree);
    Pack(EntryOf(root, base + 16)) + (NameBytes(root) + Bin(root, base + 16 + NameSize(root)))
  }

  // ----- The reader: it refuses addresses that are not 4-aligned or not inside the image

  /** Whether `n` bytes at address `a` lie inside the image. */
  predicate Inside(img: seq<Byte>, base: nat, a: nat, n: nat) { base <= a && a + n <= base + |img| }

  function NumberAt(img: seq<Byte>, k: nat): nat
    requires k + 4 <= |img|
  {
    img[k] as int + 0x100 * (img[k + 1] as int) + 0x1_0000 * (img[k + 2] as int) + 0x100_0000 * (img[k + 3] as int)
  }

  function EntryAt(img: seq<Byte>, base: nat, a: nat): Option<Dirent> {
    if !Inside(img, base, a, 16) then None else
      var k := a - base;
      Some(Dirent(NumberAt(img, k), NumberAt(img, k + 4), NumberAt(img, k + 8), NumberAt(img, k + 12)))
  }

  /** The bytes from `a` up to the next NUL. */
  function TextAt(img: seq<Byte>, base: nat, a: nat): Option<seq<Byte>>
    decreases base + |img| - a
  {
    if !(base <= a < base + |img|) then None
    else if img[a - base] == 0 then Some([])
    else
      var rest :- TextAt(img, base, a + 1);
      Some([img[a - base]] + rest)
  }

  predicate Sane(img: seq<Byte>, base: nat, a: nat, d: Dirent) {
    a % 4 == 0 && d.name % 4 == 0 && d.data % 4 == 0 && Inside(img, base, d.data, 0)
  }

  function ReadNode(img: seq<Byte>, base: nat, a: nat, depth: nat): Option<Node>
    decreases depth, 0
  {
    var d :- EntryAt(img, base, a);
    if !Sane(img, base, a, d) then None else
      var name :- TextAt(img, base, d.name);
      if d.kind == 0 && Inside(img, base, d.data, d.size) then
        Some(File(name, img[d.data - base..d.data - base + d.size]))
      else if d.kind == 1 && depth > 0 then
        var cs :- ReadNodes(img, base, d.data, d.size, depth - 1);
        Some(Folder(name, cs))
      else None
  }

  function ReadNodes(img: seq<Byte>, base: nat, a: nat, n: nat, depth: nat): Option<seq<Node>>
    decreases depth, 1, n
  {
    if n == 0 then Some([]) else
      var c :- ReadNode(img, base, a, depth);
      var rest :- ReadNodes(img, base, a + 16, n - 1, depth);
      Some([c] + rest)
  }

  /** Names are free of NULs, and folders nest at most `depth` deep. */
  predicate Readable(n: Node, depth: nat)
    decreases depth
  {
    && NoNul(n.name)
    && (n.Folder? ==> depth > 0 && forall i :: 0 <= i < |n.children| ==> Readable(n.children[i], depth - 1))
  }

  predicate NoNul(s: seq<Byte>) { forall i :: 0 <= i < |s| ==> s[i] != 0 }

  /** No name in the tree holds a NUL. */
  predicate Clean(n: Node) {
    NoNul(n.name) && (n.Folder? ==> forall i :: 0 <= i < |n.children| ==> Clean(n.children[i]))
  }

  function Height(n: Node): nat
    decreases n, 0
  {
    if n.File? then 0 else 1 + Heights(n.children, 0)
  }

  function Heights(cs: seq<Node>, k: nat): nat
    decreases cs, 0, |cs| - k
  {
    if k >= |cs| then 0 else
      var h, rest := Height(cs[k]), Heights(cs, k + 1);
      if h > rest then h else rest
  }

  /** A reader going as deep as the tree is high reaches all of it. */
  lemma {:induction false} DeepEnough(n: Node, depth: nat)
    requires Clean(n) && depth >= Height(n)
    ensures Readable(n, depth)
    decreases n, 1
  {
    if n.Folder? {
      forall i | 0 <= i < |n.children| ensures Readable(n.children[i], depth - 1) {
        HeightBelow(n.children, 0, i);
        DeepEnough(n.children[i], depth - 1);
      }
    }
  }

  lemma {:induction false} HeightBelow(cs: seq<Node>, k: nat, i: nat)
    requires k <= i < |cs|
    ensures Height(cs[i]) <= Heights(cs, k)
    decreases i - k
  {
    if k < i { HeightBelow(cs, k + 1, i); }
  }

  // ----- Pieces of an image

  /** `s` stands at address `a`. */
  predicate Has(img: seq<Byte>, base: nat, a: nat, s: seq<Byte>)
    decreases |s|
  {
    && Inside(img, base, a, 0)
    && (s == [] || (Inside(img, base, a, 1) && img[a - base] == s[0] && Has(img, base, a + 1, s[1..])))
  }

  lemma {:induction false} HasBytes(img: seq<Byte>, base: nat, a: nat, s: seq<Byte>)
    ensures Has(img, base, a, s) <==> Inside(img, base, a, |s|) && img[a - base..a - base + |s|] == s
    decreases |s|
  {
    if s != [] {
      HasBytes(img, base, a + 1, s[1..]);
      if Inside(img, base, a, |s|) {
        var k := a - base;
        assert img[k..k + |s|] == [img[k]] + img[k + 1..k + |s|];
      }
    }
  }

  lemma {:induction false} HasParts(img: seq<Byte>, base: nat, a: nat, s: seq<Byte>, t: seq<Byte>)
    requires Has(img, base, a, s + t)
    ensures Has(img, base, a, s) && Has(img, base, a + |s|, t)
    decreases |s|
  {
    if s == [] {
      assert s + t == t;
    } else {
      assert (s + t)[1..] == s[1..] + t;
      HasParts(img, base, a + 1, s[1..], t);
    }
  }

  lemma Quadruple(a: nat, q: nat)
    requires a == 4 * q
    ensures a % 4 == 0
  {
  }

  lemma WordSum(w: nat)
    requires w < Limit
    ensures w == Digit(w, 0) as int + 0x100 * (Digit(w, 1) as int) + 0x1_0000 * (Digit(w, 2) as int) + 0x100_0000 * (Digit(w, 3) as int)
  {
    var a, b, c := w / 0x100, w / 0x1_0000, w / 0x100_0000;
    assert w == a * 0x100 + w % 0x100;
    assert b == a / 0x100;
    assert a == b * 0x100 + a % 0x100;
    assert c == b / 0x100;
    assert b == c * 0x100 + b % 0x100;
  }

  lemma WordRead(img: seq<Byte>, base: nat, a: nat, w: nat)
    requires Inside(img, base, a, 4) && Has(img, base, a, Word(w)) && w < Limit
    ensures NumberAt(img, a - base) == w
  {
    HasBytes(img, base, a, Word(w));
    var k := a - base;
    var s := img[k..k + 4];
    assert img[k] == s[0] && img[k + 1] == s[1] && img[k + 2] == s[2] && img[k + 3] == s[3];
    WordSum(w);
  }

  lemma EntryRead(img: seq<Byte>, base: nat, a: nat, d: Dirent)
    requires Has(img, base, a, Pack(d)) && Packable(d)
    ensures EntryAt(img, base, a) == Some(d)
  {
    HasBytes(img, base, a, Pack(d));
    HasParts(img, base, a, Word(d.kind), Word(d.name) + (Word(d.data) + Word(d.size)));
    HasParts(img, base, a + 4, Word(d.name), Word(d.data) + Word(d.size));
    HasParts(img, base, a + 8, Word(d.data), Word(d.size));
    WordRead(img, base, a, d.kind);
    WordRead(img, base, a + 4, d.name);
    WordRead(img, base, a + 8, d.data);
    WordRead(img, base, a + 12, d.size);
  }

  lemma {:induction false} TextRead(img: seq<Byte>, base: nat, a: nat, s: seq<Byte>)
    requires Has(img, base, a, s + [0]) && NoNul(s)
    ensures TextAt(img, base, a) == Some(s)
    decreases |s|
  {
    if s != [] {
      assert (s + [0])[1..] == s[1..] + [0];
      TextRead(img, base, a + 1, s[1..]);
      assert [s[0]] + s[1..] == s;
    }
  }

  lemma NameRead(img: seq<Byte>, base: nat, a: nat, n: Node)
    requires Has(img, base, a, NameBytes(n)) && NoNul(n.name)
    ensures TextAt(img, base, a) == Some(n.name)
  {
    var pad := Zeros(NameSize(n) - |n.name|);
    assert NameBytes(n) == (n.name + [0]) + pad[1..];
    HasParts(img, base, a, n.name + [0], pad[1..]);
    TextRead(img, base, a, n.name);
  }

  // ----- Main results

  /** Entry, name and contents of `n` stand at `e`, `a` and after the name. */
  predicate Placed(img: seq<Byte>, base: nat, e: nat, n: Node, a: nat) {
    && Has(img, base, e, Pack(EntryOf(n, a))) && Has(img, base, a, NameBytes(n))
    && Has(img, base, a + NameSize(n), Bin(n, a + NameSize(n)))
  }

  /** A node's entry and name are read back; addresses are multiples of four, given as such. */
  lemma HeaderRead(img: seq<Byte>, base: nat, e: nat, n: Node, a: nat, i: nat, j: nat)
    requires Placed(img, base, e, n, a) && Packable(EntryOf(n, a)) && NoNul(n.name)
    requires e == 4 * i && a == 4 * j
    ensures EntryAt(img, base, e) == Some(EntryOf(n, a)) && Sane(img, base, e, EntryOf(n, a))
    ensures TextAt(img, base, a) == Some(n.name)
  {
    EntryRead(img, base, e, EntryOf(n, a));
    NameRead(img, base, a, n);
    Quadruple(e, i);
    Quadruple(a, j);
    Quadruple(a + NameSize(n), j + NameQuads(|n.name|));
  }

  lemma FileFrom(img: seq<Byte>, base: nat, e: nat, n: Node, a: nat, depth: nat)
    requires n.File? && Has(img, base, a + NameSize(n), n.data)
    requires EntryAt(img, base, e) == Some(EntryOf(n, a)) && Sane(img, base, e, EntryOf(n, a))
    requires TextAt(img, base, a) == Some(n.name)
    ensures ReadNode(img, base, e, depth) == Some(n)
  {
    HasBytes(img, base, a + NameSize(n), n.data);
  }

  lemma FolderFrom(img: seq<Byte>, base: nat, e: nat, n: Node, a: nat, depth: nat)
    requires n.Folder? && depth > 0
    requires EntryAt(img, base, e) == Some(EntryOf(n, a)) && Sane(img, base, e, EntryOf(n, a))
    requires TextAt(img, base, a) == Some(n.name)
    requires ReadNodes(img, base, a + NameSize(n), |n.children|, depth - 1) == Some(n.children)
    ensures ReadNode(img, base, e, depth) == Some(n)
  {
  }

  /** A node placed in the image is read back. */
  lemma {:induction false} NodeRead(img: seq<Byte>, base: nat, e: nat, n: Node, a: nat, i: nat, j: nat, depth: nat)
    requires Placed(img, base, e, n, a) && NodePacks(n, a) && Readable(n, depth)
    requires e == 4 * i && a == 4 * j
    ensures ReadNode(img, base, e, depth) == Some(n)
    decreases n, 2
  {
    HeaderRead(img, base, e, n, a, i, j);
    if n.File? {
      FileFrom(img, base, e, n, a, depth);
    } else {
      FolderRead(img, base, n, a + NameSize(n), j + NameQuads(|n.name|), depth - 1);
      FolderFrom(img, base, e, n, a, depth);
    }
  }

  lemma {:induction false} FolderRead(img: seq<Byte>, base: nat, n: Node, d: nat, j: nat, depth: nat)
    requires n.Folder? && Has(img, base, d, Bin(n, d)) && d == 4 * j
    requires Packs(n.children, 0, d + 16 * |n.children|)
    requires forall i :: 0 <= i < |n.children| ==> Readable(n.children[i], depth)
    ensures ReadNodes(img, base, d, |n.children|, depth) == Some(n.children)
    decreases n, 1
  {
    var cs, p := n.children, d + 16 * |n.children|;
    HasParts(img, base, d, Entries(cs, 0, p), Payload(cs, 0, p));
    NodesRead(img, base, d, cs, 0, p, j, j + 4 * |cs|, depth);
    assert cs[0..] == cs;
  }

  lemma {:induction false} NodesRead(img: seq<Byte>, base: nat, e: nat, cs: seq<Node>, k: nat, v: nat, i: nat, j: nat, depth: nat)
    requires k <= |cs| && Has(img, base, e, Entries(cs, k, v)) && Has(img, base, v, Payload(cs, k, v))
    requires Packs(cs, k, v) && e == 4 * i && v == 4 * j
    requires forall m :: k <= m < |cs| ==> Readable(cs[m], depth)
    ensures ReadNodes(img, base, e, |cs| - k, depth) == Some(cs[k..])
    decreases cs, 0, |cs| - k
  {
    if k < |cs| {
      FirstRead(img, base, e, cs, k, v, i, j, depth);
      FirstEntry(img, base, e, cs, k, v);
      FirstContents(img, base, cs, k, v);
      FirstPacks(cs, k, v);
      var j' := NextQuad(cs[k], v, j);
      NodesRead(img, base, e + 16, cs, k + 1, v + Room(cs[k]), i + 4, j', depth);
      NodesFrom(img, base, e, cs, k, depth);
    } else {
      assert cs[k..] == [];
    }
  }

  lemma NodesFrom(img: seq<Byte>, base: nat, e: nat, cs: seq<Node>, k: nat, depth: nat)
    requires k < |cs| && ReadNode(img, base, e, depth) == Some(cs[k])
    requires ReadNodes(img, base, e + 16, |cs| - k - 1, depth) == Some(cs[k + 1..])
    ensures ReadNodes(img, base, e, |cs| - k, depth) == Some(cs[k..])
  {
    assert [cs[k]] + cs[k + 1..] == cs[k..];
  }

  lemma {:induction false} FirstRead(img: seq<Byte>, base: nat, e: nat, cs: seq<Node>, k: nat, v: nat, i: nat, j: nat, depth: nat)
    requires k < |cs| && Has(img, base, e, Entries(cs, k, v)) && Has(img, base, v, Payload(cs, k, v))
    requires Packs(cs, k, v) && e == 4 * i && v == 4 * j && Readable(cs[k], depth)
    ensures ReadNode(img, base, e, depth) == Some(cs[k])
    decreases cs[k], 3
  {
    FirstPlaced(img, base, e, cs, k, v);
    FirstPacks(cs, k, v);
    NodeRead(img, base, e, cs[k], v, i, j, depth);
  }

  lemma FirstPlaced(img: seq<Byte>, base: nat, e: nat, cs: seq<Node>, k: nat, v: nat)
    requires k < |cs| && Has(img, base, e, Entries(cs, k, v)) && Has(img, base, v, Payload(cs, k, v))
    ensures Placed(img, base, e, cs[k], v)
  {
    FirstEntry(img, base, e, cs, k, v);
    FirstContents(img, base, cs, k, v);
    ChunkParts(img, base, cs[k], v);
  }

  lemma FirstPacks(cs: seq<Node>, k: nat, v: nat)
    requires k < |cs|
    ensures Packs(cs, k, v) <==> NodePacks(cs[k], v) && Packs(cs, k + 1, v + Room(cs[k]))
  {
  }

  lemma NextQuad(c: Node, v: nat, j: nat) returns (q: nat)
    requires v == 4 * j
    ensures v + Room(c) == 4 * q
  {
    q := j + NameQuads(|c.name|) + DataQuads(Size(c));
  }

  lemma FirstEntry(img: seq<Byte>, base: nat, e: nat, cs: seq<Node>, k: nat, v: nat)
    requires k < |cs| && Has(img, base, e, Entries(cs, k, v))
    ensures Has(img, base, e, Pack(EntryOf(cs[k], v)))
    ensures Has(img, base, e + 16, Entries(cs, k + 1, v + Room(cs[k])))
  {
    HasParts(img, base, e, Pack(EntryOf(cs[k], v)), Entries(cs, k + 1, v + Room(cs[k])));
  }

  lemma FirstContents(img: seq<Byte>, base: nat, cs: seq<Node>, k: nat, v: nat)
    requires k < |cs| && Has(img, base, v, Payload(cs, k, v))
    ensures Has(img, base, v, Chunk(cs[k], v))
    ensures var v' := v + Room(cs[k]); Has(img, base, v', Payload(cs, k + 1, v'))
  {
    ChunkLength(cs[k], v);
    HasParts(img, base, v, Chunk(cs[k], v), Payload(cs, k + 1, v + Room(cs[k])));
  }

  lemma ChunkParts(img: seq<Byte>, base: nat, c: Node, v: nat)
    requires Has(img, base, v, Chunk(c, v))
    ensures Has(img, base, v, NameBytes(c))
    ensures var d := v + NameSize(c); Has(img, base, d, Bin(c, d))
  {
    var d := v + NameSize(c);
    HasParts(img, base, v, NameBytes(c), Bin(c, d) + Zeros(Filled(Size(c)) - Size(c)));
    HasParts(img, base, d, Bin(c, d), Zeros(Filled(Size(c)) - Size(c)));
  }

  /** Following the addresses of an image recovers the tree, each of them 4-aligned and
      inside the image. */
  lemma ImageRead(tree: Node, base: nat, depth: nat)
    requires tree.Folder? && base % 4 == 0
    requires NodePacks(Root(tree), base + 16) && Readable(Root(tree), depth)
    ensures ReadNode(Image(tree, base), base, base, depth) == Some(Root(tree))
  {
    var img, root := Image(tree, base), Root(tree);
    var d := base + 16 + NameSize(root);
    HasBytes(img, base, base, img);
    HasParts(img, base, base, Pack(EntryOf(root, base + 16)), NameBytes(root) + Bin(root, d));
    HasParts(img, base, base + 16, NameBytes(root), Bin(root, d));
    NodeRead(img, base, base, root, base + 16, base / 4, base / 4 + 4, depth);
  }

  /** Contents that end below the 32-bit limit pack. */
  lemma {:induction false} EndFits(cs: seq<Node>, k: nat, v: nat)
    requires v + Sizes(cs, k) < Limit
    ensures Packs(cs, k, v)
    decreases cs, 0, |cs| - k
  {
    if k < |cs| {
      var c := cs[k];
      assert Room(c) >= NameSize(c) + Size(c);
      EndFits(cs, k + 1, v + Room(c));
      if c.Folder? { EndFits(c.children, 0, v + NameSize(c) + 16 * |c.children|); }
    }
  }

  // ----- The serializer as it runs

  /** Before child `k`, its chunk going to `v`: what the loop has built so far. */
  predicate Halfway(cs: seq<Node>, p: nat, k: nat, v: nat, entries: seq<Byte>, payload: seq<Byte>) {
    && entries + Entries(cs, k, v) == Entries(cs, 0, p)
    && payload + Payload(cs, k, v) == Payload(cs, 0, p)
    && (Packs(cs, 0, p) <==> Packs(cs, k, v))
  }

  /** One round of the loop over the children. */
  lemma LoopStep(cs: seq<Node>, p: nat, k: nat, v: nat, entries: seq<Byte>, payload: seq<Byte>)
    requires k < |cs| && Halfway(cs, p, k, v, entries, payload)
    ensures !NodePacks(cs[k], v) ==> !Packs(cs, 0, p)
    ensures NodePacks(cs[k], v) ==>
      Halfway(cs, p, k + 1, v + Room(cs[k]), entries + Pack(EntryOf(cs[k], v)), payload + Chunk(cs[k], v))
  {
    Appended(entries, Pack(EntryOf(cs[k], v)), Entries(cs, k + 1, v + Room(cs[k])));
    Appended(payload, Chunk(cs[k], v), Payload(cs, k + 1, v + Room(cs[k])));
  }

  lemma LoopEnd(cs: seq<Node>, p: nat, v: nat, entries: seq<Byte>, payload: seq<Byte>)
    requires Halfway(cs, p, |cs|, v, entries, payload)
    ensures Packs(cs, 0, p) && entries == Entries(cs, 0, p) && payload == Payload(cs, 0, p)
  {
  }

  lemma Appended(done: seq<Byte>, x: seq<Byte>, rest: seq<Byte>)
    ensures (done + x) + rest == done + (x + rest)
  {
  }

  /** File.bin_data and Folder.bin_data; None is the error of packing too large a number. */
  method BinData(n: Node, base: nat) returns (r: Option<seq<Byte>>)
    ensures r.Some? <==> n.File? || Packs(n.children, 0, base + 16 * |n.children|)
    ensures r.Some? ==> r.value == Bin(n, base)
    decreases n, 1
  {
    if n.File? { return Some(n.data); }
    var ok, entries, payload := FolderData(n.children, base + 16 * |n.children|);
    r := if ok then Some(entries + payload) else None;
  }

  /** The loop over a folder's children, whose payload starts at address `p`. */
  method FolderData(cs: seq<Node>, p: nat) returns (ok: bool, entries: seq<Byte>, payload: seq<Byte>)
    ensures ok <==> Packs(cs, 0, p)
    ensures ok ==> entries == Entries(cs, 0, p) && payload == Payload(cs, 0, p)
    decreases cs, 2
  {
    var v: nat := p;
    entries, payload := [], [];
    ok := true;
    for k := 0 to |cs|
      invariant ok && Halfway(cs, p, k, v, entries, payload)
    {
      ok, v, entries, payload := AddChild(cs, p, k, v, entries, payload);
      if !ok { return; }
    }
    LoopEnd(cs, p, v, entries, payload);
  }

  method AddChild(cs: seq<Node>, ghost p: nat, k: nat, v: nat, entries: seq<Byte>, payload: seq<Byte>)
    returns (ok: bool, v': nat, entries': seq<Byte>, payload': seq<Byte>)
    requires k < |cs| && Halfway(cs, p, k, v, entries, payload)
    ensures ok ==> Halfway(cs, p, k + 1, v', entries', payload')
    ensures !ok ==> !Packs(cs, 0, p)
    decreases cs, 1
  {
    LoopStep(cs, p, k, v, entries, payload);
    var chunk := ChunkData(cs[k], v);
    if chunk.None? { return false, v, entries, payload; }
    ok, v' := true, v + |chunk.value|;
    entries', payload' := entries + Pack(EntryOf(cs[k], v)), payload + chunk.value;
  }

  /** The name and the padded contents of one child, if its entry packs. */
  method ChunkData(c: Node, v: nat) returns (r: Option<seq<Byte>>)
    ensures r.Some? <==> NodePacks(c, v)
    ensures r.Some? ==> r.value == Chunk(c, v) && |r.value| == Room(c)
    decreases c, 2
  {
    var name := NameBytes(c);
    var d := v + |name|;
    var data := BinData(c, d);
    if data.None? || !Packable(EntryOf(c, v)) { return None; }
    var n := |data.value|;
    DataQuadsIs(n);
    BinLength(c, d);
    ChunkLength(c, v);
    r := Some(name + (data.value + Zeros(if n % 4 == 0 then 0 else 4 - n % 4)));
  }

  /** get_bin_data: for every tree without NULs in names, the image is what a reader of enough
      depth takes apart again. */
  method MakeImage(tree: Node, base: nat) returns (r: Option<seq<Byte>>)
    requires tree.Folder?
    ensures r.Some? <==> NodePacks(Root(tree), base + 16)
    ensures r.Some? && base % 4 == 0 && Clean(Root(tree)) ==>
      forall depth: nat ::
        depth >= Height(tree) ==> ReadNode(r.value, base, base, depth) == Some(Root(tree))
  {
    var root := Root(tree);
    var entry := EntryOf(root, base + 16);
    if !Packable(entry) { return None; }
    var body := BinData(root, entry.data);
    if body.None? { return None; }
    r := Some(Pack(entry) + (NameBytes(root) + body.value));
    if base % 4 == 0 && Clean(root) {
      forall depth: nat | depth >= Height(tree)
        ensures ReadNode(r.value, base, base, depth) == Some(root)
      {
        DeepEnough(root, depth);
        ImageRead(tree, base, depth);
      }
    }
  }
}
