/**
  The content-hash-key (CHK) tree builder of contrib/gnunet-chk.py.

  A file is cut into 32 KiB data blocks.  Every block is sealed into a CHK, and up to 256 CHKs
  are packed into an index block one level up, which is sealed in turn, until one CHK is left.
  `Tree` is that definition.  `ComputeRootChk` is the program's single loop over a flat slot
  array that it reuses from one index block to the next.
 */
module ChkTree {
  import opened Common

  const DBLOCK_SIZE: nat := 32768
  const CHK_PER_INODE: nat := 256

  type Hash = h: seq<byte> | |h| == 64 witness seq(64, _ => 0)

  datatype Chk = Chk(key: Hash, query: Hash)

  /** The CHK of a whole file together with the file's size (`Chk.fsize`). */
  datatype FileChk = FileChk(chk: Chk, fsize: nat)

  // ----- Level arithmetic -----

  function Quotient(a: nat, b: nat): (q: nat)
    requires b > 0
    ensures q == a / b
  {
    QuotientNonNegative(a, b); a / b
  }

  lemma QuotientNonNegative(a: nat, b: nat)
    requires b > 0
    ensures a / b >= 0
  {
    DivMod(a, b);
    ScaleMonotone(a / b, -1, b);
  }

  /** Payload bytes below one block of level `d`; level 0 is a data block. */
  function TreeSize(d: nat): (n: nat)
    ensures n > 0
  {
    if d == 0 then DBLOCK_SIZE else CHK_PER_INODE * TreeSize(d - 1)
  }

  /** Slot of a block inside the index block above it (compute_chk_offset_). */
  function ChkOffset(d: nat, endOffset: nat): (off: nat)
    requires d > 0 ==> endOffset > 0
    ensures off < CHK_PER_INODE
  {
    Quotient(if d > 0 then endOffset - 1 else endOffset, TreeSize(d)) % CHK_PER_INODE
  }

  /** Number of CHKs in the index block of level `d` that ends at `offset` (compute_iblock_size_). */
  function IBlockSize(d: nat, offset: nat): (n: nat)
    requires d > 0 && offset > 0
  {
    var rest := offset % TreeSize(d);
    if rest == 0 then CHK_PER_INODE
    else
      var bds := TreeSize(d) / CHK_PER_INODE;
      rest / bds + (if rest % bds != 0 then 1 else 0)
  }

  /** Index, within level `d`, of the block holding the last byte before `ro`. */
  function LastIndex(ro: nat, d: nat): nat {
    if ro == 0 then 0 else Quotient(ro - 1, TreeSize(d))
  }

  lemma ScaleMonotone(x: int, y: int, b: int)
    requires b >= 0
    ensures x <= y ==> x * b <= y * b
  {
  }

  lemma Regroup(p: int, s: int, b: int)
    ensures (CHK_PER_INODE * p + s) * b == p * (CHK_PER_INODE * b) + s * b
  {
  }

  lemma QuotientUnique(a: int, b: int, q: int)
    requires b > 0
    requires q * b <= a < q * b + b
    ensures a / b == q && a % b == a - q * b
  {
    var r := a / b;
    assert a == r * b + a % b;
    ScaleMonotone(r + 1, q, b);
    ScaleMonotone(q + 1, r, b);
  }

  lemma DivTimes256(a: nat, b: nat)
    requires b > 0
    ensures a / (CHK_PER_INODE * b) == a / b / CHK_PER_INODE
  {
    var q, r := a / b, a % b;
    var p, s := q / CHK_PER_INODE, q % CHK_PER_INODE;
    assert a == q * b + r;
    Regroup(p, s, b);
    ScaleMonotone(s, 255, b);
    ScaleMonotone(0, s, b);
    QuotientUnique(a, CHK_PER_INODE * b, p);
  }

  /** A block's parent has 1/CHK_PER_INODE of its index, both for whole blocks and for the last byte's block. */
  lemma ParentIndex(ro: nat, d: nat)
    ensures ro / TreeSize(d + 1) == ro / TreeSize(d) / CHK_PER_INODE
    ensures LastIndex(ro, d + 1) == LastIndex(ro, d) / CHK_PER_INODE
  {
    DivTimes256(ro, TreeSize(d));
    if ro > 0 {
      DivTimes256(ro - 1, TreeSize(d));
    }
  }

  /** Whole blocks before `ro` against the block of the last byte. */
  lemma WholeBlocks(ro: nat, d: nat)
    requires ro > 0
    ensures ro % TreeSize(d) == 0 ==> ro / TreeSize(d) == LastIndex(ro, d) + 1
    ensures ro % TreeSize(d) != 0 ==> ro / TreeSize(d) == LastIndex(ro, d)
  {
    var b := TreeSize(d);
    var q := ro / b;
    assert ro == q * b + ro % b;
    if ro % b == 0 {
      assert (q - 1) * b == q * b - b;
      QuotientUnique(ro - 1, b, q - 1);
    } else {
      QuotientUnique(ro - 1, b, q);
    }
  }

  lemma MultipleOf256(a: nat, b: nat)
    requires b > 0
    ensures a % (CHK_PER_INODE * b) == 0 <==> a % b == 0 && a / b % CHK_PER_INODE == 0
  {
    DivMod(a, b);
    if a % (CHK_PER_INODE * b) == 0 {
      var p := a / (CHK_PER_INODE * b);
      DivMod(a, CHK_PER_INODE * b);
      Regroup(p, 0, b);
      QuotientUnique(a, b, CHK_PER_INODE * p);
    }
    if a % b == 0 && a / b % CHK_PER_INODE == 0 {
      var p := a / b / CHK_PER_INODE;
      Regroup(p, 0, b);
      QuotientUnique(a, CHK_PER_INODE * b, p);
    }
  }

  /** A level-(d+1) boundary is a level-d boundary at which a group of CHK_PER_INODE ends, and conversely. */
  lemma BoundaryUp(ro: nat, d: nat)
    requires ro > 0
    ensures ro % TreeSize(d + 1) == 0 <==> ro % TreeSize(d) == 0 && LastIndex(ro, d) % CHK_PER_INODE == 255
  {
    MultipleOf256(ro, TreeSize(d));
    WholeBlocks(ro, d);
  }

  lemma TreeSizeGrows(d: nat, e: nat)
    requires d <= e
    ensures TreeSize(d) <= TreeSize(e)
    ensures d < e ==> CHK_PER_INODE * TreeSize(d) <= TreeSize(e)
    decreases e
  {
    if d < e {
      TreeSizeGrows(d, e - 1);
    }
  }

  /** compute_iblock_size_ is one more than the slot of the index block's last child. */
  lemma IBlockSizeIsLastSlotPlusOne(d: nat, offset: nat)
    requires d > 0 && offset > 0
    ensures IBlockSize(d, offset) == LastIndex(offset, d - 1) % CHK_PER_INODE + 1
    ensures d > 1 ==> IBlockSize(d, offset) == ChkOffset(d - 1, offset) + 1
    ensures 1 <= IBlockSize(d, offset) <= CHK_PER_INODE
  {
    BoundaryUp(offset, d - 1);
    if offset % TreeSize(d) != 0 {
      PartialGroup(offset, TreeSize(d - 1), TreeSize(d), offset % TreeSize(d));
    }
  }

  lemma DivMod(a: int, b: int)
    requires b > 0
    ensures a == a / b * b + a % b && 0 <= a % b < b
  {
  }

  lemma QuotientBound(a: nat, b: nat, n: nat)
    requires b > 0 && a < n * b
    ensures a / b < n
  {
    DivMod(a, b);
    ScaleMonotone(n, a / b, b);
  }

  /** How many blocks of `b` bytes the unfinished group of CHK_PER_INODE blocks before `offset` has. */
  lemma PartialGroup(offset: nat, b: nat, big: nat, rest: nat)
    requires offset > 0 && b > 0 && big == CHK_PER_INODE * b
    requires rest == offset % big != 0
    ensures rest / b + (if rest % b != 0 then 1 else 0) == (offset - 1) / b % CHK_PER_INODE + 1
  {
    var p, k, r := offset / big, rest / b, rest % b;
    assert offset == p * big + rest && rest < CHK_PER_INODE * b by {
      DivMod(offset, big);
    }
    assert rest == k * b + r && r < b by {
      DivMod(rest, b);
    }
    assert k < CHK_PER_INODE by {
      QuotientBound(rest, b, CHK_PER_INODE);
    }
    assert k > 0 || r > 0;
    LastBlock(offset, b, p, k, r);
  }

  lemma LastBlock(offset: nat, b: nat, p: int, k: nat, r: nat)
    requires offset == p * (CHK_PER_INODE * b) + (k * b + r)
    requires k < CHK_PER_INODE && r < b
    requires k > 0 || r > 0
    ensures (offset - 1) / b % CHK_PER_INODE + 1 == k + (if r != 0 then 1 else 0)
  {
    Regroup(p, k, b);
    if r == 0 {
      assert (CHK_PER_INODE * p + k - 1) * b == (CHK_PER_INODE * p + k) * b - b;
      QuotientUnique(offset - 1, b, CHK_PER_INODE * p + k - 1);
    } else {
      QuotientUnique(offset - 1, b, CHK_PER_INODE * p + k);
    }
  }

  // ----- The loops of the level arithmetic -----

  /** compute_tree_size_ */
  method ComputeTreeSize(depth: nat) returns (rsize: nat)
    ensures rsize == TreeSize(depth)
  {
    rsize := DBLOCK_SIZE;
    for cnt := 0 to depth
      invariant rsize == TreeSize(cnt)
    {
      rsize := rsize * CHK_PER_INODE;
    }
  }

  /** The least number of levels, not below `d`, whose tree covers `size` bytes. */
  function DepthFrom(size: nat, d: nat): (r: nat)
    requires d > 0
    ensures r >= d && size <= TreeSize(r - 1)
    ensures forall e: nat | d <= e + 1 < r :: TreeSize(e) < size
    decreases if size <= TreeSize(d - 1) then 0 else size - TreeSize(d - 1)
  {
    if size <= TreeSize(d - 1) then d else DepthFrom(size, d + 1)
  }

  function Depth(size: nat): (r: nat)
    ensures r > 0 && size <= TreeSize(r - 1)
    ensures forall e: nat | e + 1 < r :: TreeSize(e) < size
  {
    DepthFrom(size, 1)
  }

  /** compute_depth_; its overflow test cannot fire on unbounded integers. */
  method ComputeDepth(size: nat) returns (depth: nat)
    ensures depth == Depth(size)
  {
    depth := 1;
    var fl := DBLOCK_SIZE;
    while fl < size
      invariant depth > 0 && fl == TreeSize(depth - 1)
      invariant DepthFrom(size, depth) == Depth(size)
      decreases size - fl
    {
      depth := depth + 1;
      fl := fl * CHK_PER_INODE;
    }
  }

  // ----- Reference definition -----

  type Seal = seq<byte> -> Chk

  /** Plain text of an index block: the keys and queries of its children. */
  function Join(chks: seq<Chk>): (text: seq<byte>)
    ensures |text| == 128 * |chks|
  {
    if chks == [] then []
    else Join(chks[..|chks| - 1]) + (chks[|chks| - 1].key + chks[|chks| - 1].query)
  }

  /** Entry `i` of an index block is the key of the CHK, then its query. */
  predicate EntryAt(text: seq<byte>, i: nat, chk: Chk) {
    && 128 * i + 128 <= |text|
    && text[128 * i..128 * i + 64] == chk.key && text[128 * i + 64..128 * i + 128] == chk.query
  }

  lemma {:induction false} JoinEntry(chks: seq<Chk>, i: nat)
    requires i < |chks|
    ensures EntryAt(Join(chks), i, chks[i])
  {
    var n := |chks| - 1;
    var front, last := Join(chks[..n]), chks[n].key + chks[n].query;
    assert Join(chks) == front + last;
    if i < n {
      JoinEntry(chks[..n], i);
      var from := 128 * i;
      assert 128 * i + 128 <= |front|;
      assert Join(chks)[from..from + 64] == front[from..from + 64];
      assert Join(chks)[from + 64..from + 128] == front[from + 64..from + 128];
    } else {
      assert |front| == 128 * n;
      assert Join(chks)[128 * n..128 * n + 64] == last[..64];
      assert Join(chks)[128 * n + 64..128 * n + 128] == last[64..];
    }
  }

  /** Entries of the right number determine the text. */
  lemma {:induction false} EntriesAreJoin(text: seq<byte>, chks: seq<Chk>)
    requires |text| == 128 * |chks| && forall i | 0 <= i < |chks| :: EntryAt(text, i, chks[i])
    ensures text == Join(chks)
  {
    if chks != [] {
      var n := |chks| - 1;
      var front := text[..128 * n];
      forall i | 0 <= i < n ensures EntryAt(front, i, chks[..n][i]) {
        assert EntryAt(text, i, chks[i]);
        assert front[128 * i..128 * i + 64] == text[128 * i..128 * i + 64];
        assert front[128 * i + 64..128 * i + 128] == text[128 * i + 64..128 * i + 128];
      }
      EntriesAreJoin(front, chks[..n]);
      assert EntryAt(text, n, chks[n]);
      assert text == front + (text[128 * n..128 * n + 64] + text[128 * n + 64..128 * n + 128]);
    }
  }

  /** The CHK of the block of level `d` over the bytes `part`. */
  function Tree(part: seq<byte>, d: nat, seal: Seal): Chk
    decreases d, 0, 0
  {
    if d == 0 then seal(part) else seal(Join(Children(part, d - 1, seal)))
  }

  /** The CHKs of consecutive level-`d` blocks over `part`; only the last may be partial. */
  function Children(part: seq<byte>, d: nat, seal: Seal): seq<Chk>
    decreases d, 1, |part|
  {
    if |part| <= TreeSize(d) then [Tree(part, d, seal)]
    else [Tree(part[..TreeSize(d)], d, seal)] + Children(part[TreeSize(d)..], d, seal)
  }

  /** Up to `len` bytes from position `from` on. */
  function Piece(data: seq<byte>, from: nat, len: nat): seq<byte> {
    var start := Min(from, |data|);
    data[start..Min(start + len, |data|)]
  }

  /** The bytes of block number `j` of level `d`. */
  function Span(data: seq<byte>, d: nat, j: nat): seq<byte> {
    Piece(data, j * TreeSize(d), TreeSize(d))
  }

  function Node(data: seq<byte>, d: nat, j: nat, seal: Seal): Chk {
    Tree(Span(data, d, j), d, seal)
  }

  /** Number of level-`d` blocks that `len` bytes fill, the last one perhaps in part. */
  function BlockCount(len: nat, d: nat): nat
    requires len > 0
  {
    Quotient(len - 1, TreeSize(d)) + 1
  }

  lemma SliceOfSlice<T>(s: seq<T>, a: nat, b: nat, c: nat, d: nat)
    requires a <= b <= |s| && c <= d <= b - a
    ensures s[a..b][c..d] == s[a + c..a + d]
  {
    assert |s[a..b][c..d]| == |s[a + c..a + d]|;
    assert forall i | 0 <= i < d - c :: s[a..b][c..d][i] == s[a + c..a + d][i];
  }

  lemma PieceOfPiece(data: seq<byte>, from: nat, len: nat, x: nat, n: nat)
    requires x + n <= len
    ensures Piece(Piece(data, from, len), x, n) == Piece(data, from + x, n)
  {
    var start := Min(from, |data|);
    var outer := Piece(data, from, len);
    var s := Min(x, |outer|);
    var e := Min(s + n, |outer|);
    assert outer == data[start..start + |outer|];
    assert start + s == Min(from + x, |data|);
    assert start + e == Min(start + s + n, |data|);
    SliceOfSlice(data, start, start + |outer|, s, e);
  }

  lemma SpanOfRest(part: seq<byte>, d: nat, i: nat)
    requires |part| > TreeSize(d)
    ensures Span(part[TreeSize(d)..], d, i) == Span(part, d, i + 1)
  {
    var b := TreeSize(d);
    ScaleMonotone(0, i, b);
    assert (i + 1) * b == b + i * b;
    assert part[b..] == Piece(part, b, i * b + b + |part|);
    PieceOfPiece(part, b, i * b + b + |part|, i * b, b);
  }

  lemma {:induction false} ChildrenAreSpans(part: seq<byte>, d: nat, seal: Seal)
    requires |part| > 0
    ensures |Children(part, d, seal)| == BlockCount(|part|, d)
    ensures forall i :: 0 <= i < |Children(part, d, seal)| ==> Children(part, d, seal)[i] == Node(part, d, i, seal)
    decreases |part|
  {
    var b := TreeSize(d);
    if |part| <= b {
      QuotientUnique(|part| - 1, b, 0);
      assert Span(part, d, 0) == part;
    } else {
      var rest := part[b..];
      ChildrenAreSpans(rest, d, seal);
      StepDown(|part| - 1, b);
      assert Span(part, d, 0) == part[..b];
      forall i | 0 < i < |Children(part, d, seal)|
        ensures Children(part, d, seal)[i] == Node(part, d, i, seal)
      {
        SpanOfRest(part, d, i - 1);
      }
    }
  }

  lemma StepDown(a: nat, b: nat)
    requires 0 < b <= a
    ensures a / b == (a - b) / b + 1
  {
    var q := (a - b) / b;
    assert a - b == q * b + (a - b) % b;
    assert (q + 1) * b == q * b + b;
    QuotientUnique(a, b, q + 1);
  }

  lemma NestedSpan(data: seq<byte>, d: nat, j: nat, i: nat)
    requires i < CHK_PER_INODE
    ensures Span(Span(data, d + 1, j), d, i) == Span(data, d, CHK_PER_INODE * j + i)
  {
    var b := TreeSize(d);
    Regroup(j, i, b);
    ScaleMonotone(i, 255, b);
    ScaleMonotone(0, i, b);
    PieceOfPiece(data, j * (CHK_PER_INODE * b), CHK_PER_INODE * b, i * b, b);
  }

  predicate ChildEntry(text: seq<byte>, part: seq<byte>, d: nat, i: nat, seal: Seal) {
    EntryAt(text, i, Node(part, d, i, seal))
  }

  /** The entries of the text are the CHKs of the level-`d` blocks over `part`. */
  ghost predicate HasEntries(text: seq<byte>, part: seq<byte>, d: nat, seal: Seal)
    requires |part| > 0
  {
    && |text| == 128 * BlockCount(|part|, d)
    && forall i | 0 <= i < BlockCount(|part|, d) :: ChildEntry(text, part, d, i, seal)
  }

  /**
    The CHK of an index block is the seal of the one text whose entry `i`, key first, is the CHK of
    the block over the i-th part of its bytes; that of a data block is the seal of its bytes.
   */
  lemma TreeSealsEntries(part: seq<byte>, d: nat, text: seq<byte>, seal: Seal)
    requires if d == 0 then text == part else |part| > 0 && HasEntries(text, part, d - 1, seal)
    ensures Tree(part, d, seal) == seal(text)
  {
    if d > 0 {
      ChildrenAreSpans(part, d - 1, seal);
      var chks := Children(part, d - 1, seal);
      forall i | 0 <= i < |chks| ensures EntryAt(text, i, chks[i]) {
        assert ChildEntry(text, part, d - 1, i, seal);
      }
      EntriesAreJoin(text, Children(part, d - 1, seal));
    }
  }

  /** There is such a text. */
  lemma TreeHasEntries(part: seq<byte>, d: nat, seal: Seal) returns (text: seq<byte>)
    requires |part| > 0 && d > 0
    ensures HasEntries(text, part, d - 1, seal)
    ensures Tree(part, d, seal) == seal(text) && text in Blocks(part, d, seal)
  {
    var e := d - 1;
    var chks := Children(part, e, seal);
    ChildrenAreSpans(part, e, seal);
    text := Join(chks);
    forall i | 0 <= i < |chks| ensures ChildEntry(text, part, e, i, seal) {
      JoinEntry(chks, i);
    }
  }

  /** A data block has 32 KiB, an index block over data blocks 8 MiB below it, and one over these 2 GiB. */
  lemma LevelSizes()
    ensures TreeSize(0) == 32768 && TreeSize(1) == 8388608 && TreeSize(2) == 2147483648
  {
  }

  /** An index block is the seal of the CHKs of the blocks numbered from CHK_PER_INODE*j on. */
  lemma NodeFromChildren(data: seq<byte>, d: nat, j: nat, chks: seq<Chk>, seal: Seal)
    requires |Span(data, d + 1, j)| > 0
    requires |chks| == BlockCount(|Span(data, d + 1, j)|, d) <= CHK_PER_INODE
    requires forall i :: 0 <= i < |chks| ==> chks[i] == Node(data, d, CHK_PER_INODE * j + i, seal)
    ensures Node(data, d + 1, j, seal) == seal(Join(chks))
  {
    var part := Span(data, d + 1, j);
    ChildrenAreSpans(part, d, seal);
    forall i | 0 <= i < |chks|
      ensures chks[i] == Children(part, d, seal)[i]
    {
      NestedSpan(data, d, j, i);
    }
    assert chks == Children(part, d, seal);
  }

  /** The CHK the tree definition assigns to a whole file. */
  function Root(data: seq<byte>, seal: Seal): Chk {
    Tree(data, Depth(|data|) - 1, seal)
  }

  // ----- The slot array -----

  type Slots = seq<Option<Chk>>

  /** Slot `i` of level `d`. */
  function At(slots: Slots, d: nat, i: nat): Option<Chk>
    requires i < CHK_PER_INODE && CHK_PER_INODE * (d + 1) <= |slots|
  {
    slots[CHK_PER_INODE * d + i]
  }

  function Put(slots: Slots, d: nat, i: nat, c: Chk): (r: Slots)
    requires i < CHK_PER_INODE && CHK_PER_INODE * (d + 1) <= |slots|
    ensures |r| == |slots|
    ensures forall e: nat, k: nat :: k < CHK_PER_INODE && CHK_PER_INODE * (e + 1) <= |slots| ==>
              At(r, e, k) == if e == d && k == i then Some(c) else At(slots, e, k)
  {
    slots[CHK_PER_INODE * d + i := Some(c)]
  }

  /** The first `n` slots of level `d` hold the blocks numbered from CHK_PER_INODE*g on. */
  ghost predicate Holds(slots: Slots, data: seq<byte>, seal: Seal, d: nat, g: nat, n: nat)
    requires n <= CHK_PER_INODE && CHK_PER_INODE * (d + 1) <= |slots|
  {
    forall i: nat | i < n :: At(slots, d, i) == Some(Node(data, d, CHK_PER_INODE * g + i, seal))
  }

  /**
    What level `d` holds once `ro` bytes are read.  While climbing (cur > 0) the blocks that end
    at `ro` are done below level `cur` and still open from there on; while reading (cur == 0)
    every level holds the whole blocks of its unfinished group.
   */
  ghost predicate LevelReady(slots: Slots, data: seq<byte>, seal: Seal, ro: nat, cur: nat, d: nat)
    requires CHK_PER_INODE * (d + 1) <= |slots|
  {
    var whole, last := Quotient(ro, TreeSize(d)), LastIndex(ro, d);
    if cur == 0 then Holds(slots, data, seal, d, whole / CHK_PER_INODE, whole % CHK_PER_INODE)
    else Holds(slots, data, seal, d, last / CHK_PER_INODE, last % CHK_PER_INODE + (if d < cur then 1 else 0))
  }

  ghost predicate Ready(slots: Slots, data: seq<byte>, seal: Seal, ro: nat, cur: nat, depth: nat)
    requires CHK_PER_INODE * depth <= |slots|
  {
    forall d: nat | d < depth :: LevelReady(slots, data, seal, ro, cur, d)
  }

  /** Inside one data block all levels agree on which block is being filled. */
  lemma {:induction false} SameBlock(ro: nat, next: nat, d: nat)
    requires next > 0 && LastIndex(next, 0) == ro / DBLOCK_SIZE
    ensures LastIndex(next, d) == ro / TreeSize(d)
  {
    if d > 0 {
      SameBlock(ro, next, d - 1);
      ParentIndex(ro, d - 1);
      ParentIndex(next, d - 1);
    }
  }

  lemma {:induction false} NoBoundaryAbove(ro: nat, c: nat, d: nat)
    requires ro > 0 && c <= d && ro % TreeSize(c) != 0
    ensures ro % TreeSize(d) != 0
  {
    if c < d {
      NoBoundaryAbove(ro, c, d - 1);
      BoundaryUp(ro, d - 1);
    }
  }

  lemma {:induction false} BoundaryBelow(ro: nat, c: nat, d: nat)
    requires ro > 0 && d <= c && ro % TreeSize(c) == 0
    ensures ro % TreeSize(d) == 0
    decreases c
  {
    if d < c {
      BoundaryUp(ro, c - 1);
      BoundaryBelow(ro, c - 1, d);
    }
  }

  /** Sealing a data block. */
  lemma DataStep(slots: Slots, data: seq<byte>, seal: Seal, ro: nat, depth: nat, next: nat)
    requires CHK_PER_INODE * depth <= |slots| && depth == Depth(|data|)
    requires ro % DBLOCK_SIZE == 0 && ro <= |data| && (ro < |data| || data == [])
    requires next == ro + Min(DBLOCK_SIZE, |data| - ro)
    requires Ready(slots, data, seal, ro, 0, depth)
    ensures Ready(Put(slots, 0, ChkOffset(0, ro), seal(data[ro..next])), data, seal, next, 1, depth)
  {
    var k := ro / DBLOCK_SIZE;
    var after := Put(slots, 0, k % CHK_PER_INODE, seal(data[ro..next]));
    assert Span(data, 0, k) == data[ro..next];
    forall d: nat | d < depth
      ensures LevelReady(after, data, seal, next, 1, d)
    {
      assert LevelReady(slots, data, seal, ro, 0, d);
      if next > 0 {
        SameBlock(ro, next, d);
      } else {
        assert ro / TreeSize(d) == 0;
      }
    }
  }

  /** Below the level just sealed every group is complete; above it nothing ended at `ro`. */
  lemma WholeAfterSealing(ro: nat, c: nat, d: nat)
    requires ro > 0 && c > 0
    requires ro % TreeSize(c - 1) == 0 && ro % TreeSize(c) != 0
    ensures d + 1 < c ==> Quotient(ro, TreeSize(d)) % CHK_PER_INODE == 0
    ensures d + 1 == c ==> Quotient(ro, TreeSize(d)) == LastIndex(ro, d) + 1 && LastIndex(ro, d) % CHK_PER_INODE != 255
    ensures d >= c ==> Quotient(ro, TreeSize(d)) == LastIndex(ro, d)
  {
    WholeBlocks(ro, d);
    if d + 1 < c {
      BoundaryBelow(ro, c - 1, d + 1);
      MultipleOf256(ro, TreeSize(d));
    } else if d + 1 == c {
      BoundaryUp(ro, d);
    } else {
      NoBoundaryAbove(ro, c, d);
    }
  }

  /** Back to reading: the block just sealed at level c-1 did not complete its group. */
  lemma Descend(slots: Slots, data: seq<byte>, seal: Seal, ro: nat, c: nat, depth: nat)
    requires 0 < c <= depth && CHK_PER_INODE * depth <= |slots| && ro > 0
    requires ro % TreeSize(c - 1) == 0 && ro % TreeSize(c) != 0
    requires Ready(slots, data, seal, ro, c, depth)
    ensures Ready(slots, data, seal, ro, 0, depth)
  {
    forall d: nat | d < depth
      ensures LevelReady(slots, data, seal, ro, 0, d)
    {
      assert LevelReady(slots, data, seal, ro, c, d);
      WholeAfterSealing(ro, c, d);
    }
  }

  lemma SubtractBlocks(a: nat, b: nat, m: nat)
    requires b > 0 && m * b <= a
    ensures (a - m * b) / b == a / b - m
  {
    DivMod(a, b);
    var q := a / b;
    assert (q - m) * b == q * b - m * b;
    QuotientUnique(a - m * b, b, q - m);
  }

  /** The block of level `c` that ends at `ro` starts at its index times the level's block size. */
  lemma LastStart(size: nat, ro: nat, c: nat)
    requires 0 < ro <= size
    requires ro == size || ro % TreeSize(c) == 0
    ensures var from := LastIndex(ro, c) * TreeSize(c);
            from < ro && Min(size - from, TreeSize(c)) == ro - from
  {
    var big, j := TreeSize(c), LastIndex(ro, c);
    DivMod(ro - 1, big);
    if ro % big == 0 {
      DivMod(ro, big);
      WholeBlocks(ro, c);
      assert (j + 1) * big == j * big + big;
    }
  }

  lemma LastLength(data: seq<byte>, ro: nat, c: nat)
    requires c > 0 && 0 < ro <= |data|
    requires ro == |data| || ro % TreeSize(c) == 0
    ensures 0 < |Span(data, c, LastIndex(ro, c))| == ro - (CHK_PER_INODE * LastIndex(ro, c)) * TreeSize(c - 1)
  {
    LastStart(|data|, ro, c);
    Regroup(LastIndex(ro, c), 0, TreeSize(c - 1));
  }

  lemma LastCount(ro: nat, c: nat, len: nat)
    requires c > 0 && 0 < len == ro - (CHK_PER_INODE * LastIndex(ro, c)) * TreeSize(c - 1)
    ensures BlockCount(len, c - 1) == LastIndex(ro, c - 1) % CHK_PER_INODE + 1
  {
    SubtractBlocks(ro - 1, TreeSize(c - 1), CHK_PER_INODE * LastIndex(ro, c));
    ParentIndex(ro, c - 1);
  }

  /** The bytes of the block of level `c` that ends at `ro`, counted in blocks one level down. */
  lemma LastSpan(data: seq<byte>, ro: nat, c: nat)
    requires c > 0 && 0 < ro <= |data|
    requires ro == |data| || ro % TreeSize(c) == 0
    ensures |Span(data, c, LastIndex(ro, c))| > 0
    ensures BlockCount(|Span(data, c, LastIndex(ro, c))|, c - 1) == IBlockSize(c, ro)
  {
    LastLength(data, ro, c);
    LastCount(ro, c, |Span(data, c, LastIndex(ro, c))|);
    IBlockSizeIsLastSlotPlusOne(c, ro);
  }

  lemma NodeOfLastBlock(data: seq<byte>, seal: Seal, ro: nat, d: nat, j: nat, chks: seq<Chk>)
    requires 0 < ro <= |data| && j == LastIndex(ro, d + 1)
    requires ro == |data| || ro % TreeSize(d + 1) == 0
    requires |chks| == IBlockSize(d + 1, ro) <= CHK_PER_INODE
    requires forall i | 0 <= i < |chks| :: chks[i] == Node(data, d, CHK_PER_INODE * j + i, seal)
    ensures seal(Join(chks)) == Node(data, d + 1, j, seal)
  {
    assert |Span(data, d + 1, j)| > 0 && |chks| == BlockCount(|Span(data, d + 1, j)|, d) by {
      LastSpan(data, ro, d + 1);
    }
    NodeFromChildren(data, d, j, chks, seal);
  }

  lemma LevelBelow(slots: Slots, data: seq<byte>, seal: Seal, ro: nat, d: nat, depth: nat)
    requires d + 1 < depth && CHK_PER_INODE * depth <= |slots| && 0 < ro
    requires Ready(slots, data, seal, ro, d + 1, depth)
    ensures IBlockSize(d + 1, ro) <= CHK_PER_INODE
    ensures Holds(slots, data, seal, d, LastIndex(ro, d + 1), IBlockSize(d + 1, ro))
  {
    assert LevelReady(slots, data, seal, ro, d + 1, d);
    IBlockSizeIsLastSlotPlusOne(d + 1, ro);
    ParentIndex(ro, d);
  }

  /** The text of the index block of level d+1 that ends at `ro`. */
  lemma IndexBlock(slots: Slots, data: seq<byte>, seal: Seal, ro: nat, d: nat, depth: nat, chks: seq<Chk>)
    requires d + 1 < depth && CHK_PER_INODE * depth <= |slots| && 0 < ro <= |data|
    requires ro == |data| || ro % TreeSize(d + 1) == 0
    requires Ready(slots, data, seal, ro, d + 1, depth)
    requires |chks| == IBlockSize(d + 1, ro) <= CHK_PER_INODE
    requires forall i | 0 <= i < |chks| :: slots[CHK_PER_INODE * d + i] == Some(chks[i])
    ensures seal(Join(chks)) == Node(data, d + 1, LastIndex(ro, d + 1), seal)
  {
    var j := LastIndex(ro, d + 1);
    LevelBelow(slots, data, seal, ro, d, depth);
    forall i | 0 <= i < |chks|
      ensures chks[i] == Node(data, d, CHK_PER_INODE * j + i, seal)
    {
      assert At(slots, d, i) == Some(chks[i]);
    }
    NodeOfLastBlock(data, seal, ro, d, j, chks);
  }

  lemma ClimbStep(slots: Slots, data: seq<byte>, seal: Seal, ro: nat, c: nat, depth: nat)
    requires 0 < c < depth && CHK_PER_INODE * depth <= |slots| && ro > 0
    requires Ready(slots, data, seal, ro, c, depth)
    ensures Ready(Put(slots, c, ChkOffset(c, ro), Node(data, c, LastIndex(ro, c), seal)), data, seal, ro, c + 1, depth)
  {
    var last, up := LastIndex(ro, c), c + 1;
    var after := Put(slots, c, last % CHK_PER_INODE, Node(data, c, last, seal));
    forall d: nat | d < depth
      ensures LevelReady(after, data, seal, ro, up, d)
    {
      assert LevelReady(slots, data, seal, ro, c, d);
    }
  }

  // ----- compute_rootchk -----

  /** Levels two and up hold at most the CHK of the file's last block of that level. */
  ghost predicate Sparse(slots: Slots, size: nat, depth: nat)
    requires CHK_PER_INODE * depth <= |slots|
  {
    forall d: nat, i: nat | 2 <= d < depth && i < CHK_PER_INODE && i != LastIndex(size, d) % CHK_PER_INODE ::
      At(slots, d, i) == None
  }

  /** Where the loop stands between two blocks. */
  ghost predicate AtBlock(size: nat, ro: nat, cur: nat, depth: nat) {
    && depth == Depth(size) && cur <= depth && ro <= size
    && (cur == 0 ==> ro % DBLOCK_SIZE == 0 && (ro < size || size == 0))
    && (cur > 0 ==> ro > 0 || (size == 0 && cur == depth))
    && (cur > 0 ==> ro == size || ro % TreeSize(cur) == 0)
  }

  /** The level of the next block, after the block of level `cur` went into slot `off`. */
  function NextLevel(intended: bool, size: nat, ro: nat, cur: nat, off: nat): nat {
    if cur == 0 then
      if ro == size || ro % (CHK_PER_INODE * DBLOCK_SIZE) == 0 then 1 else 0
    else
      if off == (if intended then 255 else CHK_PER_INODE) || ro == size then cur + 1 else 0
  }

  /** The test in the program does what is meant while no index block above level one gets full. */
  ghost predicate Sound(intended: bool, size: nat) {
    intended || size <= TreeSize(2)
  }

  lemma SmallerHasNoBoundary(a: nat, b: nat)
    requires 0 < a < b
    ensures a % b != 0
  {
    QuotientUnique(a, b, 0);
  }

  /** Within the program's test, an unfinished file of up to three levels never completes level two. */
  lemma NotFullBelow(size: nat, ro: nat, cur: nat)
    requires 0 < ro < size <= TreeSize(2)
    requires cur > 0 && ro % TreeSize(cur) == 0
    ensures ro % TreeSize(cur + 1) != 0
  {
    TreeSizeGrows(2, cur + 1);
    SmallerHasNoBoundary(ro, TreeSize(cur + 1));
  }

  lemma NextPosition(intended: bool, size: nat, ro: nat, cur: nat, depth: nat, next: nat)
    requires AtBlock(size, ro, cur, depth) && cur < depth
    requires next == if cur == 0 then ro + Min(DBLOCK_SIZE, size - ro) else ro
    ensures AtBlock(size, next, NextLevel(intended, size, next, cur, ChkOffset(cur, ro)), depth)
  {
    if cur == 0 {
      assert TreeSize(1) == CHK_PER_INODE * DBLOCK_SIZE;
    } else if next < size {
      BoundaryUp(next, cur);
      BoundaryBelow(next, cur, 0);
    }
  }

  lemma BackToReading(intended: bool, size: nat, next: nat, cur: nat, off: nat)
    requires Sound(intended, size) && 0 < next < size && next % TreeSize(cur) == 0
    requires cur > 0 ==> off == LastIndex(next, cur) % CHK_PER_INODE
    requires NextLevel(intended, size, next, cur, off) == 0
    ensures next % TreeSize(cur + 1) != 0
  {
    if cur > 0 {
      if intended {
        BoundaryUp(next, cur);
      } else {
        NotFullBelow(size, next, cur);
      }
    }
  }

  /** One turn of the loop keeps every level ready. */
  lemma Advance(slots: Slots, data: seq<byte>, seal: Seal, intended: bool, ro: nat, cur: nat, depth: nat,
                next: nat, chk: Chk)
    requires AtBlock(|data|, ro, cur, depth) && cur < depth && CHK_PER_INODE * depth <= |slots|
    requires Sound(intended, |data|)
    requires Ready(slots, data, seal, ro, cur, depth)
    requires next == if cur == 0 then ro + Min(DBLOCK_SIZE, |data| - ro) else ro
    requires chk == if cur == 0 then seal(data[ro..next]) else Node(data, cur, LastIndex(ro, cur), seal)
    ensures var off := ChkOffset(cur, ro);
            Ready(Put(slots, cur, off, chk), data, seal, next, NextLevel(intended, |data|, next, cur, off), depth)
  {
    var off := ChkOffset(cur, ro);
    var after := Put(slots, cur, off, chk);
    assert Ready(after, data, seal, next, cur + 1, depth) by {
      if cur == 0 {
        DataStep(slots, data, seal, ro, depth, next);
      } else {
        ClimbStep(slots, data, seal, ro, cur, depth);
      }
    }
    if NextLevel(intended, |data|, next, cur, off) == 0 {
      BackToReading(intended, |data|, next, cur, off);
      Descend(after, data, seal, next, cur + 1, depth);
    }
  }

  lemma RootIsSingle(size: nat)
    ensures LastIndex(size, Depth(size) - 1) == 0
  {
    if size > 0 {
      QuotientUnique(size - 1, TreeSize(Depth(size) - 1), 0);
    }
  }

  lemma TopReached(slots: Slots, data: seq<byte>, seal: Seal, ro: nat, depth: nat)
    requires AtBlock(|data|, ro, depth, depth) && CHK_PER_INODE * depth <= |slots|
    requires Ready(slots, data, seal, ro, depth, depth)
    ensures ro == |data|
    ensures slots[CHK_PER_INODE * (depth - 1)] == Some(Root(data, seal))
  {
    TreeSizeGrows(depth - 1, depth);
    if 0 < ro < TreeSize(depth) {
      SmallerHasNoBoundary(ro, TreeSize(depth));
    }
    assert LevelReady(slots, data, seal, ro, depth, depth - 1);
    RootIsSingle(|data|);
    assert Span(data, depth - 1, 0) == data;
    assert slots[CHK_PER_INODE * (depth - 1)] == At(slots, depth - 1, 0);
  }

  /** In a tree of several levels the root has several children. */
  lemma RootHasSeveralChildren(size: nat)
    requires Depth(size) >= 2
    ensures 0 < LastIndex(size, Depth(size) - 2) < CHK_PER_INODE
  {
    var b := TreeSize(Depth(size) - 2);
    assert b < size <= CHK_PER_INODE * b;
    QuotientBound(size - 1, b, CHK_PER_INODE);
    DivMod(size - 1, b);
    ScaleMonotone((size - 1) / b, 0, b);
  }

  /** Unless the test is as intended, the root's index block of a deep tree always has an empty slot. */
  lemma EmptyFirstSlot(slots: Slots, size: nat, depth: nat)
    requires size > TreeSize(2) && depth == Depth(size) && CHK_PER_INODE * depth <= |slots|
    requires Sparse(slots, size, depth)
    ensures depth > 3 && slots[CHK_PER_INODE * (depth - 2)] == None
  {
    assert depth != 1 && depth != 2 && depth != 3;
    RootHasSeveralChildren(size);
    assert slots[CHK_PER_INODE * (depth - 2)] == At(slots, depth - 2, 0);
  }

  /** While the levels are ready no slot of a finished index block is empty. */
  lemma NoEmptySlot(slots: Slots, data: seq<byte>, seal: Seal, ro: nat, c: nat, depth: nat)
    requires 0 < c < depth && CHK_PER_INODE * depth <= |slots| && ro > 0
    requires Ready(slots, data, seal, ro, c, depth)
    ensures IBlockSize(c, ro) <= CHK_PER_INODE
    ensures forall k | CHK_PER_INODE * (c - 1) <= k < CHK_PER_INODE * (c - 1) + IBlockSize(c, ro) :: slots[k].Some?
  {
    LevelBelow(slots, data, seal, ro, c - 1, depth);
    forall k | CHK_PER_INODE * (c - 1) <= k < CHK_PER_INODE * (c - 1) + IBlockSize(c, ro)
      ensures slots[k].Some?
    {
      assert slots[k] == At(slots, c - 1, k - CHK_PER_INODE * (c - 1));
    }
  }

  /** The text has `n` slots as its entries. */
  ghost predicate IndexText(text: seq<byte>, slots: Slots, from: nat, n: nat) {
    && from + n <= |slots| && |text| == 128 * n
    && forall i | 0 <= i < n :: SlotEntry(text, slots, from, i)
  }

  predicate SlotEntry(text: seq<byte>, slots: Slots, from: nat, i: nat) {
    from + i < |slots| && slots[from + i].Some? && EntryAt(text, i, slots[from + i].value)
  }

  lemma GatheredText(slots: Slots, from: nat, values: seq<Chk>)
    requires from + |values| <= |slots| && forall i | 0 <= i < |values| :: slots[from + i] == Some(values[i])
    ensures IndexText(Join(values), slots, from, |values|)
  {
    forall i | 0 <= i < |values| ensures SlotEntry(Join(values), slots, from, i) {
      assert slots[from + i] == Some(values[i]);
      JoinEntry(values, i);
    }
  }

  /** Concatenates the CHKs of `n` slots; None when one of them is empty and has no key to read. */
  method Gather(chks: array<Option<Chk>>, from: nat, n: nat) returns (text: Option<seq<byte>>, ghost values: seq<Chk>)
    requires from + n <= chks.Length
    ensures text.Some? <==> forall i | from <= i < from + n :: chks[i].Some?
    ensures text.Some? ==> |values| == n && text.value == Join(values)
    ensures text.Some? ==> forall i | 0 <= i < n :: chks[from + i] == Some(values[i])
    ensures text.Some? ==> IndexText(text.value, chks[..], from, n)
  {
    var block: seq<byte> := [];
    values := [];
    for k := 0 to n
      invariant |values| == k && block == Join(values)
      invariant forall i | 0 <= i < k :: chks[from + i] == Some(values[i])
    {
      match chks[from + k]
      case None =>
        return None, values;
      case Some(chk) =>
        values := values + [chk];
        assert values[..k] + [chk] == values;
        block := block + (chk.key + chk.query);
    }
    assert forall i | from <= i < from + n :: chks[i] == Some(values[i - from]);
    GatheredText(chks[..], from, values);
    text := Some(block);
  }

  /** The plain text of the next block: file data, or the CHKs of the level below. */
  method NextBlock(data: seq<byte>, seal: Seal, ghost intended: bool, chks: array<Option<Chk>>, ro: nat, cur: nat,
                   ghost depth: nat)
    returns (block: Option<seq<byte>>)
    requires AtBlock(|data|, ro, cur, depth) && cur < depth && chks.Length == CHK_PER_INODE * depth
    requires Sound(intended, |data|) ==> Ready(chks[..], data, seal, ro, cur, depth)
    ensures block.Some? ==> |block.value| <= DBLOCK_SIZE
    ensures cur == 0 ==> block == Some(data[ro..ro + Min(DBLOCK_SIZE, |data| - ro)])
    ensures Sound(intended, |data|) ==> block.Some?
    ensures Sound(intended, |data|) && cur > 0 ==> seal(block.value) == Node(data, cur, LastIndex(ro, cur), seal)
    ensures cur > 0 && chks[CHK_PER_INODE * (cur - 1)] == None ==> block == None
    ensures cur > 0 && block.Some? ==>
              IndexText(block.value, chks[..], CHK_PER_INODE * (cur - 1), IBlockSize(cur, ro))
  {
    if cur == 0 {
      return Some(data[ro..ro + Min(DBLOCK_SIZE, |data| - ro)]);
    }
    var elements := IBlockSize(cur, ro);
    IBlockSizeIsLastSlotPlusOne(cur, ro);
    if Sound(intended, |data|) {
      NoEmptySlot(chks[..], data, seal, ro, cur, depth);
    }
    ghost var values;
    block, values := Gather(chks, CHK_PER_INODE * (cur - 1), elements);
    if Sound(intended, |data|) {
      IndexBlock(chks[..], data, seal, ro, cur - 1, depth, values);
    }
  }

  /**
    compute_rootchk.  The test for a completed index block reads `CHK_PER_INODE == off` in the
    program, which no offset satisfies; `intended` selects instead the test for the last slot.
    The result is None when the program dereferences an empty slot and dies.
   */
  method ComputeRootChk(data: seq<byte>, seal: Seal, intended: bool) returns (r: Option<FileChk>)
    ensures r == if intended || |data| <= TreeSize(2) then Some(FileChk(Root(data, seal), |data|)) else None
  {
    var size := |data|;
    var depth := ComputeDepth(size);
    var cur, ro := 0, 0;
    var chks := new Option<Chk>[CHK_PER_INODE * depth](_ => None);
    while true
      invariant AtBlock(size, ro, cur, depth)
      invariant Sound(intended, size) ==> Ready(chks[..], data, seal, ro, cur, depth)
      invariant !Sound(intended, size) ==> Sparse(chks[..], size, depth) && cur < depth && (cur >= 2 ==> ro == size)
      decreases size - ro, if cur == 0 && ro < size then 0 else depth + 1 - cur
    {
      if depth == cur {
        var top := CHK_PER_INODE * (depth - 1);
        TopReached(chks[..], data, seal, ro, depth);
        assert ro == size;
        return Some(FileChk(chks[top].value, size));
      }
      if !Sound(intended, size) {
        EmptyFirstSlot(chks[..], size, depth);
      }
      ghost var slots := chks[..];
      var block := NextBlock(data, seal, intended, chks, ro, cur, depth);
      if block.None? {
        return None;
      }
      var off := ChkOffset(cur, ro);
      chks[CHK_PER_INODE * cur + off] := Some(seal(block.value));
      assert chks[..] == Put(slots, cur, off, seal(block.value));
      var next := if cur == 0 then ro + |block.value| else ro;
      NextPosition(intended, size, ro, cur, depth, next);
      if Sound(intended, size) {
        Advance(slots, data, seal, intended, ro, cur, depth, next, seal(block.value));
      }
      cur, ro := NextLevel(intended, size, next, cur, off), next;
    }
  }

  // ----- A root CHK determines the content -----

  /** The plain texts sealed for the tree of level `d` over `part`. */
  ghost function Blocks(part: seq<byte>, d: nat, seal: Seal): set<seq<byte>>
    decreases d, 0, 0
  {
    if d == 0 then {part} else {Join(Children(part, d - 1, seal))} + ChildBlocks(part, d - 1, seal)
  }

  ghost function ChildBlocks(part: seq<byte>, d: nat, seal: Seal): set<seq<byte>>
    decreases d, 1, |part|
  {
    if |part| <= TreeSize(d) then Blocks(part, d, seal)
    else Blocks(part[..TreeSize(d)], d, seal) + ChildBlocks(part[TreeSize(d)..], d, seal)
  }

  ghost predicate NoCollision(a: set<seq<byte>>, b: set<seq<byte>>, seal: Seal) {
    forall x, y | x in a && y in b :: seal(x) == seal(y) ==> x == y
  }

  lemma {:induction false} JoinInjective(a: seq<Chk>, b: seq<Chk>)
    requires Join(a) == Join(b)
    ensures a == b
  {
    if a != [] && b != [] {
      var n := |a| - 1;
      assert |b| == n + 1;
      var x, y := a[n].key + a[n].query, b[n].key + b[n].query;
      assert Join(a) == Join(a[..n]) + x && Join(b) == Join(b[..n]) + y;
      assert Join(a[..n]) == Join(a)[..128 * n] == Join(b[..n]);
      assert x == Join(a)[128 * n..] == y;
      assert a[n].key == x[..64] == b[n].key && a[n].query == x[64..] == b[n].query;
      JoinInjective(a[..n], b[..n]);
      assert a == a[..n] + [a[n]] && b == b[..n] + [b[n]];
    }
  }

  lemma {:induction false} TreeInjective(a: seq<byte>, b: seq<byte>, d: nat, seal: Seal)
    requires NoCollision(Blocks(a, d, seal), Blocks(b, d, seal), seal)
    requires |a| == |b| && Tree(a, d, seal) == Tree(b, d, seal)
    ensures a == b
    decreases d, 0, 0
  {
    if d > 0 {
      JoinInjective(Children(a, d - 1, seal), Children(b, d - 1, seal));
      ChildrenInjective(a, b, d - 1, seal);
    }
  }

  lemma {:induction false} ChildrenInjective(a: seq<byte>, b: seq<byte>, d: nat, seal: Seal)
    requires NoCollision(ChildBlocks(a, d, seal), ChildBlocks(b, d, seal), seal)
    requires |a| == |b| && Children(a, d, seal) == Children(b, d, seal)
    ensures a == b
    decreases d, 1, |a|
  {
    var n := TreeSize(d);
    assert Children(a, d, seal)[0] == Children(b, d, seal)[0];
    if |a| <= n {
      TreeInjective(a, b, d, seal);
    } else {
      assert Children(a, d, seal)[1..] == Children(a[n..], d, seal);
      assert Children(b, d, seal)[1..] == Children(b[n..], d, seal);
      TreeInjective(a[..n], b[..n], d, seal);
      ChildrenInjective(a[n..], b[n..], d, seal);
      assert a == a[..n] + a[n..] && b == b[..n] + b[n..];
    }
  }

  /** Two files of one size have one root CHK only if they are the same file or two of their blocks collide. */
  lemma RootBindsContent(a: seq<byte>, b: seq<byte>, seal: Seal)
    requires |a| == |b| && Root(a, seal) == Root(b, seal) && a != b
    ensures exists x, y | x in Blocks(a, Depth(|a|) - 1, seal) && y in Blocks(b, Depth(|a|) - 1, seal) ::
              x != y && seal(x) == seal(y)
  {
    var d := Depth(|a|) - 1;
    if NoCollision(Blocks(a, d, seal), Blocks(b, d, seal), seal) {
      TreeInjective(a, b, d, seal);
    }
  }
}
