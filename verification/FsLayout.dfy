/** On-disk layout of the file system (kernel/fs.h): bytes, bits and words of blocks. */
module FsLayout {
  const BSIZE := 1024
  const BPB := BSIZE * 8
  const NDIRECT := 12
  const NINDIRECT := BSIZE / 4
  const MAXFILE := NDIRECT + NINDIRECT
  const IPB := 16              // inodes per block: BSIZE / sizeof(struct dinode)

  // The superblock.  Data blocks are the last nblocks blocks.
  datatype Super = Super(size: nat, nblocks: nat, ninodes: nat, inodestart: nat, bmapstart: nat)

  function DataStart(g: Super): int {
    g.size - g.nblocks
  }

  function BBlock(g: Super, b: int): int {
    b / BPB + g.bmapstart
  }

  function IBlock(g: Super, i: int): int {
    i / IPB + g.inodestart
  }

  predicate SuperOk(g: Super) {
    && 0 < g.nblocks < g.size && 0 < g.inodestart && BBlock(g, g.size - 1) < DataStart(g)
    && (g.ninodes > 0 ==> IBlock(g, g.ninodes - 1) < g.bmapstart) && g.inodestart <= g.bmapstart
    && g.size < 0x8000_0000
  }

  type Disk = seq<seq<int>>

  predicate ByteRange(x: seq<int>) {
    |x| == BSIZE && forall o :: 0 <= o < BSIZE ==> 0 <= x[o] < 256
  }

  predicate DiskOk(g: Super, d: Disk) {
    |d| == g.size && forall b :: 0 <= b < |d| ==> ByteRange(d[b])
  }

  function BlockAt(d: Disk, b: int): seq<int> {
    if 0 <= b < |d| then d[b] else []
  }

  function ByteAt(x: seq<int>, o: int): int {
    if 0 <= o < |x| then x[o] else 0
  }

  function Byte(d: Disk, b: int, o: int): int {
    ByteAt(BlockAt(d, b), o)
  }

  function PutByte(d: Disk, b: int, o: int, x: int): Disk {
    if 0 <= b < |d| && 0 <= o < |d[b]| then d[b := d[b][o := x]] else d
  }

  function Zeros(): seq<int> {
    seq(BSIZE, _ => 0)
  }

  // ----- Bits of a byte -----

  // x & (1 << k)
  predicate BitAt(x: int, k: nat)
    decreases k
  {
    if k == 0 then x % 2 == 1 else BitAt(x / 2, k - 1)
  }

  // x | (1 << k)
  function OrBit(x: int, k: nat): int
    decreases k
  {
    if k == 0 then (if x % 2 == 1 then x else x + 1) else 2 * OrBit(x / 2, k - 1) + x % 2
  }

  // x & ~(1 << k)
  function AndNotBit(x: int, k: nat): int
    decreases k
  {
    if k == 0 then (if x % 2 == 1 then x - 1 else x) else 2 * AndNotBit(x / 2, k - 1) + x % 2
  }

  lemma {:induction false} OrBitAt(x: int, k: nat, j: nat)
    ensures BitAt(OrBit(x, k), j) <==> j == k || BitAt(x, j)
    decreases k
  {
    if k > 0 && j > 0 {
      OrBitAt(x / 2, k - 1, j - 1);
    }
  }

  lemma {:induction false} AndNotBitAt(x: int, k: nat, j: nat)
    ensures BitAt(AndNotBit(x, k), j) <==> j != k && BitAt(x, j)
    decreases k
  {
    if k > 0 && j > 0 {
      AndNotBitAt(x / 2, k - 1, j - 1);
    }
  }

  // Setting or clearing one of the low n bits stays below 2^n.
  function Pow2(n: nat): (p: nat)
    ensures p > 0
  {
    if n == 0 then 1 else 2 * Pow2(n - 1)
  }

  lemma {:induction false} BitRange(x: int, k: nat, n: nat)
    requires 0 <= x < Pow2(n) && k < n
    ensures 0 <= OrBit(x, k) < Pow2(n) && 0 <= AndNotBit(x, k) < Pow2(n)
    decreases k
  {
    var p := Pow2(n - 1);
    assert Pow2(n) == 2 * p;
    if k > 0 {
      assert 0 <= x / 2 < p;
      BitRange(x / 2, k - 1, n - 1);
    }
  }

  // ----- The bitmap -----

  // Bit of block b in the free map.
  predicate Bit(g: Super, d: Disk, b: int) {
    BitAt(Byte(d, BBlock(g, b), b % BPB / 8), b % BPB % 8)
  }

  function SetBit(g: Super, d: Disk, b: int): Disk {
    PutByte(d, BBlock(g, b), b % BPB / 8, OrBit(Byte(d, BBlock(g, b), b % BPB / 8), b % BPB % 8))
  }

  function ClearBit(g: Super, d: Disk, b: int): Disk {
    PutByte(d, BBlock(g, b), b % BPB / 8, AndNotBit(Byte(d, BBlock(g, b), b % BPB / 8), b % BPB % 8))
  }

  // Two blocks share a bit only if they are the same block.
  lemma BitPlace(b: int, c: int)
    requires b / BPB == c / BPB && b % BPB / 8 == c % BPB / 8 && b % BPB % 8 == c % BPB % 8
    ensures b == c
  {
  }

  lemma BBlockRange(g: Super, b: int)
    requires SuperOk(g) && 0 <= b < g.size
    ensures 0 < g.bmapstart <= BBlock(g, b) < DataStart(g) <= g.size && 0 <= b % BPB / 8 < BSIZE
  {
  }

  // What marking block b changes: its bit, nothing else in the map, nothing outside the map.
  lemma SetBitEffect(g: Super, d: Disk, d': Disk, b: int)
    requires SuperOk(g) && DiskOk(g, d) && 0 <= b < g.size && d' == SetBit(g, d, b)
    ensures DiskOk(g, d')
    ensures forall c :: 0 <= c < g.size ==> (Bit(g, d', c) <==> c == b || Bit(g, d, c))
    ensures forall x :: DataStart(g) <= x < g.size ==> d'[x] == d[x]
  {
    BBlockRange(g, b);
    var was := Byte(d, BBlock(g, b), b % BPB / 8);
    assert Pow2(8) == 256;
    BitRange(was, b % BPB % 8, 8);
    forall c | 0 <= c < g.size ensures Bit(g, d', c) <==> c == b || Bit(g, d, c) {
      BBlockRange(g, c);
      OrBitAt(was, b % BPB % 8, c % BPB % 8);
      if BBlock(g, c) == BBlock(g, b) && c % BPB / 8 == b % BPB / 8 && c % BPB % 8 == b % BPB % 8 {
        BitPlace(b, c);
      }
    }
  }

  lemma ClearBitEffect(g: Super, d: Disk, d': Disk, b: int)
    requires SuperOk(g) && DiskOk(g, d) && 0 <= b < g.size && d' == ClearBit(g, d, b)
    ensures DiskOk(g, d')
    ensures forall c :: 0 <= c < g.size ==> (Bit(g, d', c) <==> c != b && Bit(g, d, c))
    ensures forall x :: DataStart(g) <= x < g.size ==> d'[x] == d[x]
  {
    BBlockRange(g, b);
    var was := Byte(d, BBlock(g, b), b % BPB / 8);
    assert Pow2(8) == 256;
    BitRange(was, b % BPB % 8, 8);
    forall c | 0 <= c < g.size ensures Bit(g, d', c) <==> c != b && Bit(g, d, c) {
      BBlockRange(g, c);
      AndNotBitAt(was, b % BPB % 8, c % BPB % 8);
      if BBlock(g, c) == BBlock(g, b) && c % BPB / 8 == b % BPB / 8 && c % BPB % 8 == b % BPB % 8 {
        BitPlace(b, c);
      }
    }
  }

  // Bits depend on the bitmap blocks only.
  lemma BitElsewhere(g: Super, d: Disk, d': Disk, c: int)
    requires SuperOk(g) && 0 <= c < g.size
    requires forall x :: g.bmapstart <= x < DataStart(g) ==> BlockAt(d', x) == BlockAt(d, x)
    ensures Bit(g, d', c) <==> Bit(g, d, c)
  {
    BBlockRange(g, c);
    assert BlockAt(d', BBlock(g, c)) == BlockAt(d, BBlock(g, c));
  }

  // ----- Words of an indirect block -----

  // a[j] for a = (uint *)bp->data, little-endian
  function Word(x: seq<int>, j: int): int {
    if 0 <= j && 4 * j + 3 < |x|
    then x[4 * j] + 256 * x[4 * j + 1] + 65536 * x[4 * j + 2] + 16777216 * x[4 * j + 3]
    else 0
  }

  function PutWord(x: seq<int>, j: int, v: int): seq<int> {
    if 0 <= j && 4 * j + 3 < |x|
    then x[4 * j := v % 256][4 * j + 1 := v / 256 % 256]
         [4 * j + 2 := v / 256 / 256 % 256][4 * j + 3 := v / 256 / 256 / 256]
    else x
  }

  lemma PutWordAt(x: seq<int>, j: int, v: int, i: int)
    requires 0 <= j && 4 * j + 3 < |x| && 0 <= i && 4 * i + 3 < |x|
    ensures Word(PutWord(x, j, v), i) == if i == j then v else Word(x, i)
  {
  }

  // x' is x with word j changed to v.
  ghost predicate WordSet(x: seq<int>, x': seq<int>, j: int, v: int) {
    forall k :: 0 <= k < NINDIRECT ==> Word(x', k) == if k == j then v else Word(x, k)
  }

  lemma PutWordSets(x: seq<int>, j: int, v: int)
    requires ByteRange(x) && 0 <= j < NINDIRECT && IsWord(v)
    ensures WordSet(x, PutWord(x, j, v), j, v) && ByteRange(PutWord(x, j, v))
  {
    PutWordOk(x, j, v);
    forall k | 0 <= k < NINDIRECT ensures Word(PutWord(x, j, v), k) == if k == j then v else Word(x, k) {
      PutWordAt(x, j, v, k);
    }
  }

  lemma PutWordOk(x: seq<int>, j: int, v: int)
    requires ByteRange(x) && 0 <= v < 0x1_0000_0000
    ensures ByteRange(PutWord(x, j, v))
  {
  }

  lemma ZeroWords(j: int)
    ensures Word(Zeros(), j) == 0
  {
  }

  // ----- Disk inodes -----

  // addrs holds NDIRECT data blocks and the indirect block; 0 is "none".
  datatype Inode = Inode(kind: int, major: int, minor: int, nlink: int, size: int, addrs: seq<int>)

  function U16(v: int): int {
    v % 65536
  }

  function S16(u: int): int {
    if u < 32768 then u else u - 65536
  }

  predicate IsShort(v: int) {
    -32768 <= v < 32768
  }

  predicate IsWord(v: int) {
    0 <= v < 0x1_0000_0000
  }

  predicate InodeOk(x: Inode) {
    && IsShort(x.kind) && IsShort(x.major) && IsShort(x.minor) && IsShort(x.nlink) && IsWord(x.size)
    && |x.addrs| == NDIRECT + 1
    && forall k :: 0 <= k <= NDIRECT ==> IsWord(x.addrs[k])
  }

  // struct dinode as its sixteen little-endian words
  function DinodeWords(x: Inode): seq<int> {
    [U16(x.kind) + 65536 * U16(x.major), U16(x.minor) + 65536 * U16(x.nlink), x.size] + x.addrs
  }

  function PutWords(x: seq<int>, at: int, ws: seq<int>, n: nat): seq<int> {
    if n == 0 || n > |ws| then x else PutWord(PutWords(x, at, ws, n - 1), at + n - 1, ws[n - 1])
  }

  lemma {:induction false} PutWordsOk(x: seq<int>, at: int, ws: seq<int>, n: nat)
    requires ByteRange(x) && n <= |ws| && forall k :: 0 <= k < |ws| ==> IsWord(ws[k])
    ensures ByteRange(PutWords(x, at, ws, n))
  {
    if n > 0 {
      PutWordsOk(x, at, ws, n - 1);
      PutWordOk(PutWords(x, at, ws, n - 1), at + n - 1, ws[n - 1]);
    }
  }

  lemma {:induction false} PutWordsAt(x: seq<int>, at: int, ws: seq<int>, n: nat, i: int)
    requires ByteRange(x) && n <= |ws| && 0 <= at && at + |ws| <= NINDIRECT && 0 <= i < NINDIRECT
    requires forall k :: 0 <= k < |ws| ==> IsWord(ws[k])
    ensures Word(PutWords(x, at, ws, n), i) == if at <= i < at + n then ws[i - at] else Word(x, i)
  {
    if n > 0 {
      PutWordsOk(x, at, ws, n - 1);
      PutWordsAt(x, at, ws, n - 1, i);
      PutWordAt(PutWords(x, at, ws, n - 1), at + n - 1, ws[n - 1], i);
    }
  }

  function FromWords(ws: seq<int>): Inode
    requires |ws| == 16
  {
    Inode(S16(ws[0] % 65536), S16(ws[0] / 65536), S16(ws[1] % 65536), S16(ws[1] / 65536), ws[2], ws[3..])
  }

  // Disk inode number j of an inode block
  function DinodeAt(x: seq<int>, j: int): Inode {
    FromWords(WordsAt(x, j))
  }

  function WordsAt(x: seq<int>, j: int): (ws: seq<int>)
    ensures |ws| == 16
  {
    seq(16, k => Word(x, 16 * j + k))
  }

  function PutDinode(x: seq<int>, j: int, ino: Inode): seq<int> {
    PutWords(x, 16 * j, DinodeWords(ino), |DinodeWords(ino)|)
  }

  lemma PutDinodeOk(x: seq<int>, j: int, ino: Inode)
    requires ByteRange(x) && 0 <= j < IPB && InodeOk(ino)
    ensures ByteRange(PutDinode(x, j, ino))
    ensures forall k :: 0 <= k < 16 ==> IsWord(DinodeWords(ino)[k])
  {
    PutWordsOk(x, 16 * j, DinodeWords(ino), |DinodeWords(ino)|);
  }

  // A written inode reads back whole, and its neighbours in the block are untouched.
  lemma DinodeRoundTrip(x: seq<int>, j: int, ino: Inode, i: int)
    requires ByteRange(x) && 0 <= j < IPB && 0 <= i < IPB && InodeOk(ino)
    ensures DinodeAt(PutDinode(x, j, ino), i) == if i == j then ino else DinodeAt(x, i)
  {
    WordsRoundTrip(x, j, ino, i);
    FromDinodeWords(ino);
  }

  lemma WordsRoundTrip(x: seq<int>, j: int, ino: Inode, i: int)
    requires ByteRange(x) && 0 <= j < IPB && 0 <= i < IPB && InodeOk(ino)
    ensures WordsAt(PutDinode(x, j, ino), i) == if i == j then DinodeWords(ino) else WordsAt(x, i)
  {
    PutDinodeOk(x, j, ino);
    var y, ws := PutDinode(x, j, ino), DinodeWords(ino);
    forall k | 0 <= k < 16
      ensures WordsAt(y, i)[k] == if i == j then ws[k] else WordsAt(x, i)[k]
    {
      PutWordsAt(x, 16 * j, ws, |ws|, 16 * i + k);
    }
  }

  lemma FromDinodeWords(ino: Inode)
    requires InodeOk(ino)
    ensures FromWords(DinodeWords(ino)) == ino
  {
    ShortPair(ino.kind, ino.major);
    ShortPair(ino.minor, ino.nlink);
  }

  lemma ShortPair(a: int, b: int)
    requires IsShort(a) && IsShort(b)
    ensures S16((U16(a) + 65536 * U16(b)) % 65536) == a && S16((U16(a) + 65536 * U16(b)) / 65536) == b
  {
    var u, v := U16(a), U16(b);
    assert (u + 65536 * v) % 65536 == u && (u + 65536 * v) / 65536 == v;
  }

  // What the disk holds for inode i.
  function Dinode(g: Super, d: Disk, i: int): Inode {
    DinodeAt(BlockAt(d, IBlock(g, i)), i % IPB)
  }

  // ----- The disk as one string of bytes -----

  function FlatByte(d: Disk, n: int): int {
    Byte(d, n / BSIZE, n % BSIZE)
  }

  lemma FlatPlace(b: int, o: int, n: int)
    requires 0 <= o < BSIZE && n == b * BSIZE + o
    ensures n / BSIZE == b && n % BSIZE == o
  {
  }

  // Where bit b is, counted in whole blocks of bits and in bytes.
  lemma BitBytes(b: int)
    requires 0 <= b
    ensures b / 8 == b / BPB * BSIZE + b % BPB / 8 && 0 <= b % BPB / 8 < BSIZE && b % BPB % 8 == b % 8
  {
    var q, r := b / BPB, b % BPB;
    assert b == 8 * (BSIZE * q) + r;
    assert b / 8 == BSIZE * q + r / 8;
  }

  /** The free map is an array of bits from bmapstart on, eight to a byte. */
  lemma BitmapFlat(g: Super, d: Disk, b: int)
    requires 0 <= b
    ensures Bit(g, d, b) <==> BitAt(FlatByte(d, g.bmapstart * BSIZE + b / 8), b % 8)
  {
    BitBytes(b);
    FlatPlace(BBlock(g, b), b % BPB / 8, g.bmapstart * BSIZE + b / 8);
  }

  function Le16(x: seq<int>, o: int): int {
    ByteAt(x, o) + 256 * ByteAt(x, o + 1)
  }

  function Le32(x: seq<int>, o: int): int {
    Le16(x, o) + 65536 * Le16(x, o + 2)
  }

  lemma WordBytes(x: seq<int>, j: int, o: int)
    requires ByteRange(x) && 0 <= j < NINDIRECT && o == 4 * j
    ensures Word(x, j) == Le32(x, o) && Word(x, j) % 65536 == Le16(x, o) && Word(x, j) / 65536 == Le16(x, o + 2)
  {
    assert 0 <= Le16(x, o) < 65536;
    Halves(Le16(x, o), Le16(x, o + 2), Word(x, j));
  }

  lemma Halves(lo: int, hi: int, w: int)
    requires 0 <= lo < 65536 && w == lo + 65536 * hi
    ensures w % 65536 == lo && w / 65536 == hi
  {
  }

  /** The inodes are an array of 64-byte records from inodestart on. */
  lemma InodePlace(g: Super, i: int)
    requires 0 <= i
    ensures g.inodestart * BSIZE + 64 * i == IBlock(g, i) * BSIZE + 64 * (i % IPB) && 64 * (i % IPB) + 64 <= BSIZE
  {
    var q, r := i / IPB, i % IPB;
    assert i == IPB * q + r;
  }

  /** The record, at byte o of its block: four shorts, the size, the block addresses. */
  lemma InodeRecord(x: seq<int>, j: int, o: int)
    requires ByteRange(x) && 0 <= j < IPB && o == 64 * j
    ensures var ino := DinodeAt(x, j);
            && ino.kind == S16(Le16(x, o)) && ino.major == S16(Le16(x, o + 2)) && ino.minor == S16(Le16(x, o + 4))
            && ino.nlink == S16(Le16(x, o + 6)) && ino.size == Le32(x, o + 8) && |ino.addrs| == NDIRECT + 1
            && forall k :: 0 <= k <= NDIRECT ==> ino.addrs[k] == Le32(x, o + 12 + 4 * k)
  {
    WordBytes(x, 16 * j, o);
    WordBytes(x, 16 * j + 1, o + 4);
    WordBytes(x, 16 * j + 2, o + 8);
    var ino := DinodeAt(x, j);
    forall k | 0 <= k <= NDIRECT ensures ino.addrs[k] == Le32(x, o + 12 + 4 * k) {
      WordBytes(x, 16 * j + 3 + k, o + 12 + 4 * k);
    }
  }
}
