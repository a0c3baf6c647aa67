/** The LZ4 block format: a block is a list of sequences, each a run of literals followed by a match that repeats
    earlier output, and a final run of literals. */
module Lz4Format {
  type Byte = x: int | 0 <= x < 256

  const MINMATCH := 4
  const LASTLITERALS := 5
  const MFLIMIT := 12
  const MAX_DISTANCE := 65535
  const RUN_MASK := 15
  const ML_MASK := 15
  const MAX_INPUT_SIZE := 0x7E000000

  /** Literals, then len bytes copied from off bytes back. */
  datatype Part = Part(lits: seq<Byte>, off: nat, len: nat)

  /** The last token has no match to describe: the low half of it, spare, means nothing. */
  datatype Block = Block(parts: seq<Part>, last: seq<Byte>, spare: nat)

  // ---------- the bytes of a block ----------

  /** What does not fit in a token's four bits: bytes of 255 and a smaller one. */
  function LenBytes(v: nat): (r: seq<Byte>)
    ensures |r| == v / 255 + 1
  {
    if v < 255 then [v] else [255] + LenBytes(v - 255)
  }

  function Ext(v: nat): (r: seq<Byte>)
    ensures |r| == if v < 15 then 0 else (v - 15) / 255 + 1
  {
    if v < 15 then [] else LenBytes(v - 15)
  }

  function Nibble(v: nat): nat {
    if v < 15 then v else 15
  }

  function Le16(v: nat): seq<Byte> {
    [v % 256, v / 256 % 256]
  }

  /** A match is at least four bytes long and its offset fits two bytes. */
  predicate Encodable(p: Part) {
    p.len >= MINMATCH && p.off <= MAX_DISTANCE
  }

  function Head(lits: seq<Byte>, more: nat): seq<Byte>
    requires more < 16
  {
    [16 * Nibble(|lits|) + more] + Ext(|lits|) + lits
  }

  function EncodePart(p: Part): seq<Byte>
    requires Encodable(p)
  {
    Head(p.lits, Nibble(p.len - MINMATCH)) + Le16(p.off) + Ext(p.len - MINMATCH)
  }

  function EncodeParts(parts: seq<Part>): seq<Byte>
    requires forall p <- parts :: Encodable(p)
  {
    if parts == [] then []
    else EncodeParts(parts[..|parts| - 1]) + EncodePart(parts[|parts| - 1])
  }

  predicate Writable(b: Block) {
    (forall p <- b.parts :: Encodable(p)) && b.spare < 16
  }

  function Encode(b: Block): seq<Byte>
    requires Writable(b)
  {
    EncodeParts(b.parts) + Head(b.last, b.spare)
  }

  // ---------- the bytes a block stands for ----------

  function OutLen(parts: seq<Part>): nat {
    if parts == [] then 0
    else OutLen(parts[..|parts| - 1]) + |parts[|parts| - 1].lits| + parts[|parts| - 1].len
  }

  /** Copying one byte at a time, so that a match may overlap the bytes it produces. */
  function CopyMatch(out: seq<Byte>, off: nat, len: nat): (r: seq<Byte>)
    ensures |r| == |out| + len
  {
    if len == 0 then out
    else
      var r := CopyMatch(out, off, len - 1);
      r + [if 1 <= off <= |r| then r[|r| - off] else 0]
  }

  function Out(parts: seq<Part>): (r: seq<Byte>)
    ensures |r| == OutLen(parts)
  {
    if parts == [] then []
    else
      var p := parts[|parts| - 1];
      CopyMatch(Out(parts[..|parts| - 1]) + p.lits, p.off, p.len)
  }

  function Expand(b: Block): (r: seq<Byte>)
    ensures |r| == OutLen(b.parts) + |b.last|
  {
    Out(b.parts) + b.last
  }

  /** Where the match of part i starts in the output. */
  function MatchStart(parts: seq<Part>, i: nat): nat
    requires i < |parts|
  {
    OutLen(parts[..i]) + |parts[i].lits|
  }

  /** Every match refers to output that is already there. */
  predicate OffsetsOk(parts: seq<Part>) {
    forall i | 0 <= i < |parts| :: 1 <= parts[i].off <= MatchStart(parts, i)
  }

  /** The parsing restrictions on a block of n bytes: the last five bytes are literals and no match starts within the
      last twelve. */
  predicate Restricted(parts: seq<Part>, n: int) {
    forall i | 0 <= i < |parts| ::
      MatchStart(parts, i) + MFLIMIT <= n && MatchStart(parts, i) + parts[i].len + LASTLITERALS <= n
  }

  predicate WellFormed(b: Block) {
    && Writable(b) && b.spare == 0
    && OffsetsOk(b.parts) && Restricted(b.parts, |Expand(b)|)
  }

  // ---------- facts about parts ----------

  lemma AddPart(parts: seq<Part>, p: Part)
    requires (forall q <- parts :: Encodable(q)) && Encodable(p)
    ensures forall q <- parts + [p] :: Encodable(q)
    ensures EncodeParts(parts + [p]) == EncodeParts(parts) + EncodePart(p)
    ensures OutLen(parts + [p]) == OutLen(parts) + |p.lits| + p.len
    ensures Out(parts + [p]) == CopyMatch(Out(parts) + p.lits, p.off, p.len)
    ensures OffsetsOk(parts) && 1 <= p.off <= OutLen(parts) + |p.lits| ==> OffsetsOk(parts + [p])
  {
    assert (parts + [p])[..|parts|] == parts;
    forall i | 0 <= i < |parts| ensures MatchStart(parts + [p], i) == MatchStart(parts, i) {
      assert (parts + [p])[..i] == parts[..i];
    }
  }

  lemma AddRestricted(parts: seq<Part>, p: Part, n: int)
    requires Restricted(parts, n)
    requires OutLen(parts) + |p.lits| + MFLIMIT <= n && OutLen(parts) + |p.lits| + p.len + LASTLITERALS <= n
    ensures Restricted(parts + [p], n)
  {
    assert (parts + [p])[..|parts|] == parts;
    forall i | 0 <= i < |parts| ensures MatchStart(parts + [p], i) == MatchStart(parts, i) {
      assert (parts + [p])[..i] == parts[..i];
    }
  }

  /** d[k] repeats the byte off back, for every k in [lo, hi). */
  predicate Repeats(d: seq<Byte>, lo: int, hi: int, off: int) {
    0 < off <= lo && hi <= |d| && forall k | lo <= k < hi :: d[k] == d[k - off]
  }

  /** A stretch that repeats byte by byte is what copying one byte at a time produces. */
  lemma {:induction false} RepeatsIsCopy(d: seq<Byte>, lo: nat, len: nat, off: nat)
    requires lo + len <= |d| && Repeats(d, lo, lo + len, off)
    ensures CopyMatch(d[..lo], off, len) == d[..lo + len]
  {
    if len > 0 {
      RepeatsIsCopy(d, lo, len - 1, off);
      assert d[..lo + len] == d[..lo + len - 1] + [d[lo + len - 1]];
    }
  }

  /** Sixty-four zeros, as a literal zero, a match of 58 bytes one byte back, and the last five bytes. */
  lemma ShortExample()
    ensures Encode(Block([Part([0], 1, 58)], [0, 0, 0, 0, 0], 0)) == [31, 0, 1, 0, 39, 80, 0, 0, 0, 0, 0]
  {
    var p := Part([0], 1, 58);
    assert [p][..0] == [];
    assert EncodeParts([p]) == EncodeParts([]) + EncodePart(p);
    assert Ext(54) == [39] && Ext(1) == [] && Ext(5) == [];
    assert EncodePart(p) == [31, 0, 1, 0, 39];
    assert Head([0, 0, 0, 0, 0], 0) == [80, 0, 0, 0, 0, 0];
  }

  /** The limits of the format: a match may start twelve bytes before the end and go on to five bytes before it, and no
      further. */
  lemma LimitsExample(n: nat)
    requires n >= 13
    ensures Restricted([Part([0], 1, n - 6)], n) && !Restricted([Part([0], 1, n - 5)], n)
    ensures Restricted([Part(seq(n - 12, _ => 0), 1, 4)], n) && !Restricted([Part(seq(n - 11, _ => 0), 1, 4)], n)
  {
    OnePart(Part([0], 1, n - 6));
    OnePart(Part([0], 1, n - 5));
    OnePart(Part(seq(n - 12, _ => 0), 1, 4));
    OnePart(Part(seq(n - 11, _ => 0), 1, 4));
  }

  lemma OnePart(p: Part)
    ensures MatchStart([p], 0) == |p.lits|
  {
    assert [p][..0] == [];
  }

  /** The low byte of an offset comes first, and lengths beyond the token go on in bytes of 255 and a smaller one. */
  lemma LongExample()
    ensures Le16(0x1234) == [0x34, 0x12] && Ext(14) == [] && Ext(15) == [0] && Ext(300) == [255, 30]
    ensures Head([7], 9) == [16 + 9, 7]
  {
    assert LenBytes(285) == [255] + LenBytes(30);
  }

  // ---------- the size of an encoding ----------

  lemma {:induction false} EncodePartsBound(parts: seq<Part>)
    requires forall p <- parts :: Encodable(p)
    ensures 255 * |EncodeParts(parts)| <= 256 * OutLen(parts)
  {
    if parts != [] {
      EncodePartsBound(parts[..|parts| - 1]);
    }
  }

  /** LZ4_COMPRESSBOUND, for sizes the compressor supports. */
  function CompressBound(n: nat): nat {
    if n > MAX_INPUT_SIZE then 0 else n + n / 255 + 16
  }

  /** However badly the input compresses, an encoding of n bytes is at most n + n/255 + 16 bytes long. */
  lemma EncodeBound(b: Block)
    requires Writable(b)
    ensures |Encode(b)| <= |Expand(b)| + |Expand(b)| / 255 + 16
  {
    EncodePartsBound(b.parts);
  }
}
