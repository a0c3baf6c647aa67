/** The compressor's working memory: a block of bytes that holds the hash table and, past it, fields that only streaming
    uses. */
module Lz4State {
  import opened Lz4Format
  import opened Lz4Memory
  import opened Lz4Search

  const TABLE_BYTES := 16384     // of the hash table, whichever the width of its entries
  const STREAM_SIZE := 16416     // of the whole block, LZ4_STREAMSIZE

  function Width(t: TableType): nat {
    if t.ByU16? then 2 else 4
  }

  /** The table as it lies in memory. */
  function Table(mem: seq<Byte>, t: TableType): (r: seq<nat>)
    requires TABLE_BYTES <= |mem|
    ensures |r| == TableSize(t)
  {
    seq(TableSize(t), h requires 0 <= h < TableSize(t) => Word(mem, Width(t) * h, Width(t)))
  }

  /** The memory is large enough for the table, and no entry is past top. */
  predicate StateOk(mem: seq<Byte>, t: TableType, top: int) {
    TABLE_BYTES <= |mem| && TableOk(Table(mem, t), t, top)
  }

  lemma LeOfTwo(v: nat)
    requires v < 0x1_0000
    ensures Le([v % 256, v / 256]) == v
  {
    var x: seq<Byte> := [v % 256, v / 256];
    assert x[1..] == [v / 256] && Le(x[1..]) == v / 256;
  }

  function FourBytesOf(v: nat): (r: seq<Byte>)
    requires v < TWO_32
    ensures |r| == 4
  {
    [v % 256, v / 256 % 256, v / 256 / 256 % 256, v / 256 / 256 / 256]
  }

  lemma LeOfFour(v: nat)
    requires v < TWO_32
    ensures Le(FourBytesOf(v)) == v
  {
    var x, a, b := FourBytesOf(v), v / 256, v / 256 / 256;
    LeOfTwo(b);
    assert x[1..][1..] == [b % 256, b / 256];
    assert Le(x[1..]) == a % 256 + 256 * b;
  }

  /** LZ4_getPositionOnHash */
  method GetSlot(mem: array<Byte>, t: TableType, h: nat) returns (v: nat)
    requires TABLE_BYTES <= mem.Length && h < TableSize(t)
    ensures v == Table(mem[..], t)[h]
  {
    v := Word(mem[..], Width(t) * h, Width(t));
  }

  /** Only the bytes of one entry have changed, and they now read v. */
  lemma SlotIsPut(before: seq<Byte>, now: seq<Byte>, t: TableType, h: nat, v: nat)
    requires TABLE_BYTES <= |before| == |now| && h < TableSize(t)
    requires Word(now, Width(t) * h, Width(t)) == v
    requires forall i | 0 <= i < |now| && !(Width(t) * h <= i < Width(t) * h + Width(t)) :: now[i] == before[i]
    ensures Table(now, t) == Table(before, t)[h := v]
  {
    var w := Width(t);
    forall k | 0 <= k < TableSize(t) && k != h ensures Word(now, w * k, w) == Word(before, w * k, w) {
      assert now[w * k..w * k + w] == before[w * k..w * k + w];
    }
  }

  /** LZ4_putPositionOnHash */
  method PutSlot(mem: array<Byte>, t: TableType, h: nat, v: nat)
    requires TABLE_BYTES <= mem.Length && h < TableSize(t) && v < if t.ByU16? then 0x1_0000 else TWO_32
    modifies mem
    ensures Table(mem[..], t) == Table(old(mem[..]), t)[h := v]
    ensures mem[TABLE_BYTES..] == old(mem[TABLE_BYTES..])
  {
    if t.ByU16? {
      mem[2 * h], mem[2 * h + 1] := v % 256, v / 256;
      LeOfTwo(v);
      assert mem[..][2 * h..2 * h + 2] == [v % 256, v / 256];
    } else {
      LeOfFour(v);
      mem[4 * h], mem[4 * h + 1] := v % 256, v / 256 % 256;
      mem[4 * h + 2], mem[4 * h + 3] := v / 256 / 256 % 256, v / 256 / 256 / 256;
      assert mem[..][4 * h..4 * h + 4] == FourBytesOf(v);
    }
    hide Table, Le;
    SlotIsPut(old(mem[..]), mem[..], t, h, v);
  }

  lemma ClearedIsZero(mem: seq<Byte>, t: TableType)
    requires TABLE_BYTES <= |mem| && forall i | 0 <= i < TABLE_BYTES :: mem[i] == 0
    ensures Table(mem, t) == seq(TableSize(t), _ => 0) && StateOk(mem, t, 0)
  {
    forall h | 0 <= h < TableSize(t) ensures Word(mem, Width(t) * h, Width(t)) == 0 {
      LeOfZeros(mem[Width(t) * h..Width(t) * h + Width(t)]);
    }
  }

  /** LZ4_resetStream */
  method ResetStream(mem: array<Byte>)
    requires STREAM_SIZE <= mem.Length
    modifies mem
    ensures forall t :: Table(mem[..], t) == seq(TableSize(t), _ => 0) && StateOk(mem[..], t, 0)
    ensures mem[STREAM_SIZE..] == old(mem[STREAM_SIZE..])
  {
    for i := 0 to STREAM_SIZE
      invariant forall k | 0 <= k < i :: mem[k] == 0
      invariant mem[STREAM_SIZE..] == old(mem[STREAM_SIZE..])
    {
      mem[i] := 0;
    }
    forall t ensures Table(mem[..], t) == seq(TableSize(t), _ => 0) && StateOk(mem[..], t, 0) {
      ClearedIsZero(mem[..], t);
    }
  }
}
