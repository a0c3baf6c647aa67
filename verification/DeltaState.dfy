/** Saving an LP's state as the compressed difference between what an event's handler found and what it left. */
module DeltaState {
  import opened Lz4Format
  import opened Lz4Memory
  import opened Lz4Search
  import opened Lz4Parse
  import opened Lz4State
  import opened Lz4Compress
  import opened Lz4Decompress

  /** Subtraction of unsigned bytes, which wraps around. */
  function Minus(a: Byte, b: Byte): Byte {
    (a - b) % 256
  }

  function Delta(now: seq<Byte>, before: seq<Byte>): (d: seq<Byte>)
    requires |now| == |before|
    ensures |d| == |now|
  {
    seq(|now|, i requires 0 <= i < |now| => Minus(now[i], before[i]))
  }

  /** Taking the difference away again gives back what was there before. */
  lemma DeltaInverts(now: seq<Byte>, before: seq<Byte>)
    requires |now| == |before|
    ensures Delta(now, Delta(now, before)) == before
  {
    forall i | 0 <= i < |now| ensures Minus(now[i], Minus(now[i], before[i])) == before[i] {
    }
  }

  /** Adding the difference to the state before gives the present one, and it is zero exactly where nothing changed. */
  lemma DeltaIsDifference(now: seq<Byte>, before: seq<Byte>)
    requires |now| == |before|
    ensures var d := Delta(now, before);
      forall i | 0 <= i < |now| ::
        (before[i] as int + d[i] as int) % 256 == now[i] && (d[i] == 0 <==> now[i] == before[i])
  {
    forall i | 0 <= i < |now|
      ensures (before[i] as int + Minus(now[i], before[i]) as int) % 256 == now[i]
      ensures Minus(now[i], before[i]) == 0 <==> now[i] == before[i]
    {
    }
  }

  lemma NoChangeIsZero(now: seq<Byte>)
    ensures AllEqual(Delta(now, now))
  {
  }

  method SubtractFrom(now: array<Byte>, snapshot: array<Byte>)
    requires now != snapshot && now.Length == snapshot.Length
    modifies snapshot
    ensures snapshot[..] == Delta(now[..], old(snapshot[..]))
  {
    for i := 0 to now.Length
      invariant forall k | 0 <= k < i :: snapshot[k] == Minus(now[k], old(snapshot[k]))
      invariant forall k | i <= k < now.Length :: snapshot[k] == old(snapshot[k])
    {
      snapshot[i] := Minus(now[i], snapshot[i]);
    }
  }

  method Subtract(now: array<Byte>, snapshot: array<Byte>)
    requires now != snapshot && now.Length == snapshot.Length
    modifies now
    ensures now[..] == Delta(old(now[..]), snapshot[..])
  {
    for i := 0 to now.Length
      invariant forall k | 0 <= k < i :: now[k] == Minus(old(now[k]), snapshot[k])
      invariant forall k | i <= k < now.Length :: now[k] == old(now[k])
    {
      now[i] := Minus(now[i], snapshot[i]);
    }
  }

  /** The buffer holds a well-formed block that stands for d. */
  ghost predicate Holds(buddy: seq<Byte>, d: seq<Byte>) {
    exists b: Block :: WellFormed(b) && Encode(b) == buddy && Expand(b) == d
  }

  class Event {
    var deltaBuddy: array<Byte>
    var deltaSize: nat

    constructor ()
      ensures fresh(deltaBuddy) && deltaSize == 0
    {
      deltaBuddy := new Byte[0];
      deltaSize := 0;
    }
  }

  /** The bytes of d, compressed, in a buffer of just that size. */
  method SaveBlock(d: array<Byte>, out: array<Byte>, mem: array<Byte>, ev: Event, knob: nat) returns (size: nat)
    requires d != out && d != mem && out != mem && d.Length <= MAX_INPUT_SIZE
    requires CompressBound(d.Length) <= out.Length && STREAM_SIZE <= mem.Length
    modifies out, mem, ev
    ensures size == ev.deltaSize == ev.deltaBuddy.Length <= CompressBound(d.Length) && fresh(ev.deltaBuddy)
    ensures Moves(Acceleration(knob)) ==> Holds(ev.deltaBuddy[..], d[..])
    ensures AllEqual(d[..]) && d.Length >= 14 ==> size <= d.Length / 255 + 12
  {
    hide *;
    ghost var b;
    size, b := CompressFast(d, out, mem, knob);
    var buddy := new Byte[size];
    CopyN(buddy, 0, out, 0, size);
    assert buddy[..] == out[..size];
    if Moves(Acceleration(knob)) {
      BlockHolds(d[..], out[..], size, b);
    }
    ev.deltaBuddy, ev.deltaSize := buddy, size;
  }

  lemma BlockHolds(d: seq<Byte>, out: seq<Byte>, size: nat, b: Block)
    requires WellFormed(b) && Expand(b) == d && Compressed(d, out, size, b)
    ensures size <= |out| && Holds(out[..size], d)
  {
    hide WellFormed, Encode, Expand, Restricted;
  }

  // ---------- the delta buffers ----------

  /** tw_calloc rounds sizes up to multiples of eight. */
  function RoundUp8(n: nat): nat {
    (n + 7) / 8 * 8
  }

  /** What tw_delta_alloc gives each of the three buffers of a PE whose largest state has n bytes. */
  function BufferSize(n: nat): nat {
    RoundUp8(CompressBound(n))
  }

  /** The size of the largest state from which on the third buffer is large enough for the compressor's memory. */
  const LEAST_LARGEST := 16329

  /** The third buffer, which is as large as an output buffer, is large enough for the memory that the compressor
      clears and keeps its table in exactly if the largest state is. */
  lemma ScratchFitsIff(n: nat)
    requires n <= MAX_INPUT_SIZE
    ensures STREAM_SIZE <= BufferSize(n) <==> LEAST_LARGEST <= n
  {
    if n < LEAST_LARGEST {
      assert n + n / 255 + 16 <= 16408;
    }
  }

  /** For states of eight bytes it has 24 bytes; one byte below the bound it is still eight bytes short. */
  lemma ScratchTooSmall()
    ensures BufferSize(8) == 24 && BufferSize(LEAST_LARGEST - 1) == 16408 < STREAM_SIZE
  {
  }

  class Lp {
    const largest: nat           // the size of the largest state of any LP
    const state: array<Byte>     // the state vector
    const buffer0: array<Byte>   // the part of the first delta buffer that a state takes up
    const buffer1: array<Byte>   // the second delta buffer
    const scratch: array<Byte>   // the third delta buffer

    ghost predicate Valid() {
      && state != buffer0 && state != buffer1 && state != scratch
      && buffer0 != buffer1 && buffer0 != scratch && buffer1 != scratch
      && state.Length <= largest <= MAX_INPUT_SIZE && buffer0.Length == state.Length
      && buffer1.Length == scratch.Length == BufferSize(largest)
    }

    constructor (size: nat, largest: nat)
      requires size <= largest <= MAX_INPUT_SIZE
      ensures Valid() && state.Length == size && this.largest == largest
      ensures fresh(state) && fresh(buffer0) && fresh(buffer1) && fresh(scratch)
    {
      this.largest := largest;
      state := new Byte[size];
      buffer0 := new Byte[size];
      buffer1 := new Byte[BufferSize(largest)];
      scratch := new Byte[BufferSize(largest)];
    }

    /** tw_snapshot */
    method Snapshot()
      requires Valid()
      modifies buffer0
      ensures buffer0[..] == state[..]
    {
      CopyN(buffer0, 0, state, 0, state.Length);
    }

    /** tw_snapshot_delta, up to the first write past the scratch buffer: there is one exactly if the largest state is
        too small. Otherwise, whatever the handler did, the compressed difference fits the event's buffer exactly and
        can be read back; that of a state that has not changed takes up a 255th of its size and at most twelve bytes
        more. */
    method SnapshotDelta(ev: Event, knob: nat) returns (inside: bool, size: nat)
      requires Valid()
      modifies buffer0, buffer1, scratch, ev
      ensures inside <==> LEAST_LARGEST <= largest
      ensures buffer0[..] == Delta(state[..], old(buffer0[..]))
      ensures inside ==> size == ev.deltaSize == ev.deltaBuddy.Length <= CompressBound(state.Length)
      ensures inside ==> fresh(ev.deltaBuddy) && (Moves(Acceleration(knob)) ==> Holds(ev.deltaBuddy[..], buffer0[..]))
      ensures inside && state[..] == old(buffer0[..]) && state.Length >= 14 ==> size <= state.Length / 255 + 12
    {
      NoChangeIsZero(state[..]);
      SubtractFrom(state, buffer0);
      ScratchFitsIff(largest);
      assert CompressBound(state.Length) <= buffer1.Length;
      hide *;
      inside, size := scratch.Length >= STREAM_SIZE, 0;
      if inside {
        size := SaveBlock(buffer0, buffer1, scratch, ev, knob);
      }
    }

    /** tw_snapshot_restore: an event that holds the difference from the state before to the present one gives back the
        state before, byte for byte. */
    method SnapshotRestore(ev: Event, ghost before: seq<Byte>)
      requires Valid() && |before| == state.Length && ev.deltaBuddy != buffer0
      requires Holds(ev.deltaBuddy[..], Delta(state[..], before))
      modifies state, buffer0
      ensures state[..] == before
    {
      ghost var b: Block :| WellFormed(b) && Encode(b) == ev.deltaBuddy[..] && Expand(b) == Delta(state[..], before);
      hide WellFormed, Encode, Expand, Delta;
      ghost var now := state[..];
      var r := DecompressFast(ev.deltaBuddy, buffer0, state.Length, b);
      assert buffer0[..] == buffer0[..state.Length] == Delta(now, before);
      Subtract(state, buffer0);
      DeltaInverts(now, before);
    }

    /** An event saved around its handler, which leaves the state as it likes, can be undone at any later time at which
        the state is again what the handler left, provided that the scratch buffer is large enough and the search
        moves. */
    method SaveAndUndo(ev: Event, left: seq<Byte>, knob: nat) returns (undone: bool)
      requires Valid() && |left| == state.Length
      modifies state, buffer0, buffer1, scratch, ev
      ensures undone <==> LEAST_LARGEST <= largest && Moves(Acceleration(knob))
      ensures state[..] == if undone then old(state[..]) else left
    {
      Snapshot();
      for i := 0 to state.Length
        invariant forall k | 0 <= k < i :: state[k] == left[k]
        invariant buffer0[..] == old(state[..])
      {
        state[i] := left[i];
      }
      hide Holds;
      assert state[..] == left;
      var inside, size := SnapshotDelta(ev, knob);
      undone := inside && Moves(Acceleration(knob));
      if undone {
        SnapshotRestore(ev, old(state[..]));
      }
    }
  }

  /** Decompressing what the compressor wrote gives back the input, and the decoder has then read exactly what the
      compressor wrote, unless the acceleration makes the search stand still. */
  method RoundTrip(src: array<Byte>, acceleration: int)
    returns (written: nat, read: int, restored: array<Byte>, ghost b: Block)
    requires src.Length <= MAX_INPUT_SIZE
    ensures written <= CompressBound(src.Length)
    ensures Moves(Acceleration(acceleration)) ==> restored[..] == src[..] && read == written
    ensures FreshStart(src[..]) ==> (OffsetsOk(b.parts) <==> Moves(Acceleration(acceleration)))
  {
    hide WellFormed, Encode, Expand, Moves, CompressBound, FreshStart, OffsetsOk;
    var dest := new Byte[CompressBound(src.Length)];
    var mem := new Byte[STREAM_SIZE];
    restored := new Byte[src.Length];
    written, b := CompressFast(src, dest, mem, acceleration);
    read := 0;
    if Moves(Acceleration(acceleration)) {
      read := DecompressFast(dest, restored, src.Length, b);
      assert restored[..] == restored[..src.Length];
    }
  }
}
