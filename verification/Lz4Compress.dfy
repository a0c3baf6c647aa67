/** The compressor: a greedy parse that writes each sequence as soon as its match is known. */
module Lz4Compress {
  import opened Lz4Format
  import opened Lz4Memory
  import opened Lz4Search
  import opened Lz4Parse
  import opened Lz4State

  // ---------- searching ----------

  /** The loop of the search, on the table in place. */
  method FindMatch(src: array<Byte>, mem: array<Byte>, t: TableType, start: nat, acceleration: nat)
    returns (found: bool, ip: nat, m: nat)
    requires Supported(src[..], t) && StateOk(mem[..], t, start) && start + 8 <= src.Length && mem != src
    modifies mem
    ensures match SearchFrom(src[..], t, Table(old(mem[..]), t), start, 1, FirstCount(acceleration))
            case NoMatch(left) => !found && Table(mem[..], t) == left
            case Match(at, from, left) => found && ip == at && m == from && Table(mem[..], t) == left
  {
    hide Hash, Word, Rejected, FirstCount, Table;
    ghost var s := src[..];
    ghost var all := SearchFrom(s, t, Table(mem[..], t), start, 1, FirstCount(acceleration));
    var forwardIp: nat, step: nat, nb: nat := start, 1, FirstCount(acceleration);
    var forwardH := Hash(src[..], forwardIp, t);
    while true
      invariant src[..] == s && StateOk(mem[..], t, forwardIp) && forwardIp + 8 <= src.Length
      invariant forwardH == Hash(s, forwardIp, t)
      invariant SearchFrom(s, t, Table(mem[..], t), forwardIp, step, nb) == all
      decreases src.Length - forwardIp, if Table(mem[..], t)[forwardH] == forwardIp then 0 else 1
    {
      var h := forwardH;
      ip := forwardIp;
      forwardIp, step, nb := forwardIp + step, nb / 64, (nb + 1) % TWO_32;
      if forwardIp + MFLIMIT > src.Length {
        return false, ip, 0;
      }
      m := GetSlot(mem, t, h);
      SlotKeeps(s, ip, t);
      forwardH := Hash(src[..], forwardIp, t);
      PutSlot(mem, t, h, Slot(ip, t));
      if !Rejected(src[..], m, ip, t) {
        return true, ip, m;
      }
      RejectedIsOther(s, m, ip, t);
    }
  }

  lemma RejectedIsOther(s: seq<Byte>, m: nat, ip: nat, t: TableType)
    requires m <= ip && ip + 4 <= |s| && Rejected(s, m, ip, t)
    ensures m != ip
  {
  }

  // ---------- writing ----------

  lemma LenBytesStep(before: seq<Byte>, v: nat)
    ensures v < 255 ==> before + LenBytes(v) == before + [v]
    ensures v >= 255 ==> before + LenBytes(v) == before + [255] + LenBytes(v - 255)
  {
  }

  /** The bytes of a length that did not fit its four bits, one byte of 255 at a time. */
  method PutLength(dest: array<Byte>, start: nat, v: nat) returns (op: nat)
    requires start + |LenBytes(v)| <= dest.Length
    modifies dest
    ensures op == start + |LenBytes(v)| && dest[..op] == old(dest[..start]) + LenBytes(v)
  {
    hide LenBytes;
    op := start;
    var len := v;
    while len >= 255
      invariant start <= op <= dest.Length && dest[..op] + LenBytes(len) == old(dest[..start]) + LenBytes(v)
    {
      LenBytesStep(dest[..op], len);
      op := PutByte(dest, op, 255);
      len := len - 255;
    }
    LenBytesStep(dest[..op], len);
    op := PutByte(dest, op, len);
  }

  method PutByte(dest: array<Byte>, start: nat, b: Byte) returns (op: nat)
    requires start < dest.Length
    modifies dest
    ensures op == start + 1 && dest[..op] == old(dest[..start]) + [b]
  {
    dest[start] := b;
    op := start + 1;
  }

  /** The same for a match length, two bytes of 255 at a time. */
  method PutMatchLength(dest: array<Byte>, start: nat, v: nat) returns (op: nat)
    requires start + |LenBytes(v)| <= dest.Length
    modifies dest
    ensures op == start + |LenBytes(v)| && dest[..op] == old(dest[..start]) + LenBytes(v)
  {
    hide LenBytes;
    op := start;
    var len := v;
    while len >= 510
      invariant start <= op <= dest.Length && dest[..op] + LenBytes(len) == old(dest[..start]) + LenBytes(v)
    {
      LenBytesStep(dest[..op], len);
      op := PutByte(dest, op, 255);
      LenBytesStep(dest[..op], len - 255);
      op := PutByte(dest, op, 255);
      len := len - 510;
    }
    if len >= 255 {
      LenBytesStep(dest[..op], len);
      len := len - 255;
      op := PutByte(dest, op, 255);
    }
    LenBytesStep(dest[..op], len);
    op := PutByte(dest, op, len);
  }

  /** The token, with only its literal half filled in, and what the literal length exceeds it by. */
  method PutToken(dest: array<Byte>, start: nat, litLen: nat) returns (op: nat)
    requires start + 1 + |Ext(litLen)| <= dest.Length
    modifies dest
    ensures op == start + 1 + |Ext(litLen)|
    ensures dest[..op] == old(dest[..start]) + [16 * Nibble(litLen)] + Ext(litLen)
  {
    if litLen >= RUN_MASK {
      dest[start] := 16 * RUN_MASK;
      assert dest[..start + 1] == old(dest[..start]) + [16 * RUN_MASK];
      op := PutLength(dest, start + 1, litLen - RUN_MASK);
    } else {
      dest[start] := 16 * litLen;
      op := start + 1;
      assert dest[..op] == old(dest[..start]) + [16 * litLen];
    }
  }

  lemma HeadSplits(lits: seq<Byte>, before: seq<Byte>)
    ensures |Head(lits, 0)| == 1 + |Ext(|lits|)| + |lits|
    ensures before + [16 * Nibble(|lits|)] + Ext(|lits|) + lits == before + Head(lits, 0)
  {
    hide Ext, Nibble;
  }

  /** Token, literal length and literals. */
  method PutLiterals(dest: array<Byte>, start: nat, src: array<Byte>, anchor: nat, ip: nat) returns (op: nat)
    requires dest != src && anchor <= ip && ip + 8 <= src.Length
    requires start + |Head(src[anchor..ip], 0)| + 8 <= dest.Length
    modifies dest
    ensures op == start + |Head(src[anchor..ip], 0)|
    ensures dest[..op] == old(dest[..start]) + Head(src[anchor..ip], 0)
  {
    hide *;
    HeadSplits(src[anchor..ip], dest[..start]);
    op := PutToken(dest, start, ip - anchor);
    WildCopy(dest, op, src, anchor, op + (ip - anchor));
    op := op + (ip - anchor);
  }

  /** The last literals, copied exactly. */
  method PutLast(dest: array<Byte>, start: nat, src: array<Byte>, anchor: nat) returns (op: nat)
    requires dest != src && anchor <= src.Length
    requires start + |Head(src[anchor..], 0)| <= dest.Length
    modifies dest
    ensures op == start + |Head(src[anchor..], 0)|
    ensures dest[..op] == old(dest[..start]) + Head(src[anchor..], 0)
  {
    hide *;
    HeadSplits(src[anchor..], dest[..start]);
    var run := src.Length - anchor;
    op := PutToken(dest, start, run);
    ghost var before := dest[..op];
    CopyN(dest, op, src, anchor, run);
    op := op + run;
    assert dest[..op] == before + src[anchor..];
  }

  /** What a match length does not fit in the token, whose other half it fills in. */
  method PutMatchCount(dest: array<Byte>, token: nat, start: nat, ml: nat) returns (op: nat)
    requires token < start && start + |Ext(ml)| <= dest.Length && dest[token] % 16 == 0
    modifies dest
    ensures op == start + |Ext(ml)|
    ensures dest[..op] == Filled(old(dest[..start]), token, ml) + Ext(ml)
  {
    ghost var before := dest[..start];
    if ml >= ML_MASK {
      dest[token] := dest[token] + ML_MASK;
      assert dest[..start] == Filled(before, token, ml);
      op := PutMatchLength(dest, start, ml - ML_MASK);
    } else {
      dest[token] := dest[token] + ml;
      op := start;
      assert dest[..start] == Filled(before, token, ml) + Ext(ml);
    }
  }

  function Filled(out: seq<Byte>, token: nat, ml: nat): seq<Byte>
    requires token < |out| && out[token] % 16 == 0
  {
    out[token := out[token] + Nibble(ml)]
  }

  // ---------- what has been written ----------

  /** out encodes s up to anchor; it stands for those very bytes if every match found was sound. */
  ghost predicate Emitted(s: seq<Byte>, parts: seq<Part>, out: seq<Byte>, anchor: nat, sound: bool) {
    && (forall p <- parts :: Encodable(p)) && out == EncodeParts(parts)
    && OutLen(parts) == anchor <= |s| && Restricted(parts, |s|)
    && (sound ==> OffsetsOk(parts) && Out(parts) == s[..anchor])
  }

  /** The literals before a match at ip have been written too. */
  ghost predicate Pending(s: seq<Byte>, parts: seq<Part>, out: seq<Byte>, ip: nat, sound: bool) {
    && (forall p <- parts :: Encodable(p))
    && Emitted(s, parts, EncodeParts(parts), OutLen(parts), sound) && OutLen(parts) <= ip && ip + MFLIMIT <= |s|
    && out == EncodeParts(parts) + Head(s[OutLen(parts)..ip], 0)
  }

  /** The bytes at ip repeat those at m at least up to four bytes past top. */
  ghost predicate MatchAt(s: seq<Byte>, ip: nat, m: nat, top: nat, sound: bool) {
    && m <= ip <= m + MAX_DISTANCE && (sound ==> m < ip)
    && ip <= top && top + MFLIMIT <= |s| && Same(s, ip, top + 4, ip - m)
  }

  /** However little was saved so far, the buffer has room for literals up to ip and the eight bytes a copy may run
      over. */
  lemma RoomForLiterals(s: seq<Byte>, parts: seq<Part>, out: seq<Byte>, anchor: nat, ip: nat, sound: bool)
    requires Emitted(s, parts, out, anchor, sound) && anchor <= ip && ip + MFLIMIT <= |s| <= MAX_INPUT_SIZE
    ensures |out| + |Head(s[anchor..ip], 0)| + 8 <= CompressBound(|s|)
  {
    EncodePartsBound(parts);
    hide EncodeParts, Restricted, OffsetsOk, Out;
  }

  lemma RoomForLast(s: seq<Byte>, parts: seq<Part>, out: seq<Byte>, anchor: nat, sound: bool)
    requires Emitted(s, parts, out, anchor, sound) && |s| <= MAX_INPUT_SIZE
    ensures |out| + |Head(s[anchor..], 0)| <= CompressBound(|s|)
  {
    EncodePartsBound(parts);
    hide EncodeParts, Restricted, OffsetsOk, Out;
  }

  function NewPart(s: seq<Byte>, anchor: nat, ip: nat, m: nat, ml: nat): Part
    requires anchor <= ip <= |s| && m <= ip
  {
    Part(s[anchor..ip], ip - m, ml + MINMATCH)
  }

  lemma RoomForMatch(s: seq<Byte>, parts: seq<Part>, out: seq<Byte>, ip: nat, m: nat, ml: nat, sound: bool)
    requires Pending(s, parts, out, ip, sound) && m <= ip <= m + MAX_DISTANCE && |s| <= MAX_INPUT_SIZE
    requires ip + MINMATCH + ml <= |s|
    ensures |out| + 2 + |Ext(ml)| <= CompressBound(|s|)
  {
    var p := NewPart(s, OutLen(parts), ip, m, ml);
    AddPart(parts, p);
    EncodePartsBound(parts + [p]);
    hide EncodeParts, Restricted, OffsetsOk, Out, OutLen;
  }

  /** Literals, offset and match length make up one more part. */
  lemma PartBytes(head: seq<Byte>, out: seq<Byte>, p: Part)
    requires Encodable(p) && out == head + Head(p.lits, 0)
    ensures |head| < |out| && out[|head|] % 16 == 0
    ensures Filled(out + Le16(p.off), |head|, p.len - MINMATCH) + Ext(p.len - MINMATCH) == head + EncodePart(p)
  {
    var more, off, ext := Nibble(p.len - MINMATCH), Le16(p.off), Ext(p.len - MINMATCH);
    HeadFills(p.lits, more);
    assert EncodePart(p) == Head(p.lits, more) + off + ext;
    hide Head, Nibble, Ext, EncodePart, Le16;
    FillInside(head, Head(p.lits, 0), off, more, ext);
  }

  lemma FillInside(a: seq<Byte>, h: seq<Byte>, c: seq<Byte>, more: nat, d: seq<Byte>)
    requires |h| > 0 && h[0] + more < 256
    ensures (a + h + c)[|a| := (a + h + c)[|a|] + more] + d == a + (h[0 := h[0] + more] + c + d)
  {
  }

  lemma HeadFills(lits: seq<Byte>, more: nat)
    requires more < 16
    ensures var h := Head(lits, 0);
      |h| > 0 && h[0] % 16 == 0 && h[0] + more < 256 && Head(lits, more) == h[0 := h[0] + more]
  {
    hide Ext;
  }

  /** The match goes on at least to where it was found, before it was extended backwards. */
  lemma MatchIsLong(s: seq<Byte>, ip: nat, m: nat, top: nat, ml: nat, sound: bool)
    requires MatchAt(s, ip, m, top, sound) && Common(s, ip + 4, m + 4, |s| - 5, ml)
    ensures top + 4 <= ip + 4 + ml <= |s| - 5 && Same(s, ip, ip + 4 + ml, ip - m)
    ensures m <= ip <= m + MAX_DISTANCE && (sound ==> m < ip)
  {
  }

  /** What the new part copies is what the input has there. */
  lemma PartCopies(s: seq<Byte>, anchor: nat, ip: nat, m: nat, len: nat)
    requires anchor <= ip && ip + len <= |s| && m < ip && Same(s, ip, ip + len, ip - m)
    ensures CopyMatch(s[..anchor] + s[anchor..ip], ip - m, len) == s[..ip + len]
  {
    assert s[..anchor] + s[anchor..ip] == s[..ip];
    RepeatsIsCopy(s, ip, len, ip - m);
  }

  lemma PendingFacts(s: seq<Byte>, parts: seq<Part>, out: seq<Byte>, ip: nat, sound: bool)
    requires Pending(s, parts, out, ip, sound)
    ensures (forall p <- parts :: Encodable(p)) && OutLen(parts) <= ip && ip + 12 <= |s| && Restricted(parts, |s|)
    ensures sound ==> OffsetsOk(parts) && Out(parts) == s[..OutLen(parts)]
    ensures out == EncodeParts(parts) + Head(s[OutLen(parts)..ip], 0)
  {
    hide Restricted, OffsetsOk, Out, OutLen, EncodeParts, Head;
  }

  lemma PartIsSound(s: seq<Byte>, parts: seq<Part>, out: seq<Byte>, ip: nat, m: nat, ml: nat, sound: bool)
    requires Pending(s, parts, out, ip, sound) && m <= ip <= m + MAX_DISTANCE && (sound ==> m < ip)
    requires ip + 4 + ml <= |s| - 5 && Same(s, ip, ip + 4 + ml, ip - m)
    ensures OutLen(parts) <= ip <= |s|
    ensures var p := NewPart(s, OutLen(parts), ip, m, ml);
      Encodable(p) && Emitted(s, parts + [p], EncodeParts(parts) + EncodePart(p), ip + 4 + ml, sound)
  {
    hide Pending, Same, CopyMatch, Out, OutLen, EncodeParts, EncodePart, OffsetsOk, Restricted, Head;
    var anchor := OutLen(parts);
    PendingFacts(s, parts, out, ip, sound);
    var p := NewPart(s, anchor, ip, m, ml);
    AddPart(parts, p);
    AddRestricted(parts, p, |s|);
    if sound {
      PartCopies(s, anchor, ip, m, p.len);
    }
  }

  /** Nothing before ip could be added to the match. */
  ghost predicate FarBack(s: seq<Byte>, anchor: nat, ip: nat, m: nat) {
    m <= ip <= |s| && (ip <= anchor || m == 0 || s[ip - 1] != s[m - 1])
  }

  /** What one match does to the output: there is room for it, and with it the output encodes s up to the match's
      end. */
  ghost predicate Completes(s: seq<Byte>, parts: seq<Part>, out: seq<Byte>, token: int, ip: int, m: int, ml: int,
      sound: bool)
  {
    && 0 <= m <= ip <= m + 65535 && 0 <= ml && OutLen(parts) <= ip && ip + 4 + ml <= |s|
    && 0 <= token < |out| && out[token] % 16 == 0
    && |out| + 2 + |Ext(ml)| <= CompressBound(|s|)
    && Emitted(s, parts + [NewPart(s, OutLen(parts), ip, m, ml)], Filled(out + Le16(ip - m), token, ml) + Ext(ml),
               ip + 4 + ml, sound)
  }

  lemma MatchBytesDone(s: seq<Byte>, parts: seq<Part>, out: seq<Byte>, ip: nat, m: nat, ml: nat, sound: bool)
    requires Pending(s, parts, out, ip, sound) && m <= ip <= m + MAX_DISTANCE && (sound ==> m < ip)
    requires ip + 4 + ml <= |s| - 5 && Same(s, ip, ip + 4 + ml, ip - m) && |s| <= MAX_INPUT_SIZE
    ensures (forall p <- parts :: Encodable(p)) && Completes(s, parts, out, |EncodeParts(parts)|, ip, m, ml, sound)
  {
    hide Pending, Emitted, Same, Out, OutLen, EncodeParts, EncodePart, Head, Ext, Filled, Le16, CompressBound;
    PendingFacts(s, parts, out, ip, sound);
    RoomForMatch(s, parts, out, ip, m, ml, sound);
    PartIsSound(s, parts, out, ip, m, ml, sound);
    PartBytes(EncodeParts(parts), out, NewPart(s, OutLen(parts), ip, m, ml));
  }

  /** The whole of what one match does, which goes on past the position where it was found. */
  lemma MatchDone(s: seq<Byte>, parts: seq<Part>, out: seq<Byte>, ip: nat, m: nat, top: nat, ml: nat, sound: bool)
    requires Pending(s, parts, out, ip, sound) && MatchAt(s, ip, m, top, sound) && |s| <= MAX_INPUT_SIZE
    requires Common(s, ip + 4, m + 4, |s| - 5, ml)
    ensures top <= ip + ml && (forall p <- parts :: Encodable(p))
    ensures Completes(s, parts, out, |EncodeParts(parts)|, ip, m, ml, sound)
  {
    hide Pending, Completes, EncodeParts, Common, MatchAt;
    MatchIsLong(s, ip, m, top, ml, sound);
    MatchBytesDone(s, parts, out, ip, m, ml, sound);
  }

  /** Record a position in the table. */
  method PutPosition(src: array<Byte>, mem: array<Byte>, t: TableType, p: nat, ghost top: nat)
    requires Supported(src[..], t) && StateOk(mem[..], t, top) && p <= top && p + MFLIMIT <= src.Length && mem != src
    modifies mem
    ensures StateOk(mem[..], t, top)
    ensures Table(mem[..], t) == Table(old(mem[..]), t)[Hash(src[..], p, t) := Slot(p, t)]
  {
    SlotKeeps(src[..], p, t);
    hide Hash, Table;
    PutSlot(mem, t, Hash(src[..], p, t), Slot(p, t));
  }

  /** The offset and the length of a match whose end is known. */
  method WriteMatch(dest: array<Byte>, token: nat, start: nat, at: nat, m: nat, ml: nat,
    ghost s: seq<Byte>, ghost parts: seq<Part>, ghost sound: bool) returns (op: nat)
    requires start <= dest.Length && CompressBound(|s|) <= dest.Length
    requires Completes(s, parts, dest[..start], token, at, m, ml, sound)
    modifies dest
    ensures OutLen(parts) <= at <= |s| && m <= at && op <= dest.Length
    ensures Emitted(s, parts + [NewPart(s, OutLen(parts), at, m, ml)], dest[..op], at + 4 + ml, sound)
  {
    hide Emitted, NewPart, OutLen, Ext, CompressBound, EncodeParts;
    ghost var out := dest[..start];
    var off := (at - m) % 65536;
    dest[start] := off % 256;
    dest[start + 1] := off / 256;
    OffsetBytes(dest[..start + 2], out, at - m);
    hide Filled, Nibble;
    op := PutMatchCount(dest, token, start + 2, ml);
  }

  lemma OffsetBytes(now: seq<Byte>, out: seq<Byte>, off: nat)
    requires |now| == |out| + 2 && now[..|out|] == out && off < 65536
    requires now[|out|] == off % 256 && now[|out| + 1] == off / 256
    ensures now == out + Le16(off)
  {
  }

  lemma MatchIsNew(s: seq<Byte>, parts: seq<Part>, out: seq<Byte>, ip: nat, m: nat, top: nat, ml: nat, sound: bool)
    requires Pending(s, parts, out, ip, sound) && MatchAt(s, ip, m, top, sound) && |s| <= MAX_INPUT_SIZE
    requires Common(s, ip + 4, m + 4, |s| - 5, ml) && FarBack(s, OutLen(parts), ip, m)
    ensures top <= ip + ml && (forall p <- parts :: Encodable(p)) && OutLen(parts) <= ip <= |s| && m <= ip
    ensures Completes(s, parts, out, |EncodeParts(parts)|, ip, m, ml, sound)
    ensures IsFor(s, parts, ip, m, ip + MINMATCH + ml, NewPart(s, OutLen(parts), ip, m, ml))
  {
    assert MINMATCH == 4 && LASTLITERALS == 5;
    PendingFacts(s, parts, out, ip, sound);
    hide *;
    MatchDone(s, parts, out, ip, m, top, ml, sound);
    MatchIsLong(s, ip, m, top, ml, sound);
    NewIsFor(s, parts, ip, m, ml);
  }

  /** One match: how far it goes, its offset and its length. */
  method PutMatch(src: array<Byte>, dest: array<Byte>, token: nat, start: nat, at: nat, m: nat,
    ghost parts: seq<Part>, ghost top: nat, ghost sound: bool) returns (op: nat, ip: nat, ghost p: Part)
    requires src != dest && src.Length <= MAX_INPUT_SIZE && CompressBound(src.Length) <= dest.Length
    requires start <= dest.Length && Pending(src[..], parts, dest[..start], at, sound)
    requires token == |EncodeParts(parts)| && MatchAt(src[..], at, m, top, sound)
    requires FarBack(src[..], OutLen(parts), at, m)
    modifies dest
    ensures top + 4 <= ip <= src.Length && op <= dest.Length && IsFor(src[..], parts, at, m, ip, p)
    ensures Emitted(src[..], parts + [p], dest[..op], ip, sound)
  {
    assert MINMATCH == 4 && LASTLITERALS == 5;
    CountFits(src[..], at, m, top, sound);
    hide *;
    var ml := Count(src, at + MINMATCH, m + MINMATCH, src.Length - LASTLITERALS);
    MatchIsNew(src[..], parts, dest[..start], at, m, top, ml, sound);
    op := WriteMatch(dest, token, start, at, m, ml, src[..], parts, sound);
    ip := at + MINMATCH + ml;
    p := NewPart(src[..], OutLen(parts), at, m, ml);
    EmittedEnds(src[..], parts + [p], dest[..op], ip, sound);
  }

  lemma NewIsFor(s: seq<Byte>, parts: seq<Part>, at: nat, m: nat, ml: nat)
    requires FarBack(s, OutLen(parts), at, m) && OutLen(parts) <= at <= |s| && m <= at
    requires Common(s, at + 4, m + 4, |s| - 5, ml) && Same(s, at, at + 4 + ml, at - m)
    ensures IsFor(s, parts, at, m, at + MINMATCH + ml, NewPart(s, OutLen(parts), at, m, ml))
  {
    hide OutLen;
  }

  lemma CountFits(s: seq<Byte>, at: nat, m: nat, top: nat, sound: bool)
    requires MatchAt(s, at, m, top, sound)
    ensures m <= at <= |s| - 12
  {
    hide Same;
  }

  lemma EmittedTo(s: seq<Byte>, parts: seq<Part>, out: seq<Byte>, anchor: nat, m: nat, sound: bool)
    requires Emitted(s, parts, out, anchor, sound) && MatchAt(s, anchor, m, anchor, sound)
    ensures OutLen(parts) == anchor && FarBack(s, OutLen(parts), anchor, m)
  {
    hide Out, EncodeParts, OffsetsOk, Restricted;
  }

  lemma EmittedEnds(s: seq<Byte>, parts: seq<Part>, out: seq<Byte>, anchor: nat, sound: bool)
    requires Emitted(s, parts, out, anchor, sound)
    ensures anchor <= |s|
  {
    hide Out, EncodeParts, OffsetsOk, Restricted;
  }

  /** A match that follows at once has no literals: its token starts out as zero. */
  lemma NoLiterals(s: seq<Byte>, parts: seq<Part>, out: seq<Byte>, ip: nat, sound: bool)
    requires Emitted(s, parts, out, ip, sound) && ip + MFLIMIT <= |s| <= MAX_INPUT_SIZE
    ensures |out| + 1 <= CompressBound(|s|) && (forall p <- parts :: Encodable(p)) && |out| == |EncodeParts(parts)|
    ensures Pending(s, parts, out + [0], ip, sound)
  {
    EncodePartsBound(parts);
    assert Head(s[ip..ip], 0) == [0];
    hide Restricted, OffsetsOk, Out, EncodeParts, Head;
  }

  /** Probe the table at ip, put ip there, and tell whether the entry found will do for a match. */
  method ProbeNext(src: array<Byte>, mem: array<Byte>, t: TableType, ip: nat, ghost sound: bool)
    returns (good: bool, m: nat)
    requires Supported(src[..], t) && 4 <= ip && ip + MFLIMIT <= src.Length && StateOk(mem[..], t, ip - 1) && mem != src
    modifies mem
    ensures StateOk(mem[..], t, ip) && (good ==> MatchAt(src[..], ip, m, ip, sound))
    ensures Probed(src[..], t, Table(old(mem[..]), t), ip, good, m, Table(mem[..], t))
  {
    ghost var s, table := src[..], Table(mem[..], t);
    StateIsTable(mem[..], t, ip - 1);
    hide Hash, Word, Table, Rejected, Put, Probed, MatchAt;
    PutPosition(src, mem, t, ip - 2, ip - 1);
    m := GetSlot(mem, t, Hash(src[..], ip, t));
    StateGrows(mem[..], t, ip - 1, ip);
    PutPosition(src, mem, t, ip, ip);
    good := m + MAX_DISTANCE >= ip && Word(src[..], m, 4) == Word(src[..], ip, 4);
    ItIsProbed(s, t, table, ip, good, m, Table(mem[..], t));
    if good {
      ItMatches(src[..], ip, m, sound);
    }
  }

  lemma ItMatches(s: seq<Byte>, ip: nat, m: nat, sound: bool)
    requires m < ip <= m + MAX_DISTANCE && ip + MFLIMIT <= |s| && Word(s, m, 4) == Word(s, ip, 4)
    ensures MatchAt(s, ip, m, ip, sound)
  {
    hide Word;
    FourBytes(s, ip, m);
  }

  lemma ItIsProbed(s: seq<Byte>, t: TableType, table: seq<nat>, ip: nat, good: bool, m: nat, now: seq<nat>)
    requires Supported(s, t) && TableOk(table, t, ip - 1) && 4 <= ip && ip + MFLIMIT <= |s|
    requires var filled := table[Hash(s, ip - 2, t) := Slot(ip - 2, t)];
      m == filled[Hash(s, ip, t)] && now == filled[Hash(s, ip, t) := Slot(ip, t)]
    requires m <= ip && (good <==> m + MAX_DISTANCE >= ip && Word(s, m, 4) == Word(s, ip, 4))
    ensures Probed(s, t, table, ip, good, m, now)
  {
    hide Hash, Word;
  }

  method ZeroToken(dest: array<Byte>, start: nat, ghost s: seq<Byte>, ghost parts: seq<Part>, ghost ip: nat,
      ghost sound: bool)
    returns (op: nat)
    requires start <= dest.Length && Emitted(s, parts, dest[..start], ip, sound)
    requires ip + MFLIMIT <= |s| <= MAX_INPUT_SIZE && CompressBound(|s|) <= dest.Length
    modifies dest
    ensures op <= dest.Length && (forall p <- parts :: Encodable(p)) && start == |EncodeParts(parts)|
    ensures Pending(s, parts, dest[..op], ip, sound)
  {
    ghost var before := dest[..start];
    NoLiterals(s, parts, before, ip, sound);
    hide *;
    dest[start] := 0;
    op := start + 1;
    assert dest[..op] == before + [0];
  }

  /** A match and those that follow it without literals in between. */
  method PutRun(src: array<Byte>, dest: array<Byte>, mem: array<Byte>, t: TableType, token0: nat, start: nat, at: nat,
    m0: nat, ghost parts0: seq<Part>, ghost top0: nat, ghost sound: bool, ghost nb: nat)
    returns (op: nat, ip: nat, ghost parts: seq<Part>)
    requires src != dest && Supported(src[..], t) && CompressBound(src.Length) <= dest.Length
    requires start <= dest.Length && Pending(src[..], parts0, dest[..start], at, sound)
    requires token0 == |EncodeParts(parts0)| && MatchAt(src[..], at, m0, top0, sound)
    requires StateOk(mem[..], t, top0) && mem != src && mem != dest
    requires FarBack(src[..], OutLen(parts0), at, m0) && AllTaken(src[..], t, nb, parts0)
    requires Found(src[..], t, nb, parts0, at, m0, top0, Table(mem[..], t))
    modifies dest, mem
    ensures top0 + 4 <= ip <= src.Length && op <= dest.Length && Emitted(src[..], parts, dest[..op], ip, sound)
    ensures Reached(src[..], t, nb, parts, mem[..], ip)
  {
    assert MFLIMIT == 12 && MINMATCH == 4 && src.Length <= MAX_INPUT_SIZE;
    hide *;
    ghost var s := src[..];
    var token, m := token0, m0;
    op, ip, parts := start, at, parts0;
    ghost var top := top0;
    while true
      invariant op <= dest.Length && Pending(s, parts, dest[..op], ip, sound)
      invariant token == |EncodeParts(parts)| && MatchAt(s, ip, m, top, sound)
      invariant top0 <= top <= src.Length && StateOk(mem[..], t, top) && TABLE_BYTES <= mem.Length
      invariant FarBack(s, OutLen(parts), ip, m) && AllTaken(s, t, nb, parts)
      invariant Found(s, t, nb, parts, ip, m, top, Table(mem[..], t))
      decreases src.Length - top
    {
      ghost var p, from := Part([], 0, 0), ip;
      op, ip, p := PutMatch(src, dest, token, op, ip, m, parts, top, sound);
      OneMoreTaken(s, t, nb, parts, p, from, m, top, ip, Table(mem[..], t));
      parts := parts + [p];
      if ip + MFLIMIT > src.Length {
        NothingLeft(s, t, nb, parts, ip, Table(mem[..], t));
        ItIsReached(s, t, nb, parts, mem[..], ip);
        return;
      }
      StateGrows(mem[..], t, top, ip - 1);
      ghost var table := Table(mem[..], t);
      StateIsTable(mem[..], t, ip - 1);
      var good: bool;
      good, m := ProbeNext(src, mem, t, ip, sound);
      StateIsTable(mem[..], t, ip);
      TableGrows(table, t, ip - 1, ip);
      NextIsProbed(s, t, nb, parts, ip, good, m, table, Table(mem[..], t));
      if !good {
        ItIsReached(s, t, nb, parts, mem[..], ip);
        return;
      }
      token, top := op, ip;
      EmittedTo(s, parts, dest[..op], ip, m, sound);
      op := ZeroToken(dest, op, s, parts, ip, sound);
    }
  }

  lemma ItIsReached(s: seq<Byte>, t: TableType, nb: nat, parts: seq<Part>, mem: seq<Byte>, ip: nat)
    requires Supported(s, t) && AllTaken(s, t, nb, parts) && TABLE_BYTES <= |mem|
    requires Goes(s, t, nb, parts, ip, Table(mem, t))
    ensures Reached(s, t, nb, parts, mem, ip)
  {
    hide Goes, AllTaken, Table;
  }

  lemma TableGrows(table: seq<nat>, t: TableType, top: int, now: int)
    requires TableOk(table, t, top) && top <= now
    ensures TableOk(table, t, now)
  {
  }

  lemma StateGrows(mem: seq<Byte>, t: TableType, top: int, now: int)
    requires StateOk(mem, t, top) && top <= now
    ensures StateOk(mem, t, now)
  {
  }

  /** Extend a match backwards as far as the last anchor allows. */
  method CatchUp(src: array<Byte>, anchor: nat, ip0: nat, m0: nat, ghost sound: bool) returns (ip: nat, m: nat)
    requires anchor <= ip0 && MatchAt(src[..], ip0, m0, ip0, sound)
    ensures anchor <= ip <= ip0 && MatchAt(src[..], ip, m, ip0, sound) && ip - m == ip0 - m0
    ensures FarBack(src[..], anchor, ip, m)
  {
    ip, m := ip0, m0;
    while ip > anchor && m > 0 && src[ip - 1] == src[m - 1]
      invariant ip - m == ip0 - m0
      invariant anchor <= ip <= ip0 && MatchAt(src[..], ip, m, ip0, sound)
    {
      ip, m := ip - 1, m - 1;
    }
  }

  /** The start of a compression: nothing written, an empty table. */
  lemma NothingEmitted(s: seq<Byte>, sound: bool)
    ensures Emitted(s, [], [], 0, sound)
  {
  }

  /** What the search found can be extended and written. */
  lemma FoundIsMatch(s: seq<Byte>, t: TableType, mem: seq<Byte>, start: nat, acceleration: nat)
    requires Supported(s, t) && 1 <= start && StateOk(mem, t, start - 1) && start + 8 <= |s|
    ensures StateOk(mem, t, start) && TABLE_BYTES <= |mem| && TableOk(Table(mem, t), t, start)
    ensures var r := SearchFrom(s, t, Table(mem, t), start, 1, FirstCount(acceleration));
      r.Match? ==> start <= r.ip && TableOk(r.table, t, r.ip) && MatchAt(s, r.ip, r.m, r.ip, Moves(acceleration))
  {
    var table := Table(mem, t);
    hide Table;
    SearchFindsWords(s, t, table, start, 1, FirstCount(acceleration));
    if Moves(acceleration) {
      MovesIsPaced(acceleration, start);
      hide Moves, Paced, FirstCount, SearchFrom, Same, Hash;
      SearchFindsEarlier(s, t, table, start, 1, FirstCount(acceleration));
    }
  }

  lemma StandingStillCounts(acceleration: nat)
    requires !Moves(acceleration)
    ensures FirstCount(acceleration) == 0
  {
  }

  lemma FreshStartIsLong(s: seq<Byte>)
    requires FreshStart(s)
    ensures 13 < |s|
  {
  }

  /** With the table as it is, a search from position ip on finds the next match. */
  ghost predicate Ready(s: seq<Byte>, t: TableType, nb: nat, parts: seq<Part>, mem: seq<Byte>, ip: nat)
    requires Supported(s, t)
  {
    && AllTaken(s, t, nb, parts) && 1 <= ip && ip + 8 <= |s| && StateOk(mem, t, ip - 1)
    && TableOk(Table(mem, t), t, ip) && NextFrom(s, t, nb, parts) == SearchFrom(s, t, Table(mem, t), ip, 1, nb)
  }

  /** Output up to ip is complete; what comes next, if anything, a search from the next position on finds. */
  ghost predicate Reached(s: seq<Byte>, t: TableType, nb: nat, parts: seq<Part>, mem: seq<Byte>, ip: nat)
    requires Supported(s, t)
  {
    AllTaken(s, t, nb, parts) && TABLE_BYTES <= |mem| && Goes(s, t, nb, parts, ip, Table(mem, t))
  }

  /** Output up to ip is complete, and so is the parse, unless there is more to search for. */
  ghost predicate Upto(s: seq<Byte>, t: TableType, nb: nat, parts: seq<Part>, mem: seq<Byte>, ip: nat, more: bool)
    requires Supported(s, t)
  {
    if more then Ready(s, t, nb, parts, mem, ip + 1) else Complete(s, t, nb, parts)
  }

  lemma ReachedIs(s: seq<Byte>, t: TableType, nb: nat, parts: seq<Part>, mem: seq<Byte>, ip: nat)
    requires Supported(s, t) && Reached(s, t, nb, parts, mem, ip)
    ensures Upto(s, t, nb, parts, mem, ip, ip + MFLIMIT <= |s|)
  {
    hide NextFrom, SearchFrom, AllTaken, Table;
  }

  lemma NoneIsUpto(s: seq<Byte>, t: TableType, nb: nat, parts: seq<Part>, mem: seq<Byte>, ip: nat)
    requires Supported(s, t) && Complete(s, t, nb, parts)
    ensures Upto(s, t, nb, parts, mem, ip, false)
  {
    hide Complete;
  }

  lemma UptoFacts(s: seq<Byte>, t: TableType, nb: nat, parts: seq<Part>, mem: seq<Byte>, ip: nat, more: bool)
    requires Supported(s, t) && Upto(s, t, nb, parts, mem, ip, more)
    ensures if more then Ready(s, t, nb, parts, mem, ip + 1) else Complete(s, t, nb, parts)
    ensures more ==> ip < |s|
  {
    hide NextFrom, SearchFrom, AllTaken, Table, Complete;
  }

  lemma ReadyFacts(s: seq<Byte>, t: TableType, nb: nat, parts: seq<Part>, mem: seq<Byte>, ip: nat)
    requires Supported(s, t) && Ready(s, t, nb, parts, mem, ip)
    ensures AllTaken(s, t, nb, parts) && 1 <= ip && ip + 8 <= |s| && StateOk(mem, t, ip - 1) && StateOk(mem, t, ip)
    ensures TABLE_BYTES <= |mem| && TableOk(Table(mem, t), t, ip)
    ensures NextFrom(s, t, nb, parts) == SearchFrom(s, t, Table(mem, t), ip, 1, nb)
  {
    hide NextFrom, SearchFrom, AllTaken, Table;
  }

  /** The first position enters the empty table. */
  method PutFirst(src: array<Byte>, mem: array<Byte>, t: TableType, ghost nb: nat)
    requires Supported(src[..], t) && MFLIMIT < src.Length && StateOk(mem[..], t, 0) && mem != src
    modifies mem
    ensures Upto(src[..], t, nb, [], mem[..], 0, true)
  {
    NothingTaken(src[..], t, nb, Table(mem[..], t));
    hide Hash, Table, SearchFrom, NextFrom, AllTaken;
    PutPosition(src, mem, t, 0, 0);
  }

  /** The search for the match that comes next. */
  method PutSearch(src: array<Byte>, mem: array<Byte>, t: TableType, ip: nat, acceleration: nat, ghost parts: seq<Part>)
    returns (found: bool, at: nat, m: nat)
    requires Supported(src[..], t) && Ready(src[..], t, FirstCount(acceleration), parts, mem[..], ip) && mem != src
    requires OutLen(parts) <= ip
    modifies mem
    ensures AllTaken(src[..], t, FirstCount(acceleration), parts)
    ensures !found ==> Complete(src[..], t, FirstCount(acceleration), parts)
    ensures found ==> ip <= at && MatchAt(src[..], at, m, at, Moves(acceleration)) && StateOk(mem[..], t, at)
    ensures found ==> Found(src[..], t, FirstCount(acceleration), parts, at, m, at, Table(mem[..], t))
  {
    hide *;
    ReadyFacts(src[..], t, FirstCount(acceleration), parts, mem[..], ip);
    FoundIsMatch(src[..], t, mem[..], ip, acceleration);
    found, at, m := FindMatch(src, mem, t, ip, acceleration);
    if !found {
      ItIsComplete(src[..], t, FirstCount(acceleration), parts);
    } else {
      FoundIsState(mem[..], t, at);
      ItIsFound(src[..], t, FirstCount(acceleration), parts, at, m, Table(mem[..], t));
    }
  }

  lemma ItIsComplete(s: seq<Byte>, t: TableType, nb: nat, parts: seq<Part>)
    requires Supported(s, t) && AllTaken(s, t, nb, parts) && NextFrom(s, t, nb, parts).NoMatch?
    ensures Complete(s, t, nb, parts)
  {
    hide NextFrom, AllTaken;
  }

  lemma ItIsFound(s: seq<Byte>, t: TableType, nb: nat, parts: seq<Part>, at: nat, m: nat, table: seq<nat>)
    requires Supported(s, t) && NextFrom(s, t, nb, parts) == Match(at, m, table) && OutLen(parts) <= at
    ensures Found(s, t, nb, parts, at, m, at, table)
  {
    hide NextFrom;
  }

  /** The next match and those that follow it at once, if there is one; more tells whether there may be another. */
  method PutNext(src: array<Byte>, dest: array<Byte>, mem: array<Byte>, t: TableType, start: nat, anchor: nat,
      acceleration: nat, ghost parts0: seq<Part>)
    returns (more: bool, op: nat, ip: nat, ghost parts: seq<Part>)
    requires src != dest && Supported(src[..], t) && CompressBound(src.Length) <= dest.Length && mem != src
    requires mem != dest
    requires start <= dest.Length && Emitted(src[..], parts0, dest[..start], anchor, Moves(acceleration))
    requires Upto(src[..], t, FirstCount(acceleration), parts0, mem[..], anchor, true)
    modifies dest, mem
    ensures op <= dest.Length && ip <= src.Length && (more ==> anchor < ip)
    ensures Emitted(src[..], parts, dest[..op], ip, Moves(acceleration))
    ensures Upto(src[..], t, FirstCount(acceleration), parts, mem[..], ip, more)
  {
    hide *;
    ghost var s, sound, nb := src[..], Moves(acceleration), FirstCount(acceleration);
    UptoFacts(s, t, nb, parts0, mem[..], anchor, true);
    EmittedLength(s, parts0, dest[..start], anchor, sound);
    EmittedEnds(s, parts0, dest[..start], anchor, sound);
    op, ip, parts := start, anchor, parts0;
    var at, m;
    more, at, m := PutSearch(src, mem, t, anchor + 1, acceleration, parts0);
    if more {
      op, ip, parts := PutSequence(src, dest, mem, t, start, anchor, at, m, parts0, sound, nb);
      ReachedIs(s, t, nb, parts, mem[..], ip);
      more := ip + MFLIMIT <= src.Length;
    } else {
      NoneIsUpto(s, t, nb, parts, mem[..], ip);
    }
  }

  /** The sequences of the main loop, until no further match is found. */
  method PutSequences(src: array<Byte>, dest: array<Byte>, mem: array<Byte>, t: TableType, acceleration: nat)
    returns (op: nat, anchor: nat, ghost parts: seq<Part>)
    requires src != dest && Supported(src[..], t) && CompressBound(src.Length) <= dest.Length
    requires MFLIMIT < src.Length && StateOk(mem[..], t, 0) && mem != src && mem != dest
    modifies dest, mem
    ensures op <= dest.Length && anchor <= src.Length
    ensures Emitted(src[..], parts, dest[..op], anchor, Moves(acceleration))
    ensures Complete(src[..], t, FirstCount(acceleration), parts)
  {
    NothingEmitted(src[..], Moves(acceleration));
    hide *;
    PutFirst(src, mem, t, FirstCount(acceleration));
    op, anchor, parts := 0, 0, [];
    var more := true;
    while more
      invariant op <= dest.Length && anchor <= src.Length
      invariant Emitted(src[..], parts, dest[..op], anchor, Moves(acceleration))
      invariant Upto(src[..], t, FirstCount(acceleration), parts, mem[..], anchor, more)
      decreases more, src.Length - anchor
    {
      more, op, anchor, parts := PutNext(src, dest, mem, t, op, anchor, acceleration, parts);
    }
    UptoFacts(src[..], t, FirstCount(acceleration), parts, mem[..], anchor, false);
  }

  lemma StateIsTable(mem: seq<Byte>, t: TableType, top: int)
    requires StateOk(mem, t, top)
    ensures TABLE_BYTES <= |mem| && TableOk(Table(mem, t), t, top)
  {
  }

  lemma FoundIsState(mem: seq<Byte>, t: TableType, at: int)
    requires TABLE_BYTES <= |mem| && TableOk(Table(mem, t), t, at)
    ensures StateOk(mem, t, at)
  {
  }

  /** Literals and a match found at position at, and the matches that follow at once. */
  method PutSequence(src: array<Byte>, dest: array<Byte>, mem: array<Byte>, t: TableType, start: nat, anchor: nat,
      at: nat, m0: nat, ghost parts0: seq<Part>, ghost sound: bool, ghost nb: nat)
    returns (op: nat, ip: nat, ghost parts: seq<Part>)
    requires src != dest && Supported(src[..], t) && CompressBound(src.Length) <= dest.Length
    requires start <= dest.Length && anchor <= at && Emitted(src[..], parts0, dest[..start], anchor, sound)
    requires MatchAt(src[..], at, m0, at, sound) && StateOk(mem[..], t, at) && mem != src && mem != dest
    requires AllTaken(src[..], t, nb, parts0) && Found(src[..], t, nb, parts0, at, m0, at, Table(mem[..], t))
    modifies dest, mem
    ensures at + 4 <= ip <= src.Length && op <= dest.Length && Emitted(src[..], parts, dest[..op], ip, sound)
    ensures Reached(src[..], t, nb, parts, mem[..], ip)
  {
    assert MFLIMIT == 12 && src.Length <= MAX_INPUT_SIZE;
    ghost var s := src[..];
    EmittedLength(s, parts0, dest[..start], anchor, sound);
    CountFits(s, at, m0, at, sound);
    hide *;
    var m: nat;
    ip, m := CatchUp(src, anchor, at, m0, sound);
    RoomForLiterals(s, parts0, dest[..start], anchor, ip, sound);
    op := PutLiterals(dest, start, src, anchor, ip);
    LiteralsDone(s, parts0, dest[..op], anchor, ip, sound);
    FoundBefore(s, t, nb, parts0, at, m0, ip, m, at, Table(mem[..], t));
    op, ip, parts := PutRun(src, dest, mem, t, start, op, ip, m, parts0, at, sound, nb);
  }

  lemma FoundBefore(s: seq<Byte>, t: TableType, nb: nat, parts: seq<Part>, at: nat, m0: nat, ip: nat, m: nat, top: nat,
      table: seq<nat>)
    requires Supported(s, t) && Found(s, t, nb, parts, at, m0, top, table)
    requires ip - m == at - m0 && OutLen(parts) <= ip <= at
    ensures Found(s, t, nb, parts, ip, m, top, table)
  {
    hide NextFrom, OutLen;
  }

  lemma EmittedLength(s: seq<Byte>, parts: seq<Part>, out: seq<Byte>, anchor: nat, sound: bool)
    requires Emitted(s, parts, out, anchor, sound)
    ensures OutLen(parts) == anchor
  {
    hide Out, EncodeParts, OffsetsOk, Restricted;
  }

  lemma LiteralsDone(s: seq<Byte>, parts: seq<Part>, out: seq<Byte>, anchor: nat, ip: nat, sound: bool)
    requires (forall p <- parts :: Encodable(p)) && Emitted(s, parts, EncodeParts(parts), anchor, sound)
    requires anchor <= ip && ip + MFLIMIT <= |s| && out == EncodeParts(parts) + Head(s[anchor..ip], 0)
    ensures Pending(s, parts, out, ip, sound)
  {
    hide Restricted, OffsetsOk, Out, EncodeParts, Head;
  }

  /** LZ4_compress_generic without an output limit or a dictionary. It refuses inputs its table type or size limit does
      not support; otherwise it writes the one parse of the input, which respects the parsing restrictions and fits the
      bound, and stands for the input whenever the search moves. When the search stands still, the parse of an input that
      starts without repetition stands for nothing: its first match has offset zero. An input of equal bytes is
      compressed to about a 255th. */
  method CompressGeneric(src: array<Byte>, dest: array<Byte>, mem: array<Byte>, t: TableType, acceleration: nat)
    returns (r: nat, ghost b: Block)
    requires src != dest && CompressBound(src.Length) <= dest.Length
    requires StateOk(mem[..], t, 0) && mem != src && mem != dest
    modifies dest, mem
    ensures !Supported(src[..], t) ==> r == 0 && dest[..] == old(dest[..])
    ensures Supported(src[..], t) ==> r <= CompressBound(src.Length) && Compressed(src[..], dest[..], r, b)
    ensures Supported(src[..], t) && Moves(acceleration) ==> WellFormed(b) && Expand(b) == src[..]
    ensures Supported(src[..], t) && FreshStart(src[..]) ==> (OffsetsOk(b.parts) <==> Moves(acceleration))
    ensures Supported(src[..], t) ==> IsParse(src[..], t, FirstCount(acceleration), b)
    ensures Supported(src[..], t) && AllEqual(src[..]) && src.Length >= 14 ==> r <= src.Length / 255 + 12
  {
    ghost var s := src[..];
    b := Block([], [], 0);
    if src.Length > MAX_INPUT_SIZE || (t.ByU16? && src.Length >= LIMIT_64K) {
      return 0, b;
    }
    var op, anchor := 0, 0;
    ghost var parts, nb := [], FirstCount(acceleration);
    NothingEmitted(s, Moves(acceleration));
    assert MFLIMIT == 12;
    hide *;
    if src.Length >= 13 {
      op, anchor, parts := PutSequences(src, dest, mem, t, acceleration);
    } else {
      ShortIsLiteral(s, t, nb);
    }
    RoomForLast(s, parts, dest[..op], anchor, Moves(acceleration));
    ghost var before := dest[..op];
    r := PutLast(dest, op, src, anchor);
    b := Block(parts, s[anchor..], 0);
    assert src[anchor..] == s[anchor..];
    LastDone(s, parts, before, anchor, Moves(acceleration));
    CompressedIs(s, dest[..], r, b);
    EmittedLength(s, parts, before, anchor, Moves(acceleration));
    BlockIsParse(s, t, nb, b);
    if FreshStart(s) && !Moves(acceleration) {
      FreshStartFails(s, t, acceleration, b);
    }
    if AllEqual(s) && src.Length >= 14 {
      EqualBytesAreShort(s, t, nb, dest[..], r, b);
    }
  }

  lemma BlockIsParse(s: seq<Byte>, t: TableType, nb: nat, b: Block)
    requires Supported(s, t) && Complete(s, t, nb, b.parts)
    requires OutLen(b.parts) <= |s| && b.last == s[OutLen(b.parts)..] && b.spare == 0
    ensures IsParse(s, t, nb, b)
  {
    hide AllTaken, NextFrom, OutLen;
  }

  lemma ParseStarts(s: seq<Byte>, t: TableType, nb: nat, b: Block)
    requires Supported(s, t) && MFLIMIT <= |s| && IsParse(s, t, nb, b)
    ensures var r := SearchFrom(s, t, seq(TableSize(t), _ => 0), 1, 1, nb);
      if b.parts == [] then r.NoMatch?
      else r.Match? && b.parts[0].off == r.ip - r.m && |b.parts[0].lits| <= r.ip
           && Stretched(s, |b.parts[0].lits|, b.parts[0])
  {
    var table := seq(TableSize(t), _ => 0);
    NothingTaken(s, t, nb, table);
    PutZero(s, t, table);
    hide NextFrom, SearchFrom, Put, Stretched, AllTaken, Supported, TableSize;
    if b.parts != [] {
      FirstTaken(s, t, nb, b.parts);
    }
  }

  lemma PutZero(s: seq<Byte>, t: TableType, table: seq<nat>)
    requires TableOk(table, t, 0) && 8 <= |s|
    ensures Put(s, t, table, 0) == table
  {
    hide Hash;
  }

  lemma FirstTaken(s: seq<Byte>, t: TableType, nb: nat, parts: seq<Part>)
    requires Supported(s, t) && AllTaken(s, t, nb, parts) && parts != []
    ensures Taken(s, t, nb, [], parts[0])
  {
    hide Taken, Supported;
    assert parts[..0] == [] && Taken(s, t, nb, parts[..0], parts[0]);
  }

  lemma FreshStartFails(s: seq<Byte>, t: TableType, acceleration: nat, b: Block)
    requires Supported(s, t) && FreshStart(s) && !Moves(acceleration) && IsParse(s, t, FirstCount(acceleration), b)
    ensures !OffsetsOk(b.parts)
  {
    FreshStartStandsStill(s, t);
    StandingStillCounts(acceleration);
    FreshStartIsLong(s);
    hide FirstCount, SearchFrom, FreshStart, IsParse, Stretched;
    ParseStarts(s, t, FirstCount(acceleration), b);
    ZeroOffset(b.parts);
  }

  // ---------- inputs of equal bytes ----------

  predicate AllEqual(s: seq<Byte>) {
    forall i, j | 0 <= i < j < |s| :: s[i] == s[j]
  }

  lemma EqualBytesAreFound(s: seq<Byte>, t: TableType, nb: nat)
    requires Supported(s, t) && 14 <= |s| && AllEqual(s)
    ensures var r := SearchFrom(s, t, seq(TableSize(t), _ => 0), 1, 1, nb); r.Match? && r.ip == 1
  {
    var table := seq(TableSize(t), _ => 0);
    assert s[0..4] == s[1..5];
    hide Hash;
    assert Usable(s, 1, table[Hash(s, 1, t)]);
    SearchTakes(s, t, table, 1, 1, nb);
  }

  lemma SecondIsLater(parts: seq<Part>)
    requires |parts| > 1
    ensures MatchStart(parts, 1) >= OutLen(parts[..1])
  {
  }

  /** The one match of an input of equal bytes goes up to its last five bytes. */
  lemma EqualBytesAreOne(s: seq<Byte>, b: Block)
    requires AllEqual(s) && 14 <= |s| && |Expand(b)| == |s| && Restricted(b.parts, |s|)
    requires b.parts != [] && Stretched(s, |b.parts[0].lits|, b.parts[0])
    ensures b.parts == [b.parts[0]] && |b.last| == 5 && |b.parts[0].lits| + b.parts[0].len == |s| - 5
  {
    var p := b.parts[0];
    assert b.parts[..1] == [p] && [p][..0] == [];
    assert OutLen([p]) == |p.lits| + p.len;
    assert OutLen(b.parts[..1]) == |s| - 5;
    if |b.parts| > 1 {
      SecondIsLater(b.parts);
    }
  }

  lemma EqualBytesAreShort(s: seq<Byte>, t: TableType, nb: nat, out: seq<Byte>, r: nat, b: Block)
    requires Supported(s, t) && 14 <= |s| && AllEqual(s) && IsParse(s, t, nb, b)
    requires Compressed(s, out, r, b)
    ensures r <= |s| / 255 + 12
  {
    assert MFLIMIT == 12;
    hide IsParse, Stretched, SearchFrom;
    EqualBytesAreFound(s, t, nb);
    ParseStarts(s, t, nb, b);
    EqualBytesAreOne(s, b);
    hide AllEqual, Restricted, Expand, Supported;
    var p := b.parts[0];
    assert [p][..0] == [];
    assert EncodeParts(b.parts) == EncodePart(p);
    assert |EncodePart(p)| == 3 + |p.lits| + |Ext(p.len - MINMATCH)|;
    assert |Head(b.last, b.spare)| == 6;
  }

  lemma ZeroOffset(parts: seq<Part>)
    requires parts != [] && parts[0].off == 0
    ensures !OffsetsOk(parts)
  {
  }

  /** The first r bytes of out encode b, a block of the length of s that respects the restrictions. */
  ghost predicate Compressed(s: seq<Byte>, out: seq<Byte>, r: nat, b: Block) {
    && Writable(b) && r <= |out| && out[..r] == Encode(b)
    && |Expand(b)| == |s| && Restricted(b.parts, |s|)
  }

  lemma LastDone(s: seq<Byte>, parts: seq<Part>, out: seq<Byte>, anchor: nat, sound: bool)
    requires Emitted(s, parts, out, anchor, sound)
    ensures var b := Block(parts, s[anchor..], 0);
      && Writable(b) && Encode(b) == out + Head(s[anchor..], 0)
      && |Expand(b)| == |s| && Restricted(b.parts, |s|)
      && (sound ==> WellFormed(b) && OffsetsOk(parts) && Expand(b) == s)
  {
    hide Restricted, OffsetsOk, Out, EncodeParts, Head;
    assert s[..anchor] + s[anchor..] == s;
  }

  lemma CompressedIs(s: seq<Byte>, out: seq<Byte>, r: nat, b: Block)
    requires Writable(b) && r <= |out| && out[..r] == Encode(b)
    requires |Expand(b)| == |s| && Restricted(b.parts, |s|)
    ensures Compressed(s, out, r, b)
  {
  }

  /** LZ4_compress_fast_extState when the destination is as large as the bound. The memory it is given is cleared, all
      of LZ4_STREAMSIZE, and then holds the table, whose entries are two bytes wide when that is enough. */
  method CompressFast(src: array<Byte>, dest: array<Byte>, mem: array<Byte>, acceleration: int)
    returns (r: nat, ghost b: Block)
    requires src != dest && CompressBound(src.Length) <= dest.Length
    requires STREAM_SIZE <= mem.Length && mem != src && mem != dest
    modifies dest, mem
    ensures src.Length > MAX_INPUT_SIZE ==> r == 0 && dest[..] == old(dest[..])
    ensures src.Length <= MAX_INPUT_SIZE ==> r <= CompressBound(src.Length) && Compressed(src[..], dest[..], r, b)
    ensures src.Length <= MAX_INPUT_SIZE && Moves(Acceleration(acceleration)) ==> WellFormed(b) && Expand(b) == src[..]
    ensures src.Length <= MAX_INPUT_SIZE && FreshStart(src[..]) ==>
      (OffsetsOk(b.parts) <==> Moves(Acceleration(acceleration)))
    ensures src.Length <= MAX_INPUT_SIZE ==>
      IsParse(src[..], if src.Length < 65547 then ByU16 else ByU32,
              FirstCount(if acceleration < 1 then 1 else acceleration), b)
    ensures src.Length <= MAX_INPUT_SIZE && AllEqual(src[..]) && src.Length >= 14 ==> r <= src.Length / 255 + 12
  {
    hide Compressed, WellFormed, Expand, Moves, CompressBound, FreshStart, OffsetsOk, StateOk, Table;
    hide IsParse, AllEqual;
    var t := if src.Length < LIMIT_64K then ByU16 else ByU32;
    ResetStream(mem);
    r, b := CompressGeneric(src, dest, mem, t, Acceleration(acceleration));
  }

  /** Values below one are replaced by the default. */
  function Acceleration(acceleration: int): nat {
    if acceleration < 1 then 1 else acceleration
  }
}
