/** The decoder for input that may be malformed. */
module Lz4Safe {
  import opened Lz4Format
  import opened Lz4Memory
  import opened Lz4Decompress

  // ---------- what is accepted ----------

  /** Part i fits the input of m bytes and the output of size bytes: its offset stays inside the output, its match
      starts at least twelve and ends at least five bytes before the end of the output, and at least eight bytes of
      input follow its literals, four its length bytes. */
  predicate PartAccepted(parts: seq<Part>, i: nat, m: nat, size: nat)
    requires i < |parts| && forall p <- parts :: Encodable(p)
  {
    var p, start := parts[i], MatchStart(parts, i);
    var at := |EncodeParts(parts[..i])| + |Head(p.lits, 0)|;
    && p.off <= start && start + MFLIMIT <= size && start + p.len + LASTLITERALS <= size
    && at + 8 <= m && (p.len - MINMATCH >= ML_MASK ==> at + |MatchBytes(p)| + 4 <= m)
  }

  predicate PartsAccepted(parts: seq<Part>, m: nat, size: nat) {
    (forall p <- parts :: Encodable(p)) && forall i | 0 <= i < |parts| :: PartAccepted(parts, i, m, size)
  }

  /** s encodes b, and the decoder can restore b into size bytes. An offset of zero, which the format forbids, is not
      noticed. */
  predicate Accepted(s: seq<Byte>, size: nat, b: Block) {
    && Writable(b) && Encode(b) == s && |Expand(b)| <= size && (size == 0 ==> b.spare == 0)
    && PartsAccepted(b.parts, |s|, size)
  }

  /** The parts found so far, and the output they have produced. */
  ghost predicate Parsed(s: seq<Byte>, size: nat, parts: seq<Part>, ip: nat, out: seq<Byte>) {
    && PartsAccepted(parts, |s|, size) && EncodeParts(parts) <= s && ip == |EncodeParts(parts)|
    && |out| == OutLen(parts) && (OffsetsOk(parts) ==> out == Out(parts))
  }

  /** Every acceptable block starts with them. */
  ghost predicate Forced(s: seq<Byte>, size: nat, parts: seq<Part>) {
    forall b | Accepted(s, size, b) :: parts <= b.parts
  }

  // ---------- lengths ----------

  /** The length bytes at position ip say v. */
  predicate Says(s: seq<Byte>, ip: nat, v: nat) {
    ip <= |s| && LenBytes(v) <= s[ip..]
  }

  /** The k bytes at ip are 255, so that what the length bytes there say is 255 * k more than those at ip + k say. */
  ghost predicate Carried(s: seq<Byte>, ip: nat, k: nat) {
    ip + k <= |s| && forall v: nat :: Says(s, ip, v) ==> v >= 255 * k && Says(s, ip + k, v - 255 * k)
  }

  lemma SaysStep(s: seq<Byte>, at: nat, w: nat)
    requires at < |s|
    ensures s[at] == 255 ==> (Says(s, at, w) <==> w >= 255 && Says(s, at + 1, w - 255))
    ensures s[at] < 255 ==> (Says(s, at, w) <==> w == s[at])
  {
    assert s[at..][0] == s[at];
    if w >= 255 {
      assert LenBytes(w) == [255] + LenBytes(w - 255);
      assert s[at..] == [s[at]] + s[at + 1..];
      if LenBytes(w) <= s[at..] {
        PrefixSplits([255], LenBytes(w - 255), s[at..]);
      }
    } else {
      assert LenBytes(w) == [w];
    }
  }

  lemma CarryOne(s: seq<Byte>, ip: nat, k: nat)
    requires Carried(s, ip, k) && ip + k < |s| && s[ip + k] == 255
    ensures Carried(s, ip, k + 1)
  {
    hide Says;
    forall v: nat | Says(s, ip, v) ensures v >= 255 * (k + 1) && Says(s, ip + (k + 1), v - 255 * (k + 1)) {
      SaysStep(s, ip + k, v - 255 * k);
    }
  }

  lemma CarryLast(s: seq<Byte>, ip: nat, k: nat)
    requires Carried(s, ip, k) && ip + k < |s| && s[ip + k] < 255
    ensures forall v: nat :: Says(s, ip, v) ==> v == 255 * k + s[ip + k]
  {
    hide Says;
    forall v: nat | Says(s, ip, v) ensures v == 255 * k + s[ip + k] {
      SaysStep(s, ip + k, v - 255 * k);
    }
  }

  /** k bytes of 255 and a smaller one say just what they add up to. */
  lemma {:induction false} SaysSum(s: seq<Byte>, ip: nat, k: nat)
    requires ip + k < |s| && (forall j | ip <= j < ip + k :: s[j] == 255) && s[ip + k] < 255
    ensures LenBytes(255 * k + s[ip + k]) == s[ip..ip + k + 1]
    decreases k
  {
    if k > 0 {
      SaysSum(s, ip + 1, k - 1);
      assert s[ip..ip + k + 1] == [s[ip]] + s[ip + 1..ip + k + 1];
    }
  }

  /** The bytes from ip up to next are length bytes that say v, and there is no other way to read them. */
  ghost predicate LengthRead(s: seq<Byte>, ip: nat, next: nat, v: nat) {
    ip <= next <= |s| && LenBytes(v) == s[ip..next] && forall w: nat :: Says(s, ip, w) ==> w == v
  }

  /** Whatever the length bytes at ip say takes more than k of them. */
  ghost predicate LengthBeyond(s: seq<Byte>, ip: nat, k: nat) {
    forall w: nat :: Says(s, ip, w) ==> w >= 255 * k && |LenBytes(w)| >= k + 1
  }

  lemma CarriedBeyond(s: seq<Byte>, ip: nat, k: nat)
    requires Carried(s, ip, k)
    ensures LengthBeyond(s, ip, k)
  {
    hide Says;
  }

  /** What reading one more length byte means. */
  lemma ReadOne(s: seq<Byte>, ip: nat, k: nat)
    requires Carried(s, ip, k) && ip + k < |s| && forall j | ip <= j < ip + k :: s[j] == 255
    ensures s[ip + k] == 255 ==> Carried(s, ip, k + 1) && LengthBeyond(s, ip, k + 1)
    ensures s[ip + k] < 255 ==> LengthRead(s, ip, ip + k + 1, 255 * k + s[ip + k])
  {
    hide LenBytes, Says;
    if s[ip + k] == 255 {
      CarryOne(s, ip, k);
      CarriedBeyond(s, ip, k + 1);
    } else {
      CarryLast(s, ip, k);
      SaysSum(s, ip, k);
    }
  }

  lemma NothingRead(s: seq<Byte>, ip: nat)
    requires ip <= |s|
    ensures Carried(s, ip, 0)
  {
  }

  /** The length bytes of literals: reading stops at a byte less than 255, or near the end of the input. */
  method ReadLiteralLength(src: array<Byte>, ip: nat, start: nat) returns (length: nat, next: nat, whole: bool)
    requires ip < src.Length
    ensures ip < next <= src.Length && length >= start
    ensures whole ==> LengthRead(src[..], ip, next, length - start)
    ensures !whole ==>
      next >= src.Length - 15 && length == start + 255 * (next - ip) && LengthBeyond(src[..], ip, next - ip)
  {
    hide *;
    ghost var s, k := src[..], 0;
    NothingRead(s, ip);
    length, next := start, ip;
    while true
      invariant ip <= next < src.Length && next == ip + k && length == start + 255 * k && Carried(s, ip, k)
      invariant forall j | ip <= j < ip + k :: s[j] == 255
      decreases src.Length - next
    {
      var b := src[next];
      ReadOne(s, ip, k);
      k := k + 1;
      next, length := next + 1, length + b;
      if !(next < src.Length - 15 && b == 255) {
        return length, next, b != 255;
      }
    }
  }

  /** The length bytes of a match: reading fails within the last five bytes of the input. */
  method ReadMatchLength(src: array<Byte>, ip: nat, start: nat) returns (ok: bool, length: nat, next: nat)
    requires ip <= src.Length
    ensures ip <= next <= src.Length && length >= start
    ensures ok ==> next + 4 <= src.Length && LengthRead(src[..], ip, next, length - start)
    ensures !ok ==> next + 5 > src.Length && LengthBeyond(src[..], ip, next - ip)
  {
    hide Carried, LengthRead, LengthBeyond, LenBytes, Says;
    ghost var s, k := src[..], 0;
    NothingRead(s, ip);
    length, next := start, ip;
    while true
      invariant ip <= next <= src.Length && next == ip + k && length == start + 255 * k && Carried(s, ip, k)
      invariant forall j | ip <= j < ip + k :: s[j] == 255
      decreases src.Length - next
    {
      if next > src.Length - LASTLITERALS {
        CarriedBeyond(s, ip, k);
        return false, length, next;
      }
      var b := src[next];
      ReadOne(s, ip, k);
      k := k + 1;
      next, length := next + 1, length + b;
      if b != 255 {
        return true, length, next;
      }
    }
  }

  // ---------- heads ----------

  /** The bytes from ip up to next are a token and length bytes for literals of this length, and a head found at ip is
      one with that token and length. */
  ghost predicate HeadRead(s: seq<Byte>, ip: nat, token: Byte, length: nat, next: nat) {
    && ip < next <= |s| && s[ip..next] == [token] + Ext(length) && token / 16 == Nibble(length)
    && forall lits: seq<Byte>, more: nat | HeadAt(s, ip, lits, more) :: more == token % 16 && |lits| == length
  }

  predicate HeadAt(s: seq<Byte>, ip: nat, lits: seq<Byte>, more: nat) {
    more < 16 && ip <= |s| && Head(lits, more) <= s[ip..]
  }

  ghost predicate NoHead(s: seq<Byte>, ip: nat) {
    forall lits: seq<Byte>, more: nat :: !HeadAt(s, ip, lits, more)
  }

  lemma HeadSays(s: seq<Byte>, ip: nat, lits: seq<Byte>, more: nat)
    requires HeadAt(s, ip, lits, more)
    ensures ip + 1 + |Ext(|lits|)| + |lits| <= |s| && s[ip] == 16 * Nibble(|lits|) + more
    ensures |lits| >= 15 ==> Says(s, ip + 1, |lits| - 15)
    ensures s[ip + 1 + |Ext(|lits|)|..][..|lits|] == lits
  {
    var l := |lits|;
    PrefixSplits([16 * Nibble(l) + more] + Ext(l), lits, s[ip..]);
    PrefixSplits([16 * Nibble(l) + more], Ext(l), s[ip..]);
    assert s[ip..][0] == s[ip] && s[ip..][1..] == s[ip + 1..] && s[ip..][1 + |Ext(l)|..] == s[ip + 1 + |Ext(l)|..];
  }

  lemma HeadIsRead(s: seq<Byte>, ip: nat, token: Byte, length: nat, next: nat)
    requires ip < |s| && s[ip] == token
    requires if token / 16 == 15 then length >= 15 && ip < next && LengthRead(s, ip + 1, next, length - 15)
             else length == token / 16 && next == ip + 1
    ensures HeadRead(s, ip, token, length, next)
  {
    assert s[ip..next] == [token] + s[ip + 1..next];
    hide LenBytes, Head;
    forall lits: seq<Byte>, more: nat | HeadAt(s, ip, lits, more) ensures more == token % 16 && |lits| == length {
      HeadSays(s, ip, lits, more);
    }
  }

  lemma HeadIsNone(s: seq<Byte>, ip: nat, token: Byte, k: nat)
    requires ip < |s| && s[ip] == token && token / 16 == 15
    requires k >= 1 && ip + 1 + k >= |s| - 15 && LengthBeyond(s, ip + 1, k)
    ensures NoHead(s, ip)
  {
    hide LenBytes, Head;
    forall lits: seq<Byte>, more: nat ensures !HeadAt(s, ip, lits, more) {
      if HeadAt(s, ip, lits, more) {
        HeadSays(s, ip, lits, more);
      }
    }
  }

  /** A token at ip, and the length byte it may call for, are inside the input. The code reads both without a look at
      its size. */
  predicate HeadInside(s: seq<Byte>, ip: nat) {
    ip < |s| && (s[ip] / 16 == RUN_MASK ==> ip + 1 < |s|)
  }

  /** Token and literal length, unless they would be read past the end of the input. If the length bytes run into the
      end there is no head here. */
  method ReadSafeHead(src: array<Byte>, ip: nat)
    returns (inside: bool, token: Byte, length: nat, next: nat, ghost whole: bool)
    ensures inside <==> HeadInside(src[..], ip)
    ensures inside ==> ip < next <= src.Length
    ensures inside && whole ==> HeadRead(src[..], ip, token, length, next)
    ensures inside && !whole ==> NoHead(src[..], ip) && next + length > src.Length
  {
    hide HeadRead, NoHead, LengthRead, LengthBeyond;
    inside, token, length, next, whole := false, 0, 0, ip, true;
    if ip >= src.Length {
      return;
    }
    token, next := src[ip], ip + 1;
    length := token / 16;
    if length == RUN_MASK {
      if next >= src.Length {
        return;
      }
      var w;
      length, next, w := ReadLiteralLength(src, next, length);
      whole := w;
    }
    inside := true;
    if whole {
      HeadIsRead(src[..], ip, token, length, next);
    } else {
      HeadIsNone(src[..], ip, token, next - ip - 1);
    }
  }

  // ---------- acceptable blocks beyond the parts found ----------

  /** Block b goes on, after the parts found, with one whose head is at ip and whose match is at position at. */
  ghost predicate GoesOn(s: seq<Byte>, size: nat, parts: seq<Part>, ip: nat, b: Block, at: nat) {
    && |parts| < |b.parts|
    && var p := b.parts[|parts|];
    && Encodable(p) && HeadAt(s, ip, p.lits, Nibble(p.len - MINMATCH)) && at == ip + |Head(p.lits, 0)| <= |s|
    && MatchBytes(p) <= s[at..] && p.off <= OutLen(parts) + |p.lits|
    && OutLen(parts) + |p.lits| + 12 <= size && OutLen(parts) + |p.lits| + p.len + 5 <= size
    && at + 8 <= |s| && (p.len - MINMATCH >= 15 ==> at + |MatchBytes(p)| + 4 <= |s|)
  }

  /** Block b ends, after the parts found, with literals whose head is at ip. */
  ghost predicate Ends(s: seq<Byte>, size: nat, parts: seq<Part>, ip: nat, b: Block) {
    && parts == b.parts && HeadAt(s, ip, b.last, b.spare) && ip + |Head(b.last, b.spare)| == |s|
    && OutLen(parts) + |b.last| <= size
  }

  lemma PeekPart(s: seq<Byte>, size: nat, b: Block, i: nat, ip: nat)
    requires Writable(b) && i < |b.parts| && PartAccepted(b.parts, i, |s|, size)
    requires ip == |EncodeParts(b.parts[..i])| <= |s| && s[ip..] == Tail(b, i)
    ensures GoesOn(s, size, b.parts[..i], ip, b, ip + |Head(b.parts[i].lits, 0)|)
  {
    hide EncodeParts, Encode, Tail, Head, OutLen, MatchBytes, EncodePart, Nibble;
    var p := b.parts[i];
    TailLayout(b, i, s[ip..]);
    assert p in b.parts && p.len >= MINMATCH;
    NibbleFits(p.len - MINMATCH);
    HeadLength(p.lits, Nibble(p.len - MINMATCH));
    var h := |Head(p.lits, 0)|;
    assert s[ip..][h..] == s[ip + h..];
  }

  lemma NibbleFits(v: nat)
    ensures Nibble(v) < 16
  {
  }

  lemma Peek(s: seq<Byte>, size: nat, parts: seq<Part>, ip: nat, b: Block)
    requires Accepted(s, size, b) && parts <= b.parts && (forall p <- parts :: Encodable(p))
    requires ip == |EncodeParts(parts)|
    ensures Ends(s, size, parts, ip, b) ||
      (|parts| < |b.parts| && GoesOn(s, size, parts, ip, b, ip + |Head(b.parts[|parts|].lits, 0)|))
  {
    var i := |parts|;
    assert b.parts[..i] == parts;
    TailSplits(b, i);
    assert s[ip..] == Tail(b, i);
    assert i == |b.parts| ==> parts == b.parts && Tail(b, i) == Head(b.last, b.spare);
    assert i == |b.parts| ==> |Expand(b)| == OutLen(parts) + |b.last|;
    hide EncodeParts, Encode, Tail, Head, OutLen, GoesOn, PartAccepted, Expand;
    if i < |b.parts| {
      PeekPart(s, size, b, i, ip);
    }
  }

  lemma HeadLength(lits: seq<Byte>, more: nat)
    requires more < 16
    ensures |Head(lits, more)| == |Head(lits, 0)| == 1 + |Ext(|lits|)| + |lits|
  {
    hide Ext;
  }

  // ---------- why the decoder stops ----------

  /** No acceptable block continues the parts found. */
  ghost predicate Hopeless(s: seq<Byte>, size: nat) {
    forall b :: !Accepted(s, size, b)
  }

  /** Literals that reach into the last bytes of the input or the output but do not end exactly with the input, or do
      not fit the output. */
  lemma RejectHead(s: seq<Byte>, size: nat, parts: seq<Part>, ip: nat, token: Byte, length: nat, next: nat, whole: bool)
    requires Forced(s, size, parts) && (forall p <- parts :: Encodable(p)) && ip == |EncodeParts(parts)|
    requires if whole then HeadRead(s, ip, token, length, next) else NoHead(s, ip)
    requires whole ==> OutLen(parts) + length + 12 > size || next + length + 8 > |s|
    requires whole ==> next + length != |s| || OutLen(parts) + length > size
    ensures Hopeless(s, size)
  {
    forall b ensures !Accepted(s, size, b) {
      if Accepted(s, size, b) {
        Peek(s, size, parts, ip, b);
        hide Accepted, EncodeParts, OutLen, Head, MatchBytes, Nibble;
        BlockHead(s, size, parts, ip, b, token, length, next, whole);
      }
    }
  }

  /** The head read is that of every acceptable block. */
  lemma BlockHead(s: seq<Byte>, size: nat, parts: seq<Part>, ip: nat, b: Block, token: Byte, length: nat, next: nat,
      whole: bool)
    requires Ends(s, size, parts, ip, b) ||
      (|parts| < |b.parts| && GoesOn(s, size, parts, ip, b, ip + |Head(b.parts[|parts|].lits, 0)|))
    requires if whole then HeadRead(s, ip, token, length, next) else NoHead(s, ip)
    ensures whole
    ensures if Ends(s, size, parts, ip, b) then next + length == |s| && OutLen(parts) + length <= size
            else |parts| < |b.parts| && GoesOn(s, size, parts, ip, b, next + length)
                 && next + length + 8 <= |s| && OutLen(parts) + length + 12 <= size
                 && |b.parts[|parts|].lits| == length && Nibble(b.parts[|parts|].len - MINMATCH) == token % 16
  {
    hide EncodeParts, OutLen, Head, MatchBytes, Nibble, Ext;
    if Ends(s, size, parts, ip, b) {
      HeadLength(b.last, b.spare);
      assert HeadAt(s, ip, b.last, b.spare);
    } else {
      var p := b.parts[|parts|];
      HeadLength(p.lits, 0);
      assert HeadAt(s, ip, p.lits, Nibble(p.len - MINMATCH));
    }
  }

  /** Every acceptable block goes on with literals of this length and a match at position at. */
  ghost predicate MustGoOn(s: seq<Byte>, size: nat, parts: seq<Part>, at: nat, length: nat, token: Byte) {
    forall b | Accepted(s, size, b) :: GoesOnWith(s, size, parts, b, at, length, token)
  }

  ghost predicate GoesOnWith(s: seq<Byte>, size: nat, parts: seq<Part>, b: Block, at: nat, length: nat, token: Byte) {
    && parts < b.parts && length <= at && at + 2 <= |s|
    && var p := b.parts[|parts|];
    && Encodable(p) && p.lits == s[at - length..at] && Nibble(p.len - MINMATCH) == token % 16
    && p.off == ReadOffset(s, at) && p.off <= OutLen(parts) + length
    && OutLen(parts) + length + p.len + 5 <= size
    && (p.len - MINMATCH >= 15 ==>
          Says(s, at + 2, p.len - MINMATCH - 15) && at + 2 + |LenBytes(p.len - MINMATCH - 15)| + 4 <= |s|)
  }

  function ReadOffset(s: seq<Byte>, at: nat): nat
    requires at + 2 <= |s|
  {
    var low: nat, high: nat := s[at], s[at + 1];
    low + 256 * high
  }

  lemma MatchSays(s: seq<Byte>, at: nat, p: Part)
    requires Encodable(p) && at <= |s| && MatchBytes(p) <= s[at..]
    ensures at + 2 <= |s| && p.off == ReadOffset(s, at)
    ensures p.len - MINMATCH >= 15 ==>
      Says(s, at + 2, p.len - MINMATCH - 15) && |MatchBytes(p)| == 2 + |LenBytes(p.len - MINMATCH - 15)|
  {
    PrefixSplits(Le16(p.off), Ext(p.len - MINMATCH), s[at..]);
    assert s[at..][0] == s[at] && s[at..][1] == s[at + 1] && s[at..][2..] == s[at + 2..];
  }

  lemma HeadMustGoOn(s: seq<Byte>, size: nat, parts: seq<Part>, ip: nat, token: Byte, length: nat, next: nat,
      whole: bool)
    requires Forced(s, size, parts) && (forall p <- parts :: Encodable(p)) && ip == |EncodeParts(parts)|
    requires if whole then HeadRead(s, ip, token, length, next) else NoHead(s, ip)
    requires next + length + 8 <= |s|
    ensures MustGoOn(s, size, parts, next + length, length, token)
  {
    hide EncodeParts, OutLen, Head, MatchBytes, Nibble, Ext, LenBytes, Says, HeadRead, NoHead, ReadOffset;
    forall b | Accepted(s, size, b) ensures GoesOnWith(s, size, parts, b, next + length, length, token) {
      Peek(s, size, parts, ip, b);
      hide Accepted;
      BlockHead(s, size, parts, ip, b, token, length, next, whole);
      PartGoesOn(s, size, parts, ip, b, next, length, token);
    }
  }

  lemma PartGoesOn(s: seq<Byte>, size: nat, parts: seq<Part>, ip: nat, b: Block, next: nat, length: nat, token: Byte)
    requires parts <= b.parts && GoesOn(s, size, parts, ip, b, next + length) && next + length + 8 <= |s|
    requires |b.parts[|parts|].lits| == length && Nibble(b.parts[|parts|].len - MINMATCH) == token % 16
    ensures GoesOnWith(s, size, parts, b, next + length, length, token)
  {
    hide EncodeParts, OutLen, Head, MatchBytes, Nibble, LenBytes, Says, ReadOffset, Ext;
    var p := b.parts[|parts|];
    MatchSays(s, next + length, p);
    LitsAre(s, ip, p.lits, Nibble(p.len - MINMATCH), next);
    assert parts < b.parts;
  }

  lemma LitsAre(s: seq<Byte>, ip: nat, lits: seq<Byte>, more: nat, next: nat)
    requires HeadAt(s, ip, lits, more) && next + |lits| == ip + |Head(lits, 0)|
    ensures next + |lits| <= |s| && lits == s[next..next + |lits|]
  {
    hide Head, Nibble, Ext, Says;
    HeadSays(s, ip, lits, more);
    HeadLength(lits, more);
    assert s[next..][..|lits|] == s[next..next + |lits|];
  }

  lemma RejectOffset(s: seq<Byte>, size: nat, parts: seq<Part>, at: nat, length: nat, token: Byte)
    requires MustGoOn(s, size, parts, at, length, token) && at + 2 <= |s| && ReadOffset(s, at) > OutLen(parts) + length
    ensures Hopeless(s, size)
  {
    hide Accepted, OutLen, ReadOffset, Says, LenBytes, Nibble;
  }

  lemma RejectLength(s: seq<Byte>, size: nat, parts: seq<Part>, at: nat, length: nat, token: Byte, k: nat)
    requires MustGoOn(s, size, parts, at, length, token) && token % 16 == 15
    requires LengthBeyond(s, at + 2, k) && at + 2 + k + 5 > |s|
    ensures Hopeless(s, size)
  {
    hide Accepted, OutLen, ReadOffset, Says, LenBytes;
  }

  /** The match length read is the one of every acceptable block. */
  ghost predicate MatchLengthRead(s: seq<Byte>, at: nat, token: Byte, len: nat, end: nat) {
    if token % 16 == 15 then len >= 19 && at + 2 <= end && end + 4 <= |s| && LengthRead(s, at + 2, end, len - 19)
    else len == token % 16 + 4 && end == at + 2
  }

  lemma LengthIsForced(s: seq<Byte>, size: nat, parts: seq<Part>, b: Block, at: nat, length: nat, token: Byte,
      len: nat, end: nat)
    requires GoesOnWith(s, size, parts, b, at, length, token) && MatchLengthRead(s, at, token, len, end)
    ensures b.parts[|parts|].len == len
  {
    hide OutLen, ReadOffset, Says, LenBytes;
  }

  lemma RejectEnd(s: seq<Byte>, size: nat, parts: seq<Part>, at: nat, length: nat, token: Byte, len: nat, end: nat)
    requires MustGoOn(s, size, parts, at, length, token) && MatchLengthRead(s, at, token, len, end)
    requires OutLen(parts) + length + len + 5 > size
    ensures Hopeless(s, size)
  {
    hide Accepted, GoesOnWith, OutLen, MatchLengthRead;
    forall b ensures !Accepted(s, size, b) {
      if Accepted(s, size, b) {
        LengthIsForced(s, size, parts, b, at, length, token, len, end);
        GoesOnFits(s, size, parts, b, at, length, token);
      }
    }
  }

  lemma GoesOnFits(s: seq<Byte>, size: nat, parts: seq<Part>, b: Block, at: nat, length: nat, token: Byte)
    requires GoesOnWith(s, size, parts, b, at, length, token)
    ensures OutLen(parts) + length + b.parts[|parts|].len + 5 <= size && parts < b.parts
    ensures length <= at && at + 2 <= |s|
    ensures b.parts[|parts|].lits == s[at - length..at] && b.parts[|parts|].off == ReadOffset(s, at)
  {
    hide OutLen, ReadOffset, Says, LenBytes;
  }

  /** The part just read is the next one of every acceptable block. */
  lemma ForcedGrows(s: seq<Byte>, size: nat, parts: seq<Part>, at: nat, length: nat, token: Byte, len: nat, end: nat,
      p: Part)
    requires MustGoOn(s, size, parts, at, length, token) && MatchLengthRead(s, at, token, len, end)
    requires length <= at && at + 2 <= |s| && p == Part(s[at - length..at], ReadOffset(s, at), len)
    ensures Forced(s, size, parts + [p])
  {
    hide Accepted, GoesOnWith, OutLen, MatchLengthRead, ReadOffset;
    forall b | Accepted(s, size, b) ensures parts + [p] <= b.parts {
      LengthIsForced(s, size, parts, b, at, length, token, len, end);
      GoesOnFits(s, size, parts, b, at, length, token);
      assert b.parts[|parts|] == p;
    }
  }

  // ---------- what has been read is acceptable ----------

  lemma HeadBytes(s: seq<Byte>, ip: nat, token: Byte, length: nat, next: nat)
    requires HeadRead(s, ip, token, length, next) && next + length <= |s|
    ensures ip < next && Head(s[next..next + length], token % 16) == s[ip..next + length]
  {
    hide Ext, Nibble;
    assert s[ip..next] + s[next..next + length] == s[ip..next + length];
    assert 16 * (token / 16) + token % 16 == token;
  }

  lemma OffsetBytes(s: seq<Byte>, at: nat)
    requires at + 2 <= |s|
    ensures ReadOffset(s, at) <= MAX_DISTANCE && Le16(ReadOffset(s, at)) == s[at..at + 2]
  {
  }

  lemma LengthBytes(s: seq<Byte>, at: nat, token: Byte, len: nat, end: nat)
    requires MatchLengthRead(s, at, token, len, end) && at + 2 <= |s|
    ensures len >= 4 && at + 2 <= end <= |s| && Nibble(len - 4) == token % 16 && Ext(len - 4) == s[at + 2..end]
    ensures len - 4 >= 15 ==> end + 4 <= |s|
  {
    hide LenBytes, Says;
  }

  /** Head, offset and length bytes make up the encoding of one part. */
  lemma PartBytesRead(s: seq<Byte>, ip: nat, token: Byte, length: nat, next: nat, len: nat, end: nat, p: Part)
    requires HeadRead(s, ip, token, length, next) && next + length + 2 <= |s|
    requires MatchLengthRead(s, next + length, token, len, end)
    requires p == Part(s[next..next + length], ReadOffset(s, next + length), len)
    ensures Encodable(p) && end <= |s| && EncodePart(p) == s[ip..end] && ip + |Head(p.lits, 0)| == next + length
    ensures next + length + |MatchBytes(p)| == end && (len - MINMATCH >= ML_MASK ==> end + 4 <= |s|)
  {
    hide Head, Le16, Ext, Nibble, HeadRead, MatchLengthRead, ReadOffset, EncodePart;
    var at := next + length;
    OffsetBytes(s, at);
    LengthBytes(s, at, token, len, end);
    HeadBytes(s, ip, token, length, next);
    HeadLength(p.lits, token % 16);
    MatchBytesAre(s, at, end, p);
    hide MatchBytes, Encodable;
    PartSplits(p);
    assert s[ip..at] + s[at..end] == s[ip..end];
  }

  lemma MatchBytesAre(s: seq<Byte>, at: nat, end: nat, p: Part)
    requires Encodable(p) && at + 2 <= end <= |s| && Le16(p.off) == s[at..at + 2]
    requires Ext(p.len - MINMATCH) == s[at + 2..end]
    ensures MatchBytes(p) == s[at..end]
  {
    hide Le16, Ext;
  }

  lemma AcceptedGrows(parts: seq<Part>, p: Part, m: nat, size: nat)
    requires PartsAccepted(parts, m, size) && Encodable(p) && PartAccepted(parts + [p], |parts|, m, size)
    ensures PartsAccepted(parts + [p], m, size)
  {
    hide EncodeParts, Head, MatchBytes, Encodable;
    forall i | 0 <= i < |parts| ensures PartAccepted(parts + [p], i, m, size) {
      assert PartAccepted(parts, i, m, size);
      assert (parts + [p])[..i] == parts[..i];
    }
  }

  lemma OffsetsShrink(parts: seq<Part>, p: Part)
    ensures OffsetsOk(parts + [p]) ==> OffsetsOk(parts) && 1 <= p.off
  {
    if OffsetsOk(parts + [p]) {
      assert (parts + [p])[|parts|] == p;
      forall i | 0 <= i < |parts| ensures 1 <= parts[i].off <= MatchStart(parts, i) {
        assert (parts + [p])[..i] == parts[..i] && (parts + [p])[i] == parts[i];
      }
    }
  }

  lemma ParsedGrows(s: seq<Byte>, size: nat, parts: seq<Part>, ip: nat, out: seq<Byte>, p: Part, at: nat, end: nat,
    out': seq<Byte>)
    requires Parsed(s, size, parts, ip, out) && Encodable(p)
    requires ip <= end <= |s| && EncodePart(p) == s[ip..end] && ip + |Head(p.lits, 0)| == at
    requires at + |MatchBytes(p)| == end
    requires p.off <= |out| + |p.lits| && |out| + |p.lits| + 12 <= size && |out| + |p.lits| + p.len + 5 <= size
    requires at + 8 <= |s| && (p.len - MINMATCH >= ML_MASK ==> end + 4 <= |s|)
    requires |out'| == |out| + |p.lits| + p.len && (1 <= p.off ==> out' == CopyMatch(out + p.lits, p.off, p.len))
    ensures Parsed(s, size, parts + [p], end, out')
  {
    hide EncodeParts, EncodePart, Head, MatchBytes, Encodable, OutLen, Out, CopyMatch, PartsAccepted, OffsetsOk;
    EncodableAll(parts, |s|, size);
    AddPart(parts, p);
    OffsetsShrink(parts, p);
    NewPartAccepted(parts, p, |s|, size, at);
    AcceptedGrows(parts, p, |s|, size);
    assert s[..ip] + s[ip..end] == s[..end];
  }

  lemma EncodableAll(parts: seq<Part>, m: nat, size: nat)
    requires PartsAccepted(parts, m, size)
    ensures forall p <- parts :: Encodable(p)
  {
  }

  lemma NewPartAccepted(parts: seq<Part>, p: Part, m: nat, size: nat, at: nat)
    requires (forall q <- parts :: Encodable(q)) && Encodable(p) && at == |EncodeParts(parts)| + |Head(p.lits, 0)|
    requires var start := OutLen(parts) + |p.lits|;
      p.off <= start && start + 12 <= size && start + p.len + 5 <= size
    requires at + 8 <= m && (p.len - MINMATCH >= ML_MASK ==> at + |MatchBytes(p)| + 4 <= m)
    ensures (forall q <- parts + [p] :: Encodable(q)) && PartAccepted(parts + [p], |parts|, m, size)
  {
    hide EncodeParts, Head, MatchBytes, Encodable, OutLen;
    assert (parts + [p])[..|parts|] == parts;
  }

  /** Literals that end with the input end the block. */
  lemma LastAccepted(s: seq<Byte>, size: nat, parts: seq<Part>, ip: nat, out: seq<Byte>, token: Byte, length: nat,
      next: nat)
    requires Parsed(s, size, parts, ip, out) && HeadRead(s, ip, token, length, next)
    requires next + length == |s| && |out| + length <= size && size > 0
    ensures var b := Block(parts, s[next..], token % 16);
      && Accepted(s, size, b) && |Expand(b)| == |out| + length && (OffsetsOk(parts) ==> Expand(b) == out + s[next..])
  {
    HeadBytes(s, ip, token, length, next);
    hide EncodeParts, Head, OutLen, Out, OffsetsOk, PartAccepted;
    assert s[next..next + length] == s[next..] && s[ip..next + length] == s[ip..];
    assert s[..ip] + s[ip..] == s;
  }

  // ---------- the decoder ----------

  /** The match of a part: its length bytes, then the copy. Either the output is extended by the part, or no acceptable
      block has a match here. */
  method SafeMatch(src: array<Byte>, dest: array<Byte>, at: nat, cpy: nat, length: nat, token: Byte, size: nat,
      off: nat, ghost parts: seq<Part>) returns (ok: bool, len: nat, end: nat)
    requires src != dest && size <= dest.Length && at + 8 <= src.Length && cpy + 12 <= size && off <= cpy
    requires cpy == OutLen(parts) + length && MustGoOn(src[..], size, parts, at, length, token)
    modifies dest
    ensures forall k | 0 <= k < cpy || size <= k < dest.Length :: dest[k] == old(dest[k])
    ensures at + 2 <= end <= src.Length && len >= 4
    ensures ok ==> MatchLengthRead(src[..], at, token, len, end) && cpy + len + 5 <= size
    ensures ok && 1 <= off ==> Repeats(dest[..], cpy, cpy + len, off)
    ensures !ok ==> Hopeless(src[..], size)
  {
    hide MustGoOn, Hopeless, LengthRead, LengthBeyond, Repeats, OutLen;
    ghost var s := src[..];
    end, len := at + 2, token % 16;
    if len == ML_MASK {
      var read: bool;
      read, len, end := ReadMatchLength(src, end, len);
      if !read {
        RejectLength(s, size, parts, at, length, token, end - at - 2);
        len := len + MINMATCH;
        return false, len, end;
      }
    }
    len := len + MINMATCH;
    assert MatchLengthRead(s, at, token, len, end);
    ok := CopyRepeated(dest, cpy, off, len, size);
    if !ok {
      RejectEnd(s, size, parts, at, length, token, len, end);
    }
  }

  /** One part after its head: literals, offset, match. */
  method SafePart(src: array<Byte>, dest: array<Byte>, ip: nat, op: nat, token: Byte, length: nat, next: nat, size: nat,
    ghost parts: seq<Part>) returns (ok: bool, end: nat, cpy: nat, ghost p: Part)
    requires src != dest && size <= dest.Length && next + length + 8 <= src.Length && op + length + 12 <= size
    requires Parsed(src[..], size, parts, ip, dest[..op]) && HeadRead(src[..], ip, token, length, next)
    requires op == OutLen(parts) && MustGoOn(src[..], size, parts, next + length, length, token)
    modifies dest
    ensures forall k | size <= k < dest.Length :: dest[k] == old(dest[k])
    ensures ok ==> cpy + 5 <= size && next < end && end + 4 <= src.Length
    ensures ok ==> Parsed(src[..], size, parts + [p], end, dest[..cpy]) && Forced(src[..], size, parts + [p])
    ensures !ok ==> Hopeless(src[..], size)
  {
    hide Parsed, HeadRead, MustGoOn, Hopeless, Forced, OutLen, ReadOffset, Repeats, CopyMatch;
    ghost var s, out := src[..], dest[..op];
    var at := next + length;
    WildCopy(dest, op, src, next, op + length);
    assert dest[..op + length] == out + s[next..at];
    var off := ReadOffset(src[..], at);
    cpy, end := op + length, at + 2;
    p := Part(s[next..at], off, MINMATCH);
    if off > cpy {
      RejectOffset(s, size, parts, at, length, token);
      return false, end, cpy, p;
    }
    ghost var copied := dest[..cpy];
    var len;
    ok, len, end := SafeMatch(src, dest, at, cpy, length, token, size, off, parts);
    if ok {
      p := Part(s[next..at], off, len);
      assert dest[..cpy] == copied;
      PartRead(s, size, parts, ip, token, length, next, len, end, p, out, dest[..], cpy);
      cpy := cpy + len;
    }
  }

  lemma PartRead(s: seq<Byte>, size: nat, parts: seq<Part>, ip: nat, token: Byte, length: nat, next: nat, len: nat,
      end: nat, p: Part, out: seq<Byte>, d: seq<Byte>, cpy: nat)
    requires Parsed(s, size, parts, ip, out) && HeadRead(s, ip, token, length, next) && next + length + 8 <= |s|
    requires MustGoOn(s, size, parts, next + length, length, token)
    requires MatchLengthRead(s, next + length, token, len, end)
    requires p == Part(s[next..next + length], ReadOffset(s, next + length), len) && p.off <= cpy == |out| + length
    requires cpy + 12 <= size && cpy + len + 5 <= size <= |d| && d[..cpy] == out + p.lits
    requires 1 <= p.off ==> Repeats(d, cpy, cpy + len, p.off)
    ensures end + 4 <= |s| && Parsed(s, size, parts + [p], end, d[..cpy + len]) && Forced(s, size, parts + [p])
  {
    hide Parsed, HeadRead, MustGoOn, Forced, ReadOffset, Repeats, CopyMatch, MatchLengthRead, Head, EncodePart,
      MatchBytes;
    PartBytesRead(s, ip, token, length, next, len, end, p);
    ForcedGrows(s, size, parts, next + length, length, token, len, end, p);
    if 1 <= p.off {
      RepeatsIsCopy(d, cpy, len, p.off);
    }
    ParsedGrows(s, size, parts, ip, out, p, next + length, end, d[..cpy + len]);
    EndLeavesFour(s, next + length, token, len, end);
  }

  lemma EndLeavesFour(s: seq<Byte>, at: nat, token: Byte, len: nat, end: nat)
    requires MatchLengthRead(s, at, token, len, end) && at + 8 <= |s|
    ensures end + 4 <= |s|
  {
    hide LengthRead;
  }

  /** The condition under which the decoder never reads past its input: it does not look at the input at all if the
      output is empty, and otherwise the input holds its first token and the length byte that calls for. */
  predicate FirstReadsInside(s: seq<Byte>, size: nat) {
    size > 0 ==> s != [] && (|s| == 1 ==> s[0] < 240)
  }

  /** Two inputs that it reads past. */
  lemma ReadsOutside()
    ensures !FirstReadsInside([], 1) && !FirstReadsInside([240], 1)
  {
  }

  /** LZ4_decompress_safe, up to the first read that would be past the end of the input: there is one exactly if the
      first token or its length byte is missing. Otherwise it writes nothing outside the output, and it succeeds exactly
      if the input is an acceptable block, which it then restores. The input is the whole array. */
  method DecompressSafe(src: array<Byte>, dest: array<Byte>, size: nat)
    returns (inside: bool, r: int, ghost b: Block)
    requires src != dest && size <= dest.Length
    modifies dest
    ensures inside <==> FirstReadsInside(src[..], size)
    ensures forall k | size <= k < dest.Length :: dest[k] == old(dest[k])
    ensures inside && r >= 0 ==>
      Accepted(src[..], size, b) && r == |Expand(b)| && (OffsetsOk(b.parts) ==> dest[..r] == Expand(b))
    ensures inside && r < 0 ==> forall x :: !Accepted(src[..], size, x)
  {
    inside, b := true, Block([], [], 0);
    if size == 0 {
      ZeroSize(src[..]);
      r := if src.Length == 1 && src[0] == 0 then 0 else -1;
      return;
    }
    ghost var s := src[..];
    NothingParsed(s, size);
    hide Parsed, Forced, HeadRead, NoHead, MustGoOn, OutLen, Accepted, OffsetsOk;
    var ip: nat, op: nat := 0, 0;
    ghost var parts := [];
    while true
      invariant inside && op <= size && ip <= src.Length
      invariant ip > 0 ==> ip + 4 <= src.Length && FirstReadsInside(s, size)
      invariant Parsed(s, size, parts, ip, dest[..op]) && Forced(s, size, parts)
      invariant forall k | size <= k < dest.Length :: dest[k] == old(dest[k])
      decreases src.Length - ip
    {
      ParsedFacts(s, size, parts, ip, dest[..op]);
      var token, length, next;
      ghost var whole;
      inside, token, length, next, whole := ReadSafeHead(src, ip);
      if !inside {
        return false, -1, b;
      }
      if op + length > size - 12 || next + length > src.Length - 8 {
        if next + length != src.Length || op + length > size {
          RejectHead(s, size, parts, ip, token, length, next, whole);
          return true, -(next as int) - 1, b;
        }
        LastAccepted(s, size, parts, ip, dest[..op], token, length, next);
        b := Block(parts, s[next..], token % 16);
        r := SafeLast(src, dest, next, op, length);
        return;
      }
      HeadMustGoOn(s, size, parts, ip, token, length, next, whole);
      var ok, end, cpy;
      ghost var p;
      ok, end, cpy, p := SafePart(src, dest, ip, op, token, length, next, size, parts);
      if !ok {
        return true, -(end as int) - 1, b;
      }
      parts, ip, op := parts + [p], end, cpy;
    }
  }

  method SafeLast(src: array<Byte>, dest: array<Byte>, next: nat, op: nat, length: nat) returns (r: nat)
    requires src != dest && next + length == src.Length && op + length <= dest.Length
    modifies dest
    ensures r == op + length && dest[..r] == old(dest[..op]) + src[..][next..]
    ensures forall k | r <= k < dest.Length :: dest[k] == old(dest[k])
  {
    CopyN(dest, op, src, next, length);
    r := op + length;
    assert dest[..r] == old(dest[..op]) + src[..][next..];
  }

  lemma ParsedFacts(s: seq<Byte>, size: nat, parts: seq<Part>, ip: nat, out: seq<Byte>)
    requires Parsed(s, size, parts, ip, out)
    ensures (forall p <- parts :: Encodable(p)) && ip == |EncodeParts(parts)| && |out| == OutLen(parts)
  {
    hide EncodeParts, OutLen, OffsetsOk, Out, PartAccepted;
  }

  lemma NothingParsed(s: seq<Byte>, size: nat)
    ensures Parsed(s, size, [], 0, []) && Forced(s, size, [])
  {
  }

  lemma ZeroSize(s: seq<Byte>)
    ensures Accepted(s, 0, Block([], [], 0)) <==> s == [0]
    ensures s != [0] ==> forall b :: !Accepted(s, 0, b)
  {
    forall b | Accepted(s, 0, b) ensures s == [0] {
      if b.parts != [] {
        NoRoom(b.parts, |s|);
      }
    }
  }

  lemma NoRoom(parts: seq<Part>, m: nat)
    requires parts != [] && forall p <- parts :: Encodable(p)
    ensures !PartAccepted(parts, 0, m, 0)
  {
  }

  /** Every well-formed block is acceptable, whatever room beyond its size the output has. */
  lemma WellFormedIsAccepted(b: Block, size: nat)
    requires WellFormed(b) && |Expand(b)| <= size
    ensures Accepted(Encode(b), size, b)
  {
    hide EncodeParts, Encode, Tail, Head, OutLen, MatchBytes, Nibble, Expand;
    forall i | 0 <= i < |b.parts| ensures PartAccepted(b.parts, i, |Encode(b)|, size) {
      TailSplits(b, i);
      TailLayout(b, i, Tail(b, i));
      PartFits(b, i);
      assert b.parts[i] in b.parts;
      NibbleFits(b.parts[i].len - MINMATCH);
      HeadLength(b.parts[i].lits, Nibble(b.parts[i].len - MINMATCH));
    }
  }

  /** No encoding, well-formed or not, is one of the inputs that are read past. */
  lemma EncodingsReadInside(b: Block, size: nat)
    requires Writable(b)
    ensures FirstReadsInside(Encode(b), size)
  {
    if b.parts == [] {
      assert Encode(b) == Head(b.last, b.spare);
    } else {
      var p := b.parts[|b.parts| - 1];
      assert |EncodePart(p)| >= 3;
    }
  }
}
