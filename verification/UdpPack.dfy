/**
 The datagram framing: an XORed prefix with three lengths, then salt, digest and pickled packet. Pickling
 and the keyed hash are functions of which only the laws in `Lawful` are used.
 */
module UdpPacks {
  import opened Wrappers
  import opened Packets

  /** What a packer is constructed with: `mac` is the keyed hash under the shared secret. */
  datatype Codec = Codec(dumps: Packet -> Bytes,
                         loads: Bytes -> Option<Packet>,
                         mac: Bytes -> Bytes,
                         version: Bytes,
                         digestSize: nat,
                         prefixXor: Bytes)

  ghost predicate Lawful(k: Codec) {
    && (forall p :: k.loads(k.dumps(p)) == Some(p))
    && k.loads([]) == None
    && (forall d :: |k.mac(d)| == k.digestSize)
    && 0 < k.digestSize && |k.prefixXor| == PREFIX_SIZE
  }

  /** A packet, a silent refusal, or an exception. */
  datatype Outcome = Unpacked(packet: Packet) | Malformed | Raised

  const PREFIX_SIZE := 6
  const BYTE_LIMIT := 0x100
  const WORD_LIMIT := 0x1_0000_0000

  function EncodeWord(n: nat): Bytes
    requires n < WORD_LIMIT
  {
    [n / 0x100_0000, n / 0x1_0000 % BYTE_LIMIT, n / 0x100 % BYTE_LIMIT, n % BYTE_LIMIT]
  }

  function DecodeWord(b: Bytes): (n: nat)
    requires |b| == 4
    ensures n < WORD_LIMIT
  {
    ((b[0] * BYTE_LIMIT + b[1]) * BYTE_LIMIT + b[2]) * BYTE_LIMIT + b[3]
  }

  /** Big-endian encoding and decoding are inverse. */
  lemma DecodeEncodeWord(n: nat)
    requires n < WORD_LIMIT
    ensures DecodeWord(EncodeWord(n)) == n
  {
    assert n / 0x100 == n / 0x100 / 0x100 * 0x100 + n / 0x100 % 0x100;
    HighBytes(n);
  }

  lemma Quotient(q: nat, r: nat)
    requires r < 0x100
    ensures (q * 0x100 + r) / 0x100 == q && (q * 0x100 + r) % 0x100 == r
  {
  }

  lemma Digits(b0: nat, b1: nat, b2: nat, b3: nat)
    requires b0 < 0x100 && b1 < 0x100 && b2 < 0x100 && b3 < 0x100
    ensures var n := ((b0 * 0x100 + b1) * 0x100 + b2) * 0x100 + b3;
            && n / 0x100_0000 == b0 && n / 0x1_0000 % 0x100 == b1 && n / 0x100 % 0x100 == b2 && n % 0x100 == b3
  {
    var n1 := b0 * 0x100 + b1;
    var n2 := n1 * 0x100 + b2;
    Quotient(n2, b3);
    Quotient(n1, b2);
    Quotient(b0, b1);
    HighBytes(n2 * 0x100 + b3);
  }

  lemma EncodeDecodeWord(b: Bytes)
    requires |b| == 4
    ensures EncodeWord(DecodeWord(b)) == b
  {
    Digits(b[0], b[1], b[2], b[3]);
  }

  lemma HighBytes(n: nat)
    ensures n / 0x1_0000 == n / 0x100 / 0x100 && n / 0x100_0000 == n / 0x100 / 0x100 / 0x100
  {
  }

  /** The exclusive or of the lowest `bits` bits of two numbers. */
  function XorBits(a: nat, b: nat, bits: nat): nat {
    if bits == 0 then 0
    else 2 * XorBits(a / 2, b / 2, bits - 1) + if a % 2 == b % 2 then 0 else 1
  }

  function Power2(bits: nat): nat {
    if bits == 0 then 1 else 2 * Power2(bits - 1)
  }

  lemma {:induction false} XorBitsRange(a: nat, b: nat, bits: nat)
    ensures XorBits(a, b, bits) < Power2(bits)
  {
    if bits == 0 {
    } else {
      XorBitsRange(a / 2, b / 2, bits - 1);
    }
  }

  /** The lowest bit of the result, and what is left without it. */
  lemma XorBitsParts(a: nat, b: nat, bits: nat)
    requires bits > 0
    ensures XorBits(a, b, bits) / 2 == XorBits(a / 2, b / 2, bits - 1)
    ensures XorBits(a, b, bits) % 2 == if a % 2 == b % 2 then 0 else 1
  {
  }

  lemma {:induction false} XorBitsTwice(a: nat, b: nat, bits: nat)
    requires a < Power2(bits)
    ensures XorBits(XorBits(a, b, bits), b, bits) == a
  {
    hide XorBits;
    if bits == 0 {
      XorBitsNone(XorBits(a, b, bits), b);
    } else {
      var r := XorBits(a, b, bits);
      XorBitsParts(a, b, bits);
      XorBitsParts(r, b, bits);
      XorBitsTwice(a / 2, b / 2, bits - 1);
    }
  }

  lemma XorBitsNone(a: nat, b: nat)
    ensures XorBits(a, b, 0) == 0
  {
  }

  lemma ByteRange()
    ensures Power2(8) == BYTE_LIMIT
  {
    assert Power2(4) == 0x10;
  }

  function XorByte(a: Byte, b: Byte): Byte {
    XorBitsRange(a, b, 8);
    ByteRange();
    XorBits(a, b, 8)
  }

  /** The binary digit of a number at position `i`, counting from the lowest. */
  function Bit(n: nat, i: nat): nat {
    if i == 0 then n % 2 else Bit(n / 2, i - 1)
  }

  lemma {:induction false} XorBitsMeaning(a: nat, b: nat, bits: nat, i: nat)
    requires i < bits
    ensures Bit(XorBits(a, b, bits), i) == if Bit(a, i) != Bit(b, i) then 1 else 0
  {
    hide XorBits;
    XorBitsParts(a, b, bits);
    if i == 0 {
    } else {
      XorBitsMeaning(a / 2, b / 2, bits - 1, i - 1);
    }
  }

  /** `r` is the exclusive or of two bytes: each of its bits is set if and only if theirs differ. */
  ghost predicate IsXor(r: Byte, a: Byte, b: Byte) {
    forall i: nat :: i < 8 ==> (Bit(r, i) == 1 <==> Bit(a, i) != Bit(b, i))
  }

  lemma XorByteMeaning(a: Byte, b: Byte)
    ensures IsXor(XorByte(a, b), a, b)
  {
    forall i: nat | i < 8 ensures Bit(XorByte(a, b), i) == 1 <==> Bit(a, i) != Bit(b, i) {
      XorBitsMeaning(a, b, 8, i);
    }
  }

  /** The bits of a byte say which byte it is. */
  lemma XorIsUnique(r: Byte, r': Byte, a: Byte, b: Byte)
    requires IsXor(r, a, b) && IsXor(r', a, b)
    ensures r == r'
  {
    forall i: nat | i < 8 ensures Bit(r, i) == Bit(r', i) {
      BitRange(r, i);
      BitRange(r', i);
    }
    ByteRange();
    SameBits(r, r', 8);
  }

  lemma {:induction false} BitRange(n: nat, i: nat)
    ensures Bit(n, i) < 2
  {
    if i == 0 {
    } else {
      BitRange(n / 2, i - 1);
    }
  }

  lemma {:induction false} SameBits(m: nat, n: nat, bits: nat)
    requires m < Power2(bits) && n < Power2(bits)
    requires forall i: nat :: i < bits ==> Bit(m, i) == Bit(n, i)
    ensures m == n
  {
    if bits == 0 {
    } else {
      assert Bit(m, 0) == Bit(n, 0);
      forall i: nat | i < bits - 1 ensures Bit(m / 2, i) == Bit(n / 2, i) {
        assert Bit(m, i + 1) == Bit(n, i + 1);
      }
      SameBits(m / 2, n / 2, bits - 1);
    }
  }

  function Xor(a: Bytes, b: Bytes): Bytes
    requires |a| == |b|
  {
    seq(|a|, i requires 0 <= i < |a| => XorByte(a[i], b[i]))
  }

  /** Exclusive or is its own inverse. */
  lemma XorTwice(a: Bytes, b: Bytes)
    requires |a| == |b|
    ensures Xor(Xor(a, b), b) == a
  {
    forall i | 0 <= i < |a| ensures Xor(Xor(a, b), b)[i] == a[i] {
      ByteRange();
      XorBitsTwice(a[i], b[i], 8);
    }
  }

  /** The part of a view between two offsets, as much of it as there is. */
  function Slice(data: Bytes, lo: nat, hi: nat): Bytes
    requires lo <= hi
  {
    var end := if hi < |data| then hi else |data|;
    if lo < end then data[lo..end] else []
  }

  /** A frame, when its parts are of lengths that the prefix can express. */
  function Frame(k: Codec, salt: Bytes, digest: Bytes, pickled: Bytes): Option<Bytes>
    requires |k.prefixXor| == PREFIX_SIZE
  {
    if |salt| < BYTE_LIMIT && |digest| < BYTE_LIMIT && |pickled| < WORD_LIMIT
    then Some(Xor(Prefix(|salt|, |digest|, |pickled|), k.prefixXor) + salt + digest + pickled)
    else None
  }

  function Prefix(salt: nat, digest: nat, pickled: nat): (r: Bytes)
    requires salt < BYTE_LIMIT && digest < BYTE_LIMIT && pickled < WORD_LIMIT
    ensures |r| == PREFIX_SIZE
  {
    [salt, digest] + EncodeWord(pickled)
  }

  function Sign(k: Codec, salt: Bytes, pickled: Bytes): Bytes {
    k.mac(k.version + salt + pickled)
  }

  /** The bytes for a packet under a random salt; `None` is the struct.error of a length that does not fit. */
  function Packed(k: Codec, p: Packet, salt: Bytes): Option<Bytes>
    requires |k.prefixXor| == PREFIX_SIZE
  {
    var pickled := k.dumps(p);
    Frame(k, salt, Sign(k, salt, pickled), pickled)
  }

  /** Byte by byte what is packed: masked by the configured bytes, the length of the salt, that of the digest, and the
      length of the payload from its highest byte to its lowest; then the salt, the keyed hash of version, salt and
      payload, and the payload. */
  lemma PackedLayout(k: Codec, p: Packet, salt: Bytes)
    requires Lawful(k) && Packed(k, p, salt).Some?
    ensures var data, pickled, mask := Packed(k, p, salt).value, k.dumps(p), k.prefixXor;
            && |data| == 6 + |salt| + k.digestSize + |pickled|
            && IsXor(data[0], |salt|, mask[0]) && IsXor(data[1], k.digestSize, mask[1])
            && IsXor(data[2], |pickled| / 0x100_0000, mask[2]) && IsXor(data[3], |pickled| / 0x1_0000 % 0x100, mask[3])
            && IsXor(data[4], |pickled| / 0x100 % 0x100, mask[4]) && IsXor(data[5], |pickled| % 0x100, mask[5])
            && data[6..6 + |salt|] == salt
            && data[6 + |salt|..6 + |salt| + k.digestSize] == k.mac(k.version + salt + pickled)
            && data[6 + |salt| + k.digestSize..] == pickled
  {
    hide XorByte, IsXor;
    var pickled := k.dumps(p);
    var lengths := Prefix(|salt|, k.digestSize, |pickled|);
    forall i | 0 <= i < 6 ensures IsXor(Xor(lengths, k.prefixXor)[i], lengths[i], k.prefixXor[i]) {
      XorByteMeaning(lengths[i], k.prefixXor[i]);
    }
  }

  /** Copies `part` into the buffer from `start` on. */
  method Fill(buffer: array<Byte>, start: nat, part: Bytes)
    requires start + |part| <= buffer.Length
    modifies buffer
    ensures buffer[..start + |part|] == old(buffer[..start]) + part
  {
    forall i | 0 <= i < |part| {
      buffer[start + i] := part[i];
    }
  }

  /** Packs into a buffer, part by part. */
  method Pack(k: Codec, p: Packet, salt: Bytes) returns (packed: Option<array<Byte>>)
    requires |k.prefixXor| == PREFIX_SIZE
    ensures packed.None? <==> Packed(k, p, salt) == None
    ensures packed.Some? ==> fresh(packed.value) && Packed(k, p, salt) == Some(packed.value[..])
  {
    hide Xor, Prefix, Sign;
    var pickled := k.dumps(p);
    var digest := Sign(k, salt, pickled);
    var saltStart := PREFIX_SIZE;
    var digestStart := saltStart + |salt|;
    var dataStart := digestStart + |digest|;
    if |salt| >= BYTE_LIMIT || |digest| >= BYTE_LIMIT || |pickled| >= WORD_LIMIT {
      return None;
    }
    XorLength(Prefix(|salt|, |digest|, |pickled|), k.prefixXor);
    var prefix := Xor(Prefix(|salt|, |digest|, |pickled|), k.prefixXor);
    var buffer := new Byte[dataStart + |pickled|];
    Fill(buffer, 0, prefix);
    Fill(buffer, saltStart, salt);
    Fill(buffer, digestStart, digest);
    Fill(buffer, dataStart, pickled);
    assert buffer[..dataStart + |pickled|] == buffer[..];
    assert [] + prefix == prefix;
    packed := Some(buffer);
  }

  lemma XorLength(a: Bytes, b: Bytes)
    requires |a| == |b|
    ensures |Xor(a, b)| == |a|
  {
  }

  function Unpack(k: Codec, data: Bytes): Outcome
    requires |k.prefixXor| == PREFIX_SIZE
  {
    if |data| < PREFIX_SIZE then Raised
    else
      var prefix := Xor(data[..PREFIX_SIZE], k.prefixXor);
      var digestStart := PREFIX_SIZE + prefix[0];
      var dataStart := digestStart + prefix[1];
      var dataLength := DecodeWord(prefix[2..]);
      var salt := Slice(data, PREFIX_SIZE, digestStart);
      var digest := Slice(data, digestStart, dataStart);
      var pickled := Slice(data, dataStart, dataStart + dataLength);
      if |digest| != k.digestSize || |pickled| != dataLength then Malformed
      else if digest != Sign(k, salt, pickled) then Malformed
      else match k.loads(pickled)
        case None => Raised
        case Some(p) => Unpacked(p)
  }

  /** Reading the prefix of a frame gives back the three lengths. */
  lemma FramePrefix(k: Codec, salt: Bytes, digest: Bytes, pickled: Bytes, rest: Bytes)
    requires |k.prefixXor| == PREFIX_SIZE
    requires |salt| < BYTE_LIMIT && |digest| < BYTE_LIMIT && |pickled| < WORD_LIMIT
    ensures var data := Xor(Prefix(|salt|, |digest|, |pickled|), k.prefixXor) + rest;
            var prefix := Xor(data[..PREFIX_SIZE], k.prefixXor);
            && prefix[0] == |salt| && prefix[1] == |digest| && DecodeWord(prefix[2..]) == |pickled|
  {
    var lengths := Prefix(|salt|, |digest|, |pickled|);
    var data := Xor(lengths, k.prefixXor) + rest;
    assert data[..PREFIX_SIZE] == Xor(lengths, k.prefixXor);
    XorTwice(lengths, k.prefixXor);
    assert lengths[2..] == EncodeWord(|pickled|);
    DecodeEncodeWord(|pickled|);
  }

  /** A frame is read back part by part, whatever follows it. */
  lemma UnpackFrame(k: Codec, salt: Bytes, digest: Bytes, pickled: Bytes, tail: Bytes)
    requires |k.prefixXor| == PREFIX_SIZE && Frame(k, salt, digest, pickled).Some?
    ensures Unpack(k, Frame(k, salt, digest, pickled).value + tail) ==
            if |digest| != k.digestSize || digest != Sign(k, salt, pickled) then Malformed
            else match k.loads(pickled)
              case None => Raised
              case Some(p) => Unpacked(p)
  {
    hide Xor, Slice, Sign, DecodeWord, Prefix;
    XorLength(Prefix(|salt|, |digest|, |pickled|), k.prefixXor);
    var prefix := Xor(Prefix(|salt|, |digest|, |pickled|), k.prefixXor);
    var data := Frame(k, salt, digest, pickled).value + tail;
    Regrouped(prefix, salt, digest, pickled, tail);
    FramePrefix(k, salt, digest, pickled, salt + digest + pickled + tail);
    SliceMiddle(prefix, salt, digest + pickled + tail, data);
    SliceMiddle(prefix + salt, digest, pickled + tail, data);
    SliceMiddle(prefix + salt + digest, pickled, tail, data);
  }

  lemma Regrouped(a: Bytes, b: Bytes, c: Bytes, d: Bytes, e: Bytes)
    ensures a + b + c + d + e == a + (b + c + d + e) == a + b + (c + d + e) == a + b + c + (d + e)
  {
  }

  lemma SliceMiddle(before: Bytes, part: Bytes, after: Bytes, data: Bytes)
    requires data == before + part + after
    ensures Slice(data, |before|, |before| + |part|) == part
  {
  }

  /** Packing succeeds exactly when the lengths fit, and what was packed is unpacked again, whatever follows it. */
  lemma RoundTrip(k: Codec, p: Packet, salt: Bytes, tail: Bytes)
    requires Lawful(k)
    ensures Packed(k, p, salt).Some? <==>
            |salt| < BYTE_LIMIT && k.digestSize < BYTE_LIMIT && |k.dumps(p)| < WORD_LIMIT
    ensures Packed(k, p, salt).Some? ==> Unpack(k, Packed(k, p, salt).value + tail) == Unpacked(p)
  {
    var pickled := k.dumps(p);
    if Packed(k, p, salt).Some? {
      UnpackFrame(k, salt, Sign(k, salt, pickled), pickled, tail);
    }
  }

  /** Every part of a packed packet that is cut short, but long enough to hold the prefix, is refused silently. */
  lemma TruncatedIsMalformed(k: Codec, p: Packet, salt: Bytes, cut: nat)
    requires Lawful(k) && Packed(k, p, salt).Some? && PREFIX_SIZE <= cut < |Packed(k, p, salt).value|
    ensures Unpack(k, Packed(k, p, salt).value[..cut]) == Malformed
  {
    hide Xor, Sign, DecodeWord, Prefix;
    var pickled := k.dumps(p);
    var digest := Sign(k, salt, pickled);
    XorLength(Prefix(|salt|, |digest|, |pickled|), k.prefixXor);
    var prefix := Xor(Prefix(|salt|, |digest|, |pickled|), k.prefixXor);
    var whole := Packed(k, p, salt).value;
    var data := whole[..cut];
    Regrouped(prefix, salt, digest, pickled, []);
    assert whole == prefix + (salt + digest + pickled);
    assert data == prefix + (salt + digest + pickled)[..cut - PREFIX_SIZE];
    FramePrefix(k, salt, digest, pickled, (salt + digest + pickled)[..cut - PREFIX_SIZE]);
  }

  /** The data is a correctly signed frame of these parts, and a tail. */
  ghost predicate IsFrame(k: Codec, data: Bytes, salt: Bytes, digest: Bytes, pickled: Bytes, tail: Bytes)
    requires |k.prefixXor| == PREFIX_SIZE
  {
    && Frame(k, salt, digest, pickled).Some? && data == Frame(k, salt, digest, pickled).value + tail
    && |digest| == k.digestSize && digest == Sign(k, salt, pickled)
  }

  lemma UnpackShort(k: Codec, data: Bytes)
    requires |k.prefixXor| == PREFIX_SIZE && |data| < PREFIX_SIZE
    ensures Unpack(k, data) == Raised
  {
  }

  /** Unpacking yields a packet exactly from a correctly signed frame of its pickled form, and something after it. */
  lemma UnpackIff(k: Codec, data: Bytes, p: Packet)
    requires Lawful(k)
    ensures Unpack(k, data) == Unpacked(p) <==>
            exists salt, digest, pickled, tail ::
              IsFrame(k, data, salt, digest, pickled, tail) && k.loads(pickled) == Some(p)
  {
    hide Unpack, IsFrame, IsCut;
    if Unpack(k, data) == Unpacked(p) {
      if |data| < PREFIX_SIZE {
        UnpackShort(k, data);
      }
      var salt, digest, pickled, tail, claimed := Parts(k, data);
    }
    if salt, digest, pickled, tail :| IsFrame(k, data, salt, digest, pickled, tail) && k.loads(pickled) == Some(p) {
      FrameUnpacks(k, data, salt, digest, pickled, tail);
    }
  }

  /** The parts of the frame whose payload was unpickled. The digest could be cut short by the end of the data and
      still be taken for whole, but only before an empty payload. */
  lemma Parts(k: Codec, data: Bytes) returns (salt: Bytes, digest: Bytes, pickled: Bytes, tail: Bytes, claimed: nat)
    requires Lawful(k) && |data| >= PREFIX_SIZE && Unpack(k, data) != Malformed
    ensures IsFrame(k, data, salt, digest, pickled, tail) || (pickled == [] && IsCut(k, data, salt, digest, claimed))
    ensures Unpack(k, data) == match k.loads(pickled) case None => Raised case Some(p) => Unpacked(p)
  {
    hide Xor, Sign, DecodeWord, Prefix;
    XorLength(data[..PREFIX_SIZE], k.prefixXor);
    var prefix := Xor(data[..PREFIX_SIZE], k.prefixXor);
    claimed := prefix[1];
    var digestStart := PREFIX_SIZE + prefix[0];
    var dataStart := digestStart + claimed;
    var dataEnd := dataStart + DecodeWord(prefix[2..]);
    PrefixAgain(prefix);
    XorTwice(data[..PREFIX_SIZE], k.prefixXor);
    salt := data[PREFIX_SIZE..digestStart];
    if dataEnd <= |data| {
      digest, pickled, tail := data[digestStart..dataStart], data[dataStart..dataEnd], data[dataEnd..];
      FiveParts(data, PREFIX_SIZE, digestStart, dataStart, dataEnd);
    } else {
      digest, pickled, tail := data[digestStart..], [], [];
      FiveParts(data, PREFIX_SIZE, digestStart, |data|, |data|);
    }
  }

  /** The data ends before the digest does that its prefix announces, and no payload is announced; what there is of
      the digest is the signature of the salt alone. */
  ghost predicate IsCut(k: Codec, data: Bytes, salt: Bytes, digest: Bytes, claimed: nat)
    requires |k.prefixXor| == PREFIX_SIZE
  {
    && |salt| < BYTE_LIMIT && |digest| < claimed < BYTE_LIMIT
    && data == Xor(Prefix(|salt|, claimed, 0), k.prefixXor) + salt + digest
    && |digest| == k.digestSize && digest == Sign(k, salt, [])
  }

  lemma CutRaises(k: Codec, data: Bytes, salt: Bytes, digest: Bytes, claimed: nat)
    requires Lawful(k) && IsCut(k, data, salt, digest, claimed)
    ensures Unpack(k, data) == Raised
  {
    hide Xor, Sign, DecodeWord, Prefix, EncodeWord;
    var lengths := Prefix(|salt|, claimed, 0);
    XorLength(lengths, k.prefixXor);
    XorTwice(lengths, k.prefixXor);
    assert data[..PREFIX_SIZE] == Xor(lengths, k.prefixXor);
    PrefixParts(|salt|, claimed, 0);
    assert data == Xor(lengths, k.prefixXor) + salt + digest + [];
    SliceMiddle(Xor(lengths, k.prefixXor), salt, digest, data);
    assert Slice(data, PREFIX_SIZE + |salt|, PREFIX_SIZE + |salt| + claimed) == digest;
  }

  lemma PrefixParts(salt: nat, digest: nat, pickled: nat)
    requires salt < BYTE_LIMIT && digest < BYTE_LIMIT && pickled < WORD_LIMIT
    ensures var prefix := Prefix(salt, digest, pickled);
            prefix[0] == salt && prefix[1] == digest && DecodeWord(prefix[2..]) == pickled
  {
    hide EncodeWord, DecodeWord;
    assert Prefix(salt, digest, pickled)[2..] == EncodeWord(pickled);
    DecodeEncodeWord(pickled);
  }

  /** Unpacking raises an exception exactly for data too short to hold the prefix, for a correctly signed frame that
      does not unpickle to a packet, and for a digest cut short that happens to be right. All else is refused. */
  lemma UnpackRaisesIff(k: Codec, data: Bytes)
    requires Lawful(k)
    ensures Unpack(k, data) == Raised <==>
            || |data| < PREFIX_SIZE
            || (exists salt, digest, pickled, tail ::
                  IsFrame(k, data, salt, digest, pickled, tail) && k.loads(pickled) == None)
            || (exists salt, digest, claimed :: IsCut(k, data, salt, digest, claimed))
  {
    if |data| < PREFIX_SIZE {
      return;
    }
    hide Unpack, IsFrame, IsCut;
    if Unpack(k, data) == Raised {
      var salt, digest, pickled, tail, claimed := Parts(k, data);
    }
    if salt, digest, pickled, tail :| IsFrame(k, data, salt, digest, pickled, tail) && k.loads(pickled) == None {
      FrameUnpacks(k, data, salt, digest, pickled, tail);
    }
    if salt, digest, claimed :| IsCut(k, data, salt, digest, claimed) {
      CutRaises(k, data, salt, digest, claimed);
    }
  }

  lemma FrameUnpacks(k: Codec, data: Bytes, salt: Bytes, digest: Bytes, pickled: Bytes, tail: Bytes)
    requires Lawful(k) && IsFrame(k, data, salt, digest, pickled, tail)
    ensures Unpack(k, data) == match k.loads(pickled) case None => Raised case Some(p) => Unpacked(p)
  {
    hide Unpack, Sign;
    UnpackFrame(k, salt, digest, pickled, tail);
  }

  /** A prefix is the one for the lengths that it holds. */
  lemma PrefixAgain(prefix: Bytes)
    requires |prefix| == PREFIX_SIZE
    ensures Prefix(prefix[0], prefix[1], DecodeWord(prefix[2..])) == prefix
  {
    hide EncodeWord, DecodeWord;
    EncodeDecodeWord(prefix[2..]);
    assert prefix == [prefix[0], prefix[1]] + prefix[2..];
  }

  lemma FiveParts(data: Bytes, i: nat, j: nat, l: nat, m: nat)
    requires i <= j <= l <= m <= |data|
    ensures data == data[..i] + data[i..j] + data[j..l] + data[l..m] + data[m..]
  {
  }
}
