/** The 40-byte tablet control packet (`AoIPDataStateTabletType_t`), a packed
    little-endian bit-field layout, and its decoded snapshot.

    Byte map (bit 0 is the least significant bit of a byte):
      0-3   Reserved                    8     Pad0
      4-7   FunctionalStatus4..1
      9     bit 0 SAT_1, 1 SAT_2, 2 NAV, 3 APP, 4 SPK volume select; bits 5-7 pad
      10    bit 0 VHF_L, 1 VHF_C, 2 VHF_R, 3 FLT, 4 CAB, 5 PA, 6 HF_L, 7 HF_R volume select
      11    bits 0-1 Nav code, 2-3 App code, 4-5 VBR code, 6-7 mic switch position
      12-35 volume words VHF_C, VHF_L, FLT, VHF_R, PA, CAB, HF_R, HF_L, SAT_2, SAT_1, APP, NAV
      36    bit 0 SAT_1, 1 SAT_2 mic on; bits 2-7 pad
      37    bit 0 VHF_L, 1 VHF_C, 2 VHF_R, 3 FLT, 4 CAB, 5 PA, 6 HF_L, 7 HF_R mic on
      38-39 SPK volume word

    The snapshot keeps every field exactly as the packed struct holds it in a
    little-endian host's memory: a volume word is the raw `uint16_t`, whose
    bytes still need swapping before use. */
module TabletTypes {

  const PacketSize: nat := 40

  /** `enum MicPos`; the 2-bit field can also hold 3, which has no name. */
  const OffPos: bv2 := 0
  const MicPos: bv2 := 1
  const FltPos: bv2 := 2

  /** NAV and APP selector codes; APP code 3 has no name. */
  const NavVorL: bv2 := 0
  const NavVorR: bv2 := 1
  const NavAdfL: bv2 := 2
  const NavAdfR: bv2 := 3
  const AppL: bv2 := 0
  const AppR: bv2 := 1
  const AppMkr: bv2 := 2

  type Packet = p: seq<bv8> | |p| == PacketSize witness seq(PacketSize, _ => 0)

  datatype Snapshot = Snapshot(
    reserved: seq<bv8>,
    functionalStatus: seq<bv8>,
    pad0: bv8,
    sat1VolSel: bool, sat2VolSel: bool, navVolSel: bool, appVolSel: bool, spkVolSel: bool,
    pad1: bv3,
    vhfLVolSel: bool, vhfCVolSel: bool, vhfRVolSel: bool, fltVolSel: bool,
    cabVolSel: bool, paVolSel: bool, hfLVolSel: bool, hfRVolSel: bool,
    navSelectCode: bv2, appSelectCode: bv2, vbrSelectCode: bv2, micSwitchPos: bv2,
    vhfCVolume: bv16, vhfLVolume: bv16, fltVolume: bv16, vhfRVolume: bv16,
    paVolume: bv16, cabVolume: bv16, hfRVolume: bv16, hfLVolume: bv16,
    sat2Volume: bv16, sat1Volume: bv16, appVolume: bv16, navVolume: bv16,
    sat1MicOn: bool, sat2MicOn: bool,
    pad2: bv6,
    vhfLMicOn: bool, vhfCMicOn: bool, vhfRMicOn: bool, fltMicOn: bool,
    cabMicOn: bool, paMicOn: bool, hfLMicOn: bool, hfRMicOn: bool,
    spkVolume: bv16)

  /** The array members of the struct have their declared lengths. */
  predicate WellFormed(t: Snapshot) {
    |t.reserved| == 4 && |t.functionalStatus| == 4
  }

  /** Bit `k` of byte `b`, least significant first. */
  function Bit(b: bv8, k: bv8): bool
    requires k < 8
  {
    (b >> k) & 1 == 1
  }

  function BitValue(x: bool, k: bv8): bv8
    requires k < 8
  {
    if x then 1 << k else 0
  }

  /** A `uint16_t` read from bytes `lo, hi` of host (little-endian) memory. */
  function Word(lo: bv8, hi: bv8): bv16 {
    (lo as bv16) | ((hi as bv16) << 8)
  }

  function LowByte(w: bv16): bv8 {
    (w & 0xFF) as bv8
  }

  function HighByte(w: bv16): bv8 {
    (w >> 8) as bv8
  }

  /** `__bswap_16`. */
  function Bswap16(w: bv16): (r: bv16)
    ensures LowByte(r) == HighByte(w) && HighByte(r) == LowByte(w)
  {
    (w >> 8) | (w << 8)
  }

  /** The unsigned value of a 16-bit word. */
  function U16(w: bv16): (r: int)
    ensures 0 <= r < 65536
  {
    (HighByte(w) as int) * 256 + (LowByte(w) as int)
  }

  function WordAt(p: Packet, i: nat): bv16
    requires i + 1 < PacketSize
  {
    Word(p[i], p[i + 1])
  }

  /** Reinterpreting the 40 received bytes as the packed struct. */
  function Decode(p: Packet): (t: Snapshot)
    ensures WellFormed(t)
  {
    Snapshot(
      p[0..4], p[4..8], p[8],
      Bit(p[9], 0), Bit(p[9], 1), Bit(p[9], 2), Bit(p[9], 3), Bit(p[9], 4),
      (p[9] >> 5) as bv3,
      Bit(p[10], 0), Bit(p[10], 1), Bit(p[10], 2), Bit(p[10], 3),
      Bit(p[10], 4), Bit(p[10], 5), Bit(p[10], 6), Bit(p[10], 7),
      Code(p[11], 0), Code(p[11], 1), Code(p[11], 2), Code(p[11], 3),
      WordAt(p, 12), WordAt(p, 14), WordAt(p, 16), WordAt(p, 18),
      WordAt(p, 20), WordAt(p, 22), WordAt(p, 24), WordAt(p, 26),
      WordAt(p, 28), WordAt(p, 30), WordAt(p, 32), WordAt(p, 34),
      Bit(p[36], 0), Bit(p[36], 1),
      (p[36] >> 2) as bv6,
      Bit(p[37], 0), Bit(p[37], 1), Bit(p[37], 2), Bit(p[37], 3),
      Bit(p[37], 4), Bit(p[37], 5), Bit(p[37], 6), Bit(p[37], 7),
      WordAt(p, 38))
  }

  /** Eight flags packed into a byte, the first in bit 0. */
  function Pack8(b0: bool, b1: bool, b2: bool, b3: bool, b4: bool, b5: bool, b6: bool, b7: bool): bv8 {
    BitValue(b0, 0) | BitValue(b1, 1) | BitValue(b2, 2) | BitValue(b3, 3)
    | BitValue(b4, 4) | BitValue(b5, 5) | BitValue(b6, 6) | BitValue(b7, 7)
  }

  /** Five flags in bits 0-4 and three padding bits above them. */
  function Pack5(b0: bool, b1: bool, b2: bool, b3: bool, b4: bool, pad: bv3): bv8 {
    BitValue(b0, 0) | BitValue(b1, 1) | BitValue(b2, 2) | BitValue(b3, 3)
    | BitValue(b4, 4) | ((pad as bv8) << 5)
  }

  /** Two flags in bits 0-1 and six padding bits above them. */
  function Pack2(b0: bool, b1: bool, pad: bv6): bv8 {
    BitValue(b0, 0) | BitValue(b1, 1) | ((pad as bv8) << 2)
  }

  /** Four 2-bit codes, the first in bits 0-1. */
  function PackCodes(c0: bv2, c1: bv2, c2: bv2, c3: bv2): bv8 {
    (c0 as bv8) | ((c1 as bv8) << 2) | ((c2 as bv8) << 4) | ((c3 as bv8) << 6)
  }

  /** The 2-bit code at bits `2k, 2k+1`. */
  function Code(b: bv8, k: bv8): bv2
    requires k < 4
  {
    ((b >> (2 * k)) & 3) as bv2
  }

  lemma Pack8RoundTrip(b0: bool, b1: bool, b2: bool, b3: bool, b4: bool, b5: bool, b6: bool, b7: bool)
    ensures var b := Pack8(b0, b1, b2, b3, b4, b5, b6, b7);
      Bit(b, 0) == b0 && Bit(b, 1) == b1 && Bit(b, 2) == b2 && Bit(b, 3) == b3
      && Bit(b, 4) == b4 && Bit(b, 5) == b5 && Bit(b, 6) == b6 && Bit(b, 7) == b7
  {
  }

  lemma Pack5RoundTrip(b0: bool, b1: bool, b2: bool, b3: bool, b4: bool, pad: bv3)
    ensures var b := Pack5(b0, b1, b2, b3, b4, pad);
      Bit(b, 0) == b0 && Bit(b, 1) == b1 && Bit(b, 2) == b2 && Bit(b, 3) == b3
      && Bit(b, 4) == b4 && (b >> 5) as bv3 == pad
  {
  }

  lemma Pack2RoundTrip(b0: bool, b1: bool, pad: bv6)
    ensures var b := Pack2(b0, b1, pad);
      Bit(b, 0) == b0 && Bit(b, 1) == b1 && (b >> 2) as bv6 == pad
  {
  }

  lemma PackCodesRoundTrip(c0: bv2, c1: bv2, c2: bv2, c3: bv2)
    ensures var b := PackCodes(c0, c1, c2, c3);
      Code(b, 0) == c0 && Code(b, 1) == c1 && Code(b, 2) == c2 && Code(b, 3) == c3
  {
  }

  lemma Pack8Split(b: bv8)
    ensures Pack8(Bit(b, 0), Bit(b, 1), Bit(b, 2), Bit(b, 3), Bit(b, 4), Bit(b, 5), Bit(b, 6), Bit(b, 7)) == b
  {
  }

  lemma Pack5Split(b: bv8)
    ensures Pack5(Bit(b, 0), Bit(b, 1), Bit(b, 2), Bit(b, 3), Bit(b, 4), (b >> 5) as bv3) == b
  {
  }

  lemma Pack2Split(b: bv8)
    ensures Pack2(Bit(b, 0), Bit(b, 1), (b >> 2) as bv6) == b
  {
  }

  lemma PackCodesSplit(b: bv8)
    ensures PackCodes(Code(b, 0), Code(b, 1), Code(b, 2), Code(b, 3)) == b
  {
  }

  function Byte9(t: Snapshot): bv8 {
    Pack5(t.sat1VolSel, t.sat2VolSel, t.navVolSel, t.appVolSel, t.spkVolSel, t.pad1)
  }

  function Byte10(t: Snapshot): bv8 {
    Pack8(t.vhfLVolSel, t.vhfCVolSel, t.vhfRVolSel, t.fltVolSel,
          t.cabVolSel, t.paVolSel, t.hfLVolSel, t.hfRVolSel)
  }

  function Byte11(t: Snapshot): bv8 {
    PackCodes(t.navSelectCode, t.appSelectCode, t.vbrSelectCode, t.micSwitchPos)
  }

  function Byte36(t: Snapshot): bv8 {
    Pack2(t.sat1MicOn, t.sat2MicOn, t.pad2)
  }

  function Byte37(t: Snapshot): bv8 {
    Pack8(t.vhfLMicOn, t.vhfCMicOn, t.vhfRMicOn, t.fltMicOn,
          t.cabMicOn, t.paMicOn, t.hfLMicOn, t.hfRMicOn)
  }

  /** Byte offsets of the thirteen 16-bit words in the packet. */
  predicate WordOffset(i: nat) {
    || i == 12 || i == 14 || i == 16 || i == 18 || i == 20 || i == 22 || i == 24
    || i == 26 || i == 28 || i == 30 || i == 32 || i == 34 || i == 38
  }

  /** The 16-bit word a snapshot holds at byte offset `i`. */
  function WordField(t: Snapshot, i: nat): bv16
    requires WordOffset(i)
  {
    if i == 12 then t.vhfCVolume
    else if i == 14 then t.vhfLVolume
    else if i == 16 then t.fltVolume
    else if i == 18 then t.vhfRVolume
    else if i == 20 then t.paVolume
    else if i == 22 then t.cabVolume
    else if i == 24 then t.hfRVolume
    else if i == 26 then t.hfLVolume
    else if i == 28 then t.sat2Volume
    else if i == 30 then t.sat1Volume
    else if i == 32 then t.appVolume
    else if i == 34 then t.navVolume
    else t.spkVolume
  }

  /** Byte `i` of the struct's memory image. */
  function EncodeByte(t: Snapshot, i: nat): bv8
    requires WellFormed(t) && i < PacketSize
  {
    if i < 4 then t.reserved[i]
    else if i < 8 then t.functionalStatus[i - 4]
    else if i == 8 then t.pad0
    else if i == 9 then Byte9(t)
    else if i == 10 then Byte10(t)
    else if i == 11 then Byte11(t)
    else if i == 36 then Byte36(t)
    else if i == 37 then Byte37(t)
    else if WordOffset(i) then LowByte(WordField(t, i))
    else HighByte(WordField(t, i - 1))
  }

  /** The bytes a tablet sends for a snapshot: the struct's memory image. */
  function Encode(t: Snapshot): (p: Packet)
    requires WellFormed(t)
    ensures forall i :: 0 <= i < PacketSize ==> p[i] == EncodeByte(t, i)
  {
    seq(PacketSize, i requires 0 <= i < PacketSize => EncodeByte(t, i))
  }

  lemma WordRoundTrip(w: bv16)
    ensures Word(LowByte(w), HighByte(w)) == w
  {
  }

  lemma WordBytesRoundTrip(lo: bv8, hi: bv8)
    ensures LowByte(Word(lo, hi)) == lo && HighByte(Word(lo, hi)) == hi
  {
  }

  lemma EncodeWordAt(t: Snapshot, i: nat)
    requires WellFormed(t) && WordOffset(i)
    ensures WordAt(Encode(t), i) == WordField(t, i)
  {
    var p := Encode(t);
    assert p[i] == LowByte(WordField(t, i));
    assert p[i + 1] == HighByte(WordField(t, i));
    WordRoundTrip(WordField(t, i));
  }

  /** The thirteen words of an encoded snapshot, field by field. */
  lemma EncodeWords(t: Snapshot)
    requires WellFormed(t)
    ensures var p := Encode(t);
      && WordAt(p, 12) == t.vhfCVolume && WordAt(p, 14) == t.vhfLVolume
      && WordAt(p, 16) == t.fltVolume && WordAt(p, 18) == t.vhfRVolume
      && WordAt(p, 20) == t.paVolume && WordAt(p, 22) == t.cabVolume
      && WordAt(p, 24) == t.hfRVolume && WordAt(p, 26) == t.hfLVolume
      && WordAt(p, 28) == t.sat2Volume && WordAt(p, 30) == t.sat1Volume
      && WordAt(p, 32) == t.appVolume && WordAt(p, 34) == t.navVolume
      && WordAt(p, 38) == t.spkVolume
  {
    EncodeWordAt(t, 12); EncodeWordAt(t, 14); EncodeWordAt(t, 16); EncodeWordAt(t, 18);
    EncodeWordAt(t, 20); EncodeWordAt(t, 22); EncodeWordAt(t, 24); EncodeWordAt(t, 26);
    EncodeWordAt(t, 28); EncodeWordAt(t, 30); EncodeWordAt(t, 32); EncodeWordAt(t, 34);
    EncodeWordAt(t, 38);
  }

  /** Snapshots that agree on the fields packed into byte 9. */
  predicate SameByte9(a: Snapshot, b: Snapshot) {
    && a.sat1VolSel == b.sat1VolSel && a.sat2VolSel == b.sat2VolSel && a.navVolSel == b.navVolSel
    && a.appVolSel == b.appVolSel && a.spkVolSel == b.spkVolSel && a.pad1 == b.pad1
  }

  predicate SameByte10(a: Snapshot, b: Snapshot) {
    && a.vhfLVolSel == b.vhfLVolSel && a.vhfCVolSel == b.vhfCVolSel && a.vhfRVolSel == b.vhfRVolSel
    && a.fltVolSel == b.fltVolSel && a.cabVolSel == b.cabVolSel && a.paVolSel == b.paVolSel
    && a.hfLVolSel == b.hfLVolSel && a.hfRVolSel == b.hfRVolSel
  }

  predicate SameByte11(a: Snapshot, b: Snapshot) {
    && a.navSelectCode == b.navSelectCode && a.appSelectCode == b.appSelectCode
    && a.vbrSelectCode == b.vbrSelectCode && a.micSwitchPos == b.micSwitchPos
  }

  predicate SameByte36(a: Snapshot, b: Snapshot) {
    a.sat1MicOn == b.sat1MicOn && a.sat2MicOn == b.sat2MicOn && a.pad2 == b.pad2
  }

  predicate SameByte37(a: Snapshot, b: Snapshot) {
    && a.vhfLMicOn == b.vhfLMicOn && a.vhfCMicOn == b.vhfCMicOn && a.vhfRMicOn == b.vhfRMicOn
    && a.fltMicOn == b.fltMicOn && a.cabMicOn == b.cabMicOn && a.paMicOn == b.paMicOn
    && a.hfLMicOn == b.hfLMicOn && a.hfRMicOn == b.hfRMicOn
  }

  lemma DecodeByte9(p: Packet, t: Snapshot)
    requires p[9] == Byte9(t)
    ensures SameByte9(Decode(p), t)
  {
    Pack5RoundTrip(t.sat1VolSel, t.sat2VolSel, t.navVolSel, t.appVolSel, t.spkVolSel, t.pad1);
  }

  lemma DecodeByte10(p: Packet, t: Snapshot)
    requires p[10] == Byte10(t)
    ensures SameByte10(Decode(p), t)
  {
    Pack8RoundTrip(t.vhfLVolSel, t.vhfCVolSel, t.vhfRVolSel, t.fltVolSel,
                   t.cabVolSel, t.paVolSel, t.hfLVolSel, t.hfRVolSel);
  }

  lemma DecodeByte11(p: Packet, t: Snapshot)
    requires p[11] == Byte11(t)
    ensures SameByte11(Decode(p), t)
  {
    PackCodesRoundTrip(t.navSelectCode, t.appSelectCode, t.vbrSelectCode, t.micSwitchPos);
  }

  lemma DecodeByte36(p: Packet, t: Snapshot)
    requires p[36] == Byte36(t)
    ensures SameByte36(Decode(p), t)
  {
    Pack2RoundTrip(t.sat1MicOn, t.sat2MicOn, t.pad2);
  }

  lemma DecodeByte37(p: Packet, t: Snapshot)
    requires p[37] == Byte37(t)
    ensures SameByte37(Decode(p), t)
  {
    Pack8RoundTrip(t.vhfLMicOn, t.vhfCMicOn, t.vhfRMicOn, t.fltMicOn,
                   t.cabMicOn, t.paMicOn, t.hfLMicOn, t.hfRMicOn);
  }

  /** Every snapshot survives encoding and decoding unchanged. */
  lemma DecodeEncode(t: Snapshot)
    requires WellFormed(t)
    ensures Decode(Encode(t)) == t
  {
    var p := Encode(t);
    assert p[0..4] == t.reserved;
    assert p[4..8] == t.functionalStatus;
    assert p[8] == t.pad0;
    DecodeByte9(p, t);
    DecodeByte10(p, t);
    DecodeByte11(p, t);
    DecodeByte36(p, t);
    DecodeByte37(p, t);
    EncodeWords(t);
  }

  /** The thirteen words of a decoded packet, field by field. */
  lemma DecodeWords(p: Packet)
    ensures var t := Decode(p);
      && t.vhfCVolume == WordAt(p, 12) && t.vhfLVolume == WordAt(p, 14)
      && t.fltVolume == WordAt(p, 16) && t.vhfRVolume == WordAt(p, 18)
      && t.paVolume == WordAt(p, 20) && t.cabVolume == WordAt(p, 22)
      && t.hfRVolume == WordAt(p, 24) && t.hfLVolume == WordAt(p, 26)
      && t.sat2Volume == WordAt(p, 28) && t.sat1Volume == WordAt(p, 30)
      && t.appVolume == WordAt(p, 32) && t.navVolume == WordAt(p, 34)
      && t.spkVolume == WordAt(p, 38)
  {
  }

  lemma DecodeWord(p: Packet, i: nat)
    requires WordOffset(i)
    ensures WordField(Decode(p), i) == Word(p[i], p[i + 1])
  {
    DecodeWords(p);
    assert Word(p[i], p[i + 1]) == WordAt(p, i);
  }

  lemma EncodeDecodeByte9(p: Packet)
    ensures EncodeByte(Decode(p), 9) == p[9]
  {
    Pack5Split(p[9]);
  }

  lemma EncodeDecodeByte10(p: Packet)
    ensures EncodeByte(Decode(p), 10) == p[10]
  {
    Pack8Split(p[10]);
  }

  lemma EncodeDecodeByte11(p: Packet)
    ensures EncodeByte(Decode(p), 11) == p[11]
  {
    PackCodesSplit(p[11]);
  }

  lemma EncodeDecodeByte36(p: Packet)
    ensures EncodeByte(Decode(p), 36) == p[36]
  {
    Pack2Split(p[36]);
  }

  lemma EncodeDecodeByte37(p: Packet)
    ensures EncodeByte(Decode(p), 37) == p[37]
  {
    Pack8Split(p[37]);
  }

  lemma EncodeDecodeWord(p: Packet, i: nat)
    requires 12 <= i < PacketSize && i != 36 && i != 37
    ensures EncodeByte(Decode(p), i) == p[i]
  {
    var o := if WordOffset(i) then i else i - 1;
    DecodeWord(p, o);
    WordBytesRoundTrip(p[o], p[o + 1]);
  }

  lemma EncodeDecodeAt(p: Packet, i: nat)
    requires i < PacketSize
    ensures EncodeByte(Decode(p), i) == p[i]
  {
    if i < 9 {
      assert Decode(p).reserved == p[0..4] && Decode(p).functionalStatus == p[4..8];
    } else if i == 9 {
      EncodeDecodeByte9(p);
    } else if i == 10 {
      EncodeDecodeByte10(p);
    } else if i == 11 {
      EncodeDecodeByte11(p);
    } else if i == 36 {
      EncodeDecodeByte36(p);
    } else if i == 37 {
      EncodeDecodeByte37(p);
    } else {
      EncodeDecodeWord(p, i);
    }
  }

  /** Decoding loses nothing: the snapshot determines all 40 bytes. */
  lemma EncodeDecode(p: Packet)
    ensures Encode(Decode(p)) == p
  {
    forall i | 0 <= i < PacketSize
      ensures Encode(Decode(p))[i] == p[i]
    {
      EncodeDecodeAt(p, i);
    }
  }
}
