/** The station-side reading of a tablet snapshot: the per-source enable and
    volume arrays, the radio / local-mic / neighbour predicates, and the rule
    that a received datagram replaces the snapshot. */
module Tablet {
  import opened Numeric
  import opened IpServer
  import opened TabletTypes

  /** `r_enables`, `r_volumes` and `f_volumes` of a station. */
  datatype Values = Values(rEnables: seq<bool>, rVolumes: seq<int>, fVolumes: seq<int>)

  predicate ValuesShape(v: Values) {
    |v.rEnables| == RSources && |v.rVolumes| == RSources && |v.fVolumes| == FSources
  }

  /** The volume-select bit of a radio source. */
  function VolSel(t: Snapshot, s: RSource): bool {
    match s
    case RVhfL => t.vhfLVolSel  case RVhfC => t.vhfCVolSel  case RVhfR => t.vhfRVolSel
    case RCab => t.cabVolSel    case RPa => t.paVolSel      case RHfL => t.hfLVolSel
    case RHfR => t.hfRVolSel    case RSat1 => t.sat1VolSel  case RSat2 => t.sat2VolSel
    case RSpk => t.spkVolSel    case RNav => t.navVolSel    case RApp => t.appVolSel
  }

  /** The raw volume word of a radio source. */
  function VolumeWord(t: Snapshot, s: RSource): bv16 {
    match s
    case RVhfL => t.vhfLVolume  case RVhfC => t.vhfCVolume  case RVhfR => t.vhfRVolume
    case RCab => t.cabVolume    case RPa => t.paVolume      case RHfL => t.hfLVolume
    case RHfR => t.hfRVolume    case RSat1 => t.sat1Volume  case RSat2 => t.sat2Volume
    case RSpk => t.spkVolume    case RNav => t.navVolume    case RApp => t.appVolume
  }

  /** A volume word as the station uses it: byte-swapped, not clamped. */
  function HostVolume(w: bv16): (v: int)
    ensures 0 <= v < 65536
  {
    U16(Bswap16(w))
  }

  /** `tablet_update_values`, as written: both flight slots take the local FLT
      volume, every radio source takes its select bit and its swapped word. */
  function UpdateValues(t: Snapshot): (v: Values)
    ensures ValuesShape(v)
    ensures forall s :: v.rEnables[RIndex(s)] == VolSel(t, s)
    ensures forall s :: v.rVolumes[RIndex(s)] == HostVolume(VolumeWord(t, s))
    ensures v.fVolumes[FIndex(Off1)] == v.fVolumes[FIndex(Off2)] == HostVolume(t.fltVolume)
  {
    RSourceEnumeration();
    Values(
      RadioEnables(t),
      seq(RSources, i requires 0 <= i < RSources => HostVolume(VolumeWord(t, AllRSources[i]))),
      seq(FSources, _ => HostVolume(t.fltVolume)))
  }

  /** The twelve select bits in enum order. */
  function RadioEnables(t: Snapshot): (e: seq<bool>)
    ensures |e| == RSources
    ensures forall s :: e[RIndex(s)] == VolSel(t, s)
  {
    RSourceEnumeration();
    seq(RSources, i requires 0 <= i < RSources => VolSel(t, AllRSources[i]))
  }

  /** Packet byte holding a radio source's volume-select bit. */
  function SelByte(s: RSource): nat {
    match s
    case RSat1 => 9  case RSat2 => 9  case RNav => 9  case RApp => 9  case RSpk => 9
    case _ => 10
  }

  /** Bit position of a radio source's volume-select bit in its byte. */
  function SelBit(s: RSource): (k: bv8)
    ensures k < 8
  {
    match s
    case RSat1 => 0  case RSat2 => 1  case RNav => 2  case RApp => 3  case RSpk => 4
    case RVhfL => 0  case RVhfC => 1  case RVhfR => 2  case RCab => 4  case RPa => 5
    case RHfL => 6   case RHfR => 7
  }

  /** Packet offset of the first (most significant) byte of a source's volume word. */
  function VolumeOffset(s: RSource): (o: nat)
    ensures WordOffset(o)
  {
    match s
    case RVhfC => 12  case RVhfL => 14  case RVhfR => 18  case RPa => 20
    case RCab => 22   case RHfR => 24   case RHfL => 26   case RSat2 => 28
    case RSat1 => 30  case RApp => 32   case RNav => 34   case RSpk => 38
  }

  lemma VolumeWordAtOffset(t: Snapshot, s: RSource)
    ensures VolumeWord(t, s) == WordField(t, VolumeOffset(s))
  {
  }

  lemma SwappedWord(lo: bv8, hi: bv8)
    ensures HostVolume(Word(lo, hi)) == (lo as int) * 256 + hi as int
  {
  }

  /** Read against the packet: each enable is its select bit, and each volume
      is the big-endian word at its offset, with all 16 bits kept. */
  lemma ValuesFromPacket(p: Packet, s: RSource)
    ensures UpdateValues(Decode(p)).rEnables[RIndex(s)] == Bit(p[SelByte(s)], SelBit(s))
    ensures UpdateValues(Decode(p)).rVolumes[RIndex(s)]
      == (p[VolumeOffset(s)] as int) * 256 + p[VolumeOffset(s) + 1] as int
  {
    var t := Decode(p);
    VolumeWordAtOffset(t, s);
    DecodeWord(p, VolumeOffset(s));
    SwappedWord(p[VolumeOffset(s)], p[VolumeOffset(s) + 1]);
  }

  /** Both flight volumes are the local FLT word at bytes 16-17. */
  lemma FlightVolumesFromPacket(p: Packet)
    ensures UpdateValues(Decode(p)).fVolumes == [(p[16] as int) * 256 + p[17] as int, (p[16] as int) * 256 + p[17] as int]
  {
    var w := (p[16] as int) * 256 + p[17] as int;
    DecodeWords(p);
    SwappedWord(p[16], p[17]);
    var f := UpdateValues(Decode(p)).fVolumes;
    assert f[0] == w && f[1] == w;
  }

  /** A packet whose VHF_C volume bytes are 0x00 0x64 and whose other bytes are 0. */
  function VolumeHundredPacket(): (p: Packet)
    ensures p[12] == 0x00 && p[13] == 0x64
    ensures forall i :: 0 <= i < PacketSize && i != 13 ==> p[i] == 0
  {
    seq(PacketSize, i => if i == 13 then 0x64 else 0)
  }

  /** The wire word 0x00 0x64 is volume 100, not 25600. */
  lemma ByteSwapExample()
    ensures UpdateValues(Decode(VolumeHundredPacket())).rVolumes[RIndex(RVhfC)] == 100
  {
    ValuesFromPacket(VolumeHundredPacket(), RVhfC);
  }

  /** A packet that enables VHF_L with volume word 0x10 0x00 (4096). */
  function OutOfTablePacket(): (p: Packet)
    ensures p[10] == 1 && p[14] == 0x10 && p[15] == 0
  {
    seq(PacketSize, i => if i == 10 then 1 else if i == 14 then 0x10 else 0)
  }

  /** As written, an enabled source can carry a volume code beyond the
      4096-entry gain table, which the mixer then uses as an index. */
  lemma UnclampedVolumeLeavesGainTable()
    ensures UpdateValues(Decode(OutOfTablePacket())).rEnables[RIndex(RVhfL)]
    ensures UpdateValues(Decode(OutOfTablePacket())).rVolumes[RIndex(RVhfL)] == 4096
    ensures !GainIndex(UpdateValues(Decode(OutOfTablePacket())).rVolumes[RIndex(RVhfL)])
  {
    ValuesFromPacket(OutOfTablePacket(), RVhfL);
  }

  /** Saturation of a volume code into the gain table's index range. */
  function ClampVolume(v: int): (r: int)
    ensures GainIndex(r)
    ensures GainIndex(v) ==> r == v
    ensures v >= GainTableSize ==> r == GainTableSize - 1
  {
    Clamp(0, GainTableSize - 1, v)
  }

  /** Every radio and flight volume of `v` indexes the gain table. */
  predicate InGainTable(v: Values) {
    && (forall i :: 0 <= i < |v.rVolumes| ==> GainIndex(v.rVolumes[i]))
    && (forall i :: 0 <= i < |v.fVolumes| ==> GainIndex(v.fVolumes[i]))
  }

  /** The corrected update: as `UpdateValues`, with every volume code clamped
      to the gain table when it is decoded. */
  function SafeValues(t: Snapshot): (v: Values)
    ensures ValuesShape(v)
    ensures v.rEnables == UpdateValues(t).rEnables == RadioEnables(t)
    ensures forall i :: 0 <= i < RSources ==> GainIndex(v.rVolumes[i])
    ensures forall i :: 0 <= i < FSources ==> GainIndex(v.fVolumes[i])
    ensures forall i :: 0 <= i < RSources && GainIndex(UpdateValues(t).rVolumes[i]) ==>
              v.rVolumes[i] == UpdateValues(t).rVolumes[i]
    ensures forall i :: 0 <= i < FSources && GainIndex(UpdateValues(t).fVolumes[i]) ==>
              v.fVolumes[i] == UpdateValues(t).fVolumes[i]
  {
    var u := UpdateValues(t);
    Values(u.rEnables,
           seq(RSources, i requires 0 <= i < RSources => ClampVolume(u.rVolumes[i])),
           seq(FSources, i requires 0 <= i < FSources => ClampVolume(u.fVolumes[i])))
  }

  /** `active_radio`: a linear scan of the twelve radio enables. */
  method ActiveRadio(enables: seq<bool>) returns (r: bool)
    requires |enables| == RSources
    ensures r <==> exists i :: 0 <= i < |enables| && enables[i]
  {
    var i := 0;
    while i < RSources
      invariant 0 <= i <= RSources
      invariant forall j :: 0 <= j < i ==> !enables[j]
    {
      if enables[i] {
        return true;
      }
      i := i + 1;
    }
    return false;
  }

  predicate RadioEnabled(v: Values)
    requires ValuesShape(v)
  {
    exists i :: 0 <= i < RSources && v.rEnables[i]
  }

  /** Some entry of `RadioEnables(t)` is set exactly when the select bit of
      some radio source is. */
  lemma RadioEnablesAny(t: Snapshot)
    ensures (exists i :: 0 <= i < RSources && RadioEnables(t)[i]) <==> exists s :: VolSel(t, s)
  {
    var e := RadioEnables(t);
    if i :| 0 <= i < RSources && e[i] {
      RSourceEnumeration();
      assert VolSel(t, AllRSources[i]);
    }
    if s :| VolSel(t, s) {
      assert e[RIndex(s)];
    }
  }

  /** Radio is enabled exactly when the select bit of some radio source (any
      of the twelve; FLT is not among them) is set. */
  lemma RadioEnabledBits(t: Snapshot)
    ensures RadioEnabled(SafeValues(t)) <==> exists s :: VolSel(t, s)
  {
    RadioEnablesAny(t);
  }

  /** `active_mic_int`: the local switch position as a mic state. */
  function ActiveMicInt(t: Snapshot): (m: MicState)
    ensures m == MicOff || m == Mic || m == Int
    ensures m == Mic <==> t.micSwitchPos == MicPos
    ensures m == Int <==> t.micSwitchPos == FltPos
  {
    if t.micSwitchPos == MicPos then Mic
    else if t.micSwitchPos == FltPos then Int
    else MicOff
  }

  /** A packet whose mic switch field holds 3, a value with no `MicPos` name. */
  function SwitchThreePacket(): (p: Packet)
    ensures p[11] == 0xC0
  {
    seq(PacketSize, i => if i == 11 then 0xC0 else 0)
  }

  /** The 2-bit switch field can carry 3; the local state then reads as off. */
  lemma UnnamedSwitchPosition()
    ensures Decode(SwitchThreePacket()).micSwitchPos == 3
    ensures 3 != OffPos && 3 != MicPos && 3 != FltPos
    ensures ActiveMicInt(Decode(SwitchThreePacket())) == MicOff
  {
  }

  /** The order in which `active_mic_en` tests the mic-on flags. */
  const MicEnOrder: seq<MicState> := [Flt, Cab, Pa, Sat1, Sat2, VhfL, VhfC, VhfR, HfL, HfR]

  /** `active_mic_en`: ten tests in `MicEnOrder`, each overwriting the result. */
  function ActiveMicEn(t: Snapshot): MicState {
    MicEnTests(t.fltMicOn, t.cabMicOn, t.paMicOn, t.sat1MicOn, t.sat2MicOn,
               t.vhfLMicOn, t.vhfCMicOn, t.vhfRMicOn, t.hfLMicOn, t.hfRMicOn)
  }

  /** The straight-line tests of `active_mic_en` on the ten flags, in order. */
  function MicEnTests(flt: bool, cab: bool, pa: bool, sat1: bool, sat2: bool,
                      vhfL: bool, vhfC: bool, vhfR: bool, hfL: bool, hfR: bool): MicState {
    var m0 := MicOff;
    var m1 := if flt then Flt else m0;
    var m2 := if cab then Cab else m1;
    var m3 := if pa then Pa else m2;
    var m4 := if sat1 then Sat1 else m3;
    var m5 := if sat2 then Sat2 else m4;
    var m6 := if vhfL then VhfL else m5;
    var m7 := if vhfC then VhfC else m6;
    var m8 := if vhfR then VhfR else m7;
    var m9 := if hfL then HfL else m8;
    if hfR then HfR else m9
  }

  /** The mic-on flags, listed as `MicEnOrder` lists their selectors. */
  function MicOnFlags(t: Snapshot): (f: seq<bool>)
    ensures |f| == |MicEnOrder|
  {
    [t.fltMicOn, t.cabMicOn, t.paMicOn, t.sat1MicOn, t.sat2MicOn,
     t.vhfLMicOn, t.vhfCMicOn, t.vhfRMicOn, t.hfLMicOn, t.hfRMicOn]
  }

  /** The result of the first `k` tests of `active_mic_en`, given the flags
      in `MicEnOrder`. */
  function MicEnScan(flags: seq<bool>, k: nat): MicState
    requires |flags| == |MicEnOrder| && k <= |flags|
  {
    if k == 0 then MicOff
    else if flags[k - 1] then MicEnOrder[k - 1]
    else MicEnScan(flags, k - 1)
  }

  lemma MicEnOrderEntries()
    ensures MicEnOrder[0] == Flt && MicEnOrder[1] == Cab && MicEnOrder[2] == Pa
    ensures MicEnOrder[3] == Sat1 && MicEnOrder[4] == Sat2 && MicEnOrder[5] == VhfL
    ensures MicEnOrder[6] == VhfC && MicEnOrder[7] == VhfR && MicEnOrder[8] == HfL
    ensures MicEnOrder[9] == HfR
    ensures forall i :: 0 <= i < |MicEnOrder| ==> MicEnOrder[i] != MicOff
  {
  }

  /** The scan of ten flags is the ten straight-line tests. */
  lemma ScanTen(f: seq<bool>)
    requires |f| == |MicEnOrder|
    ensures MicEnScan(f, |MicEnOrder|) == MicEnTests(f[0], f[1], f[2], f[3], f[4], f[5], f[6], f[7], f[8], f[9])
  {
    MicEnOrderEntries();
    assert MicEnScan(f, 0) == MicOff;
    assert MicEnScan(f, 1) == if f[0] then Flt else MicOff;
    assert MicEnScan(f, 2) == if f[1] then Cab else MicEnScan(f, 1);
    assert MicEnScan(f, 3) == if f[2] then Pa else MicEnScan(f, 2);
    assert MicEnScan(f, 4) == if f[3] then Sat1 else MicEnScan(f, 3);
    assert MicEnScan(f, 5) == if f[4] then Sat2 else MicEnScan(f, 4);
    assert MicEnScan(f, 6) == if f[5] then VhfL else MicEnScan(f, 5);
    assert MicEnScan(f, 7) == if f[6] then VhfC else MicEnScan(f, 6);
    assert MicEnScan(f, 8) == if f[7] then VhfR else MicEnScan(f, 7);
    assert MicEnScan(f, 9) == if f[8] then HfL else MicEnScan(f, 8);
  }

  /** The straight-line C code computes the same value as the scan. */
  lemma ActiveMicEnIsScan(t: Snapshot)
    ensures ActiveMicEn(t) == MicEnScan(MicOnFlags(t), |MicEnOrder|)
  {
    ScanTen(MicOnFlags(t));
  }

  lemma {:induction false} MicEnScanIsLastSet(flags: seq<bool>, k: nat)
    requires |flags| == |MicEnOrder| && k <= |flags|
    ensures MicEnScan(flags, k) == MicOff <==> forall i :: 0 <= i < k ==> !flags[i]
    ensures MicEnScan(flags, k) != MicOff ==>
      exists i :: 0 <= i < k && MicEnOrder[i] == MicEnScan(flags, k) && flags[i]
        && forall j :: i < j < k ==> !flags[j]
  {
    if k > 0 {
      MicEnScanIsLastSet(flags, k - 1);
      MicEnOrderEntries();
    }
  }

  /** Last-true-wins: the result is off iff no flag is set, and otherwise the
      selector whose flag is set and which no later set flag follows. */
  lemma ActiveMicEnIsLastSet(t: Snapshot)
    ensures ActiveMicEn(t) == MicOff <==> forall i :: 0 <= i < |MicEnOrder| ==> !MicOnFlags(t)[i]
    ensures ActiveMicEn(t) != MicOff ==>
      exists i :: 0 <= i < |MicEnOrder| && MicEnOrder[i] == ActiveMicEn(t) && MicOnFlags(t)[i]
        && forall j :: i < j < |MicEnOrder| ==> !MicOnFlags(t)[j]
  {
    ActiveMicEnIsScan(t);
    MicEnScanIsLastSet(MicOnFlags(t), |MicEnOrder|);
  }

  /** CAB and VHF_L both set: VHF_L, the later one, wins. */
  lemma LastTrueWinsExample(t: Snapshot)
    requires t.cabMicOn && t.vhfLMicOn
    requires !t.vhfCMicOn && !t.vhfRMicOn && !t.hfLMicOn && !t.hfRMicOn
    ensures ActiveMicEn(t) == VhfL
  {
  }

  /** A neighbour's offside state: talking on MIC with FLT selected, talking on
      the interphone position, or off. */
  function OffsideState(n: Snapshot): (m: MicState)
    ensures m == MicOff || m == Mic || m == Int
    ensures m == Mic <==> n.micSwitchPos == MicPos && (n.fltMicOn || n.fltVolSel)
    ensures Truthy(m) <==> n.micSwitchPos == FltPos || (n.micSwitchPos == MicPos && (n.fltMicOn || n.fltVolSel))
  {
    if n.micSwitchPos == MicPos && (n.fltMicOn || n.fltVolSel) then Mic
    else if n.micSwitchPos == FltPos then Int
    else MicOff
  }

  /** The outputs of `active_offside`. */
  datatype Offside = Offside(off1: MicState, off2: MicState, fltEn: bool)

  /** `active_offside`: each neighbour's offside state, by slot, and the local FLT select bit. */
  function ActiveOffside(me: Whoami, own: Snapshot, tablets: ByStation<Snapshot>): (o: Offside)
    ensures o.fltEn == own.fltVolSel
    ensures me == Captain ==>
      o.off1 == OffsideState(tablets.firstOfficer) && o.off2 == OffsideState(tablets.observer)
    ensures me == FirstOfficer ==>
      o.off1 == OffsideState(tablets.captain) && o.off2 == OffsideState(tablets.observer)
    ensures me == Observer ==>
      o.off1 == OffsideState(tablets.firstOfficer) && o.off2 == OffsideState(tablets.captain)
  {
    var (n1, n2) := Neighbours(me);
    Offside(OffsideState(tablets.Get(n1)), OffsideState(tablets.Get(n2)), own.fltVolSel)
  }

  /** A station's own registry entry never decides its offside states. */
  lemma OffsideIgnoresOwnEntry(me: Whoami, own: Snapshot, tablets: ByStation<Snapshot>, other: Snapshot)
    ensures ActiveOffside(me, own, tablets) == ActiveOffside(me, own,
      match me
      case Captain => tablets.(captain := other)
      case FirstOfficer => tablets.(firstOfficer := other)
      case Observer => tablets.(observer := other))
  {
  }

  /** The decoded snapshot together with the arrays derived from it. */
  datatype TabletState = TabletState(snapshot: Snapshot, values: Values)

  /** The derived arrays are those of the current snapshot. */
  predicate Consistent(ts: TabletState) {
    WellFormed(ts.snapshot) && ts.values == SafeValues(ts.snapshot)
  }

  /** `tablet_read`: a receive that returned `n` bytes into `buf`. Only a
      positive count replaces the snapshot and its derived arrays. The
      derived arrays are the clamped `SafeValues`, which agree with the
      unclamped `UpdateValues` of the C whenever every volume it decodes
      indexes the gain table. */
  function TabletRead(ts: TabletState, n: int, buf: Packet): (ts': TabletState)
    ensures n <= 0 ==> ts' == ts
    ensures n > 0 ==> ts'.snapshot == Decode(buf)
    ensures n > 0 && InGainTable(UpdateValues(Decode(buf))) ==> ts'.values == UpdateValues(Decode(buf))
    ensures Consistent(ts) ==> Consistent(ts')
  {
    if n > 0 then
      var t := Decode(buf);
      var v := SafeValues(t);
      var u := UpdateValues(t);
      assert InGainTable(u) ==> v.rVolumes == u.rVolumes && v.fVolumes == u.fVolumes;
      TabletState(t, v)
    else ts
  }

  /** The state of a zero-initialised station before any datagram arrives. */
  function InitialTablet(): TabletState {
    TabletState(Decode(seq(PacketSize, _ => 0)),
                Values(seq(RSources, _ => false), Zeros(RSources), Zeros(FSources)))
  }

  lemma ZeroPacketValues(z: Packet)
    requires z == seq(PacketSize, _ => 0)
    ensures forall i :: 0 <= i < RSources ==> UpdateValues(Decode(z)).rVolumes[i] == 0
    ensures forall i :: 0 <= i < FSources ==> UpdateValues(Decode(z)).fVolumes[i] == 0
  {
    RSourceEnumeration();
    forall i | 0 <= i < RSources
      ensures UpdateValues(Decode(z)).rVolumes[i] == 0
    {
      ValuesFromPacket(z, AllRSources[i]);
    }
    FlightVolumesFromPacket(z);
  }

  /** Zeroed arrays are exactly what the zeroed packet decodes to. */
  lemma InitialTabletConsistent()
    ensures Consistent(InitialTablet())
  {
    var z: Packet := seq(PacketSize, _ => 0);
    var t := Decode(z);
    ZeroPacketValues(z);
    var v := SafeValues(t);
    assert v.rVolumes == Zeros(RSources);
    assert v.fVolumes == Zeros(FSources);
    assert v.rEnables == seq(RSources, _ => false);
  }
}
