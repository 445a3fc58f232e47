/** The shared vocabulary of the intercom server: buffer sizes, the source,
    slot, mic-state and wave-asset enumerations (with their C enum values),
    the per-identity station registry and the shape of the gain table. */
module IpServer {
  import opened Numeric

  /** An optional value: the C code's `-1` / `NULL` sentinels. */
  datatype Option<T> = None | Some(value: T)

  /** Samples moved per audio period (48 samples at 48 kHz). */
  const DefaultPeriod: nat := 48
  /** `DEFAULT_PERIOD*sizeof(int16_t)`: used both as a byte count for block
      copies and as the int16 length of every per-source buffer row. */
  const BlockSize: nat := DefaultPeriod * 2
  const RSources: nat := 12
  const FSources: nat := 2
  const GainTableSize: nat := 4096

  /** The crew seat a station serves. */
  datatype Whoami = Captain | FirstOfficer | Observer

  /** The station registry: one value per crew identity, addressable by identity. */
  datatype ByStation<T> = ByStation(captain: T, firstOfficer: T, observer: T) {
    function Get(id: Whoami): T {
      match id
      case Captain => captain
      case FirstOfficer => firstOfficer
      case Observer => observer
    }
  }

  /** The radio sources that can be mixed into a station's output. FLT is
      deliberately not one of them: flight interphone has its own two slots. */
  datatype RSource = RVhfL | RVhfC | RVhfR | RCab | RPa | RHfL | RHfR | RSat1 | RSat2 | RSpk | RNav | RApp

  /** The C enum value of a radio source, i.e. its row in the per-source arrays. */
  function RIndex(s: RSource): (i: nat)
    ensures i < RSources
  {
    match s
    case RVhfL => 0  case RVhfC => 1  case RVhfR => 2  case RCab => 3
    case RPa => 4    case RHfL => 5   case RHfR => 6   case RSat1 => 7
    case RSat2 => 8  case RSpk => 9   case RNav => 10  case RApp => 11
  }

  /** The radio sources in enum order, the order every per-source loop visits them. */
  const AllRSources: seq<RSource> :=
    [RVhfL, RVhfC, RVhfR, RCab, RPa, RHfL, RHfR, RSat1, RSat2, RSpk, RNav, RApp]

  lemma RSourceEnumeration()
    ensures |AllRSources| == RSources
    ensures forall i :: 0 <= i < |AllRSources| ==> RIndex(AllRSources[i]) == i
    ensures forall s :: AllRSources[RIndex(s)] == s
  {
  }

  /** The neighbours whose audio lands in flight slots 1 and 2. */
  function Neighbours(me: Whoami): (slots: (Whoami, Whoami))
    ensures slots.0 != me && slots.1 != me && slots.0 != slots.1
  {
    match me
    case Captain => (FirstOfficer, Observer)
    case FirstOfficer => (Captain, Observer)
    case Observer => (FirstOfficer, Captain)
  }

  /** The two flight-interphone slots, one per offside neighbour. */
  datatype FSlot = Off1 | Off2

  function FIndex(f: FSlot): (i: nat)
    ensures i < FSources
  {
    match f
    case Off1 => 0
    case Off2 => 1
  }

  lemma FSlotEnumeration()
    ensures forall f, g :: FIndex(f) == FIndex(g) ==> f == g
    ensures FIndex(Off1) == 0 && FIndex(Off2) == 1
  {
  }

  /** `mic_e`: the state of a local or remote microphone selector. `MicOff`
      is the zero value, so a C truthiness test reads "not MicOff". */
  datatype MicState = MicOff | Mic | Int | VhfL | VhfC | VhfR | Flt | Cab | Pa | HfL | HfR | Sat1 | Sat2

  function MicCode(m: MicState): (c: nat)
    ensures c < 13
  {
    match m
    case MicOff => 0  case Mic => 1   case Int => 2   case VhfL => 3
    case VhfC => 4    case VhfR => 5  case Flt => 6   case Cab => 7
    case Pa => 8      case HfL => 9   case HfR => 10  case Sat1 => 11
    case Sat2 => 12
  }

  /** The C test `if (m)` on a `mic_e`. */
  predicate Truthy(m: MicState) {
    MicCode(m) != 0
  }

  lemma MicOffIsZero(m: MicState)
    ensures Truthy(m) <==> m != MicOff
    ensures MicCode(m) == 0 <==> m == MicOff
  {
  }

  /** `wav_ctrls_e`: the wave assets that back the radio sources. */
  datatype WavCtrl =
    | WVhfL | WVhfC | WVhfR | WCab | WPa | WHfL | WHfR | WSat1 | WSat2
    | WSpkr | WVorL | WVorR | WAdfL | WAdfR | WAppL | WAppR | WAppMkr

  const WavCtrls: nat := 17

  function WIndex(c: WavCtrl): (i: nat)
    ensures i < WavCtrls
  {
    match c
    case WVhfL => 0   case WVhfC => 1   case WVhfR => 2   case WCab => 3
    case WPa => 4     case WHfL => 5    case WHfR => 6    case WSat1 => 7
    case WSat2 => 8   case WSpkr => 9   case WVorL => 10  case WVorR => 11
    case WAdfL => 12  case WAdfR => 13  case WAppL => 14  case WAppR => 15
    case WAppMkr => 16
  }

  const AllWavCtrls: seq<WavCtrl> :=
    [WVhfL, WVhfC, WVhfR, WCab, WPa, WHfL, WHfR, WSat1, WSat2,
     WSpkr, WVorL, WVorR, WAdfL, WAdfR, WAppL, WAppR, WAppMkr]

  lemma WavCtrlEnumeration()
    ensures |AllWavCtrls| == WavCtrls
    ensures forall i :: 0 <= i < |AllWavCtrls| ==> WIndex(AllWavCtrls[i]) == i
    ensures forall c :: AllWavCtrls[WIndex(c)] == c
  {
  }

  /** `volume_gain_table`: 4096 int16 gains in radix-14 fixed point. Its
      contents are not part of this model, so it is a parameter wherever it is read. */
  predicate ValidGainTable(gain: seq<int>) {
    |gain| == GainTableSize && AllInt16(gain)
  }

  /** A volume code that may index the gain table. */
  predicate GainIndex(v: int) {
    0 <= v < GainTableSize
  }
}
