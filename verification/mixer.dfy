/** The saturating radix-14 mixer of `mixer.c`, the radio and flight mixes
    built on it, and the small Q15 helpers `ashr`, `sat16`, `q_mul`, `q_add`. */
module Mixer {
  import opened Numeric
  import opened IpServer

  /** Fixed-point radix of the gain table: gain `One` is unity. */
  const Radix: nat := 14
  const One: int := 0x4000
  const Half: int := 0x2000

  /** `memcpy(.., BLOCK_SIZE)` moves `BLOCK_SIZE` bytes, i.e. this many samples. */
  const CopySamples: nat := BlockSize / 2

  /** The gain table and the enable / volume arrays of a mix: every enabled
      source's volume code indexes the table. */
  predicate Gains(en: seq<bool>, vol: seq<int>, gain: seq<int>) {
    && ValidGainTable(gain)
    && |vol| == |en|
    && forall k :: 0 <= k < |en| && en[k] ==> GainIndex(vol[k])
  }

  /** The source rows of a mix: one int16 row of `n` samples per source. */
  predicate Rows(n: nat, srcs: seq<seq<int>>) {
    forall k :: 0 <= k < |srcs| ==> |srcs[k]| == n && AllInt16(srcs[k])
  }

  /** Everything `_perform_mixing` reads, with the shapes its C types give it. */
  predicate MixInputs(dest: seq<int>, srcs: seq<seq<int>>, en: seq<bool>, vol: seq<int>, gain: seq<int>) {
    && AllInt16(dest)
    && Rows(|dest|, srcs)
    && |en| == |srcs|
    && Gains(en, vol, gain)
  }

  /** Sample `i` of every source row. */
  function Column(srcs: seq<seq<int>>, i: nat): (col: seq<int>)
    requires forall k :: 0 <= k < |srcs| ==> i < |srcs[k]|
    ensures |col| == |srcs|
    ensures forall k :: 0 <= k < |srcs| ==> col[k] == srcs[k][i]
  {
    seq(|srcs|, k requires 0 <= k < |srcs| => srcs[k][i])
  }

  /** The weighted sum of the first `k` sources at one sample: each enabled
      source's sample times the gain its volume code selects. */
  function Contribution(col: seq<int>, en: seq<bool>, vol: seq<int>, gain: seq<int>, k: nat): int
    requires Gains(en, vol, gain) && |col| == |en| && k <= |en|
  {
    if k == 0 then 0
    else Contribution(col, en, vol, gain, k - 1) + (if en[k - 1] then col[k - 1] * gain[vol[k - 1]] else 0)
  }

  /** Division by 2^14 rounded to nearest, ties upward. */
  function RoundRadix(x: int): (q: int)
    ensures q * One - Half <= x < q * One + Half
  {
    (x + Half) / One
  }

  /** One output sample: existing audio plus the weighted sources, rounded and saturated. */
  function MixSample(d: int, c: int): (r: int)
    ensures Nearest(Int16Min, Int16Max, RoundRadix(d * One + c), r)
  {
    Clamp(Int16Min, Int16Max, RoundRadix(d * One + c))
  }

  /** The reference definition of `_perform_mixing` over `n = |dest|` samples. */
  function Mix(dest: seq<int>, srcs: seq<seq<int>>, en: seq<bool>, vol: seq<int>, gain: seq<int>): (out: seq<int>)
    requires MixInputs(dest, srcs, en, vol, gain)
    ensures |out| == |dest|
    ensures AllInt16(out)
  {
    seq(|dest|, i requires 0 <= i < |dest| => MixSample(dest[i], Contribution(Column(srcs, i), en, vol, gain, |srcs|)))
  }

  /** `accum >>= RADIX` on an `int64_t`: gcc shifts arithmetically, which floors. */
  function ShiftOutRadix(accum: int): int {
    accum / One
  }

  /** `_perform_mixing`: for every sample, a 64-bit accumulator starts at the
      destination shifted up by the radix, collects every enabled source's
      product, is rounded, shifted back down and saturated into the destination. */
  method PerformMixing(dest: seq<int>, srcs: seq<seq<int>>, en: seq<bool>, vol: seq<int>, gain: seq<int>)
    returns (out: seq<int>)
    requires MixInputs(dest, srcs, en, vol, gain)
    ensures out == Mix(dest, srcs, en, vol, gain)
  {
    ghost var spec := Mix(dest, srcs, en, vol, gain);
    out := dest;
    var sample := 0;
    while sample < |dest|
      invariant 0 <= sample <= |dest|
      invariant |out| == |dest|
      invariant forall j :: 0 <= j < sample ==> out[j] == spec[j]
      invariant forall j :: sample <= j < |dest| ==> out[j] == dest[j]
    {
      ghost var col := Column(srcs, sample);
      var accum := dest[sample] * One;
      var k := 0;
      while k < |srcs|
        invariant 0 <= k <= |srcs|
        invariant accum == dest[sample] * One + Contribution(col, en, vol, gain, k)
      {
        if en[k] {
          accum := accum + srcs[k][sample] * gain[vol[k]];
        }
        k := k + 1;
      }
      accum := accum + Half;
      accum := ShiftOutRadix(accum);
      var s;
      if accum > Int16Max {
        s := Int16Max;
      } else if accum < Int16Min {
        s := Int16Min;
      } else {
        s := accum;
      }
      assert s == spec[sample];
      out := out[sample := s];
      sample := sample + 1;
    }
  }

  lemma {:induction false} ContributionDisabled(col: seq<int>, en: seq<bool>, vol: seq<int>, gain: seq<int>, k: nat)
    requires Gains(en, vol, gain) && |col| == |en| && k <= |en|
    requires forall j :: 0 <= j < k ==> !en[j]
    ensures Contribution(col, en, vol, gain, k) == 0
  {
    if k > 0 {
      ContributionDisabled(col, en, vol, gain, k - 1);
    }
  }

  lemma RoundRadixExact(d: int)
    ensures RoundRadix(d * One) == d
  {
  }

  /** With no source enabled the destination comes back unchanged. */
  lemma MixAllDisabled(dest: seq<int>, srcs: seq<seq<int>>, en: seq<bool>, vol: seq<int>, gain: seq<int>)
    requires MixInputs(dest, srcs, en, vol, gain)
    requires forall k :: 0 <= k < |en| ==> !en[k]
    ensures Mix(dest, srcs, en, vol, gain) == dest
  {
    var out := Mix(dest, srcs, en, vol, gain);
    forall i | 0 <= i < |dest|
      ensures out[i] == dest[i]
    {
      ContributionDisabled(Column(srcs, i), en, vol, gain, |srcs|);
      RoundRadixExact(dest[i]);
    }
  }

  lemma {:induction false} ContributionAgree(col: seq<int>, col': seq<int>, en: seq<bool>, vol: seq<int>, vol': seq<int>, gain: seq<int>, k: nat)
    requires Gains(en, vol, gain) && Gains(en, vol', gain)
    requires |col| == |en| && |col'| == |en| && k <= |en|
    requires forall j :: 0 <= j < k && en[j] ==> col[j] == col'[j] && vol[j] == vol'[j]
    ensures Contribution(col, en, vol, gain, k) == Contribution(col', en, vol', gain, k)
  {
    if k > 0 {
      ContributionAgree(col, col', en, vol, vol', gain, k - 1);
    }
  }

  /** Output sample `i` depends only on `dest[i]` and, for the enabled
      sources, on their sample `i` and volume: disabled sources, other
      samples and other rows contribute nothing. */
  lemma MixPointwise(dest: seq<int>, srcs: seq<seq<int>>, vol: seq<int>,
                     dest': seq<int>, srcs': seq<seq<int>>, vol': seq<int>,
                     en: seq<bool>, gain: seq<int>, i: nat)
    requires MixInputs(dest, srcs, en, vol, gain) && MixInputs(dest', srcs', en, vol', gain)
    requires i < |dest| && i < |dest'| && dest[i] == dest'[i]
    requires forall k :: 0 <= k < |en| && en[k] ==> srcs[k][i] == srcs'[k][i] && vol[k] == vol'[k]
    ensures Mix(dest, srcs, en, vol, gain)[i] == Mix(dest', srcs', en, vol', gain)[i]
  {
    ContributionAgree(Column(srcs, i), Column(srcs', i), en, vol, vol', gain, |en|);
  }

  lemma {:induction false} ContributionSingle(col: seq<int>, en: seq<bool>, vol: seq<int>, gain: seq<int>, s: nat, k: nat)
    requires Gains(en, vol, gain) && |col| == |en| && k <= |en| && s < |en|
    requires en[s] && forall j :: 0 <= j < |en| && j != s ==> !en[j]
    ensures Contribution(col, en, vol, gain, k) == if s < k then col[s] * gain[vol[s]] else 0
  {
    if k > 0 {
      ContributionSingle(col, en, vol, gain, s, k - 1);
    }
  }

  /** A single enabled source at unity gain is added to the destination with
      the same saturation as `q_add`. */
  lemma MixUnityGain(dest: seq<int>, srcs: seq<seq<int>>, en: seq<bool>, vol: seq<int>, gain: seq<int>, s: nat, i: nat)
    requires MixInputs(dest, srcs, en, vol, gain)
    requires s < |en| && en[s] && forall j :: 0 <= j < |en| && j != s ==> !en[j]
    requires gain[vol[s]] == One
    requires i < |dest|
    ensures Mix(dest, srcs, en, vol, gain)[i] == QAdd(dest[i], srcs[s][i])
  {
    var col := Column(srcs, i);
    ContributionSingle(col, en, vol, gain, s, |en|);
    assert dest[i] * One + col[s] * One == (dest[i] + srcs[s][i]) * One;
    RoundRadixExact(dest[i] + srcs[s][i]);
  }

  /** Two full-scale samples saturate at the top of the int16 range. */
  lemma MixSaturationExample(gain: seq<int>, v: int)
    requires ValidGainTable(gain) && GainIndex(v) && gain[v] == One
    ensures Mix([Int16Max], [[Int16Max]], [true], [v], gain) == [Int16Max]
  {
    MixUnityGain([Int16Max], [[Int16Max]], [true], [v], gain, 0, 0);
  }

  lemma ProductBound(a: int, b: int)
    requires IsInt16(a) && IsInt16(b)
    ensures -0x4000_0000 <= a * b <= 0x4000_0000
  {
    MulBound(a, b, 0x8000);
  }

  lemma {:induction false} ContributionBound(col: seq<int>, en: seq<bool>, vol: seq<int>, gain: seq<int>, k: nat)
    requires Gains(en, vol, gain) && |col| == |en| && k <= |en| && AllInt16(col)
    ensures -(k as int) * 0x4000_0000 <= Contribution(col, en, vol, gain, k) <= k * 0x4000_0000
  {
    if k > 0 {
      ContributionBound(col, en, vol, gain, k - 1);
      if en[k - 1] {
        ProductBound(col[k - 1], gain[vol[k - 1]]);
      }
    }
  }

  /** With at most twelve sources (`R_SOURCES`) every product fits the 32-bit
      multiply and every partial sum, rounding included, fits the 64-bit accumulator. */
  lemma AccumulatorFits(dest: seq<int>, srcs: seq<seq<int>>, en: seq<bool>, vol: seq<int>, gain: seq<int>, i: nat, k: nat)
    requires MixInputs(dest, srcs, en, vol, gain) && |srcs| <= RSources
    requires i < |dest| && k <= |srcs|
    ensures forall j :: 0 <= j < |srcs| && en[j] ==> IsInt32(srcs[j][i] * gain[vol[j]])
    ensures -0x8000_0000_0000_0000 <= dest[i] * One + Contribution(Column(srcs, i), en, vol, gain, k) + Half
              < 0x8000_0000_0000_0000
  {
    forall j | 0 <= j < |srcs| && en[j]
      ensures IsInt32(srcs[j][i] * gain[vol[j]])
    {
      ProductBound(srcs[j][i], gain[vol[j]]);
    }
    ContributionBound(Column(srcs, i), en, vol, gain, k);
  }

  /** `perform_radio_mixing`: the twelve radio sources mixed into the
      captured audio; the `mute` flag is accepted and not read. */
  function PerformRadioMixing(audio: seq<int>, rSources: seq<seq<int>>, rEnables: seq<bool>, rVolumes: seq<int>,
                              gain: seq<int>, mute: bool): (out: seq<int>)
    requires |rSources| == RSources
    requires MixInputs(audio, rSources, rEnables, rVolumes, gain)
    ensures |out| == |audio| && AllInt16(out)
  {
    Mix(audio, rSources, rEnables, rVolumes, gain)
  }

  lemma RadioMixingIgnoresMute(audio: seq<int>, rSources: seq<seq<int>>, rEnables: seq<bool>, rVolumes: seq<int>, gain: seq<int>)
    requires |rSources| == RSources
    requires MixInputs(audio, rSources, rEnables, rVolumes, gain)
    ensures PerformRadioMixing(audio, rSources, rEnables, rVolumes, gain, true)
      == PerformRadioMixing(audio, rSources, rEnables, rVolumes, gain, false)
  {
  }

  /** `memcpy(row, from, BLOCK_SIZE)` on int16 rows. */
  function CopyBlock(row: seq<int>, from: seq<int>): (r: seq<int>)
    requires |row| >= CopySamples && |from| >= CopySamples
    ensures |r| == |row|
    ensures forall j :: 0 <= j < CopySamples ==> r[j] == from[j]
    ensures forall j :: CopySamples <= j < |row| ==> r[j] == row[j]
  {
    from[..CopySamples] + row[CopySamples..]
  }

  /** The flight-interphone buffers of a station after a flight mix. */
  datatype FlightState = FlightState(audio: seq<int>, fSources: seq<seq<int>>, fEnables: seq<bool>)

  /** What `perform_flight_mixing` needs: int16 audio of at least one copy
      block, two flight rows of the same length, two enables, and a volume in
      the gain table for each slot that will be enabled. */
  predicate FlightInputs(audio: seq<int>, fSources: seq<seq<int>>, fEnables: seq<bool>, fVolumes: seq<int>,
                         off1: MicState, off2: MicState, peers: ByStation<seq<int>>, gain: seq<int>) {
    && AllInt16(audio) && |audio| >= CopySamples
    && |fSources| == FSources && Rows(|audio|, fSources)
    && |fEnables| == FSources && |fVolumes| == FSources
    && ValidGainTable(gain)
    && ((fEnables[0] || Truthy(off1)) ==> GainIndex(fVolumes[0]))
    && ((fEnables[1] || Truthy(off2)) ==> GainIndex(fVolumes[1]))
    && |peers.captain| >= CopySamples && AllInt16(peers.captain)
    && |peers.firstOfficer| >= CopySamples && AllInt16(peers.firstOfficer)
    && |peers.observer| >= CopySamples && AllInt16(peers.observer)
  }

  /** A flight slot after the copy step: the neighbour's block if it is talking. */
  function FillSlot(row: seq<int>, talking: MicState, from: seq<int>): (r: seq<int>)
    requires |row| >= CopySamples && |from| >= CopySamples
    ensures |r| == |row|
    ensures Truthy(talking) ==> r == CopyBlock(row, from)
    ensures !Truthy(talking) ==> r == row
  {
    if Truthy(talking) then CopyBlock(row, from) else row
  }

  /** `perform_flight_mixing`: a talking neighbour's block is copied into its
      slot and the slot enabled; the two slots are mixed into the station's
      own audio (added, not substituted); then both enables are cleared. */
  function PerformFlightMixing(me: Whoami, audio: seq<int>, fSources: seq<seq<int>>, fEnables: seq<bool>,
                               fVolumes: seq<int>, off1: MicState, off2: MicState,
                               peers: ByStation<seq<int>>, gain: seq<int>): (r: FlightState)
    requires FlightInputs(audio, fSources, fEnables, fVolumes, off1, off2, peers, gain)
    ensures r.fEnables == [false, false]
    ensures |r.fSources| == FSources
    ensures r.fSources[FIndex(Off1)] == FillSlot(fSources[0], off1, peers.Get(Neighbours(me).0))
    ensures r.fSources[FIndex(Off2)] == FillSlot(fSources[1], off2, peers.Get(Neighbours(me).1))
    ensures Rows(|audio|, r.fSources)
    ensures |r.audio| == |audio| && AllInt16(r.audio)
    ensures r.audio == Mix(audio, r.fSources, [fEnables[0] || Truthy(off1), fEnables[1] || Truthy(off2)], fVolumes, gain)
  {
    var (n1, n2) := Neighbours(me);
    var row1 := FillSlot(fSources[0], off1, peers.Get(n1));
    var row2 := FillSlot(fSources[1], off2, peers.Get(n2));
    var en := [fEnables[0] || Truthy(off1), fEnables[1] || Truthy(off2)];
    var rows := [row1, row2];
    assert Rows(|audio|, rows) by {
      assert rows[0] == row1 && rows[1] == row2;
    }
    FlightState(Mix(audio, rows, en, fVolumes, gain), rows, [false, false])
  }

  /** With both enables clear on entry (as every earlier flight mix leaves
      them) and both neighbours off, the flight mix leaves the audio as it was. */
  lemma FlightMixSilentNeighbours(me: Whoami, audio: seq<int>, fSources: seq<seq<int>>, fVolumes: seq<int>,
                                  peers: ByStation<seq<int>>, gain: seq<int>)
    requires FlightInputs(audio, fSources, [false, false], fVolumes, MicOff, MicOff, peers, gain)
    ensures PerformFlightMixing(me, audio, fSources, [false, false], fVolumes, MicOff, MicOff, peers, gain).audio == audio
  {
    var rows := PerformFlightMixing(me, audio, fSources, [false, false], fVolumes, MicOff, MicOff, peers, gain).fSources;
    MixAllDisabled(audio, rows, [false, false], fVolumes, gain);
  }

  /** The flight mix adds: with one neighbour talking at unity gain, each of
      the first `CopySamples` output samples is the station's own sample plus
      the neighbour's, saturated; the station's audio is not replaced. */
  lemma FlightMixAdds(me: Whoami, audio: seq<int>, fSources: seq<seq<int>>, fVolumes: seq<int>,
                      off1: MicState, peers: ByStation<seq<int>>, gain: seq<int>, i: nat)
    requires FlightInputs(audio, fSources, [false, false], fVolumes, off1, MicOff, peers, gain)
    requires Truthy(off1) && gain[fVolumes[0]] == One && i < CopySamples
    ensures PerformFlightMixing(me, audio, fSources, [false, false], fVolumes, off1, MicOff, peers, gain).audio[i]
      == QAdd(audio[i], peers.Get(Neighbours(me).0)[i])
  {
    var r := PerformFlightMixing(me, audio, fSources, [false, false], fVolumes, off1, MicOff, peers, gain);
    var en := [true, false];
    assert r.audio == Mix(audio, r.fSources, en, fVolumes, gain);
    MixUnityGain(audio, r.fSources, en, fVolumes, gain, 0, i);
  }

  /** `ashr`'s caveat: how a C compiler shifts a negative `int` right is
      implementation-defined. gcc shifts arithmetically; a compiler may also
      shift in zeros. */
  datatype ShiftImpl = ArithmeticShift | LogicalShift

  /** `x >> n` on a 32-bit `int` under a given implementation. */
  function SignedShr(impl: ShiftImpl, x: int, n: nat): int
    requires IsInt32(x) && n < 32
  {
    match impl
    case ArithmeticShift => x / Pow2(n)
    case LogicalShift => if x < 0 && n > 0 then ToU32(x) / Pow2(n) else x / Pow2(n)
  }

  /** `~` on an `unsigned int`. */
  function NotU32(v: int): (r: int)
    requires 0 <= v < U32Modulus
    ensures 0 <= r < U32Modulus
  {
    U32Modulus - 1 - v
  }

  /** `~0U >> n`: the low `32 - n` bits set. */
  function OnesShr(n: nat): (r: int)
    requires n < 32
    ensures 0 <= r < U32Modulus
  {
    DivLe(NotU32(0), Pow2(n));
    NotU32(0) / Pow2(n)
  }

  /** `ashr`: for a negative `x` and positive `n`, the shifted value is ORed
      (as `unsigned int`) with the mask `~(~0U >> n)` of the top `n` bits. */
  function Ashr(impl: ShiftImpl, x: int, n: nat): int
    requires IsInt32(x) && n < 32
  {
    if x < 0 && n > 0 then
      Wrap32(BitOr(ToU32(SignedShr(impl, x, n)), NotU32(OnesShr(n))))
    else SignedShr(impl, x, n)
  }

  /** `~(~0U >> n)` is the top `n` of the 32 bits, `2^(32-n) * (2^n - 1)`. */
  lemma HighMask(n: nat)
    requires 0 < n < 32
    ensures Pow2(n) * Pow2(32 - n) == U32Modulus
    ensures NotU32(OnesShr(n)) == U32Modulus - Pow2(32 - n) == Pow2(32 - n) * (Pow2(n) - 1)
  {
    var N, K := Pow2(n), Pow2(32 - n);
    Pow2Add(n, 32 - n);
    Pow2Of32();
    MulDist(N, K, 1);
    DivUnique(U32Modulus - 1, N, K - 1);
    MulDist(K, N, 1);
  }

  /** For a negative `x`: `floor(x / 2^n)` lies in `[-2^(31-n), -1]`, and
      shifting in zeros instead gives a value `2^(32-n)` above it. */
  lemma NegativeShift(x: int, n: nat)
    requires Int32Min <= x < 0 && 0 < n < 32
    ensures -(Pow2(31 - n) as int) <= x / Pow2(n) < 0
    ensures ToU32(x) / Pow2(n) == x / Pow2(n) + Pow2(32 - n)
  {
    var N, K, H := Pow2(n), Pow2(32 - n), Pow2(31 - n);
    HighMask(n);
    Pow2Add(n, 31 - n);
    Pow2Of32();
    assert Pow2(32) == 2 * Pow2(31);
    NegDivRange(x, N, H);
    var q := x / N;
    DivBounds(x, N);
    ToU32Negative(x);
    MulDist(N, q, K);
    DivUnique(x + N * K, N, q + K);
  }

  /** The facts both shift implementations share for a negative `x`: with
      `K = 2^(32-n)`, `floor(x / 2^n) + K` is a valid low part below `K`, and
      the mask is `K * (2^n - 1)`, at least half the 32-bit range. */
  lemma AshrParts(x: int, n: nat)
    requires Int32Min <= x < 0 && 0 < n < 32
    ensures var K := Pow2(32 - n);
      && 0 <= x / Pow2(n) + K < K
      && NotU32(OnesShr(n)) == K * (Pow2(n) - 1) == U32Modulus - K
      && 2 * K <= U32Modulus
  {
    var N, K := Pow2(n), Pow2(32 - n);
    HighMask(n);
    NegativeShift(x, n);
    assert K == 2 * Pow2(31 - n);
    MulLe(2, K, N);
  }

  lemma AshrLogical(x: int, n: nat)
    requires Int32Min <= x < 0 && 0 < n < 32
    ensures Ashr(LogicalShift, x, n) == x / Pow2(n)
  {
    var N, K := Pow2(n), Pow2(32 - n);
    AshrParts(x, n);
    NegativeShift(x, n);
    var low := x / N + K;
    var mask := NotU32(OnesShr(n));
    ToU32Small(low);
    assert ToU32(SignedShr(LogicalShift, x, n)) == low;
    OrIntoHigh(32 - n, K, low, N - 1);
    assert BitOr(low, mask) == mask + low;
    assert Ashr(LogicalShift, x, n) == Wrap32(mask + low);
    Wrap32High(mask + low);
    assert mask + low - U32Modulus == x / N;
  }

  /** OR-ing a value below `2^m` into a multiple of `2^m` adds it. */
  lemma OrIntoHigh(m: nat, K: nat, low: nat, d: nat)
    requires K == Pow2(m) && low < K
    ensures BitOr(low, K * d) == K * d + low
  {
    BitOrHigh(m, 0, low, d);
    assert K * 0 + low == low;
    assert BitOr(0, d) == d;
  }

  lemma AshrArithmetic(x: int, n: nat)
    requires Int32Min <= x < 0 && 0 < n < 32
    ensures Ashr(ArithmeticShift, x, n) == x / Pow2(n)
  {
    var N, K := Pow2(n), Pow2(32 - n);
    AshrParts(x, n);
    var q := x / N;
    var low := q + K;
    var mask := NotU32(OnesShr(n));
    ToU32Negative(q);
    assert ToU32(SignedShr(ArithmeticShift, x, n)) == mask + low;
    OrMaskAgain(32 - n, K, low, N - 1);
    assert Ashr(ArithmeticShift, x, n) == Wrap32(mask + low);
    Wrap32High(mask + low);
    assert mask + low - U32Modulus == q;
  }

  /** OR-ing a multiple of `2^m` into a value that already holds it changes nothing. */
  lemma OrMaskAgain(m: nat, K: nat, low: nat, d: nat)
    requires K == Pow2(m) && low < K
    ensures BitOr(K * d + low, K * d) == K * d + low
  {
    BitOrHigh(m, d, low, d);
    BitOrSelf(d);
  }

  /** `ashr` shifts with sign extension whichever way the compiler shifts
      negative values: the result is `floor(x / 2^n)`. */
  lemma AshrIsFloorShift(impl: ShiftImpl, x: int, n: nat)
    requires IsInt32(x) && n < 32
    ensures Ashr(impl, x, n) == x / Pow2(n)
  {
    if x < 0 && n > 0 {
      match impl
      case LogicalShift => AshrLogical(x, n);
      case ArithmeticShift => AshrArithmetic(x, n);
    }
  }

  /** `sat16`: saturation into the half-size range `[-16384, 16383]`. */
  function Sat16(x: int): (r: int)
    requires IsInt16(x)
    ensures Nearest(-0x4000, 0x3FFF, x, r)
  {
    var s := if x > 0x3FFF then 0x3FFF else if x < -16384 then -16384 else x;
    Wrap16(s)
  }

  /** `q_add`: the int16 sum, saturated at both ends of the range. */
  function QAdd(a: int, b: int): (r: int)
    requires IsInt16(a) && IsInt16(b)
    ensures Nearest(Int16Min, Int16Max, a + b, r)
  {
    var temp := a + b;
    var temp1 := if temp > 0x7FFF then 0x7FFF else temp;
    var temp2 := if temp1 < -1 * 0x8000 then -1 * 0x8000 else temp1;
    Wrap16(temp2)
  }

  lemma QAddCommutes(a: int, b: int)
    requires IsInt16(a) && IsInt16(b)
    ensures QAdd(a, b) == QAdd(b, a)
  {
  }

  /** `q_mul`: both operands halved with `ashr` and multiplied in 32 bits;
      `impl` is how the compiler shifts negative values. */
  function QMul(impl: ShiftImpl, a: int, b: int): int
    requires IsInt16(a) && IsInt16(b)
  {
    var a1 := Ashr(impl, a, 1);
    var b1 := Ashr(impl, b, 1);
    QMulRound(impl, Wrap32(a1 * b1))
  }

  /** The rest of `q_mul` on the 32-bit product `temp`: rounded, doubled,
      reduced by 16 bits, saturated at half range and doubled again, with
      every C conversion to `int32_t` / `int16_t` written out. */
  function QMulRound(impl: ShiftImpl, temp: int): int
    requires IsInt32(temp)
  {
    var temp1 := Wrap32(temp + 1);
    var temp2 := Wrap32(temp1 * 2);
    var t1 := Wrap16(SignedShr(impl, temp2, 16));
    var result := Sat16(Wrap16(t1 * 2));
    Wrap16(result * 2)
  }

  /** For a product of two half-size operands no conversion in the tail of
      `q_mul` wraps. */
  lemma QMulRoundClosedForm(p: int)
    requires -0x1000_0000 <= p <= 0x1000_0000
    ensures QMulRound(ArithmeticShift, p)
      == 2 * Clamp(-0x4000, 0x3FFF, 2 * ((2 * (p + 1)) / 0x1_0000))
  {
    Pow2Of16();
    var temp2 := 2 * (p + 1);
    assert Wrap32(p + 1) == p + 1;
    assert Wrap32((p + 1) * 2) == temp2;
    var t1 := temp2 / 0x1_0000;
    DivBounds(temp2, 0x1_0000);
    assert -0x2000 <= t1 <= 0x2000;
    assert SignedShr(ArithmeticShift, temp2, 16) == t1;
    assert Wrap16(t1) == t1;
    assert Wrap16(t1 * 2) == 2 * t1;
    var result := Clamp(-0x4000, 0x3FFF, 2 * t1);
    assert Sat16(2 * t1) == result;
    assert Wrap16(result * 2) == 2 * result;
  }

  /** Under gcc's arithmetic shift no conversion in `q_mul` wraps: the result
      is `2 * sat16(2 * floor((2 * (floor(a/2) * floor(b/2) + 1)) / 2^16))`. */
  lemma QMulClosedForm(a: int, b: int)
    requires IsInt16(a) && IsInt16(b)
    ensures QMul(ArithmeticShift, a, b)
      == 2 * Clamp(-0x4000, 0x3FFF, 2 * ((2 * ((a / 2) * (b / 2) + 1)) / 0x1_0000))
  {
    AshrIsFloorShift(ArithmeticShift, a, 1);
    AshrIsFloorShift(ArithmeticShift, b, 1);
    MulBound(a / 2, b / 2, 0x4000);
    QMulRoundClosedForm((a / 2) * (b / 2));
  }

  /** `q_mul` keeps only multiples of four, except that the one product that
      overflows the half range, `-1.0 * -1.0`, saturates to 32766. */
  lemma QMulGrid(a: int, b: int)
    requires IsInt16(a) && IsInt16(b)
    ensures IsInt16(QMul(ArithmeticShift, a, b))
    ensures QMul(ArithmeticShift, a, b) % 4 == 0 || QMul(ArithmeticShift, a, b) == 32766
  {
    QMulClosedForm(a, b);
    DoubledClamp((2 * ((a / 2) * (b / 2) + 1)) / 0x1_0000);
  }

  lemma DoubledClamp(t: int)
    ensures var r := 2 * Clamp(-0x4000, 0x3FFF, 2 * t);
      IsInt16(r) && (r % 4 == 0 || r == 32766)
  {
  }

  lemma QMulCommutes(a: int, b: int)
    requires IsInt16(a) && IsInt16(b)
    ensures QMul(ArithmeticShift, a, b) == QMul(ArithmeticShift, b, a)
  {
    QMulClosedForm(a, b);
    QMulClosedForm(b, a);
    assert (a / 2) * (b / 2) == (b / 2) * (a / 2);
  }

  lemma QMulZero(a: int)
    requires IsInt16(a)
    ensures QMul(ArithmeticShift, a, 0) == 0
  {
    assert Ashr(ArithmeticShift, 0, 1) == 0;
    var a1 := Ashr(ArithmeticShift, a, 1);
    assert a1 * 0 == 0;
    assert Wrap32(a1 * 0) == 0;
    QMulRoundClosedForm(0);
    assert (2 * (0 + 1)) / 0x1_0000 == 0;
  }

  /** `-1.0 * -1.0` saturates to 32766 rather than overflowing to -32768. */
  lemma QMulMinusOneSquared()
    ensures QMul(ArithmeticShift, Int16Min, Int16Min) == 32766
  {
    QMulClosedForm(Int16Min, Int16Min);
    MinusOneSquaredTail();
  }

  lemma MinusOneSquaredTail()
    ensures 2 * Clamp(-0x4000, 0x3FFF, 2 * ((2 * ((Int16Min / 2) * (Int16Min / 2) + 1)) / 0x1_0000)) == 32766
  {
    var h := Int16Min / 2;
    assert h == -0x4000;
    var p := h * h;
    assert p == 0x1000_0000;
    DivUnique(2 * (p + 1), 0x1_0000, 0x2000);
  }
}
