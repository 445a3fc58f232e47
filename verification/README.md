# ipserver intercom: one audio period, modelled in Dafny

`ipserver` is a three-seat cockpit intercom server. It runs one station each for
the Captain, the First Officer and the Observer. Once per 48-sample audio period
a station:

1. reads its crew member's tablet, a 40-byte packed control datagram;
2. decides whether to write silence;
3. otherwise mixes in the flight interphone, i.e. the neighbours who are talking;
4. keeps the radios quiet while its own crew member talks;
5. otherwise mixes the enabled radio sources into the captured audio. The
   radio sources are wave assets played from a circular cursor.

This project models that per-period pipeline as pure functions and proves what
each step promises. It has seven modules:

- `Numeric` (numeric.dfy): integer helpers. They cover powers of two, the
  int16/int32 ranges, saturation, the C conversions to `int16_t`, `int32_t`
  and `unsigned int`, and bitwise OR on naturals.
- `IpServer` (ipserver.dfy): the vocabulary of `ipserver.h`. It holds the
  buffer constants, the radio-source, flight-slot, mic-state and wave-asset
  enumerations with their C values, and the per-identity registry with each
  seat's two neighbours. It also fixes the shape of the 4096-entry gain table.
- `TabletTypes` (tablet_types.dfy): the packed 40-byte
  `AoIPDataStateTabletType_t`. It gives the byte-exact decoder `Decode` and its
  inverse `Encode`, proved mutually inverse.
- `Tablet` (tablet.c): `tablet_update_values`, `active_radio`,
  `active_mic_int`, `active_mic_en`, `active_offside` and the receive rule of
  `tablet_read`.
- `Mixer` (mixer.c): the radix-14 saturating mixer `_perform_mixing` and the
  radio and flight mixes built on it. It also has the Q15 helpers `ashr`,
  `sat16`, `q_mul` and `q_add`.
- `Wavefile` (wavefile.c): the wave-asset cursor `wavefile_next_block`, the
  source-to-asset lookup and `wavefile_next_blocks`.
- `WaveConfig` (wavefile.c): the `key = value` line grammar of
  `wavefile_load_config` and the name table of `wavefile_handle_setting`.
- `ProcessLoop` (process_loop.c): the live `process_loop` decision, the
  period's effect on a station's buffers, and the invariant every period keeps.

Things the program takes from outside become parameters:

- the captured audio, and the contents `malloc` leaves in `audio_buf`;
- the wave table `wavefile_init` loads;
- the received datagram and its byte count;
- the other stations' tablets and audio buffers;
- the gain table, whose contents are not part of this model.

The model follows the code on these points, even where a reader might expect
otherwise:

- A datagram is accepted whenever `recvfrom` returns any positive count, not
  only a full 40 bytes.
- Volume words are byte-swapped but never clamped at decode (`Tablet.UpdateValues`).
  The period model installs the clamped `Tablet.SafeValues` instead; see
  "## Findings" and the `Tablet.TabletRead` line under "## Left out".
- The flight mix adds into `audio_buf`; it does not replace it.
- `audio_buf` is two periods long (96 samples), and every mix runs over all of
  it. But `audio_read` fills only the first 48 samples and `audio_write` sends
  only those, so the second half carries over from period to period.
- The "I am talking" branch tests the switch position (`active_mic_int`), not
  the mic enables. It leaves the captured audio in place, so the station
  passes its input through rather than going silent.
- `active_mic_en` is computed and its result is never used.
- The NAV selector ADF_R fetches the ADF_L asset.

## Model

| member | source | states |
|---|---|---|
| IpServer.RSourceEnumeration | ipserver/ipserver.h:38-53 | the twelve radio sources, listed in enum order, are numbered 0..11 = R_SOURCES - 1, every source appears, and FLT is not among them |
| IpServer.RIndex | ipserver/ipserver.h:24 | every radio source indexes a row of the R_SOURCES-long per-source arrays |
| IpServer.FSlotEnumeration | ipserver/ipserver.h:55-59 | there are exactly two flight slots, off_1 = 0 and off_2 = 1, with distinct indices |
| IpServer.MicOffIsZero | ipserver/ipserver.h:62-78 | MIC_OFF is the one mic state whose C value is 0, so a truthiness test on a `mic_e` means "not MIC_OFF" |
| IpServer.WavCtrlEnumeration | ipserver/ipserver.h:80-100 | the seventeen wave assets wVHF_L..wAPP_MKR are numbered 0..16 in enum order, and every asset appears |
| IpServer.Neighbours | ipserver/tablet.c:106-123 | the two offside slots of a seat hold the other two seats, distinct from each other |
| TabletTypes.Bswap16 | ipserver/tablet.c:15 | `__bswap_16` exchanges the low and high byte of a word |
| TabletTypes.Encode | ipserver/AoIPDataStateTabletTypes.h:36-97 | a snapshot's memory image is 40 bytes, byte i being the packed struct's byte i |
| TabletTypes.DecodeEncode | ipserver/AoIPDataStateTabletTypes.h:36-97 | decoding the memory image of any snapshot gives the snapshot back |
| TabletTypes.EncodeDecode | ipserver/AoIPDataStateTabletTypes.h:36-97 | decoding loses nothing: re-encoding a decoded packet gives all 40 bytes back, padding included |
| TabletTypes.DecodeByte9 | ipserver/AoIPDataStateTabletTypes.h:46-51 | byte 9 bits 0-4, least significant first, are the SAT_1, SAT_2, NAV, APP and SPK volume-select flags, with 3 pad bits above |
| TabletTypes.DecodeByte10 | ipserver/AoIPDataStateTabletTypes.h:53-60 | byte 10 bits 0-7 are the VHF_L, VHF_C, VHF_R, FLT, CAB, PA, HF_L and HF_R volume-select flags |
| TabletTypes.DecodeByte11 | ipserver/AoIPDataStateTabletTypes.h:62-65 | byte 11 holds the Nav code in bits 0-1, App in 2-3, VBR in 4-5 and the mic switch in 6-7 |
| TabletTypes.DecodeByte36 | ipserver/AoIPDataStateTabletTypes.h:80-82 | byte 36 bits 0-1 are the SAT_1 and SAT_2 mic-on flags, with 6 pad bits above |
| TabletTypes.DecodeByte37 | ipserver/AoIPDataStateTabletTypes.h:84-91 | byte 37 bits 0-7 are the VHF_L..HF_R mic-on flags |
| TabletTypes.DecodeWords | ipserver/AoIPDataStateTabletTypes.h:67-93 | bytes 12-35 hold the twelve volume words in struct order, VHF_C first and NAV last, and bytes 38-39 hold SPK, each read little-endian |
| Tablet.UpdateValues | ipserver/tablet.c:7-49 | as written: each radio enable is its source's select bit, each radio volume is its byte-swapped word, and both flight volumes are the swapped FLT word |
| Tablet.ValuesFromPacket | ipserver/tablet.c:14-48 | against the packet: a source's enable is its bit at its byte and position, and its volume is `hi*256 + lo` of the word at its offset, all 16 bits kept |
| Tablet.FlightVolumesFromPacket | ipserver/tablet.c:10-11 | both flight volumes equal `p[16]*256 + p[17]`, the local FLT volume word |
| Tablet.ByteSwapExample | ipserver/tablet.c:17-18 | the wire bytes 0x00 0x64 of VHF_C read as volume 100, not 25600 |
| Tablet.UnclampedVolumeLeavesGainTable | ipserver/tablet.c:14-15 | as written, a packet can enable VHF_L with volume 4096, which is no index of the 4096-entry gain table |
| Tablet.ClampVolume | ipserver/ipserver.h:183 | a volume is saturated into [0, 4095], unchanged when already there |
| Tablet.SafeValues | ipserver/ipserver.h:183 | corrected update: the same enables, every volume a gain-table index, equal to the decoded one whenever that already is |
| Tablet.ActiveRadio | ipserver/tablet.c:51-58 | the scan returns true iff at least one of the twelve radio enables is set |
| Tablet.RadioEnabledBits | ipserver/tablet.c:51-58 | radio is enabled iff the volume-select bit of some radio source (FLT excluded) is set |
| Tablet.ActiveMicInt | ipserver/tablet.c:61-76 | the result is MIC iff the switch is MIC_POS, INT iff FLT_POS, and otherwise MIC_OFF |
| Tablet.UnnamedSwitchPosition | ipserver/AoIPDataStateTabletTypes.h:28-33 | the 2-bit switch field can hold 3, which has no `MicPos` name, and then the local mic reads as off |
| Tablet.ActiveMicEnIsScan | ipserver/tablet.c:82-93 | the ten overwriting tests equal a scan of the flags in the order FLT, CAB, PA, SAT_1, SAT_2, VHF_L, VHF_C, VHF_R, HF_L, HF_R |
| Tablet.MicEnScanIsLastSet | ipserver/tablet.c:82-93 | a scan of k flags is off iff none of them is set, and otherwise it is the selector of the last set flag |
| Tablet.ActiveMicEnIsLastSet | ipserver/tablet.c:80-101 | `active_mic_en` is MIC_OFF iff no mic-on flag is set, and otherwise the selector of the last set flag in test order |
| Tablet.LastTrueWinsExample | ipserver/tablet.c:85-89 | with CAB and VHF_L both on and nothing later, VHF_L wins |
| Tablet.OffsideState | ipserver/tablet.c:108 | a neighbour is MIC iff its switch is MIC_POS and FLT is on or selected; it is heard at all iff that holds or its switch is FLT_POS |
| Tablet.ActiveOffside | ipserver/tablet.c:104-134 | slots by seat: Captain (F, O), First Officer (C, O), Observer (F, C); `flt_en` is the station's own FLT select bit |
| Tablet.OffsideIgnoresOwnEntry | ipserver/tablet.c:106-123 | a station's own registry entry never affects its offside states |
| Tablet.TabletRead | ipserver/tablet.c:136-157 | a receive of n <= 0 bytes changes nothing; n > 0 replaces the snapshot by the decoded buffer; the derived arrays stay those of the snapshot, and equal the C's unclamped `UpdateValues` whenever every decoded volume indexes the gain table |
| Mixer.RoundRadix | ipserver/mixer.c:32-36 | adding 2^13 then shifting out 14 bits rounds to the nearest multiple of 2^14, ties upward |
| Mixer.MixSample | ipserver/mixer.c:38-41 | an output sample is the int16 value nearest to the rounded accumulator |
| Mixer.Mix | ipserver/mixer.c:18-42 | the reference mix has one int16 sample per destination sample |
| Mixer.PerformMixing | ipserver/mixer.c:9-43 | the per-sample, per-source accumulate-round-shift-saturate loop computes the reference mix |
| Mixer.AccumulatorFits | ipserver/mixer.c:21-33 | with at most twelve sources every product fits the 32-bit multiply and every partial sum fits the 64-bit accumulator |
| Mixer.MixAllDisabled | ipserver/mixer.c:21-36 | with no source enabled the destination comes back unchanged sample for sample |
| Mixer.MixPointwise | ipserver/mixer.c:18-30 | output sample i depends only on dest[i] and, for enabled sources, on their sample i and volume |
| Mixer.MixUnityGain | ipserver/mixer.c:18-42 | one enabled source at unity gain gives `q_add(dest[i], src[i])`, the saturated sum |
| Mixer.MixSaturationExample | ipserver/mixer.c:39 | 32767 plus 32767 at unity gain saturates to 32767 |
| Mixer.PerformRadioMixing | ipserver/mixer.c:46-49 | the radio mix keeps the audio length and yields int16 samples |
| Mixer.RadioMixingIgnoresMute | ipserver/mixer.c:46-49 | the `mute` argument has no effect on the radio mix |
| Mixer.CopyBlock | ipserver/mixer.c:56 | a BLOCK_SIZE-byte copy replaces the first 48 samples of a row by the source's and keeps the rest |
| Mixer.FillSlot | ipserver/mixer.c:55-58 | a slot takes the neighbour's block iff that neighbour's offside state is not MIC_OFF |
| Mixer.PerformFlightMixing | ipserver/mixer.c:51-88 | each slot holds its neighbour's block if that neighbour talks; the result is `Mix` of the audio with the filled slots, each enabled if its old enable was set or its neighbour talks; both enables end 0 |
| Mixer.FlightMixSilentNeighbours | ipserver/mixer.c:86-87 | with both enables clear and both neighbours off, the flight mix leaves the audio unchanged |
| Mixer.FlightMixAdds | ipserver/mixer.c:86 | with one neighbour talking at unity gain, each of the first 48 output samples is own sample plus neighbour's, saturated: the mix adds |
| Mixer.HighMask | ipserver/mixer.c:98 | `~(~0U >> n)` is the top n of the 32 bits |
| Mixer.AshrIsFloorShift | ipserver/mixer.c:95-101 | `ashr(x, n)` equals floor(x / 2^n), whether the compiler shifts negative ints arithmetically or logically |
| Mixer.AshrLogical | ipserver/mixer.c:97-98 | under a zero-filling `>>`, OR-ing in the mask restores the sign bits: the result is floor(x / 2^n) |
| Mixer.AshrArithmetic | ipserver/mixer.c:97-98 | under a sign-extending `>>`, the mask adds nothing: the result is floor(x / 2^n) |
| Mixer.Sat16 | ipserver/mixer.c:111-121 | `sat16` returns the point of [-16384, 16383] nearest to x |
| Mixer.QAdd | ipserver/mixer.c:157-171 | `q_add` returns the point of [-32768, 32767] nearest to a + b |
| Mixer.QAddCommutes | ipserver/mixer.c:157-171 | `q_add` is commutative |
| Mixer.QMulRoundClosedForm | ipserver/mixer.c:139-148 | for a product of two half-size operands no int32 or int16 conversion in the tail of `q_mul` wraps |
| Mixer.QMulClosedForm | ipserver/mixer.c:130-149 | `q_mul(a, b)` = 2 * sat16(2 * floor(2 * (floor(a/2) * floor(b/2) + 1) / 2^16)) |
| Mixer.QMulGrid | ipserver/mixer.c:144-146 | every `q_mul` result is an int16 multiple of four, except 32766 |
| Mixer.QMulCommutes | ipserver/mixer.c:130-149 | `q_mul` is commutative |
| Mixer.QMulZero | ipserver/mixer.c:130-149 | multiplying by 0 gives 0 |
| Mixer.QMulMinusOneSquared | ipserver/mixer.c:144-146 | -1.0 * -1.0 saturates to 32766 instead of overflowing |
| Wavefile.NextBlock | ipserver/wavefile.c:169-182 | wrong ctrl: status 0, nothing changes; request longer than the asset: -1, nothing changes; otherwise the cursor restarts at 0 if the block would pass the end, the block is the contiguous `buf[pos..pos+size)`, and the cursor advances by size |
| Wavefile.NextBlockKeepsCursor | ipserver/wavefile.c:174-178 | a cursor within the asset stays within it |
| Wavefile.PlayFrom | ipserver/wavefile.c:175-178 | k reads that fit before the end copy consecutive blocks, without gaps or overlaps |
| Wavefile.PlaysWholeAsset | ipserver/wavefile.c:175-178 | an asset of m whole blocks is played front to back, and the next read starts over at its beginning |
| Wavefile.LookupFails | ipserver/wavefile.c:133-166 | the lookup fails iff the source is APP and its selector is 3 |
| Wavefile.LookupInjective | ipserver/wavefile.c:133-166 | two radio sources never resolve to the same asset |
| Wavefile.LookupRange | ipserver/wavefile.c:146-153 | every asset but ADF_R backs some source under some selector setting; ADF_R fetches ADF_L |
| Wavefile.AssetsDistinct | ipserver/wavefile.c:133-166 | under one selector setting no two sources share an asset |
| Wavefile.FetchSkip | ipserver/wavefile.c:192 | visiting a disabled source changes no row and no slot |
| Wavefile.FetchStep | ipserver/wavefile.c:192-199 | visiting an enabled source fetches its row's next block from its asset's slot, as the slot stood before the call |
| Wavefile.FetchAllSpec | ipserver/wavefile.c:186-202 | fails iff APP is enabled with selector 3; otherwise each enabled row holds its asset's next block, the slots read have moved on, and unread slots are unchanged |
| Wavefile.FetchComplete | ipserver/wavefile.c:190-201 | once all twelve sources are visited, the rows and slots built one by one equal the reference outcome |
| Wavefile.NextBlocks | ipserver/wavefile.c:186-202 | the enum-order loop computes the reference outcome, including the fatal failed lookup |
| Wavefile.NextBlockSamples | ipserver/wavefile.c:177 | a fetched row holds int16 samples |
| Wavefile.FetchKeepsSamples | ipserver/wavefile.c:186-202 | a fetch keeps every asset's samples and the rows' length and int16 range |
| WaveConfig.Tokens | ipserver/wavefile.c:79 | every `strtok_r` token is non-empty and free of space, tab and newline |
| WaveConfig.TokensUnwords | ipserver/wavefile.c:103 | splitting words joined by spaces returns the words |
| WaveConfig.IndexOf | ipserver/wavefile.c:86 | `strchr` finds the first occurrence of the character, or reports none |
| WaveConfig.BlankLine | ipserver/wavefile.c:79-81 | a line of delimiters only is skipped |
| WaveConfig.CommentLine | ipserver/wavefile.c:83-84 | a line whose first token starts with `#` is skipped, however indented |
| WaveConfig.SettingForms | ipserver/wavefile.c:86-128 | `k=v`, `k= v`, `k =v` and `k = v` all bind k to v |
| WaveConfig.MissingEqualsForms | ipserver/wavefile.c:103-116 | a key alone, or followed by a token not starting with `=`, is the missing-`=` error |
| WaveConfig.DanglingEquals | ipserver/wavefile.c:109-128 | `k=` and `k =` with nothing after them bind nothing and are no error |
| WaveConfig.NameRoundTrip | ipserver/wavefile.c:38-54 | every asset has exactly one accepted name, and that name maps back to it |
| WaveConfig.EffectOf | ipserver/wavefile.c:34-62 | a setting with a known name binds that asset to the value; an unknown name is fatal; a missing `=` is fatal; every other line does nothing |
| WaveConfig.ApplyFails | ipserver/wavefile.c:76-129 | the load fails iff a fatal line follows, and the error names the first one and its kind |
| WaveConfig.ApplyBinds | ipserver/wavefile.c:59-60 | a successful load binds exactly the assets some line binds, each to the file of the last such line |
| WaveConfig.LoadConfigSpec | ipserver/wavefile.c:64-130 | loading fails at the first fatal line iff one exists; otherwise an asset is bound iff some line binds it, to the file of the last such line |
| WaveConfig.UnknownKeyIsFatal | ipserver/wavefile.c:55-57 | `k=v` with an unknown k stops the load at line 1 |
| WaveConfig.DanglingIsHarmless | ipserver/wavefile.c:121-128 | `k =` alone binds nothing and the load succeeds, whatever k is |
| ProcessLoop.Decide | ipserver/process_loop.c:32-56 | silent iff no radio and no neighbour talking; flight mix iff a neighbour talks and FLT is selected; radio mix iff radio enabled, not listening, and the switch off; never both |
| ProcessLoop.FlightMix | ipserver/process_loop.c:37-41 | the flight mix keeps the buffers' shapes, leaves the radio rows and wave table alone, and clears both flight enables |
| ProcessLoop.RadioMix | ipserver/process_loop.c:51-56 | the period stops iff APP is enabled with selector 3. Otherwise the flight buffers are untouched, and the radio rows and wave table are the ones `wavefile_next_blocks` just fetched and advanced. The audio is the radio mix of those fetched rows, and the output is its first `DEFAULT_PERIOD` samples |
| ProcessLoop.Process | ipserver/process_loop.c:32-61 | a period that continues keeps the buffers' shapes and, unless silent, outputs exactly the first `DEFAULT_PERIOD` samples of `audio_buf` (ipserver/audio.c:164) |
| ProcessLoop.SilenceIff | ipserver/process_loop.c:33-34 | silence is written iff no radio is enabled and neither neighbour talks, and then no buffer changes |
| ProcessLoop.ListeningMixesFlight | ipserver/process_loop.c:36-41 | with a neighbour talking and FLT selected, the output is the flight mix and the radio rows and wave table are untouched |
| ProcessLoop.RadioIff | ipserver/process_loop.c:43-56 | radio mixing runs iff radio is enabled, the station is not listening, and the switch is off; the server stops only on that path with APP at selector 3; on it the rows and wave table are those `FetchAll` returns, and the audio is their radio mix |
| ProcessLoop.NothingMixedPassesThrough | ipserver/process_loop.c:33-61 | a period writes without mixing iff something is on but neither mix runs, which includes a neighbour heard with the station's own FLT select bit clear and no radio enabled; it then writes the captured audio unchanged |
| ProcessLoop.TalkingPassesThrough | ipserver/process_loop.c:43-49 | with the switch at MIC or FLT, radio enabled and nobody heard, the captured audio is written unchanged |
| ProcessLoop.MicEnIrrelevant | ipserver/process_loop.c:24 | the mic-on flags `active_mic_en` scans change nothing in a period's outcome |
| ProcessLoop.RadioMixReads | ipserver/wavefile.c:146-161 | the radio path reads the station's snapshot only through its NAV and APP selectors |
| ProcessLoop.Period | ipserver/process_loop.c:7-68 | one period's capture fills the first `DEFAULT_PERIOD` samples of `audio_buf` (ipserver/audio.c:144). A period that does not stop keeps the station running, with its seat and audio length, and takes the read's tablet state. What it writes is the head of the new `audio_buf`. A silent period leaves the capture in the head and the previous tail behind it |
| ProcessLoop.InitialRunning | ipserver/main.c:221-264 | the station `main` hands to its thread can run a period. That holds for any int16 contents of the `malloc`ed `audio_buf` and any loaded wave table; the tablet state and the rows are `calloc`-zeroed |

## Left out

- Audio I/O (`audio.c`), the UDP socket (`udp.c`) and libsndfile reads (`wavefile_read_file`): these are foreign I/O. Captured audio, received bytes and asset samples are parameters.
- The `recvfrom` length: any positive count installs the whole 40-byte buffer. Short reads, which leave stale bytes, are represented by the caller's choice of packet.
- `fgets` line chunking at 255 characters, and NUL bytes inside a line: a configuration file is modelled as its sequence of lines.
- Error messages and their text: an error is a tagged outcome (`Exit`, `Failed`) carrying the line or source that caused it.
- The `last_*` edge caches and all debug printing: they only feed log lines and never influence a result.
- The `default:` branches of `active_offside` and `perform_flight_mixing`: the seat is a three-valued datatype, so no other identity exists.
- Threads and the barrier: one period of one station is a sequential function. The neighbours' snapshots and audio are inputs read at that moment.
- The contents of `volume_gain_table`: it is a parameter of 4096 int16 entries, so nothing about its monotonicity is proved.
- `audio_silence` writing `silence_buf`: modelled as the `Silence` output.
- The `#if 0` variants of `process_loop` and the dead pipeline in `main.c`: dead code.
- Mixer.Mix: as the reference definition its own contract states length and int16 range only. Its sample-by-sample meaning is stated by `Mixer.MixAllDisabled`, `Mixer.MixPointwise` and `Mixer.MixUnityGain`, and `Mixer.PerformMixing` proves the C loop computes it.
- Mixer.PerformRadioMixing: its contract states length and int16 range only. It is `Mixer.Mix` over the twelve radio rows, so the `Mix` lemmas above (`MixAllDisabled`, `MixPointwise`, `MixUnityGain`) are what it promises sample by sample.
- Tablet.TabletRead: installs the clamped `Tablet.SafeValues`, not the unclamped values `tablet_update_values` stores. With an enabled volume of 4096 or more, the C indexes `volume_gain_table` out of bounds (ipserver/mixer.c:27); the model mixes at gain index 4095 instead. The as-written decoder is `Tablet.UpdateValues`, and `Tablet.UnclampedVolumeLeavesGainTable` exhibits the out-of-bounds index; see "## Findings". When every volume is in range the two agree, which `Tablet.TabletRead` states.
- Short `audio_read`s: a capture of fewer than 48 frames leaves stale samples in the head of `audio_buf`; the caller's choice of `captured` stands for them. The priming writes in `audio_init` are I/O.
- Mixer.QMulClosedForm: proved for gcc's arithmetic `>>` on negative ints only; `ashr` itself is proved for both shift behaviours.

## Findings

| source | as written | input that shows it | evidently intended | confidence | as-written member | corrected member |
|---|---|---|---|---|---|---|
| ipserver/tablet.c:14-48 | each radio and flight volume is the byte-swapped 16-bit word, never clamped, and `_perform_mixing` indexes the 4096-entry `volume_gain_table` with it (ipserver/mixer.c:27) | a datagram with VHF_L selected (byte 10 = 0x01) and VHF_L volume bytes 0x10 0x00 gives volume 4096, one past the table | volume codes saturated into [0, 4095] before use as a gain index | not executed | Tablet.UnclampedVolumeLeavesGainTable | Tablet.SafeValues |
