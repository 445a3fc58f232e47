/** `process_loop`: once per audio period a station decides between writing
    silence, mixing in the neighbours it hears on the flight interphone,
    keeping the radios quiet while its own crew member talks, and mixing the
    enabled radio sources into the captured audio. */
module ProcessLoop {
  import opened Numeric
  import opened IpServer
  import opened TabletTypes
  import opened Tablet
  import opened Mixer
  import opened Wavefile

  /** What one period does: write silence, or write `audio_buf` once the
      flight mix, the radio mix, or neither has run on it. */
  datatype Plan = Silent | Write(flight: bool, radio: bool)

  /** The branches of `process_loop`, fed with the results of `active_radio`,
      `active_mic_int` and `active_offside`. `radio_en` is switched off by
      listening to the interphone and by the local switch being anywhere but
      off, in that order. */
  function Decide(radioEn: bool, mic: MicState, off: Offside): (p: Plan)
    ensures p == Silent <==> !radioEn && !Truthy(off.off1) && !Truthy(off.off2)
    ensures p.Write? ==> (p.flight <==> (Truthy(off.off1) || Truthy(off.off2)) && off.fltEn)
    ensures p.Write? ==>
      (p.radio <==> radioEn && !((Truthy(off.off1) || Truthy(off.off2)) && off.fltEn) && mic == MicOff)
    ensures p.Write? ==> !(p.flight && p.radio)
  {
    MicOffIsZero(mic);
    if !radioEn && !Truthy(off.off1) && !Truthy(off.off2) then Silent
    else
      var listening := (Truthy(off.off1) || Truthy(off.off2)) && off.fltEn;
      var radio1 := if listening then false else radioEn;
      var radio2 := if Truthy(mic) then false else radio1;
      Write(listening, radio2)
  }

  /** The plan of a station with tablet state `ts`, given every station's
      tablet snapshot. */
  function PlanOf(me: Whoami, ts: TabletState, tablets: ByStation<Snapshot>): Plan
    requires ValuesShape(ts.values)
  {
    Decide(RadioEnabled(ts.values), ActiveMicInt(ts.snapshot), ActiveOffside(me, ts.snapshot, tablets))
  }

  /** The buffers of a station that a period reads and writes: `audio_buf`,
      the two flight slots and their enables, the twelve radio rows, and the
      wave table. */
  datatype Buffers = Buffers(audio: seq<int>, fSources: seq<seq<int>>, fEnables: seq<bool>,
                             rSources: seq<seq<int>>, table: seq<WavData>)

  /** What reaches the sound card: the silence buffer, or the first
      `DefaultPeriod` samples of `audio_buf` (`audio_write` sends one period
      although every mix runs over the whole buffer). */
  datatype Output = Silence | Samples(s: seq<int>)

  /** A period either ends with an output or stops the server on a failed lookup. */
  datatype Outcome = Continue(bufs: Buffers, out: Output) | Exit(src: RSource)

  /** Derived arrays of the shapes the C declares, with every volume inside the gain table. */
  predicate SafeVolumes(v: Values) {
    ValuesShape(v) && InGainTable(v)
  }

  /** The buffers have their C shapes: int16 audio of at least one period,
      rows as long as the audio, and int16 assets. */
  predicate Ready(b: Buffers) {
    && AllInt16(b.audio) && |b.audio| >= DefaultPeriod
    && |b.fSources| == FSources && |b.fEnables| == FSources && Rows(|b.audio|, b.fSources)
    && |b.rSources| == RSources && Rows(|b.audio|, b.rSources)
    && |b.table| == WavCtrls && SampleTable(b.table)
  }

  /** Every station's `audio_buf` holds at least one copy block of int16 samples. */
  predicate PeerAudio(peers: ByStation<seq<int>>) {
    && |peers.captain| >= CopySamples && AllInt16(peers.captain)
    && |peers.firstOfficer| >= CopySamples && AllInt16(peers.firstOfficer)
    && |peers.observer| >= CopySamples && AllInt16(peers.observer)
  }

  /** `perform_flight_mixing` on a station's buffers. */
  function FlightMix(me: Whoami, v: Values, off: Offside, b: Buffers, peers: ByStation<seq<int>>,
                     gain: seq<int>): (b': Buffers)
    requires SafeVolumes(v) && Ready(b) && PeerAudio(peers) && ValidGainTable(gain)
    ensures Ready(b') && |b'.audio| == |b.audio|
    ensures b'.rSources == b.rSources && b'.table == b.table
    ensures b'.fEnables == [false, false]
  {
    var f := PerformFlightMixing(me, b.audio, b.fSources, b.fEnables, v.fVolumes, off.off1, off.off2, peers, gain);
    b.(audio := f.audio, fSources := f.fSources, fEnables := f.fEnables)
  }

  /** `wavefile_next_blocks` for one period followed by `perform_radio_mixing`. */
  function RadioMix(ts: TabletState, b: Buffers, gain: seq<int>): (o: Outcome)
    requires SafeVolumes(ts.values) && Ready(b) && ValidGainTable(gain)
    ensures o.Exit? <==> ts.values.rEnables[RIndex(RApp)] && ts.snapshot.appSelectCode == 3
    ensures o.Continue? ==> Ready(o.bufs) && |o.bufs.audio| == |b.audio|
    ensures o.Continue? ==> o.bufs.fSources == b.fSources && o.bufs.fEnables == b.fEnables
    ensures o.Continue? ==> o.out == Samples(o.bufs.audio[..DefaultPeriod])
    ensures o.Continue? ==>
      var f := FetchAll(b.table, b.rSources, ts.values.rEnables, ts.snapshot.navSelectCode,
                        ts.snapshot.appSelectCode, DefaultPeriod);
      && f.Fetched? && o.bufs.rSources == f.rSources && o.bufs.table == f.table
      && o.bufs.audio == PerformRadioMixing(b.audio, f.rSources, ts.values.rEnables, ts.values.rVolumes, gain, false)
  {
    var v := ts.values;
    var t := ts.snapshot;
    FetchKeepsSamples(b.table, b.rSources, v.rEnables, t.navSelectCode, t.appSelectCode, DefaultPeriod);
    match FetchAll(b.table, b.rSources, v.rEnables, t.navSelectCode, t.appSelectCode, DefaultPeriod)
    case LookupFailed(src) => Exit(src)
    case Fetched(table, rows) =>
      var audio := PerformRadioMixing(b.audio, rows, v.rEnables, v.rVolumes, gain, false);
      Continue(b.(audio := audio, rSources := rows, table := table), Samples(audio[..DefaultPeriod]))
  }

  /** The body of `process_loop` after the reads: the tablet state `ts` and
      the captured audio in `b` are this period's. */
  function Process(me: Whoami, ts: TabletState, b: Buffers, tablets: ByStation<Snapshot>,
                   peers: ByStation<seq<int>>, gain: seq<int>): (o: Outcome)
    requires SafeVolumes(ts.values) && Ready(b) && PeerAudio(peers) && ValidGainTable(gain)
    ensures o.Continue? ==> Ready(o.bufs) && |o.bufs.audio| == |b.audio|
    ensures o.Continue? && o.out.Samples? ==> o.out.s == o.bufs.audio[..DefaultPeriod]
  {
    match PlanOf(me, ts, tablets)
    case Silent => Continue(b, Silence)
    case Write(flight, radio) =>
      var b1 := if flight then FlightMix(me, ts.values, ActiveOffside(me, ts.snapshot, tablets), b, peers, gain) else b;
      if radio then RadioMix(ts, b1, gain) else Continue(b1, Samples(b1.audio[..DefaultPeriod]))
  }

  /** Silence is written exactly when no radio is enabled and neither
      neighbour is talking, and then no buffer is touched. */
  lemma SilenceIff(me: Whoami, ts: TabletState, b: Buffers, tablets: ByStation<Snapshot>,
                   peers: ByStation<seq<int>>, gain: seq<int>)
    requires SafeVolumes(ts.values) && Ready(b) && PeerAudio(peers) && ValidGainTable(gain)
    ensures var o := Process(me, ts, b, tablets, peers, gain);
      var off := ActiveOffside(me, ts.snapshot, tablets);
      (o.Continue? && o.out == Silence) <==> !RadioEnabled(ts.values) && !Truthy(off.off1) && !Truthy(off.off2)
    ensures var o := Process(me, ts, b, tablets, peers, gain);
      o.Continue? && o.out == Silence ==> o.bufs == b
  {
  }

  /** When a neighbour is talking and the local FLT select bit is set, the
      period runs the flight mix and not the radio mix: the radio rows and
      the wave table are left alone and the flight enables end cleared. */
  lemma ListeningMixesFlight(me: Whoami, ts: TabletState, b: Buffers, tablets: ByStation<Snapshot>,
                             peers: ByStation<seq<int>>, gain: seq<int>)
    requires SafeVolumes(ts.values) && Ready(b) && PeerAudio(peers) && ValidGainTable(gain)
    requires var off := ActiveOffside(me, ts.snapshot, tablets);
      (Truthy(off.off1) || Truthy(off.off2)) && off.fltEn
    ensures var o := Process(me, ts, b, tablets, peers, gain);
      var off := ActiveOffside(me, ts.snapshot, tablets);
      && o.Continue?
      && o.out == Samples(PerformFlightMixing(me, b.audio, b.fSources, b.fEnables, ts.values.fVolumes,
                                             off.off1, off.off2, peers, gain).audio[..DefaultPeriod])
      && o.bufs.rSources == b.rSources && o.bufs.table == b.table
      && o.bufs.fEnables == [false, false]
  {
  }

  /** The radio mix runs exactly when some radio is enabled, the station is
      not listening to the interphone, and its switch is off; the period
      stops the server only on that path, when APP is enabled with its
      selector at 3. */
  lemma RadioIff(me: Whoami, ts: TabletState, b: Buffers, tablets: ByStation<Snapshot>,
                 peers: ByStation<seq<int>>, gain: seq<int>)
    requires SafeVolumes(ts.values) && Ready(b) && PeerAudio(peers) && ValidGainTable(gain)
    ensures var p := PlanOf(me, ts, tablets);
      var off := ActiveOffside(me, ts.snapshot, tablets);
      (p.Write? && p.radio) <==>
        RadioEnabled(ts.values) && !((Truthy(off.off1) || Truthy(off.off2)) && off.fltEn)
        && ActiveMicInt(ts.snapshot) == MicOff
    ensures var p := PlanOf(me, ts, tablets);
      Process(me, ts, b, tablets, peers, gain).Exit? <==>
        p.Write? && p.radio && ts.values.rEnables[RIndex(RApp)] && ts.snapshot.appSelectCode == 3
    ensures var p := PlanOf(me, ts, tablets);
      var o := Process(me, ts, b, tablets, peers, gain);
      o.Continue? && p.Write? && p.radio ==>
        FetchAll(b.table, b.rSources, ts.values.rEnables, ts.snapshot.navSelectCode, ts.snapshot.appSelectCode,
                 DefaultPeriod).Fetched?
        && o.bufs.audio == PerformRadioMixing(b.audio, o.bufs.rSources, ts.values.rEnables, ts.values.rVolumes, gain, false)
        && o.bufs.fSources == b.fSources && o.bufs.fEnables == b.fEnables
        && var f := FetchAll(b.table, b.rSources, ts.values.rEnables, ts.snapshot.navSelectCode,
                             ts.snapshot.appSelectCode, DefaultPeriod);
           o.bufs.rSources == f.rSources && o.bufs.table == f.table
  {
  }

  /** While the local switch is at MIC or FLT and nobody is heard on the
      interphone, a period that is not silent writes the captured audio as
      it is: talking suppresses the radios but does not mute the station. */
  lemma TalkingPassesThrough(me: Whoami, ts: TabletState, b: Buffers, tablets: ByStation<Snapshot>,
                             peers: ByStation<seq<int>>, gain: seq<int>)
    requires SafeVolumes(ts.values) && Ready(b) && PeerAudio(peers) && ValidGainTable(gain)
    requires ActiveMicInt(ts.snapshot) != MicOff && RadioEnabled(ts.values)
    requires var off := ActiveOffside(me, ts.snapshot, tablets);
      !((Truthy(off.off1) || Truthy(off.off2)) && off.fltEn)
    ensures Process(me, ts, b, tablets, peers, gain) == Continue(b, Samples(b.audio[..DefaultPeriod]))
  {
  }

  /** A period that writes without mixing anything passes the captured
      audio through unchanged, and that happens exactly when something is
      on but neither mix runs. Besides the talking case this covers a
      neighbour heard while the station's own FLT select bit is clear and
      no radio is enabled: none of the tests of `process_loop` is taken,
      and `audio_write` sends the capture. */
  lemma NothingMixedPassesThrough(me: Whoami, ts: TabletState, b: Buffers, tablets: ByStation<Snapshot>,
                                  peers: ByStation<seq<int>>, gain: seq<int>)
    requires SafeVolumes(ts.values) && Ready(b) && PeerAudio(peers) && ValidGainTable(gain)
    ensures var off := ActiveOffside(me, ts.snapshot, tablets);
      var listening := (Truthy(off.off1) || Truthy(off.off2)) && off.fltEn;
      PlanOf(me, ts, tablets) == Write(false, false) <==>
        && (RadioEnabled(ts.values) || Truthy(off.off1) || Truthy(off.off2))
        && !listening
        && !(RadioEnabled(ts.values) && ActiveMicInt(ts.snapshot) == MicOff)
    ensures PlanOf(me, ts, tablets) == Write(false, false) ==>
      Process(me, ts, b, tablets, peers, gain) == Continue(b, Samples(b.audio[..DefaultPeriod]))
  {
  }

  /** Of the station's own snapshot a period reads only the switch position,
      the FLT select bit and the NAV and APP selectors, besides the derived
      arrays. In particular the ten mic-on flags that `active_mic_en` scans
      may be anything: its result decides nothing. */
  lemma MicEnIrrelevant(me: Whoami, ts: TabletState, t': Snapshot, b: Buffers, tablets: ByStation<Snapshot>,
                        peers: ByStation<seq<int>>, gain: seq<int>)
    requires SafeVolumes(ts.values) && Ready(b) && PeerAudio(peers) && ValidGainTable(gain)
    requires t'.micSwitchPos == ts.snapshot.micSwitchPos && t'.fltVolSel == ts.snapshot.fltVolSel
    requires t'.navSelectCode == ts.snapshot.navSelectCode && t'.appSelectCode == ts.snapshot.appSelectCode
    ensures Process(me, TabletState(t', ts.values), b, tablets, peers, gain) == Process(me, ts, b, tablets, peers, gain)
  {
    var ts' := TabletState(t', ts.values);
    var off := ActiveOffside(me, ts.snapshot, tablets);
    assert ActiveMicInt(t') == ActiveMicInt(ts.snapshot);
    assert ActiveOffside(me, t', tablets) == off;
    var p := PlanOf(me, ts, tablets);
    assert PlanOf(me, ts', tablets) == p;
    if p.Write? && p.radio {
      RadioMixReads(ts, ts', b, gain);
    }
  }

  /** The radio mix reads the snapshot only through the NAV and APP selectors. */
  lemma RadioMixReads(ts: TabletState, ts': TabletState, b: Buffers, gain: seq<int>)
    requires SafeVolumes(ts.values) && Ready(b) && ValidGainTable(gain) && ts'.values == ts.values
    requires ts'.snapshot.navSelectCode == ts.snapshot.navSelectCode
    requires ts'.snapshot.appSelectCode == ts.snapshot.appSelectCode
    ensures RadioMix(ts', b, gain) == RadioMix(ts, b, gain)
  {
  }

  /** A station between periods: who it is, its tablet state and its buffers. */
  datatype Station = Station(me: Whoami, tablet: TabletState, bufs: Buffers)

  /** The state every period starts from and leaves behind. */
  predicate Running(st: Station) {
    Consistent(st.tablet) && Ready(st.bufs)
  }

  /** The result of a period: the next state and what was written, or the stop. */
  datatype Step = Next(st: Station, out: Output) | Stop(src: RSource)

  /** One call of `process_loop`: `audio_read` overwrites the first
      `DefaultPeriod` samples of `audio_buf` with `captured` and leaves the
      rest as the previous period left it, `tablet_read` receives `n` bytes
      of `packet`, and the period runs on the result. */
  function Period(st: Station, captured: seq<int>, n: int, packet: Packet, tablets: ByStation<Snapshot>,
                  peers: ByStation<seq<int>>, gain: seq<int>): (r: Step)
    requires Running(st) && |captured| == DefaultPeriod && AllInt16(captured)
    requires PeerAudio(peers) && ValidGainTable(gain)
    ensures r.Next? ==> Running(r.st) && r.st.me == st.me && |r.st.bufs.audio| == |st.bufs.audio|
    ensures r.Next? ==> r.st.tablet == TabletRead(st.tablet, n, packet)
    ensures r.Next? && r.out.Samples? ==> r.out.s == r.st.bufs.audio[..DefaultPeriod]
    ensures r.Next? && r.out == Silence ==>
      r.st.bufs.audio[..DefaultPeriod] == captured
      && r.st.bufs.audio[DefaultPeriod..] == st.bufs.audio[DefaultPeriod..]
  {
    var ts := TabletRead(st.tablet, n, packet);
    var audio := captured + st.bufs.audio[DefaultPeriod..];
    assert AllInt16(audio);
    match Process(st.me, ts, st.bufs.(audio := audio), tablets, peers, gain)
    case Exit(src) => Stop(src)
    case Continue(b, out) => Next(Station(st.me, ts, b), out)
  }

  /** A station as `main` hands it to the period thread: the tablet state,
      the radio and flight rows and the flight enables zeroed by `calloc`;
      `audio_buf` as `malloc` left it, here any int16 contents of one
      buffer length; and the wave table as `wavefile_init` loaded it. */
  function InitialStation(me: Whoami, audio: seq<int>, table: seq<WavData>): (st: Station)
    ensures st.tablet == InitialTablet() && st.bufs.audio == audio && st.bufs.table == table
    ensures st.bufs.fEnables == [false, false] && |st.bufs.rSources| == RSources
    ensures forall i :: 0 <= i < RSources ==> st.bufs.rSources[i] == Zeros(|audio|)
  {
    Station(me, InitialTablet(),
            Buffers(audio, [Zeros(|audio|), Zeros(|audio|)], [false, false],
                    seq(RSources, _ => Zeros(|audio|)), table))
  }

  /** Whatever `audio_buf` holds and whatever sample files were loaded, the
      initial station may run a period; and every period that does not stop
      leaves a station that may run the next. */
  lemma InitialRunning(me: Whoami, audio: seq<int>, table: seq<WavData>)
    requires |audio| >= DefaultPeriod && AllInt16(audio)
    requires |table| == WavCtrls && SampleTable(table)
    ensures Running(InitialStation(me, audio, table))
  {
    InitialTabletConsistent();
  }
}
