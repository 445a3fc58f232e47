/** The wave-table side of `wavefile.c`: each configured asset is a looping
    sample buffer with a read cursor, every radio source is backed by one
    asset, and once per period every enabled source is fed the next block of
    its asset. */
module Wavefile {
  import opened Numeric
  import opened IpServer
  import opened TabletTypes

  /** `wav_t`: the asset a slot was configured for, its samples (`bufsize16`
      is `|buf|`) and the read cursor `bufpos16`. */
  datatype WavData = WavData(ctrl: WavCtrl, buf: seq<int>, pos: nat)

  /** A slot as `memset(.., 0, ..)` leaves it: it claims the asset with enum
      value 0, `wVHF_L`, and holds no samples. */
  const EmptySlot: WavData := WavData(WVhfL, [], 0)

  /** What `wavefile_next_block` returns and leaves behind: its status, the
      slot with its moved cursor, and the destination row. */
  datatype Block = Block(status: int, slot: WavData, dst: seq<int>)

  /** The call really copies: the slot holds the asset asked for and has at
      least `size` samples. */
  predicate Copies(slot: WavData, wav: WavCtrl, size: nat) {
    wav == slot.ctrl && size <= |slot.buf|
  }

  /** `wavefile_next_block`: copy the next `size` samples of asset `wav` to
      the front of `dst`, restarting the asset from its beginning when fewer
      than `size` samples are left. */
  function NextBlock(slot: WavData, wav: WavCtrl, dst: seq<int>, size: nat): (r: Block)
    requires size <= |dst|
    ensures r.status == (if wav == slot.ctrl && size > |slot.buf| then -1 else 0)
    ensures r.slot.ctrl == slot.ctrl && r.slot.buf == slot.buf
    ensures |r.dst| == |dst| && r.dst[size..] == dst[size..]
    ensures !Copies(slot, wav, size) ==> r.slot == slot && r.dst == dst
    ensures Copies(slot, wav, size) ==>
      && size <= r.slot.pos <= |slot.buf|
      && r.dst[..size] == slot.buf[r.slot.pos - size .. r.slot.pos]
      && r.slot.pos == (if slot.pos + size <= |slot.buf| then slot.pos + size else size)
  {
    if wav != slot.ctrl then Block(0, slot, dst)
    else if size > |slot.buf| then Block(-1, slot, dst)
    else
      var p := if slot.pos + size > |slot.buf| then 0 else slot.pos;
      Block(0, slot.(pos := p + size), slot.buf[p .. p + size] + dst[size..])
  }

  /** A cursor inside the buffer stays inside it, whatever the call. */
  lemma NextBlockKeepsCursor(slot: WavData, wav: WavCtrl, dst: seq<int>, size: nat)
    requires size <= |dst| && slot.pos <= |slot.buf|
    ensures NextBlock(slot, wav, dst, size).slot.pos <= |slot.buf|
  {
  }

  /** `n` successive reads of a slot's own asset: the samples they copy, in
      order, and the slot they leave. */
  function Play(slot: WavData, size: nat, n: nat): (seq<int>, WavData)
    decreases n
  {
    if n == 0 then ([], slot)
    else
      var b := NextBlock(slot, slot.ctrl, Zeros(size), size);
      var rest := Play(b.slot, size, n - 1);
      (b.dst + rest.0, rest.1)
  }

  /** `k` blocks of `size` samples, counted by repeated addition. */
  function Blocks(k: nat, size: nat): nat {
    if k == 0 then 0 else Blocks(k - 1, size) + size
  }

  lemma {:induction false} BlocksIsProduct(k: nat, size: nat)
    ensures Blocks(k, size) == k * size
  {
    if k > 0 {
      BlocksIsProduct(k - 1, size);
      MulDist(size, k - 1, 1);
    }
  }

  /** From cursor `a`, `k` reads that fit before the end copy the next
      `k * size` samples in order and leave the cursor just past them. */
  lemma {:induction false} PlayFrom(c: WavCtrl, buf: seq<int>, size: nat, a: nat, k: nat)
    requires a + Blocks(k, size) <= |buf|
    ensures Play(WavData(c, buf, a), size, k) == (buf[a .. a + Blocks(k, size)], WavData(c, buf, a + Blocks(k, size)))
    decreases k
  {
    if k > 0 {
      var e := a + Blocks(k, size);
      var blk := NextBlock(WavData(c, buf, a), c, Zeros(size), size);
      assert blk.slot == WavData(c, buf, a + size);
      assert blk.dst == buf[a .. a + size];
      assert e == a + size + Blocks(k - 1, size);
      PlayFrom(c, buf, size, a + size, k - 1);
      var rest := Play(WavData(c, buf, a + size), size, k - 1);
      assert rest == (buf[a + size .. e], WavData(c, buf, e));
      assert Play(WavData(c, buf, a), size, k) == (blk.dst + rest.0, rest.1);
      assert buf[a .. a + size] + buf[a + size .. e] == buf[a .. e];
    } else {
      assert buf[a .. a] == [];
    }
  }

  /** The cursor streams an asset whose length is a whole number `m` of
      blocks front to back without gaps or overlaps, and the read after the
      last block starts over at the beginning. */
  lemma PlaysWholeAsset(c: WavCtrl, buf: seq<int>, size: nat, m: nat, dst: seq<int>)
    requires 0 < size && 0 < m && |buf| == m * size && size <= |dst|
    ensures Play(WavData(c, buf, 0), size, m) == (buf, WavData(c, buf, |buf|))
    ensures NextBlock(WavData(c, buf, |buf|), c, dst, size).dst[..size] == buf[..size]
  {
    BlocksIsProduct(m, size);
    PlayFrom(c, buf, size, 0, m);
    assert buf[0 .. |buf|] == buf;
    assert Blocks(m, size) >= size;
  }

  /** `wavefile_lookup_src`: the asset behind a radio source. NAV follows the
      NAV selector and APP the APP selector; `None` is the C `-1`. */
  function LookupSrc(src: RSource, nav: bv2, app: bv2): Option<WavCtrl> {
    match src
    case RVhfL => Some(WVhfL)
    case RVhfC => Some(WVhfC)
    case RVhfR => Some(WVhfR)
    case RCab => Some(WCab)
    case RPa => Some(WPa)
    case RHfL => Some(WHfL)
    case RHfR => Some(WHfR)
    case RSat1 => Some(WSat1)
    case RSat2 => Some(WSat2)
    case RSpk => Some(WSpkr)
    case RNav =>
      if nav == NavVorL then Some(WVorL)
      else if nav == NavVorR then Some(WVorR)
      else if nav == NavAdfL then Some(WAdfL)
      else if nav == NavAdfR then Some(WAdfL)
      else None
    case RApp =>
      if app == AppL then Some(WAppL)
      else if app == AppR then Some(WAppR)
      else if app == AppMkr then Some(WAppMkr)
      else None
  }

  /** The lookup fails exactly for APP with the unnamed selector code 3: the
      NAV selector's two bits have a name for every value. */
  lemma LookupFails(src: RSource, nav: bv2, app: bv2)
    ensures LookupSrc(src, nav, app).None? <==> src == RApp && app == 3
  {
  }

  /** Two radio sources never share an asset. */
  lemma LookupInjective(s1: RSource, s2: RSource, nav: bv2, app: bv2)
    requires LookupSrc(s1, nav, app).Some? && LookupSrc(s1, nav, app) == LookupSrc(s2, nav, app)
    ensures s1 == s2
  {
  }

  /** Every asset but ADF_R backs some source under some selector setting;
      the ADF_R asset is never read, because the ADF_R selector fetches ADF_L. */
  lemma LookupRange(w: WavCtrl)
    ensures (exists src, nav, app :: LookupSrc(src, nav, app) == Some(w)) <==> w != WAdfR
  {
    if w != WAdfR {
      var x: (RSource, bv2, bv2) :=
        match w
        case WVhfL => (RVhfL, 0, 0)   case WVhfC => (RVhfC, 0, 0)   case WVhfR => (RVhfR, 0, 0)
        case WCab => (RCab, 0, 0)     case WPa => (RPa, 0, 0)       case WHfL => (RHfL, 0, 0)
        case WHfR => (RHfR, 0, 0)     case WSat1 => (RSat1, 0, 0)   case WSat2 => (RSat2, 0, 0)
        case WSpkr => (RSpk, 0, 0)    case WVorL => (RNav, 0, 0)    case WVorR => (RNav, 1, 0)
        case WAdfL => (RNav, 2, 0)    case WAdfR => (RNav, 3, 0)    case WAppL => (RApp, 0, 0)
        case WAppR => (RApp, 0, 1)    case WAppMkr => (RApp, 0, 2);
      assert LookupSrc(x.0, x.1, x.2) == Some(w);
    }
  }

  /** The asset behind every radio source, in enum order, under one setting
      of the NAV and APP selectors. */
  function Assets(nav: bv2, app: bv2): (assets: seq<Option<WavCtrl>>)
    ensures |assets| == RSources
    ensures forall i :: 0 <= i < RSources ==> assets[i] == LookupSrc(AllRSources[i], nav, app)
  {
    RSourceEnumeration();
    seq(RSources, i requires 0 <= i < RSources => LookupSrc(AllRSources[i], nav, app))
  }

  /** No two sources read the same asset. */
  predicate Distinct(assets: seq<Option<WavCtrl>>) {
    forall j, k :: 0 <= j < |assets| && 0 <= k < |assets| && assets[j].Some? && assets[j] == assets[k] ==> j == k
  }

  lemma AssetsDistinct(nav: bv2, app: bv2)
    ensures Distinct(Assets(nav, app))
  {
    RSourceEnumeration();
    var assets := Assets(nav, app);
    forall j, k | 0 <= j < RSources && 0 <= k < RSources && assets[j].Some? && assets[j] == assets[k]
      ensures j == k
    {
      LookupInjective(AllRSources[j], AllRSources[k], nav, app);
    }
  }

  /** Source `i` is enabled and backed by asset `c`. */
  predicate Feeds(rEnables: seq<bool>, assets: seq<Option<WavCtrl>>, i: nat, c: WavCtrl)
    requires i < |rEnables| && i < |assets|
  {
    rEnables[i] && assets[i] == Some(c)
  }

  /** The arrays `wavefile_next_blocks` works on, with their C shapes, and a
      block size that fits every radio row. */
  predicate FetchShape(table: seq<WavData>, rSources: seq<seq<int>>, rEnables: seq<bool>, size: nat) {
    && |table| == WavCtrls
    && |rSources| == RSources
    && |rEnables| == RSources
    && forall i :: 0 <= i < RSources ==> size <= |rSources[i]|
  }

  /** The outcome of `wavefile_next_blocks`: the updated slots and radio rows,
      or the failed lookup that makes the server exit. */
  datatype Fetch = Fetched(table: seq<WavData>, rSources: seq<seq<int>>) | LookupFailed(src: RSource)

  /** Row `i` after a fetch, computed from the state before it: an enabled
      source gets the next block of its asset; a disabled one keeps its row. */
  function FetchedRow(table: seq<WavData>, rSources: seq<seq<int>>, rEnables: seq<bool>,
                      assets: seq<Option<WavCtrl>>, size: nat, i: nat): seq<int>
    requires FetchShape(table, rSources, rEnables, size) && |assets| == RSources && i < RSources
  {
    match assets[i]
    case Some(w) =>
      if rEnables[i] then NextBlock(table[WIndex(w)], w, rSources[i], size).dst else rSources[i]
    case None => rSources[i]
  }

  /** The slot of asset `c` once the sources below `i` have been visited:
      advanced by the one enabled source that reads it, if any. */
  function SlotAfter(table: seq<WavData>, rSources: seq<seq<int>>, rEnables: seq<bool>,
                     assets: seq<Option<WavCtrl>>, size: nat, i: nat, c: WavCtrl): WavData
    requires FetchShape(table, rSources, rEnables, size) && |assets| == RSources && i <= RSources
  {
    if i == 0 then table[WIndex(c)]
    else if Feeds(rEnables, assets, i - 1, c) then NextBlock(table[WIndex(c)], c, rSources[i - 1], size).slot
    else SlotAfter(table, rSources, rEnables, assets, size, i - 1, c)
  }

  /** A slot no visited source reads is untouched. */
  lemma {:induction false} SlotUntouched(table: seq<WavData>, rSources: seq<seq<int>>, rEnables: seq<bool>,
                                         assets: seq<Option<WavCtrl>>, size: nat, i: nat, c: WavCtrl)
    requires FetchShape(table, rSources, rEnables, size) && |assets| == RSources && i <= RSources
    requires forall j :: 0 <= j < i ==> !Feeds(rEnables, assets, j, c)
    ensures SlotAfter(table, rSources, rEnables, assets, size, i, c) == table[WIndex(c)]
  {
    if i > 0 {
      SlotUntouched(table, rSources, rEnables, assets, size, i - 1, c);
    }
  }

  /** The slot a visited source reads is that source's fetch from the slot as
      it was before the call. */
  lemma {:induction false} SlotFetched(table: seq<WavData>, rSources: seq<seq<int>>, rEnables: seq<bool>,
                                       assets: seq<Option<WavCtrl>>, size: nat, i: nat, c: WavCtrl, j: nat)
    requires FetchShape(table, rSources, rEnables, size) && |assets| == RSources && i <= RSources
    requires Distinct(assets) && j < i && Feeds(rEnables, assets, j, c)
    ensures SlotAfter(table, rSources, rEnables, assets, size, i, c) == NextBlock(table[WIndex(c)], c, rSources[j], size).slot
  {
    if !Feeds(rEnables, assets, i - 1, c) {
      SlotFetched(table, rSources, rEnables, assets, size, i - 1, c, j);
    }
  }

  /** The state after `wavefile_next_blocks` has visited the sources below
      `i`: those rows and the slots of their assets are fetched, everything
      else is as before the call. */
  predicate FetchedUpTo(table: seq<WavData>, rSources: seq<seq<int>>, rEnables: seq<bool>,
                        assets: seq<Option<WavCtrl>>, size: nat, i: nat, t: seq<WavData>, rows: seq<seq<int>>)
    requires FetchShape(table, rSources, rEnables, size) && |assets| == RSources && i <= RSources
  {
    && |t| == WavCtrls && |rows| == RSources
    && (forall j :: 0 <= j < i && rEnables[j] ==> assets[j].Some?)
    && (forall j :: 0 <= j < RSources ==>
          rows[j] == if j < i then FetchedRow(table, rSources, rEnables, assets, size, j) else rSources[j])
    && (forall c :: t[WIndex(c)] == SlotAfter(table, rSources, rEnables, assets, size, i, c))
  }

  lemma FetchSkip(table: seq<WavData>, rSources: seq<seq<int>>, rEnables: seq<bool>,
                  assets: seq<Option<WavCtrl>>, size: nat, i: nat, t: seq<WavData>, rows: seq<seq<int>>)
    requires FetchShape(table, rSources, rEnables, size) && |assets| == RSources && i < RSources && !rEnables[i]
    requires FetchedUpTo(table, rSources, rEnables, assets, size, i, t, rows)
    ensures FetchedUpTo(table, rSources, rEnables, assets, size, i + 1, t, rows)
  {
    assert rows[i] == rSources[i] == FetchedRow(table, rSources, rEnables, assets, size, i);
    forall j | 0 <= j < RSources
      ensures rows[j] == if j < i + 1 then FetchedRow(table, rSources, rEnables, assets, size, j) else rSources[j]
    {
      if j != i {
        assert rows[j] == if j < i then FetchedRow(table, rSources, rEnables, assets, size, j) else rSources[j];
      }
    }
    forall c
      ensures t[WIndex(c)] == SlotAfter(table, rSources, rEnables, assets, size, i + 1, c)
    {
      assert !Feeds(rEnables, assets, i, c);
      assert t[WIndex(c)] == SlotAfter(table, rSources, rEnables, assets, size, i, c);
    }
  }

  lemma FetchStep(table: seq<WavData>, rSources: seq<seq<int>>, rEnables: seq<bool>,
                  assets: seq<Option<WavCtrl>>, size: nat, i: nat, t: seq<WavData>, rows: seq<seq<int>>, c: WavCtrl)
    requires FetchShape(table, rSources, rEnables, size) && |assets| == RSources && i < RSources
    requires Distinct(assets)
    requires FetchedUpTo(table, rSources, rEnables, assets, size, i, t, rows)
    requires rEnables[i] && assets[i] == Some(c)
    ensures size <= |rows[i]|
    ensures var b := NextBlock(t[WIndex(c)], c, rows[i], size);
      FetchedUpTo(table, rSources, rEnables, assets, size, i + 1, t[WIndex(c) := b.slot], rows[i := b.dst])
  {
    WavCtrlEnumeration();
    SlotUntouched(table, rSources, rEnables, assets, size, i, c);
    assert t[WIndex(c)] == table[WIndex(c)];
    var b := NextBlock(t[WIndex(c)], c, rows[i], size);
    var t' := t[WIndex(c) := b.slot];
    forall d
      ensures t'[WIndex(d)] == SlotAfter(table, rSources, rEnables, assets, size, i + 1, d)
    {
      if d != c {
        assert WIndex(d) != WIndex(c);
      }
    }
  }

  /** The reference outcome of `wavefile_next_blocks`: the failed lookup when
      APP is enabled with its selector at 3, otherwise every row and every
      slot fetched at once from the state before the call. */
  function FetchAll(table: seq<WavData>, rSources: seq<seq<int>>, rEnables: seq<bool>,
                    nav: bv2, app: bv2, size: nat): (r: Fetch)
    requires FetchShape(table, rSources, rEnables, size)
    ensures r.Fetched? ==> |r.table| == WavCtrls && |r.rSources| == RSources
  {
    if rEnables[RIndex(RApp)] && app == 3 then LookupFailed(RApp)
    else
      WavCtrlEnumeration();
      var assets := Assets(nav, app);
      Fetched(seq(WavCtrls, w requires 0 <= w < WavCtrls =>
                SlotAfter(table, rSources, rEnables, assets, size, RSources, AllWavCtrls[w])),
              seq(RSources, i requires 0 <= i < RSources => FetchedRow(table, rSources, rEnables, assets, size, i)))
  }

  /** What the reference outcome means: the lookup fails exactly when APP is
      enabled with its selector at 3; otherwise each enabled source's row
      holds the next block of its asset, the slot it reads has moved on from
      where it was before the call, and every slot no enabled source reads is
      as it was. */
  lemma FetchAllSpec(table: seq<WavData>, rSources: seq<seq<int>>, rEnables: seq<bool>,
                     nav: bv2, app: bv2, size: nat)
    requires FetchShape(table, rSources, rEnables, size)
    ensures FetchAll(table, rSources, rEnables, nav, app, size).LookupFailed? <==> rEnables[RIndex(RApp)] && app == 3
    ensures FetchAll(table, rSources, rEnables, nav, app, size).LookupFailed? ==>
      FetchAll(table, rSources, rEnables, nav, app, size).src == RApp
    ensures var r := FetchAll(table, rSources, rEnables, nav, app, size);
      r.Fetched? ==> forall i :: 0 <= i < RSources ==>
        r.rSources[i] == FetchedRow(table, rSources, rEnables, Assets(nav, app), size, i)
    ensures var r := FetchAll(table, rSources, rEnables, nav, app, size);
      r.Fetched? ==> forall c, i :: 0 <= i < RSources && Feeds(rEnables, Assets(nav, app), i, c) ==>
        r.table[WIndex(c)] == NextBlock(table[WIndex(c)], c, rSources[i], size).slot
    ensures var r := FetchAll(table, rSources, rEnables, nav, app, size);
      r.Fetched? ==> forall c ::
        (forall i :: 0 <= i < RSources ==> !Feeds(rEnables, Assets(nav, app), i, c)) ==> r.table[WIndex(c)] == table[WIndex(c)]
  {
    var r := FetchAll(table, rSources, rEnables, nav, app, size);
    if r.Fetched? {
      var assets := Assets(nav, app);
      AssetsDistinct(nav, app);
      WavCtrlEnumeration();
      forall c, j | 0 <= j < RSources && Feeds(rEnables, assets, j, c)
        ensures r.table[WIndex(c)] == NextBlock(table[WIndex(c)], c, rSources[j], size).slot
      {
        SlotFetched(table, rSources, rEnables, assets, size, RSources, c, j);
      }
      forall c | forall j :: 0 <= j < RSources ==> !Feeds(rEnables, assets, j, c)
        ensures r.table[WIndex(c)] == table[WIndex(c)]
      {
        SlotUntouched(table, rSources, rEnables, assets, size, RSources, c);
      }
    }
  }

  /** Once every source is visited without a failed lookup, the rows and
      slots the loop built are the reference outcome. */
  lemma FetchComplete(table: seq<WavData>, rSources: seq<seq<int>>, rEnables: seq<bool>,
                      nav: bv2, app: bv2, size: nat, t: seq<WavData>, rows: seq<seq<int>>)
    requires FetchShape(table, rSources, rEnables, size) && !(rEnables[RIndex(RApp)] && app == 3)
    requires FetchedUpTo(table, rSources, rEnables, Assets(nav, app), size, RSources, t, rows)
    ensures Fetched(t, rows) == FetchAll(table, rSources, rEnables, nav, app, size)
  {
    var r := FetchAll(table, rSources, rEnables, nav, app, size);
    WavCtrlEnumeration();
    forall w | 0 <= w < WavCtrls
      ensures t[w] == r.table[w]
    {
      assert t[WIndex(AllWavCtrls[w])] == t[w];
    }
  }

  /** `wavefile_next_blocks`: in enum order, every enabled radio source has
      the next block of its asset copied into its row, and a source with no
      asset ends the program. Each source reads a different asset, so visiting
      them one after another comes to the same as fetching every source from
      the state before the call. */
  method NextBlocks(table: seq<WavData>, rSources: seq<seq<int>>, rEnables: seq<bool>,
                    nav: bv2, app: bv2, size: nat) returns (r: Fetch)
    requires FetchShape(table, rSources, rEnables, size)
    ensures r == FetchAll(table, rSources, rEnables, nav, app, size)
  {
    RSourceEnumeration();
    ghost var assets := Assets(nav, app);
    AssetsDistinct(nav, app);
    var t, rows := table, rSources;
    var i := 0;
    while i < RSources
      invariant 0 <= i <= RSources
      invariant FetchedUpTo(table, rSources, rEnables, assets, size, i, t, rows)
    {
      if rEnables[i] {
        var w := LookupSrc(AllRSources[i], nav, app);
        if w.None? {
          LookupFails(AllRSources[i], nav, app);
          return LookupFailed(AllRSources[i]);
        }
        var c := w.value;
        FetchStep(table, rSources, rEnables, assets, size, i, t, rows, c);
        var b := NextBlock(t[WIndex(c)], c, rows[i], size);
        t := t[WIndex(c) := b.slot];
        rows := rows[i := b.dst];
      } else {
        FetchSkip(table, rSources, rEnables, assets, size, i, t, rows);
      }
      i := i + 1;
    }
    LookupFails(RApp, nav, app);
    FetchComplete(table, rSources, rEnables, nav, app, size, t, rows);
    return Fetched(t, rows);
  }

  /** Every asset holds int16 samples, as read from a 16-bit wave file. */
  predicate SampleTable(table: seq<WavData>) {
    forall w :: 0 <= w < |table| ==> AllInt16(table[w].buf)
  }

  /** A fetch copies samples of the asset or keeps the row's own. */
  lemma NextBlockSamples(slot: WavData, wav: WavCtrl, dst: seq<int>, size: nat)
    requires size <= |dst| && AllInt16(slot.buf) && AllInt16(dst)
    ensures AllInt16(NextBlock(slot, wav, dst, size).dst)
  {
    var r := NextBlock(slot, wav, dst, size);
    forall k | 0 <= k < |r.dst|
      ensures IsInt16(r.dst[k])
    {
      if k >= size {
        assert r.dst[k] == r.dst[size..][k - size];
      } else if Copies(slot, wav, size) {
        assert r.dst[k] == r.dst[..size][k];
      }
    }
  }

  /** Visiting sources moves cursors only: every slot keeps its asset and samples. */
  lemma {:induction false} SlotAfterBuf(table: seq<WavData>, rSources: seq<seq<int>>, rEnables: seq<bool>,
                                        assets: seq<Option<WavCtrl>>, size: nat, i: nat, c: WavCtrl)
    requires FetchShape(table, rSources, rEnables, size) && |assets| == RSources && i <= RSources
    ensures SlotAfter(table, rSources, rEnables, assets, size, i, c).buf == table[WIndex(c)].buf
    ensures SlotAfter(table, rSources, rEnables, assets, size, i, c).ctrl == table[WIndex(c)].ctrl
  {
    if i > 0 && !Feeds(rEnables, assets, i - 1, c) {
      SlotAfterBuf(table, rSources, rEnables, assets, size, i - 1, c);
    }
  }

  /** A fetch keeps the assets' samples and the rows' lengths, and leaves
      only int16 samples in the rows. */
  lemma FetchKeepsSamples(table: seq<WavData>, rSources: seq<seq<int>>, rEnables: seq<bool>,
                          nav: bv2, app: bv2, size: nat)
    requires FetchShape(table, rSources, rEnables, size) && SampleTable(table)
    requires forall i :: 0 <= i < RSources ==> AllInt16(rSources[i])
    ensures var r := FetchAll(table, rSources, rEnables, nav, app, size);
      r.Fetched? ==>
        && SampleTable(r.table)
        && (forall w :: 0 <= w < WavCtrls ==> r.table[w].buf == table[w].buf)
        && (forall i :: 0 <= i < RSources ==> |r.rSources[i]| == |rSources[i]| && AllInt16(r.rSources[i]))
  {
    var r := FetchAll(table, rSources, rEnables, nav, app, size);
    if r.Fetched? {
      var assets := Assets(nav, app);
      WavCtrlEnumeration();
      forall w | 0 <= w < WavCtrls
        ensures r.table[w].buf == table[w].buf
      {
        SlotAfterBuf(table, rSources, rEnables, assets, size, RSources, AllWavCtrls[w]);
      }
      forall i | 0 <= i < RSources
        ensures |r.rSources[i]| == |rSources[i]| && AllInt16(r.rSources[i])
      {
        match assets[i]
        case Some(w) =>
          NextBlockSamples(table[WIndex(w)], w, rSources[i], size);
        case None =>
      }
    }
  }
}
