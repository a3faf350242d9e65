/**
 * SpoofTcpOptions: a first pass takes hints (MSS, timestamps, window scale)
 * from the packet's own options; a second pass rebuilds the options list
 * from the signature's layout, one option per handled kind, using the
 * hints where the rules allow and a random draw otherwise.
 */
module SpoofOptions {
  import opened Results
  import opened BigEndian
  import opened SigTypes
  import opened Packet

  /**
   * The hint pass indexes timestamp data up to byte 8 and window-scale data
   * at byte 0 without checking; options it reads must be that long.
   */
  predicate Readable(o: TcpOption) {
    && (o.kind == KindTimestamps ==> |o.data| >= 8)
    && (o.kind == KindWindowScale ==> |o.data| >= 1)
  }

  predicate AllReadable(opts: seq<TcpOption>) {
    forall i :: 0 <= i < |opts| ==> Readable(opts[i])
  }

  /** An MSS option with enough data to read a value from. */
  predicate CarriesMss(o: TcpOption) {
    o.kind == KindMss && |o.data| >= 2
  }

  /** What the hint pass found; a value is 0 when its kind was not found. */
  datatype Hints = Hints(
    mssFound: bool, mss: u16,
    tsFound: bool, ts1: u32, ts2: u32,
    wsFound: bool, ws: u8)

  const NoHints: Hints := Hints(false, 0, false, 0, 0, false, 0)

  /** One option of the hint pass. */
  function HintStep(h: Hints, o: TcpOption): Hints
    requires Readable(o)
  {
    if CarriesMss(o) then h.(mssFound := true, mss := Uint16(o.data))
    else if o.kind == KindTimestamps then h.(tsFound := true, ts1 := Uint32(o.data[..4]), ts2 := Uint32(o.data[4..8]))
    else if o.kind == KindWindowScale then h.(wsFound := true, ws := o.data[0])
    else h
  }

  /** The hints of a whole options list, taken in order. */
  function HintsOf(opts: seq<TcpOption>): (h: Hints)
    requires AllReadable(opts)
    ensures h.mssFound <==> exists i :: 0 <= i < |opts| && CarriesMss(opts[i])
    ensures h.tsFound <==> exists i :: 0 <= i < |opts| && opts[i].kind == KindTimestamps
    ensures h.wsFound <==> exists i :: 0 <= i < |opts| && opts[i].kind == KindWindowScale
  {
    if opts == [] then NoHints
    else
      var prefix := opts[..|opts| - 1];
      assert forall i :: 0 <= i < |prefix| ==> prefix[i] == opts[i];
      HintStep(HintsOf(prefix), opts[|opts| - 1])
  }

  /** The MSS hint is the value of the last MSS option with two data bytes. */
  lemma {:induction false} LastMssWins(opts: seq<TcpOption>, i: nat)
    requires AllReadable(opts) && i < |opts| && CarriesMss(opts[i])
    requires forall j :: i < j < |opts| ==> !CarriesMss(opts[j])
    ensures HintsOf(opts).mss == Uint16(opts[i].data)
  {
    if i < |opts| - 1 {
      var prefix := opts[..|opts| - 1];
      assert forall j :: 0 <= j < |prefix| ==> prefix[j] == opts[j];
      LastMssWins(prefix, i);
    }
  }

  /** The timestamp hints are the two values of the last timestamps option. */
  lemma {:induction false} LastTimestampsWin(opts: seq<TcpOption>, i: nat)
    requires AllReadable(opts) && i < |opts| && opts[i].kind == KindTimestamps
    requires forall j :: i < j < |opts| ==> opts[j].kind != KindTimestamps
    ensures HintsOf(opts).ts1 == Uint32(opts[i].data[..4])
    ensures HintsOf(opts).ts2 == Uint32(opts[i].data[4..8])
  {
    if i < |opts| - 1 {
      var prefix := opts[..|opts| - 1];
      assert forall j :: 0 <= j < |prefix| ==> prefix[j] == opts[j];
      LastTimestampsWin(prefix, i);
    }
  }

  /** The window-scale hint is the first data byte of the last window-scale option. */
  lemma {:induction false} LastScaleWins(opts: seq<TcpOption>, i: nat)
    requires AllReadable(opts) && i < |opts| && opts[i].kind == KindWindowScale
    requires forall j :: i < j < |opts| ==> opts[j].kind != KindWindowScale
    ensures HintsOf(opts).ws == opts[i].data[0]
  {
    if i < |opts| - 1 {
      var prefix := opts[..|opts| - 1];
      assert forall j :: 0 <= j < |prefix| ==> prefix[j] == opts[j];
      LastScaleWins(prefix, i);
    }
  }

  /** An `mss*m` window needs m > 0 for the division that bounds the MSS. */
  predicate MssMultiplierSet(sig: Signature) {
    sig.windowSize.kind == Mss ==> sig.windowSize.size > 0
  }

  /** The smallest MSS the synthesizer produces from a draw: 576 minus 40 bytes of headers. */
  const MinMss: int := 536

  /** The largest MSS for which `mss*m` still fits the 16-bit window: 65535 div m, else 65535. */
  function MaxMss(sig: Signature): u16
    requires MssMultiplierSet(sig)
  {
    if sig.windowSize.kind == Mss then Quotient(0xFFFF, sig.windowSize.size) else 0xFFFF
  }

  /** The floor of n / d, by repeated subtraction. */
  function Quotient(n: nat, d: nat): (q: nat)
    requires d > 0
    ensures q <= n
    decreases n
  {
    if n < d then 0 else 1 + Quotient(n - d, d)
  }

  /** The quotient is the largest q with q * d <= n. */
  lemma {:induction false} QuotientBounds(n: nat, d: nat)
    requires d > 0
    ensures Quotient(n, d) * d <= n < (Quotient(n, d) + 1) * d
    decreases n
  {
    if n >= d {
      QuotientBounds(n - d, d);
      var q := Quotient(n - d, d);
      assert (q + 1) * d == q * d + d;
      assert (q + 2) * d == (q + 1) * d + d;
    }
  }

  /** The quotient is Dafny's integer division, the floor for these non-negative operands. */
  lemma QuotientIsDivision(n: nat, d: nat)
    requires d > 0
    ensures Quotient(n, d) == n / d
  {
    QuotientBounds(n, d);
    DivisionUnique(n, d, Quotient(n, d));
  }

  /** Only n / d lies between n - d and n once multiplied by d. */
  lemma DivisionUnique(n: nat, d: nat, q: nat)
    requires d > 0 && q * d <= n < (q + 1) * d
    ensures q == n / d
  {
    var r: nat := n / d;
    assert r * d <= n < r * d + d;
    if q < r {
      MulMonotone(d, q + 1, r);
    } else if r < q {
      MulMonotone(d, r + 1, q);
    }
  }

  /** For an `mss*m` window the bound is the largest MSS whose product with m fits in 16 bits. */
  lemma MaxMssFits(sig: Signature)
    requires MssMultiplierSet(sig) && sig.windowSize.kind == Mss
    ensures MaxMss(sig) * sig.windowSize.size <= 0xFFFF < (MaxMss(sig) + 1) * sig.windowSize.size
  {
    QuotientBounds(0xFFFF, sig.windowSize.size as nat);
  }

  /** The bound passed to the MSS draw: maxMss - 536 computed in 16 bits, so it wraps when maxMss < 536. */
  function MssDrawBound(maxMss: u16): int
  {
    (maxMss - MinMss) % 0x1_0000
  }

  /** The MSS bound exceeds 536 exactly when no `mss*m` window has m above 122. */
  lemma MaxMssAboveMinimum(sig: Signature)
    requires MssMultiplierSet(sig)
    ensures MaxMss(sig) > MinMss <==> sig.windowSize.kind != Mss || sig.windowSize.size <= 122
    ensures MaxMss(sig) != MinMss
  {
    if sig.windowSize.kind == Mss {
      var m: nat, q: nat := sig.windowSize.size, MaxMss(sig);
      MaxMssFits(sig);
      if m <= 122 {
        MulMonotone(q + 1, m, 122);
      } else {
        MulMonotone(q, 123, m);
      }
    }
  }

  lemma MulMonotone(a: nat, b: nat, c: nat)
    requires b <= c
    ensures a * b <= a * c
  {
  }

  /** The draw bound is positive for every signature, so the MSS draw is always defined. */
  lemma MssDrawDefined(sig: Signature)
    requires MssMultiplierSet(sig)
    ensures MssDrawBound(MaxMss(sig)) > 0
  {
    MaxMssAboveMinimum(sig);
  }

  /**
   * The random draws one layout entry may use: a window scale with and
   * without the `exws` quirk, an MSS offset, and two timestamps.
   */
  datatype OptionDraw = OptionDraw(wideScale: int, narrowScale: int, mssOffset: int, ts1: u32, ts2: u32)

  /** The ranges the source draws from: [15, 254], [1, 13] and [0, bound) for the MSS offset. */
  predicate ValidDraw(sig: Signature, d: OptionDraw) {
    && MssMultiplierSet(sig)
    && 15 <= d.wideScale <= 254
    && 1 <= d.narrowScale <= 13
    && 0 <= d.mssOffset < MssDrawBound(MaxMss(sig))
  }

  /** The window-scale byte: the literal scale's low 8 bits, or a hint or draw for the wildcard. */
  function ScaleValue(sig: Signature, h: Hints, d: OptionDraw): (ws: u8)
    requires sig.quirks.Some? && ValidDraw(sig, d)
    ensures sig.windowSize.scale != ScaleWildcard ==> ws == sig.windowSize.scale % 0x100
    ensures sig.windowSize.scale == ScaleWildcard && EXWS in sig.quirks.value ==> 14 < ws < 0xFF
    ensures sig.windowSize.scale == ScaleWildcard && EXWS in sig.quirks.value && h.wsFound && 14 < h.ws < 0xFF
      ==> ws == h.ws
    ensures sig.windowSize.scale == ScaleWildcard && EXWS !in sig.quirks.value
      ==> ws == if h.wsFound then h.ws else d.narrowScale
    ensures sig.windowSize.scale == ScaleWildcard && !h.wsFound ==> 0 < ws < 0xFF
  {
    if sig.windowSize.scale == ScaleWildcard then
      if EXWS in sig.quirks.value then
        if h.wsFound && h.ws > 14 && h.ws < 0xFF then h.ws else d.wideScale
      else
        if h.wsFound then h.ws else d.narrowScale
    else
      sig.windowSize.scale % 0x100
  }

  /** An offset drawn below the bound lands in [536, maxMss] once added to 536, whenever maxMss exceeds 536. */
  lemma OffsetBelowMax(maxMss: u16, offset: int)
    requires 0 <= offset < MssDrawBound(maxMss)
    ensures maxMss > MinMss ==> MinMss <= offset + MinMss <= maxMss
  {
  }

  /** The MSS value: the literal's low 16 bits, or a hint or draw for the wildcard. */
  function MssValue(sig: Signature, h: Hints, d: OptionDraw): (mss: u16)
    requires ValidDraw(sig, d)
    ensures sig.maximumSegmentSize != MssWildcard ==> mss == sig.maximumSegmentSize % 0x1_0000
    ensures sig.maximumSegmentSize == MssWildcard && h.mssFound && MinMss <= h.mss <= MaxMss(sig) ==> mss == h.mss
    ensures sig.maximumSegmentSize == MssWildcard && MaxMss(sig) > MinMss ==> MinMss <= mss <= MaxMss(sig)
  {
    if sig.maximumSegmentSize == MssWildcard then
      if h.mssFound && h.mss >= MinMss && h.mss <= MaxMss(sig) then h.mss
      else
        OffsetBelowMax(MaxMss(sig), d.mssOffset);
        (d.mssOffset + MinMss) % 0x1_0000
    else
      sig.maximumSegmentSize % 0x1_0000
  }

  /**
   * What every emitted MSS value satisfies: a literal's low 16 bits, and for
   * the wildcard a value in [536, maxMss] whenever maxMss exceeds 536.
   */
  predicate MssBounded(sig: Signature, v: int)
    requires MssMultiplierSet(sig)
  {
    && (sig.maximumSegmentSize != MssWildcard ==> v == sig.maximumSegmentSize % 0x1_0000)
    && (sig.maximumSegmentSize == MssWildcard && MaxMss(sig) > MinMss ==> MinMss <= v <= MaxMss(sig))
  }

  /**
   * With a wildcard MSS and an `mss*m` window with m above 122, maxMss is
   * below 536 and the 16-bit bound wraps: the draw can give an MSS above
   * maxMss, here 536 for m = 200, whose maxMss is 327.
   */
  lemma MssDrawExceedsMax()
    ensures var sig := Signature(IpVersion4, 64, MssWildcard, WindowSize(200, Mss, 0), PayloadZero, [KindMss], Some({}));
      && MaxMss(sig) == 327
      && ValidDraw(sig, OptionDraw(15, 1, 0, 0, 0))
      && MssValue(sig, NoHints, OptionDraw(15, 1, 0, 0, 0)) == 536
  {
    QuotientBounds(0xFFFF, 200);
  }

  /** The two timestamp values as they stand between layout entries. */
  datatype Stamps = Stamps(ts1: u32, ts2: u32)

  /**
   * One timestamps entry: the own stamp is 0 under `ts1-`, else kept when
   * found and non-zero, else drawn; the peer stamp is 0 unless `ts2+` on a
   * SYN, then kept when found and non-zero, else drawn.
   */
  function StampsStep(q: QuirkFlags, syn: bool, tsFound: bool, st: Stamps, d: OptionDraw): (r: Stamps)
    ensures TsMinus in q ==> r.ts1 == 0
    ensures TsMinus !in q && tsFound && st.ts1 != 0 ==> r.ts1 == st.ts1
    ensures !(TsPlus in q && syn) ==> r.ts2 == 0
    ensures TsPlus in q && syn && tsFound && st.ts2 != 0 ==> r.ts2 == st.ts2
    ensures r.ts1 in {0, st.ts1, d.ts1} && r.ts2 in {0, st.ts2, d.ts2}
  {
    var ts1 := if TsMinus in q then 0 else if !tsFound || st.ts1 == 0 then d.ts1 else st.ts1;
    var ts2 := if TsPlus in q && syn then (if !tsFound || st.ts2 == 0 then d.ts2 else st.ts2) else 0;
    Stamps(ts1, ts2)
  }

  /** The kinds the rebuild emits an option for; SACK and unknown kinds are dropped. */
  predicate Emitted(k: OptionKind) {
    k == KindWindowScale || k == KindMss || k == KindTimestamps
    || k == KindSackPermitted || k == KindNop || k == KindEndList
  }

  /** The layout with the kinds that emit nothing removed. */
  function EmittedKinds(layout: seq<OptionKind>): (r: seq<OptionKind>)
    ensures |r| <= |layout|
    ensures forall i :: 0 <= i < |r| ==> Emitted(r[i])
  {
    if layout == [] then []
    else
      var rest := EmittedKinds(layout[..|layout| - 1]);
      if Emitted(layout[|layout| - 1]) then rest + [layout[|layout| - 1]] else rest
  }

  /** The fixed length and data size of each emitted kind. */
  predicate Shaped(o: TcpOption) {
    if o.kind == KindWindowScale then o.length == 3 && |o.data| == 1
    else if o.kind == KindMss then o.length == 4 && |o.data| == 2
    else if o.kind == KindTimestamps then o.length == 10 && |o.data| == 8
    else if o.kind == KindSackPermitted then o.length == 2 && o.data == []
    else (o.kind == KindNop || o.kind == KindEndList) && o.length == 0 && o.data == []
  }

  /** The options rebuilt so far and the timestamp values they leave. */
  datatype Rebuilt = Rebuilt(options: seq<TcpOption>, stamps: Stamps)

  /** The option one layout entry adds, if any, and the timestamp values after it. */
  function EntryOption(sig: Signature, h: Hints, syn: bool, kind: OptionKind, d: OptionDraw, st: Stamps): (r: Rebuilt)
    requires sig.quirks.Some? && ValidDraw(sig, d)
    ensures |r.options| == (if Emitted(kind) then 1 else 0)
    ensures |r.options| == 1 ==> r.options[0].kind == kind && Shaped(r.options[0])
    ensures kind != KindTimestamps ==> r.stamps == st
  {
    if kind == KindWindowScale then
      Rebuilt([TcpOption(KindWindowScale, 3, [ScaleValue(sig, h, d)])], st)
    else if kind == KindMss then
      Rebuilt([TcpOption(KindMss, 4, PutUint16(MssValue(sig, h, d)))], st)
    else if kind == KindTimestamps then
      var next := StampsStep(sig.quirks.value, syn, h.tsFound, st, d);
      Rebuilt([TcpOption(KindTimestamps, 10, PutUint32(next.ts1) + PutUint32(next.ts2))], next)
    else if kind == KindSackPermitted then
      Rebuilt([TcpOption(KindSackPermitted, 2, [])], st)
    else if kind == KindNop then
      Rebuilt([TcpOption(KindNop, 0, [])], st)
    else if kind == KindEndList then
      Rebuilt([TcpOption(KindEndList, 0, [])], st)
    else
      Rebuilt([], st)
  }

  predicate ValidDraws(sig: Signature, draws: seq<OptionDraw>) {
    forall i :: 0 <= i < |draws| ==> ValidDraw(sig, draws[i])
  }

  /**
   * The rebuilt options list: entry by entry in layout order, each entry
   * with its own draw, the timestamp values carried from one entry to the
   * next starting from the hints.
   */
  function Rebuild(sig: Signature, h: Hints, syn: bool, layout: seq<OptionKind>, draws: seq<OptionDraw>): (r: Rebuilt)
    requires sig.quirks.Some? && MssMultiplierSet(sig) && |draws| == |layout| && ValidDraws(sig, draws)
    ensures |r.options| == |EmittedKinds(layout)|
    ensures forall i :: 0 <= i < |r.options| ==> r.options[i].kind == EmittedKinds(layout)[i]
    ensures forall i :: 0 <= i < |r.options| ==> Shaped(r.options[i])
    ensures forall i :: 0 <= i < |r.options| && r.options[i].kind == KindMss ==>
      |r.options[i].data| == 2 && MssBounded(sig, Uint16(r.options[i].data))
  {
    if layout == [] then Rebuilt([], Stamps(h.ts1, h.ts2))
    else
      var n := |layout| - 1;
      var before := Rebuild(sig, h, syn, layout[..n], draws[..n]);
      var entry := EntryOption(sig, h, syn, layout[n], draws[n], before.stamps);
      Rebuilt(before.options + entry.options, entry.stamps)
  }

  /** Rebuilding one more entry of the layout extends the rebuild of the entries before it. */
  lemma RebuildStep(sig: Signature, h: Hints, syn: bool, layout: seq<OptionKind>, draws: seq<OptionDraw>, i: nat)
    requires sig.quirks.Some? && MssMultiplierSet(sig) && |draws| == |layout| && ValidDraws(sig, draws)
    requires i < |layout|
    ensures var before := Rebuild(sig, h, syn, layout[..i], draws[..i]);
      var entry := EntryOption(sig, h, syn, layout[i], draws[i], before.stamps);
      Rebuild(sig, h, syn, layout[..i + 1], draws[..i + 1]) == Rebuilt(before.options + entry.options, entry.stamps)
  {
    assert layout[..i + 1][..i] == layout[..i] && draws[..i + 1][..i] == draws[..i];
  }

  /** An emitted kind occurs in the emitted list exactly when it occurs in the layout. */
  lemma {:induction false} EmittedKindsKeep(layout: seq<OptionKind>, k: OptionKind)
    requires Emitted(k)
    ensures k in EmittedKinds(layout) <==> k in layout
  {
    if layout != [] {
      var prefix := layout[..|layout| - 1];
      EmittedKindsKeep(prefix, k);
      assert layout == prefix + [layout[|layout| - 1]];
    }
  }

  /** The hint pass of the source: one loop over the packet's options. */
  method TakeHints(opts: seq<TcpOption>) returns (h: Hints)
    requires AllReadable(opts)
    ensures h == HintsOf(opts)
  {
    var mssHint: u16 := 0;
    var mssFound := false;
    var ts1Hint: u32 := 0;
    var ts2Hint: u32 := 0;
    var tsFound := false;
    var wsHint: u8 := 0;
    var wsFound := false;
    for i := 0 to |opts|
      invariant Hints(mssFound, mssHint, tsFound, ts1Hint, ts2Hint, wsFound, wsHint) == HintsOf(opts[..i])
    {
      var option := opts[i];
      assert opts[..i + 1][..i] == opts[..i];
      if option.kind == KindMss {
        if |option.data| >= 2 {
          mssFound := true;
          mssHint := Uint16(option.data);
        }
      } else if option.kind == KindTimestamps {
        tsFound := true;
        ts1Hint := Uint32(option.data[..4]);
        ts2Hint := Uint32(option.data[4..8]);
      } else if option.kind == KindWindowScale {
        wsFound := true;
        wsHint := option.data[0];
      }
    }
    assert opts[..|opts|] == opts;
    return Hints(mssFound, mssHint, tsFound, ts1Hint, ts2Hint, wsFound, wsHint);
  }

  /** One entry of the rebuild loop: appends the entry's option and updates the timestamp values. */
  method AppendEntry(sig: Signature, h: Hints, syn: bool, sigOption: OptionKind, d: OptionDraw,
                     options: seq<TcpOption>, ts1Hint: u32, ts2Hint: u32)
    returns (newOptions: seq<TcpOption>, ts1: u32, ts2: u32)
    requires sig.quirks.Some? && ValidDraw(sig, d)
    ensures newOptions == options + EntryOption(sig, h, syn, sigOption, d, Stamps(ts1Hint, ts2Hint)).options
    ensures Stamps(ts1, ts2) == EntryOption(sig, h, syn, sigOption, d, Stamps(ts1Hint, ts2Hint)).stamps
  {
    var quirks := sig.quirks.value;
    newOptions, ts1, ts2 := options, ts1Hint, ts2Hint;
    if sigOption == KindWindowScale {
      var ws: u8;
      if sig.windowSize.scale == ScaleWildcard {
        if EXWS in quirks {
          if h.wsFound && h.ws > 14 && h.ws < 0xFF {
            ws := h.ws;
          } else {
            ws := d.wideScale;
          }
        } else {
          if h.wsFound {
            ws := h.ws;
          } else {
            ws := d.narrowScale;
          }
        }
      } else {
        ws := sig.windowSize.scale % 0x100;
      }
      newOptions := newOptions + [TcpOption(KindWindowScale, 3, [ws])];
    } else if sigOption == KindMss {
      var mss: u16;
      if sig.maximumSegmentSize == MssWildcard {
        var maxMss: u16 := 0xFFFF;
        if sig.windowSize.kind == Mss {
          maxMss := 0xFFFF / sig.windowSize.size;
          QuotientIsDivision(0xFFFF, sig.windowSize.size as nat);
        }
        assert maxMss == MaxMss(sig);
        if h.mssFound && h.mss >= MinMss && h.mss <= maxMss {
          mss := h.mss;
        } else {
          mss := (d.mssOffset + MinMss) % 0x1_0000;
        }
      } else {
        mss := sig.maximumSegmentSize % 0x1_0000;
      }
      newOptions := newOptions + [TcpOption(KindMss, 4, PutUint16(mss))];
    } else if sigOption == KindTimestamps {
      if TsMinus in quirks {
        ts1 := 0;
      } else if !h.tsFound || ts1 == 0 {
        ts1 := d.ts1;
      }
      if TsPlus in quirks && syn {
        if !h.tsFound || ts2 == 0 {
          ts2 := d.ts2;
        }
      } else {
        ts2 := 0;
      }
      newOptions := newOptions + [TcpOption(KindTimestamps, 10, PutUint32(ts1) + PutUint32(ts2))];
    } else if sigOption == KindSackPermitted {
      newOptions := newOptions + [TcpOption(KindSackPermitted, 2, [])];
    } else if sigOption == KindNop {
      newOptions := newOptions + [TcpOption(KindNop, 0, [])];
    } else if sigOption == KindEndList {
      newOptions := newOptions + [TcpOption(KindEndList, 0, [])];
    }
  }

  /**
   * The whole pass: hints from the packet's options, then the options list
   * rebuilt from the layout. `draws` holds one draw per layout entry.
   */
  method SpoofTcpOptions(tcp: TcpHeader, sig: Signature, draws: seq<OptionDraw>)
    requires sig.quirks.Some? && MssMultiplierSet(sig) && |draws| == |sig.optionsLayout| && ValidDraws(sig, draws)
    requires AllReadable(tcp.options)
    modifies tcp`options
    ensures tcp.options == Rebuild(sig, HintsOf(old(tcp.options)), tcp.synFlag, sig.optionsLayout, draws).options
  {
    var h := TakeHints(tcp.options);
    var ts1Hint, ts2Hint := h.ts1, h.ts2;
    var layout := sig.optionsLayout;
    var newOptions: seq<TcpOption> := [];
    for i := 0 to |layout|
      invariant Rebuilt(newOptions, Stamps(ts1Hint, ts2Hint)) == Rebuild(sig, h, tcp.synFlag, layout[..i], draws[..i])
    {
      RebuildStep(sig, h, tcp.synFlag, layout, draws, i);
      newOptions, ts1Hint, ts2Hint := AppendEntry(sig, h, tcp.synFlag, layout[i], draws[i], newOptions, ts1Hint, ts2Hint);
    }
    assert layout[..|layout|] == layout && draws[..|draws|] == draws;
    tcp.options := newOptions;
  }
}
