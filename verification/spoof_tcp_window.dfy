/**
 * SpoofTcpWindow: sets the TCP window from the signature's window
 * descriptor, reading the MSS from the packet's options for `mss*m`.
 */
module SpoofWindow {
  import opened Results
  import opened BigEndian
  import opened SigTypes
  import opened Packet
  import opened SpoofOptions

  /** The one way the window cannot be set: an `mss*m` window on a packet without a readable MSS. */
  datatype WindowError = MissingMss

  /** The value of the first MSS option with at least two data bytes. */
  function FirstMss(opts: seq<TcpOption>): (r: Option<u16>)
    ensures r.Some? <==> exists i :: 0 <= i < |opts| && CarriesMss(opts[i])
  {
    if opts == [] then None
    else if CarriesMss(opts[0]) then Some(Uint16(opts[0].data))
    else
      var rest := FirstMss(opts[1..]);
      assert forall i :: 1 <= i < |opts| ==> opts[1..][i - 1] == opts[i];
      rest
  }

  /** The option at `i` decides when no option before it carries an MSS. */
  lemma {:induction false} FirstMssAt(opts: seq<TcpOption>, i: nat)
    requires i < |opts| && CarriesMss(opts[i])
    requires forall j :: 0 <= j < i ==> !CarriesMss(opts[j])
    ensures FirstMss(opts) == Some(Uint16(opts[i].data))
  {
    if i > 0 {
      FirstMssAt(opts[1..], i - 1);
    }
  }

  /** The value found is that of some MSS option of the list. */
  lemma {:induction false} FirstMssIsSome(opts: seq<TcpOption>)
    requires FirstMss(opts).Some?
    ensures exists i :: 0 <= i < |opts| && CarriesMss(opts[i]) && FirstMss(opts).value == Uint16(opts[i].data)
  {
    if !CarriesMss(opts[0]) {
      FirstMssIsSome(opts[1..]);
      var i :| 0 <= i < |opts[1..]| && CarriesMss(opts[1..][i]) && FirstMss(opts[1..]).value == Uint16(opts[1..][i].data);
      assert opts[1..][i] == opts[i + 1];
    }
  }

  /**
   * Normal sets the literal; `mss*m` sets the first MSS value times m in 16
   * bits, or fails without one; Any, `%n` and `mtu*n` leave the window as it is.
   */
  method SpoofTcpWindow(tcp: TcpHeader, sig: Signature) returns (r: Outcome<WindowError>)
    modifies tcp`window
    ensures sig.windowSize.kind == Normal ==> r == Pass && tcp.window == sig.windowSize.size
    ensures sig.windowSize.kind == Mss && FirstMss(tcp.options).Some? ==>
      r == Pass && tcp.window == (FirstMss(tcp.options).value * sig.windowSize.size) % 0x1_0000
    ensures sig.windowSize.kind == Mss && FirstMss(tcp.options).None? ==>
      r == Fail(MissingMss) && tcp.window == old(tcp.window)
    ensures sig.windowSize.kind in {Any, Mod, Mtu} ==> r == Pass && tcp.window == old(tcp.window)
  {
    match sig.windowSize.kind
    case Normal =>
      tcp.window := sig.windowSize.size;
      return Pass;
    case Mss =>
      var options := tcp.options;
      for i := 0 to |options|
        invariant forall j :: 0 <= j < i ==> !CarriesMss(options[j])
      {
        var option := options[i];
        if option.kind == KindMss {
          if |option.data| >= 2 {
            FirstMssAt(options, i);
            tcp.window := (Uint16(option.data) * sig.windowSize.size) % 0x1_0000;
            return Pass;
          }
        }
      }
      return Fail(MissingMss);
    case Mtu =>
      return Pass;
    case Mod =>
      return Pass;
    case Any =>
      return Pass;
  }

  /**
   * After a rebuild with a wildcard MSS and an `mss*m` window with m at most
   * 122, the window is found whenever the layout holds `mss`, and the
   * product is below 65536, so the 16-bit window does not wrap.
   */
  lemma WindowFitsAfterRebuild(sig: Signature, h: Hints, syn: bool, draws: seq<OptionDraw>)
    requires sig.quirks.Some? && MssMultiplierSet(sig)
    requires |draws| == |sig.optionsLayout| && ValidDraws(sig, draws)
    requires sig.maximumSegmentSize == MssWildcard && sig.windowSize.kind == Mss && sig.windowSize.size <= 122
    ensures var opts := Rebuild(sig, h, syn, sig.optionsLayout, draws).options;
      FirstMss(opts).Some? <==> KindMss in sig.optionsLayout
    ensures var opts := Rebuild(sig, h, syn, sig.optionsLayout, draws).options;
      FirstMss(opts).Some? ==>
        MinMss <= FirstMss(opts).value && FirstMss(opts).value * sig.windowSize.size <= 0xFFFF
  {
    var layout := sig.optionsLayout;
    var opts := Rebuild(sig, h, syn, layout, draws).options;
    var emitted := EmittedKinds(layout);
    EmittedKindsKeep(layout, KindMss);
    if KindMss in layout {
      var i :| 0 <= i < |emitted| && emitted[i] == KindMss;
      assert CarriesMss(opts[i]);
    }
    if FirstMss(opts).Some? {
      FirstMssIsSome(opts);
      var i :| 0 <= i < |opts| && CarriesMss(opts[i]) && FirstMss(opts).value == Uint16(opts[i].data);
      assert emitted[i] == KindMss;
      MaxMssAboveMinimum(sig);
      MaxMssFits(sig);
      MulMonotone(sig.windowSize.size, FirstMss(opts).value, MaxMss(sig));
    }
  }
}
