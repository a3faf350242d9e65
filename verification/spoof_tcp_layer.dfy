/**
 * SpoofTcpLayer: rewrites the sequence, acknowledgement and urgent numbers
 * and the ACK, URG and PSH flags from the signature's TCP quirks, then
 * rebuilds the options and sets the window, in that order.
 */
module SpoofTcp {
  import opened Results
  import opened BigEndian
  import opened SigTypes
  import opened Packet
  import opened SpoofOptions
  import opened SpoofWindow

  /** The range of the sequence and acknowledgement draws, rand.Intn(0xFFFFFFFF - 1) + 1. */
  predicate NumberDraw(d: int) {
    1 <= d <= 0xFFFF_FFFE
  }

  /** The range of the urgent-pointer draw, rand.Intn(0xFFFF - 1) + 1. */
  predicate UrgentDraw(d: int) {
    1 <= d <= 0xFFFE
  }

  /**
   * The sequence, acknowledgement and urgent numbers and the ACK, URG and
   * PSH flags, the part of the rewrite that precedes the options.
   */
  method SpoofTcpNumbers(tcp: TcpHeader, sig: Signature, seqDraw: u32, ackDraw: u32, urgentDraw: u16)
    requires sig.quirks.Some? && NumberDraw(seqDraw) && NumberDraw(ackDraw) && UrgentDraw(urgentDraw)
    modifies tcp`seqNumber, tcp`ackNumber, tcp`urgent, tcp`ackFlag, tcp`urgFlag, tcp`pshFlag
    ensures tcp.seqNumber == 0 <==> SeqMinus in sig.quirks.value
    ensures AckPlus in sig.quirks.value ==> tcp.ackNumber != 0
    ensures UptrPlus in sig.quirks.value ==> tcp.urgent != 0
    ensures SeqMinus !in sig.quirks.value ==>
      tcp.seqNumber == if old(tcp.seqNumber) != 0 then old(tcp.seqNumber) else seqDraw
    ensures AckPlus in sig.quirks.value ==>
      !tcp.ackFlag && tcp.ackNumber == if old(tcp.ackNumber) != 0 then old(tcp.ackNumber) else ackDraw
    ensures AckPlus !in sig.quirks.value && AckMinus in sig.quirks.value ==> tcp.ackFlag && tcp.ackNumber == 0
    ensures AckPlus !in sig.quirks.value && AckMinus !in sig.quirks.value ==>
      tcp.ackFlag == old(tcp.ackFlag) && tcp.ackNumber == old(tcp.ackNumber)
    ensures UptrPlus in sig.quirks.value ==>
      !tcp.urgFlag && tcp.urgent == if old(tcp.urgent) != 0 then old(tcp.urgent) else urgentDraw
    ensures UptrPlus !in sig.quirks.value ==> tcp.urgent == old(tcp.urgent)
    ensures UptrPlus !in sig.quirks.value && UrgfPlus in sig.quirks.value ==> tcp.urgFlag
    ensures UptrPlus !in sig.quirks.value && UrgfPlus !in sig.quirks.value ==> tcp.urgFlag == old(tcp.urgFlag)
    ensures tcp.pshFlag == (PushfPlus in sig.quirks.value)
  {
    var ackNumber := tcp.ackNumber;
    var sequenceNumber := tcp.seqNumber;
    var urgentPointer := tcp.urgent;
    var quirks := sig.quirks.value;

    if SeqMinus in quirks {
      sequenceNumber := 0;
    } else if sequenceNumber == 0 {
      sequenceNumber := seqDraw;
    }

    if AckPlus in quirks {
      tcp.ackFlag := false;
      if ackNumber == 0 {
        ackNumber := ackDraw;
      }
    } else if AckMinus in quirks {
      tcp.ackFlag := true;
      ackNumber := 0;
    }

    if UptrPlus in quirks {
      tcp.urgFlag := false;
      if urgentPointer == 0 {
        urgentPointer := urgentDraw;
      }
    } else if UrgfPlus in quirks {
      tcp.urgFlag := true;
    }

    tcp.seqNumber := sequenceNumber;
    tcp.ackNumber := ackNumber;
    tcp.urgent := urgentPointer;
    tcp.pshFlag := PushfPlus in quirks;
  }

  /**
   * The whole TCP rewrite. `seqDraw`, `ackDraw` and `urgentDraw` stand for
   * the number draws and `draws` for the option draws, one per layout entry.
   * A missing MSS for an `mss*m` window is the error outcome.
   */
  method SpoofTcpLayer(tcp: TcpHeader, sig: Signature, seqDraw: u32, ackDraw: u32, urgentDraw: u16,
                       draws: seq<OptionDraw>)
    returns (r: Outcome<WindowError>)
    requires sig.quirks.Some? && MssMultiplierSet(sig)
    requires NumberDraw(seqDraw) && NumberDraw(ackDraw) && UrgentDraw(urgentDraw)
    requires |draws| == |sig.optionsLayout| && ValidDraws(sig, draws)
    requires AllReadable(tcp.options)
    modifies tcp`seqNumber, tcp`ackNumber, tcp`urgent, tcp`ackFlag, tcp`urgFlag, tcp`pshFlag, tcp`options, tcp`window
    ensures tcp.seqNumber == 0 <==> SeqMinus in sig.quirks.value
    ensures AckPlus in sig.quirks.value ==> tcp.ackNumber != 0
    ensures UptrPlus in sig.quirks.value ==> tcp.urgent != 0
    ensures SeqMinus !in sig.quirks.value ==>
      tcp.seqNumber == if old(tcp.seqNumber) != 0 then old(tcp.seqNumber) else seqDraw
    ensures AckPlus in sig.quirks.value ==>
      !tcp.ackFlag && tcp.ackNumber == if old(tcp.ackNumber) != 0 then old(tcp.ackNumber) else ackDraw
    ensures AckPlus !in sig.quirks.value && AckMinus in sig.quirks.value ==> tcp.ackFlag && tcp.ackNumber == 0
    ensures AckPlus !in sig.quirks.value && AckMinus !in sig.quirks.value ==>
      tcp.ackFlag == old(tcp.ackFlag) && tcp.ackNumber == old(tcp.ackNumber)
    ensures UptrPlus in sig.quirks.value ==>
      !tcp.urgFlag && tcp.urgent == if old(tcp.urgent) != 0 then old(tcp.urgent) else urgentDraw
    ensures UptrPlus !in sig.quirks.value ==> tcp.urgent == old(tcp.urgent)
    ensures UptrPlus !in sig.quirks.value && UrgfPlus in sig.quirks.value ==> tcp.urgFlag
    ensures UptrPlus !in sig.quirks.value && UrgfPlus !in sig.quirks.value ==> tcp.urgFlag == old(tcp.urgFlag)
    ensures tcp.pshFlag == (PushfPlus in sig.quirks.value)
    ensures tcp.synFlag == old(tcp.synFlag)
    ensures tcp.options == Rebuild(sig, HintsOf(old(tcp.options)), tcp.synFlag, sig.optionsLayout, draws).options
    ensures sig.windowSize.kind == Normal ==> r == Pass && tcp.window == sig.windowSize.size
    ensures sig.windowSize.kind == Mss && FirstMss(tcp.options).Some? ==>
      r == Pass && tcp.window == (FirstMss(tcp.options).value * sig.windowSize.size) % 0x1_0000
    ensures sig.windowSize.kind == Mss && FirstMss(tcp.options).None? ==>
      r == Fail(MissingMss) && tcp.window == old(tcp.window)
    ensures sig.windowSize.kind in {Any, Mod, Mtu} ==> r == Pass && tcp.window == old(tcp.window)
  {
    SpoofTcpNumbers(tcp, sig, seqDraw, ackDraw, urgentDraw);
    SpoofTcpOptions(tcp, sig, draws);
    r := SpoofTcpWindow(tcp, sig);
  }
}
