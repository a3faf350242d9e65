/**
 * SpoofIpLayer: rewrites the IPv4 type-of-service byte, the don't-fragment
 * and reserved flag bits and the identification field so that the packet
 * shows the signature's IP-level quirks.
 */
module SpoofIp {
  import opened Results
  import opened BigEndian
  import opened SigTypes
  import opened Packet

  /** The range of the identification draw, rand.Intn(0xFFFF - 1) + 1. */
  predicate IdDraw(d: int) {
    1 <= d <= 0xFFFE
  }

  /** The range of the ECN draw, rand.Intn(0b11 - 1) + 1. */
  predicate EcnDraw(d: bv8) {
    d == 1 || d == 2
  }

  /**
   * The quirks that force the identification to zero: `df` without `id+`,
   * or `id-` without `df`.
   */
  predicate IdForcedZero(q: QuirkFlags) {
    if DF in q then IdPlus !in q else IdMinus in q
  }

  /** The flag bits the synthesizer owns. */
  const OwnedFlags: bv8 := FlagDontFragment | FlagEvil

  /**
   * The quirks come from a present record; `idDraw` and `ecnDraw` stand for
   * the random draws, used only where the source draws.
   */
  method SpoofIpLayer(ip: IPv4Header, sig: Signature, idDraw: u16, ecnDraw: bv8)
    requires sig.quirks.Some? && IdDraw(idDraw) && EcnDraw(ecnDraw)
    modifies ip
    ensures ip.tos & 3 == 0
    ensures ECN !in sig.quirks.value ==> ip.tos == old(ip.tos) & 0xFC
    ensures ECN in sig.quirks.value ==> ip.tos == 0
    ensures ip.flags & FlagDontFragment != 0 <==> DF in sig.quirks.value
    ensures ip.flags & FlagEvil != 0 <==> ZeroPlus in sig.quirks.value
    ensures ip.flags & !OwnedFlags == old(ip.flags) & !OwnedFlags
    ensures ip.id == 0 <==> IdForcedZero(sig.quirks.value)
    ensures !IdForcedZero(sig.quirks.value) && old(ip.id) != 0 ==> ip.id == old(ip.id)
    ensures !IdForcedZero(sig.quirks.value) && old(ip.id) == 0 ==> ip.id == idDraw
  {
    var tos := ip.tos & 0xFC;
    var flags := ip.flags;
    var quirks := sig.quirks.value;
    var identification := ip.id;

    if DF in quirks {
      flags := flags | FlagDontFragment;
      if IdPlus in quirks {
        if identification == 0 {
          identification := idDraw;
        }
      } else {
        identification := 0;
      }
    } else {
      flags := flags & !FlagDontFragment;
      if IdMinus in quirks {
        identification := 0;
      } else if identification == 0 {
        identification := idDraw;
      }
    }

    if ZeroPlus in quirks {
      flags := flags | FlagEvil;
    } else {
      flags := flags & !FlagEvil;
    }

    if ECN in quirks {
      tos := tos & ecnDraw;
    }

    ip.tos := tos;
    ip.flags := flags;
    ip.id := identification;
  }
}
