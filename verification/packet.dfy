/**
 * The header fields the synthesizers read and write: the IPv4 type-of-service
 * byte, flag bits and identification, and the TCP sequence, acknowledgement
 * and urgent numbers, flags, window and options list (RFC 791 section 3.1,
 * RFC 793 section 3.1). Every other header field is left out.
 */
module Packet {
  import opened BigEndian
  import opened SigTypes

  /** The reserved ("evil", RFC 3514) bit of the 3-bit IPv4 flags field. */
  const FlagEvil: bv8 := 4
  /** The don't-fragment bit of the IPv4 flags field. */
  const FlagDontFragment: bv8 := 2

  class IPv4Header {
    var tos: bv8
    var flags: bv8
    var id: u16

    constructor (tos: bv8, flags: bv8, id: u16)
      ensures this.tos == tos && this.flags == flags && this.id == id
    {
      this.tos := tos;
      this.flags := flags;
      this.id := id;
    }
  }

  /** One TCP option: its kind, the length the header carries for it, and its data bytes. */
  datatype TcpOption = TcpOption(kind: OptionKind, length: u8, data: seq<u8>)

  class TcpHeader {
    var seqNumber: u32
    var ackNumber: u32
    var urgent: u16
    var window: u16
    var ackFlag: bool
    var urgFlag: bool
    var pshFlag: bool
    var synFlag: bool
    var options: seq<TcpOption>

    constructor (seqNumber: u32, ackNumber: u32, urgent: u16, window: u16,
                 ackFlag: bool, urgFlag: bool, pshFlag: bool, synFlag: bool,
                 options: seq<TcpOption>)
      ensures this.seqNumber == seqNumber && this.ackNumber == ackNumber
      ensures this.urgent == urgent && this.window == window
      ensures this.ackFlag == ackFlag && this.urgFlag == urgFlag
      ensures this.pshFlag == pshFlag && this.synFlag == synFlag
      ensures this.options == options
    {
      this.seqNumber := seqNumber;
      this.ackNumber := ackNumber;
      this.urgent := urgent;
      this.window := window;
      this.ackFlag := ackFlag;
      this.urgFlag := urgFlag;
      this.pshFlag := pshFlag;
      this.synFlag := synFlag;
      this.options := options;
    }
  }
}
