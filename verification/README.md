# go-p0f signatures and packet spoofing, in Dafny

go-p0f reads passive-fingerprint signatures in the p0f v3 text format and
rewrites IPv4 and TCP headers so that a packet looks like that signature. A
signature has eight colon-separated fields:
`ver:ittl:olen:mss:wsize,scale:olayout:quirks:pclass`. The rewrite changes
these header parts:

- the IPv4 type-of-service byte, its don't-fragment and reserved ("evil")
  flag bits, and its identification (RFC 791 section 3.1, RFC 3168
  section 5, RFC 3514);
- the TCP sequence, acknowledgement and urgent numbers;
- the ACK, URG and PSH flags;
- the TCP options list (RFC 793 section 3.1, RFC 7323 sections 2 and 3,
  RFC 2018 section 2);
- the TCP window.

The project has these modules:

- `Results`: `Option`, `Result` and `Outcome` wrappers.
- `Decimal`: `strconv.Atoi` as sign-plus-digits, with a decimal renderer for
  round trips.
- `Fields`: `strings.Split` and its inverse, `Join`.
- `BigEndian`: big-endian 2- and 4-byte encoding and decoding.
- `SigTypes`: the signature's enumerations, its window-size record, the
  option-name table and the quirk-token table.
- `SigParser`: the parser. Each field parser is a function. `Parse`,
  `ParseOptions` and `ParseQuirks` are methods with the source's loops. Each
  is proved equal to the function that specifies it.
- `SigProperties`: properties of the parser that relate several calls.
- `SigText`: renders a signature as text and proves that parsing it gives
  the signature back.
- `Packet`: the header fields the rewrite touches, as classes
  `IPv4Header` and `TcpHeader`, and a TCP option as (kind, length, data
  bytes).
- `SpoofIp`, `SpoofOptions`, `SpoofWindow` and `SpoofTcp`: the four
  rewriting procedures. Each is a method that updates a header in place.

Design points:

- **Random draws.** Every `math/rand` draw is a parameter of the method that
  uses it. A `requires` clause limits it to the range the source computes,
  so each property holds for every draw.
- **Option draws.** `SpoofTcpOptions` takes one `OptionDraw` per layout
  entry.
- **Quirk flags.** The source's 17-field boolean record is held as the set
  of quirks whose field is true. A field is set exactly when its quirk is in
  the set.
- **The `mss*m` bound.** The source computes it as
  `math.Floor(0xFFFF / float64(m))`. The model takes the exact quotient,
  `Quotient`, which is proved equal to integer division.

## Model

| member | source | states |
|---|---|---|
| SigProperties.WildcardsOutsideMssRange | signature/types.go:10-11 | both wildcard sentinels are -1, outside the accepted MSS range [0, 0xFFFFF] |
| SigTypes.WindowTypeCodes | signature/types.go:21-25 | the five window types carry the distinct codes 0 to 4 |
| SigTypes.OptionKindOfName | signature/types.go:27-33 | a recognised option name is that kind's name and is shorter than 5 characters |
| SigTypes.OptionNamesRoundTrip | signature/types.go:27-33 | each of the seven named kinds is recognised from its own name, so the names are distinct |
| SigTypes.QuirkOfToken | signature/types.go:35-53 | a recognised token is the token of the quirk it names |
| SigTypes.QuirkTokenRoundTrip | signature/types.go:35-53 | each of the 17 quirks is recognised from its own token, one-to-one with the flag fields |
| SigParser.QuirkTokensInjective | signature/types.go:68-86 | distinct quirks have distinct tokens |
| SigTypes.QuirkTokenText | signature/types.go:35-53 | quirk tokens are non-empty and contain neither ',' nor ':' |
| SigTypes.LinuxIsNotAQuirk | signature/types.go:59 | the declared `linux` token maps to no quirk |
| SigProperties.LinuxRejected | signature/parser.go:195-231 | a quirk list containing `linux` is rejected |
| SigProperties.OptionLengthIgnored | signature/types.go:91-93 | the third field is never read: any colon-free text there gives the same parse result |
| Decimal.Atoi | signature/parser.go:83-87 | succeeds exactly on an optional sign followed by at least one digit; negative only with a leading '-' |
| Fields.Split | signature/parser.go:16 | at least one part, no part contains the separator, and joining the parts gives the input back |
| Fields.SplitCount | signature/parser.go:16-17 | the number of parts is one more than the number of separators |
| SigProperties.NeedsSevenColons | signature/parser.go:16-19 | a text without exactly seven ':' fails with the whole-signature error |
| SigParser.SignatureOf | signature/parser.go:14-60 | every parsed signature is well formed (positive TTL, MSS in range or wildcard, Any iff size 0, named option kinds, non-empty quirks) |
| SigProperties.SignatureFields | signature/parser.go:24-59 | the parse succeeds iff there are 8 fields and each of the seven read fields parses, and then holds exactly those values |
| SigProperties.FirstFailingFieldDecides | signature/parser.go:24-57 | the error is that of the first failing field in the order 0, 1, 3, 4, 5, 6, 7 |
| SigParser.Parse | signature/parser.go:14-60 | the early-return method computes SignatureOf |
| SigParser.ParseIpVersion | signature/parser.go:252-262 | accepts exactly `4`, `6` and `*`; otherwise the error names the text |
| SigParser.ParsePayloadSize | signature/parser.go:238-250 | accepts exactly `0`, `+` and `*`; otherwise the error names the text |
| SigParser.ParseInitialTtl | signature/parser.go:165-183 | succeeds exactly on an integer above 0, and returns it |
| SigParser.ParseMaximumSegmentSize | signature/parser.go:145-163 | `*` gives the -1 wildcard; otherwise it succeeds exactly on an integer in [0, 0xFFFFF], and returns it |
| SigParser.ParseScale | signature/parser.go:78-88 | `*` or any integer is accepted; a non-wildcard scale is the integer itself, with no range check |
| SigParser.WindowShape | signature/parser.go:110-124 | a non-empty value part comes from `mss*`/`mtu*` (length at least 5, index 3 is `*`) or from `%` (length at least 2) |
| SigParser.WindowOf | signature/parser.go:90-141 | `*` gives Any with size 0; every other form has a size in [1, 0xFFFF]; a literal is its integer; `mss*`, `mtu*` and `%` forms are not integers and take their value part |
| SigParser.ParseWindowSize | signature/parser.go:62-143 | succeeds iff there are exactly two non-empty comma parts and both parse, and then holds their values; the error names the text |
| SigProperties.ScaleMinusOneIsWildcard | signature/parser.go:80-88 | a scale of `-1` parses to the same window as `*` |
| SigParser.EndListRun | signature/parser.go:284-287 | `eol+n` adds n+1 end-of-list kinds, exactly one when n is negative |
| SigParser.TokenKinds | signature/parser.go:277-312 | a token of length 5 or more is accepted only as `eol+` with an integer suffix; a shorter token must be an option name and adds its kind |
| SigProperties.EolPlusExpansion | signature/parser.go:279-288 | `eol+n` expands to n+1 end-of-list kinds for every integer n |
| SigParser.OptionsOf | signature/parser.go:275-315 | the layout parses iff every token parses; every kind is a named one; failures are option errors |
| SigParser.OptionsOfFirstError | signature/parser.go:275-312 | the first bad token is the error, whatever follows it |
| SigProperties.OptionsOfAppend | signature/parser.go:275-313 | the layout of a concatenation is the concatenation of the layouts |
| SigProperties.ShortTokensInOrder | signature/parser.go:293-312 | short tokens add one kind each, in input order |
| SigProperties.LayoutOfNames | signature/parser.go:264-316 | a layout written as comma-joined names parses back to that layout |
| SigParser.AppendEndListRun | signature/parser.go:284-287 | the padding loop appends exactly the end-of-list run |
| SigParser.ParseOptions | signature/parser.go:264-316 | the loop method computes OptionsField: "" gives the empty layout, otherwise the tokens' kinds or the first bad token |
| SigParser.QuirksOf | signature/parser.go:191-235 | the list parses iff every token is a quirk token, and a flag is set exactly when its token occurs |
| SigParser.QuirksOfFirstError | signature/parser.go:194-232 | the first unknown token is the error, whatever follows it |
| SigProperties.QuirksOrderIrrelevant | signature/parser.go:191-235 | two lists holding the same tokens, in any order and with any duplicates, parse alike |
| SigParser.ParseQuirks | signature/parser.go:185-236 | the loop method computes QuirksField: "" gives no record, otherwise the flags or the first unknown token |
| SigText.IpVersionText | signature/parser.go:252-262 | the rendered version parses back to itself |
| SigText.PayloadText | signature/parser.go:238-250 | the rendered payload class parses back to itself |
| SigText.TtlRoundTrip | signature/parser.go:165-183 | a positive TTL rendered in decimal parses back to itself |
| SigText.MssRoundTrip | signature/parser.go:145-163 | every accepted MSS, wildcard included, parses back from its text |
| SigText.WindowRoundTrip | signature/parser.go:62-143 | every window record with Any iff size 0 parses back from its `size,scale` text |
| SigText.LayoutRoundTrip | signature/parser.go:264-316 | every layout of named kinds parses back from its text |
| SigText.QuirksOfTokens | signature/parser.go:191-235 | the tokens of a list of quirks parse to exactly the quirks listed |
| SigText.QuirksRoundTrip | signature/parser.go:185-236 | an absent or non-empty quirk record parses back from its text |
| SigText.ParseSignatureText | signature/parser.go:14-60 | every well-formed signature, with any colon-free third field, parses back from its text |
| BigEndian.PutUint16 | spoof_tcp_options.go:100 | two bytes, read back as the value |
| BigEndian.PutUint32 | spoof_tcp_options.go:137-139 | four bytes, read back as the value |
| SpoofIp.SpoofIpLayer | spoof_ip_layer.go:9-65 | TOS low two bits cleared, upper six kept without `ecn` and TOS 0 with it; DF bit iff `df`; evil bit iff `0+`; other flag bits unchanged; id 0 iff (`df` and not `id+`) or (not `df` and `id-`), else the original if non-zero, else the draw |
| SpoofTcp.SpoofTcpNumbers | spoof_tcp_layer.go:11-54 | seq 0 iff `seq-`, else the original if non-zero, else the draw; `ack+` clears ACK with a non-zero ack number; `ack-` alone sets ACK with ack 0; `uptr+` clears URG with a non-zero pointer; `urgf+` alone sets URG; PSH equals `pushf+` |
| SpoofTcp.SpoofTcpLayer | spoof_tcp_layer.go:9-58 | the number and flag rules above, SYN untouched, then the options rebuilt from the original options' hints, then the window computed from the rebuilt options |
| SpoofOptions.HintsOf | spoof_tcp_options.go:23-43 | an MSS, timestamps or window-scale hint is found iff an option of that kind occurs (MSS only with at least 2 data bytes) |
| SpoofOptions.LastMssWins | spoof_tcp_options.go:30-34 | the MSS hint is the value of the last MSS option with at least 2 data bytes |
| SpoofOptions.LastTimestampsWin | spoof_tcp_options.go:35-38 | the timestamp hints are the two words of the last timestamps option |
| SpoofOptions.LastScaleWins | spoof_tcp_options.go:39-41 | the scale hint is the first data byte of the last window-scale option |
| SpoofOptions.TakeHints | spoof_tcp_options.go:13-43 | the hint loop computes HintsOf |
| SpoofOptions.ScaleValue | spoof_tcp_options.go:49-73 | a literal scale is emitted as its low 8 bits; a wildcard with `exws` keeps a hint in (14, 255), else a draw in [15, 254]; a wildcard without `exws` keeps any hint, else a draw in [1, 13] |
| SpoofOptions.QuotientBounds | spoof_tcp_options.go:90 | the quotient q of n by d is the largest q with q * d <= n |
| SpoofOptions.QuotientIsDivision | spoof_tcp_options.go:90 | the floored quotient equals integer division |
| SpoofOptions.MaxMssFits | spoof_tcp_options.go:86-91 | for `mss*m`, maxMss is the largest MSS whose product with m fits in 16 bits |
| SpoofOptions.MaxMssAboveMinimum | spoof_tcp_options.go:86-97 | maxMss exceeds 536 iff the window is not `mss*m` or m is at most 122, and is never exactly 536 |
| SpoofOptions.MssDrawDefined | spoof_tcp_options.go:103 | the 16-bit draw bound maxMss - 536 is positive for every signature |
| SpoofOptions.MssValue | spoof_tcp_options.go:85-109 | a literal MSS is emitted as its low 16 bits; a wildcard keeps a hint in [536, maxMss], else a value in [536, maxMss] whenever maxMss exceeds 536 |
| SpoofOptions.MssDrawExceedsMax | spoof_tcp_options.go:99-104 | for `mss*200`, maxMss is 327 and the wrapped bound lets the draw emit 536, above maxMss |
| SpoofOptions.StampsStep | spoof_tcp_options.go:119-139 | ts1 is 0 under `ts1-` and a found non-zero hint otherwise; ts2 is 0 unless `ts2+` on a SYN, then a found non-zero hint; each value is 0, the hint or the draw |
| SpoofOptions.EmittedKinds | spoof_tcp_options.go:47-163 | only window scale, MSS, timestamps, SACK-permitted, NOP and EOL produce an option |
| SpoofOptions.EmittedKindsKeep | spoof_tcp_options.go:47-163 | an emitted kind occurs in the output kinds iff it occurs in the layout |
| SpoofOptions.EntryOption | spoof_tcp_options.go:48-162 | each entry adds one option of its own kind with the fixed length and data size, or nothing for SACK and unknown kinds; only timestamps change the carried stamps |
| SpoofOptions.Rebuild | spoof_tcp_options.go:45-163 | the rebuilt kinds are the layout's emitted kinds in order; every option has its fixed shape; every MSS option has 2 bytes and a bounded value |
| SpoofOptions.AppendEntry | spoof_tcp_options.go:48-162 | the switch body appends exactly the entry's option and leaves the entry's stamps |
| SpoofOptions.SpoofTcpOptions | spoof_tcp_options.go:11-166 | the options become the rebuild of the layout from the original options' hints; no original option survives unless the layout asks for it |
| SpoofWindow.FirstMss | spoof_tcp_window.go:16-23 | a value is found iff some MSS option has at least 2 data bytes |
| SpoofWindow.FirstMssAt | spoof_tcp_window.go:16-23 | the first such option decides the value |
| SpoofWindow.SpoofTcpWindow | spoof_tcp_window.go:9-32 | Normal sets the literal; `mss*m` sets (first MSS times m) mod 65536, or fails without an MSS and leaves the window; Any, Mod and Mtu leave it; only the window is written |
| SpoofWindow.WindowFitsAfterRebuild | spoof_tcp_window.go:15-23 | after a rebuild with a wildcard MSS and `mss*m` with m at most 122, an MSS is found iff the layout has `mss`, it is at least 536, and the product does not wrap |

## Left out

- Random number generation is not modelled. Each draw is a parameter limited to the range the source computes. The timestamp draws are arbitrary 32-bit values, because their bound does not fit the int32 parameter of `rand.Int31n`.
- `strconv.Atoi` overflow is not modelled. Integers are unbounded, so decimal texts outside 64 bits are accepted here.
- `math.Floor` over float64 is replaced by integer division, which is exact for these operands.
- Only the packet fields the procedures read or write are modelled: no other header fields, no serialization and no checksums.
- The `fmt` error strings become a `ParseError` value. It names the failing field and carries its raw text.
- The `panic` for an `mss*m` window without an MSS option becomes the `Fail(MissingMss)` outcome. Execution does not stop.
- The rewriting procedures require a present quirk record. The source would dereference a nil record, which a parse with an empty quirks field produces.
- The options rewrite requires a non-zero multiplier for `mss*m` windows. The source would divide by zero there, and the parser never produces such a window.
- The hint pass requires timestamp options to carry at least 8 bytes and window-scale options at least 1 byte. The source slices them without checking.
- The `mtu*n` and `%n` windows are the source's no-op; no p0f meaning is given to them.
- SigProperties.ScaleMinusOneIsWildcard: relates only successful parses, because the two error values carry different raw texts.
- The window-scale draw without `exws` is in [1, 13], as `rand.Int31n(14-1) + 1` gives, so 14 itself is never drawn.
- The `ecn` quirk zeroes the whole TOS byte, because the source masks the already-cleared byte with the draw. This is modelled as written.
- signature/parser_test.go is not part of this model.
