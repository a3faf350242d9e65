/**
 * The parsed form of a p0f v3 signature: its enumerations, the window-size
 * record, the 17 quirk flags and the option-name and quirk-token tables.
 */
module SigTypes {
  import opened Results
  import opened BigEndian

  /** Sentinel for an MSS field written as `*`; the parser accepts only [0, 0xFFFFF] otherwise. */
  const MssWildcard: int := -1
  /** Sentinel for a window scale written as `*`. */
  const ScaleWildcard: int := -1
  /** Largest MSS value the parser accepts. */
  const MaxSignatureMss: int := 0xFFFFF

  datatype IpVersion = IpVersion4 | IpVersion6 | IpVersionAny

  datatype PayloadSize = PayloadZero | PayloadNonZero | PayloadAny

  /** The five shapes of the window-size descriptor. */
  datatype WindowType = Normal | Any | Mod | Mss | Mtu

  /** The integer code each window type carries in the source. */
  function WindowTypeCode(t: WindowType): int
  {
    match t
    case Normal => 0
    case Any => 1
    case Mod => 2
    case Mss => 3
    case Mtu => 4
  }

  /** The window types are the distinct codes 0 to 4. */
  lemma WindowTypeCodes()
    ensures forall t :: 0 <= WindowTypeCode(t) <= 4
    ensures forall t, t' :: WindowTypeCode(t) == WindowTypeCode(t') ==> t == t'
  {
  }

  /**
   * `size` is the literal window for Normal, the divisor for Mod, the
   * multiplier for Mss and Mtu, and 0 for Any; `scale` is the scaling factor
   * or ScaleWildcard.
   */
  datatype WindowSize = WindowSize(size: u16, kind: WindowType, scale: int)

  /** TCP option kinds are bytes (RFC 793 section 3.1). */
  type OptionKind = u8

  const KindEndList: OptionKind := 0
  const KindNop: OptionKind := 1
  const KindMss: OptionKind := 2
  const KindWindowScale: OptionKind := 3
  const KindSackPermitted: OptionKind := 4
  const KindSack: OptionKind := 5
  const KindTimestamps: OptionKind := 8

  /** The kinds that have a name in the options layout grammar. */
  predicate IsNamedKind(k: OptionKind) {
    k == KindEndList || k == KindNop || k == KindMss || k == KindWindowScale
    || k == KindSackPermitted || k == KindSack || k == KindTimestamps
  }

  /** The layout name of a named kind. */
  function OptionName(k: OptionKind): string
    requires IsNamedKind(k)
  {
    if k == KindEndList then "eol"
    else if k == KindNop then "nop"
    else if k == KindMss then "mss"
    else if k == KindWindowScale then "ws"
    else if k == KindSackPermitted then "sok"
    else if k == KindSack then "sack"
    else "ts"
  }

  /**
   * The option-name table. Every name is shorter than five characters,
   * which leaves tokens of five or more to the `eol+n` form.
   */
  function OptionKindOfName(name: string): (r: Option<OptionKind>)
    ensures r.Some? ==> IsNamedKind(r.value) && name == OptionName(r.value)
    ensures r.Some? ==> |name| < 5
  {
    match name
    case "eol" => Some(KindEndList)
    case "nop" => Some(KindNop)
    case "mss" => Some(KindMss)
    case "ws" => Some(KindWindowScale)
    case "sok" => Some(KindSackPermitted)
    case "sack" => Some(KindSack)
    case "ts" => Some(KindTimestamps)
    case _ => None
  }

  /** Each named kind is found again from its name, so the seven names are distinct. */
  lemma OptionNamesRoundTrip(k: OptionKind)
    requires IsNamedKind(k)
    ensures OptionKindOfName(OptionName(k)) == Some(k)
  {
  }

  /** The 17 quirks of the signature format. */
  datatype Quirk =
    | DF | IdPlus | IdMinus | ECN | ZeroPlus | Flow
    | SeqMinus | AckPlus | AckMinus | UptrPlus | UrgfPlus | PushfPlus
    | TsMinus | TsPlus | OptPlus | EXWS | Bad

  /** A declared token with no flag of its own; the quirk table does not contain it. */
  const QuirkLinux: string := "linux"

  function QuirkToken(q: Quirk): string
  {
    match q
    case DF => "df"
    case IdPlus => "id+"
    case IdMinus => "id-"
    case ECN => "ecn"
    case ZeroPlus => "0+"
    case Flow => "flow"
    case SeqMinus => "seq-"
    case AckPlus => "ack+"
    case AckMinus => "ack-"
    case UptrPlus => "uptr+"
    case UrgfPlus => "urgf+"
    case PushfPlus => "pushf+"
    case TsMinus => "ts1-"
    case TsPlus => "ts2+"
    case OptPlus => "opt+"
    case EXWS => "exws"
    case Bad => "bad"
  }

  /** The quirk-token table: a token names at most one quirk, and that quirk's token is the token. */
  function QuirkOfToken(t: string): (r: Option<Quirk>)
    ensures r.Some? ==> QuirkToken(r.value) == t
  {
    match t
    case "df" => Some(DF)
    case "id+" => Some(IdPlus)
    case "id-" => Some(IdMinus)
    case "ecn" => Some(ECN)
    case "0+" => Some(ZeroPlus)
    case "flow" => Some(Flow)
    case "seq-" => Some(SeqMinus)
    case "ack+" => Some(AckPlus)
    case "ack-" => Some(AckMinus)
    case "uptr+" => Some(UptrPlus)
    case "urgf+" => Some(UrgfPlus)
    case "pushf+" => Some(PushfPlus)
    case "ts1-" => Some(TsMinus)
    case "ts2+" => Some(TsPlus)
    case "opt+" => Some(OptPlus)
    case "exws" => Some(EXWS)
    case "bad" => Some(Bad)
    case _ => None
  }

  /** Every quirk is found again from its token: the table is one-to-one. */
  lemma QuirkTokenRoundTrip(q: Quirk)
    ensures QuirkOfToken(QuirkToken(q)) == Some(q)
  {
  }

  /** Quirk tokens are non-empty and free of the list and field separators. */
  lemma QuirkTokenText(q: Quirk)
    ensures QuirkToken(q) != "" && ',' !in QuirkToken(q) && ':' !in QuirkToken(q)
  {
  }

  /** The `linux` token is declared but maps to no quirk. */
  lemma LinuxIsNotAQuirk()
    ensures QuirkOfToken(QuirkLinux) == None
  {
  }

  /**
   * The 17 boolean fields of the source's flag record, held as the set of
   * quirks whose field is true: field `q` is true exactly when `q` is in the set.
   */
  type QuirkFlags = set<Quirk>

  /** The record with every field false. */
  const NoQuirks: QuirkFlags := {}

  /**
   * A parsed signature. The third field of the text form (the IP option
   * length) has no counterpart. `quirks` is None when the quirks field was
   * empty.
   */
  datatype Signature = Signature(
    ipVersion: IpVersion,
    initialTtl: int,
    maximumSegmentSize: int,
    windowSize: WindowSize,
    payloadSize: PayloadSize,
    optionsLayout: seq<OptionKind>,
    quirks: Option<QuirkFlags>)
}
