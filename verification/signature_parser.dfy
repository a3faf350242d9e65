/**
 * The p0f v3 signature parser: the colon-separated text form
 * `ver:ittl:olen:mss:wsize,scale:olayout:quirks:pclass` becomes a Signature
 * or an error naming the first field that failed.
 */
module SigParser {
  import opened Results
  import opened Decimal
  import opened Fields
  import opened SigTypes

  /** The failing field and its raw text (the whole signature for a wrong field count). */
  datatype ParseError =
    | InvalidSignature(raw: string)
    | InvalidIpVersion(raw: string)
    | InvalidInitialTtl(raw: string)
    | InvalidMaximumSegmentSize(raw: string)
    | InvalidWindowSize(raw: string)
    | InvalidOption(raw: string)
    | InvalidQuirk(raw: string)
    | InvalidPayloadSize(raw: string)

  /** What every parsed signature satisfies. */
  predicate WellFormed(sig: Signature) {
    && sig.initialTtl > 0
    && (sig.maximumSegmentSize == MssWildcard || 0 <= sig.maximumSegmentSize <= MaxSignatureMss)
    && (sig.windowSize.kind == Any <==> sig.windowSize.size == 0)
    && (forall i :: 0 <= i < |sig.optionsLayout| ==> IsNamedKind(sig.optionsLayout[i]))
    && (sig.quirks.Some? ==> sig.quirks.value != {})
  }

  /** The IP version field accepts exactly `4`, `6` and `*`. */
  function ParseIpVersion(s: string): (r: Result<IpVersion, ParseError>)
    ensures r.Ok? <==> s == "4" || s == "6" || s == "*"
    ensures r.Err? ==> r.error == InvalidIpVersion(s)
  {
    match s
    case "4" => Ok(IpVersion4)
    case "6" => Ok(IpVersion6)
    case "*" => Ok(IpVersionAny)
    case _ => Err(InvalidIpVersion(s))
  }

  /** The payload class field accepts exactly `0`, `+` and `*`. */
  function ParsePayloadSize(s: string): (r: Result<PayloadSize, ParseError>)
    ensures r.Ok? <==> s == "0" || s == "+" || s == "*"
    ensures r.Err? ==> r.error == InvalidPayloadSize(s)
  {
    match s
    case "0" => Ok(PayloadZero)
    case "+" => Ok(PayloadNonZero)
    case "*" => Ok(PayloadAny)
    case _ => Err(InvalidPayloadSize(s))
  }

  /** The initial TTL is a decimal integer greater than zero. */
  function ParseInitialTtl(s: string): (r: Result<int, ParseError>)
    ensures r.Ok? <==> Atoi(s).Some? && Atoi(s).value > 0
    ensures r.Ok? ==> r.value > 0 && Atoi(s) == Some(r.value)
    ensures r.Err? ==> r.error == InvalidInitialTtl(s)
  {
    if |s| > 0 then
      match Atoi(s)
      case None => Err(InvalidInitialTtl(s))
      case Some(i) => if i <= 0 then Err(InvalidInitialTtl(s)) else Ok(i)
    else Err(InvalidInitialTtl(s))
  }

  /** The MSS is `*` (the wildcard sentinel) or a decimal integer in [0, 0xFFFFF]. */
  function ParseMaximumSegmentSize(s: string): (r: Result<int, ParseError>)
    ensures r.Ok? <==> s == "*" || (Atoi(s).Some? && 0 <= Atoi(s).value <= MaxSignatureMss)
    ensures r.Ok? ==> (r.value == MssWildcard <==> s == "*")
    ensures r.Ok? && s != "*" ==> Atoi(s) == Some(r.value) && 0 <= r.value <= MaxSignatureMss
    ensures r.Err? ==> r.error == InvalidMaximumSegmentSize(s)
  {
    if s == "*" then Ok(MssWildcard)
    else
      match Atoi(s)
      case None => Err(InvalidMaximumSegmentSize(s))
      case Some(i) =>
        if i < 0 || i > MaxSignatureMss then Err(InvalidMaximumSegmentSize(s)) else Ok(i)
  }

  /** The numeric part of a non-literal window size and the shape it came from. */
  datatype WindowPart = WindowPart(value: string, kind: WindowType)

  /**
   * Recognises `mss*n`, `mtu*n` and `%n`. A text of five or more characters
   * with `*` at index 3 is tried only as `mss*` or `mtu*`, even when it starts
   * with `%`. An empty value part means no shape matched.
   */
  function WindowShape(wsize: string): (p: WindowPart)
    ensures p.value != [] && p.kind == Mss ==> |wsize| >= 5 && wsize[..4] == "mss*" && p.value == wsize[4..]
    ensures p.value != [] && p.kind == Mtu ==> |wsize| >= 5 && wsize[..4] == "mtu*" && p.value == wsize[4..]
    ensures p.value != [] && p.kind == Mod ==> |wsize| >= 2 && wsize[0] == '%' && p.value == wsize[1..]
    ensures p.value != [] ==> p.kind in {Mss, Mtu, Mod}
  {
    if |wsize| >= 5 && wsize[3] == '*' then
      if wsize[..3] == "mss" then WindowPart(wsize[4..], Mss)
      else if wsize[..3] == "mtu" then WindowPart(wsize[4..], Mtu)
      else WindowPart("", Normal)
    else if |wsize| >= 2 && wsize[0] == '%' then WindowPart(wsize[1..], Mod)
    else WindowPart("", Normal)
  }

  /** A window value in (0, 0xFFFF]. */
  predicate InWindowRange(n: int) {
    0 < n <= 0xFFFF
  }

  /** The scale part: `*` is the wildcard, anything else is whatever Atoi gives, unchecked. */
  function ParseScale(scale: string): (r: Option<int>)
    ensures r.Some? <==> scale == "*" || Atoi(scale).Some?
    ensures scale != "*" ==> r == Atoi(scale)
  {
    if scale == "*" then Some(ScaleWildcard) else Atoi(scale)
  }

  /**
   * The size part of a window descriptor with its scale already read: `*`
   * is Any with value 0, a literal is Normal, and `%n`, `mss*n`, `mtu*n`
   * carry their number; every number must lie in (0, 0xFFFF].
   */
  function WindowOf(wsize: string, scale: int): (r: Option<WindowSize>)
    ensures r.Some? ==> r.value.scale == scale
    ensures r.Some? ==> (r.value.kind == Any <==> wsize == "*")
    ensures r.Some? && r.value.kind == Any ==> r.value.size == 0
    ensures r.Some? && r.value.kind != Any ==> InWindowRange(r.value.size)
    ensures r.Some? && r.value.kind == Normal ==> Atoi(wsize) == Some(r.value.size)
    ensures r.Some? && r.value.kind in {Mss, Mtu, Mod} ==>
      Atoi(wsize).None?
      && WindowShape(wsize) == WindowPart(WindowShape(wsize).value, r.value.kind)
      && Atoi(WindowShape(wsize).value) == Some(r.value.size)
  {
    if wsize == "*" then Some(WindowSize(0, Any, scale))
    else
      match Atoi(wsize)
      case Some(n) =>
        if !InWindowRange(n) then None else Some(WindowSize(n, Normal, scale))
      case None =>
        var part := WindowShape(wsize);
        if part.value == [] then None
        else
          match Atoi(part.value)
          case Some(i) => if !InWindowRange(i) then None else Some(WindowSize(i, part.kind, scale))
          case None => None
  }

  /**
   * The `size,scale` window descriptor: exactly two non-empty parts, a
   * readable scale and a readable size.
   */
  function ParseWindowSize(ws: string): (r: Result<WindowSize, ParseError>)
    ensures r.Err? ==> r.error == InvalidWindowSize(ws)
    ensures r.Ok? <==>
      && |Split(ws, ',')| == 2 && Split(ws, ',')[0] != [] && Split(ws, ',')[1] != []
      && ParseScale(Split(ws, ',')[1]).Some?
      && WindowOf(Split(ws, ',')[0], ParseScale(Split(ws, ',')[1]).value).Some?
    ensures r.Ok? ==> ParseScale(Split(ws, ',')[1]) == Some(r.value.scale)
    ensures r.Ok? ==> WindowOf(Split(ws, ',')[0], r.value.scale) == Some(r.value)
  {
    var parts := Split(ws, ',');
    if |parts| != 2 || parts[0] == [] || parts[1] == [] then Err(InvalidWindowSize(ws))
    else
      match ParseScale(parts[1])
      case None => Err(InvalidWindowSize(ws))
      case Some(scale) =>
        match WindowOf(parts[0], scale)
        case None => Err(InvalidWindowSize(ws))
        case Some(window) => Ok(window)
  }

  /** The run of end-of-list kinds that `eol+n` stands for: n + 1 of them, one when n < 0. */
  function EndListRun(n: int): (r: seq<OptionKind>)
    ensures |r| == (if n < 0 then 1 else n + 1)
    ensures forall i :: 0 <= i < |r| ==> r[i] == KindEndList
  {
    seq(if n < 0 then 1 else n + 1, _ => KindEndList)
  }

  /** One more padding byte extends the run by one end-of-list kind. */
  lemma EndListRunGrows(n: nat)
    ensures EndListRun(n) + [KindEndList] == EndListRun(n + 1)
  {
  }

  /** The kinds one layout token stands for. */
  function TokenKinds(opt: string): (r: Result<seq<OptionKind>, ParseError>)
    ensures r.Err? ==> r.error == InvalidOption(opt)
    ensures r.Ok? ==> |r.value| >= 1 && forall i :: 0 <= i < |r.value| ==> IsNamedKind(r.value[i])
    ensures r.Ok? && |opt| < 5 ==> OptionKindOfName(opt).Some? && r.value == [OptionKindOfName(opt).value]
    ensures r.Ok? <==> (if |opt| >= 5 then opt[..4] == "eol+" && Atoi(opt[4..]).Some? else OptionKindOfName(opt).Some?)
    ensures r.Ok? && |opt| >= 5 ==> r.value == EndListRun(Atoi(opt[4..]).value)
  {
    if |opt| >= 5 then
      if opt[..4] == "eol+" then
        match Atoi(opt[4..])
        case None => Err(InvalidOption(opt))
        case Some(n) => Ok(EndListRun(n))
      else Err(InvalidOption(opt))
    else
      match OptionKindOfName(opt)
      case None => Err(InvalidOption(opt))
      case Some(k) => Ok([k])
  }

  /** The layout of a list of tokens: their kinds concatenated in order; the first bad token is the error. */
  function OptionsOf(tokens: seq<string>): (r: Result<seq<OptionKind>, ParseError>)
    ensures r.Ok? <==> forall i :: 0 <= i < |tokens| ==> TokenKinds(tokens[i]).Ok?
    ensures r.Ok? ==> forall i :: 0 <= i < |r.value| ==> IsNamedKind(r.value[i])
    ensures r.Err? ==> r.error.InvalidOption?
  {
    if tokens == [] then Ok([])
    else
      var prefix := tokens[..|tokens| - 1];
      var last := tokens[|tokens| - 1];
      assert forall i :: 0 <= i < |prefix| ==> prefix[i] == tokens[i];
      var kinds :- OptionsOf(prefix);
      var more :- TokenKinds(last);
      Ok(kinds + more)
  }

  /** The first bad token is the error, whatever follows it. */
  lemma {:induction false} OptionsOfFirstError(tokens: seq<string>, i: nat)
    requires i < |tokens| && TokenKinds(tokens[i]).Err?
    requires forall j :: 0 <= j < i ==> TokenKinds(tokens[j]).Ok?
    ensures OptionsOf(tokens) == Err(InvalidOption(tokens[i]))
  {
    var prefix := tokens[..|tokens| - 1];
    if i < |tokens| - 1 {
      OptionsOfFirstError(prefix, i);
    } else {
      assert forall j :: 0 <= j < |prefix| ==> prefix[j] == tokens[j];
    }
  }

  /** The options layout field: empty gives an empty layout, otherwise comma-separated tokens. */
  function OptionsField(s: string): (r: Result<seq<OptionKind>, ParseError>)
    ensures r.Err? ==> r.error.InvalidOption?
  {
    if s == "" then Ok([]) else OptionsOf(Split(s, ','))
  }

  /** The quirks of a list of tokens: exactly the quirks named; the first unknown token is the error. */
  function QuirksOf(tokens: seq<string>): (r: Result<QuirkFlags, ParseError>)
    ensures r.Ok? <==> forall i :: 0 <= i < |tokens| ==> QuirkOfToken(tokens[i]).Some?
    ensures r.Ok? ==> forall q :: q in r.value <==> QuirkToken(q) in tokens
    ensures r.Err? ==> r.error.InvalidQuirk?
  {
    if tokens == [] then Ok(NoQuirks)
    else
      var prefix := tokens[..|tokens| - 1];
      var last := tokens[|tokens| - 1];
      assert forall i :: 0 <= i < |prefix| ==> prefix[i] == tokens[i];
      assert tokens == prefix + [last];
      var flags :- QuirksOf(prefix);
      match QuirkOfToken(last)
      case None => Err(InvalidQuirk(last))
      case Some(q) =>
        QuirkTokensInjective();
        Ok(flags + {q})
  }

  /** Distinct quirks have distinct tokens. */
  lemma QuirkTokensInjective()
    ensures forall q, q' :: QuirkToken(q) == QuirkToken(q') ==> q == q'
  {
    forall q, q' | QuirkToken(q) == QuirkToken(q') ensures q == q' {
      QuirkTokenRoundTrip(q);
      QuirkTokenRoundTrip(q');
    }
  }

  /** The first unknown token is the error, whatever follows it. */
  lemma {:induction false} QuirksOfFirstError(tokens: seq<string>, i: nat)
    requires i < |tokens| && QuirkOfToken(tokens[i]).None?
    requires forall j :: 0 <= j < i ==> QuirkOfToken(tokens[j]).Some?
    ensures QuirksOf(tokens) == Err(InvalidQuirk(tokens[i]))
  {
    var prefix := tokens[..|tokens| - 1];
    if i < |tokens| - 1 {
      QuirksOfFirstError(prefix, i);
    } else {
      assert forall j :: 0 <= j < |prefix| ==> prefix[j] == tokens[j];
    }
  }

  /** The quirks field: empty gives no record (None), otherwise comma-separated tokens. */
  function QuirksField(s: string): (r: Result<Option<QuirkFlags>, ParseError>)
    ensures r.Err? ==> r.error.InvalidQuirk?
  {
    if s == "" then Ok(None)
    else
      var flags :- QuirksOf(Split(s, ','));
      Ok(Some(flags))
  }

  /** The whole signature, field by field in the order 0, 1, 3, 4, 5, 6, 7; field 2 is never read. */
  function SignatureOf(text: string): (r: Result<Signature, ParseError>)
    ensures r.Ok? ==> WellFormed(r.value)
  {
    var ss := Split(text, ':');
    if |ss| != 8 then Err(InvalidSignature(text))
    else
      var ipVersion :- ParseIpVersion(ss[0]);
      var ttl :- ParseInitialTtl(ss[1]);
      var mss :- ParseMaximumSegmentSize(ss[3]);
      var window :- ParseWindowSize(ss[4]);
      var layout :- OptionsField(ss[5]);
      var quirks :- QuirksField(ss[6]);
      var payload :- ParsePayloadSize(ss[7]);
      Ok(Signature(ipVersion, ttl, mss, window, payload, layout, quirks))
  }

  /** parseQuirks: the token loop, setting one flag per token. */
  method ParseQuirks(s: string) returns (r: Result<Option<QuirkFlags>, ParseError>)
    ensures r == QuirksField(s)
  {
    if s == "" {
      return Ok(None);
    }
    var quirks := Split(s, ',');
    var flags := NoQuirks;
    for i := 0 to |quirks|
      invariant QuirksOf(quirks[..i]) == Ok(flags)
    {
      var quirk := quirks[i];
      match QuirkOfToken(quirk)
      case None =>
        assert forall j :: 0 <= j < i ==> quirks[..i][j] == quirks[j];
        QuirksOfFirstError(quirks, i);
        return Err(InvalidQuirk(quirk));
      case Some(q) =>
        flags := flags + {q};
        assert quirks[..i + 1][..i] == quirks[..i];
    }
    assert quirks[..|quirks|] == quirks;
    return Ok(Some(flags));
  }

  /** The body of the `eol+n` case: one end-of-list kind, then one per padding byte. */
  method AppendEndListRun(options: seq<OptionKind>, padding: int) returns (r: seq<OptionKind>)
    ensures r == options + EndListRun(padding)
  {
    r := options + [KindEndList];
    var k := 1;
    while k <= padding
      invariant 1 <= k && (k == 1 || k <= padding + 1)
      invariant r == options + EndListRun(k - 1)
    {
      EndListRunGrows(k - 1);
      r := r + [KindEndList];
      k := k + 1;
    }
  }

  /** parseOptions: the token loop, with the inner loop that pads `eol+n`. */
  method ParseOptions(s: string) returns (r: Result<seq<OptionKind>, ParseError>)
    ensures r == OptionsField(s)
  {
    if s == "" {
      return Ok([]);
    }
    var opts := Split(s, ',');
    var options: seq<OptionKind> := [];
    for i := 0 to |opts|
      invariant OptionsOf(opts[..i]) == Ok(options)
    {
      var opt := opts[i];
      assert opts[..i + 1][..i] == opts[..i];
      assert forall j :: 0 <= j < i ==> opts[..i][j] == opts[j];
      if |opt| >= 5 {
        if opt[..4] == "eol+" {
          var n := Atoi(opt[4..]);
          if n.None? {
            OptionsOfFirstError(opts, i);
            return Err(InvalidOption(opt));
          }
          options := AppendEndListRun(options, n.value);
          assert TokenKinds(opt) == Ok(EndListRun(n.value));
          continue;
        }
        OptionsOfFirstError(opts, i);
        return Err(InvalidOption(opt));
      }
      match OptionKindOfName(opt)
      case None =>
        OptionsOfFirstError(opts, i);
        return Err(InvalidOption(opt));
      case Some(kind) =>
        assert TokenKinds(opt) == Ok([kind]);
        options := options + [kind];
    }
    assert opts[..|opts|] == opts;
    return Ok(options);
  }

  /** Parser.Parse: the field parsers in order, returning at the first error. */
  method Parse(signature: string) returns (r: Result<Signature, ParseError>)
    ensures r == SignatureOf(signature)
  {
    var ss := Split(signature, ':');
    if |ss| != 8 {
      return Err(InvalidSignature(signature));
    }
    var ipVersion :- ParseIpVersion(ss[0]);
    var ttl :- ParseInitialTtl(ss[1]);
    var mss :- ParseMaximumSegmentSize(ss[3]);
    var window :- ParseWindowSize(ss[4]);
    var layout :- ParseOptions(ss[5]);
    var quirks :- ParseQuirks(ss[6]);
    var payload :- ParsePayloadSize(ss[7]);
    return Ok(Signature(ipVersion, ttl, mss, window, payload, layout, quirks));
  }
}
