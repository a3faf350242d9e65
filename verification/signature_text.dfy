/**
 * The text form of a parsed signature, written field by field in the
 * grammar the parser reads, and the round trip: parsing the text of a
 * well-formed signature gives the signature back.
 */
module SigText {
  import opened Results
  import opened Decimal
  import opened Fields
  import opened SigTypes
  import opened SigParser
  import opened SigProperties

  function IpVersionText(v: IpVersion): (s: string)
    ensures ParseIpVersion(s) == Ok(v)
  {
    match v
    case IpVersion4 => "4"
    case IpVersion6 => "6"
    case IpVersionAny => "*"
  }

  function PayloadText(p: PayloadSize): (s: string)
    ensures ParsePayloadSize(s) == Ok(p)
  {
    match p
    case PayloadZero => "0"
    case PayloadNonZero => "+"
    case PayloadAny => "*"
  }

  /** `*` for the wildcard, the decimal number otherwise. */
  function MssText(mss: int): string
  {
    if mss == MssWildcard then "*" else Itoa(mss)
  }

  /** `*` for the wildcard, the decimal number otherwise. */
  function ScaleText(scale: int): string
  {
    if scale == ScaleWildcard then "*" else Itoa(scale)
  }

  /** The size part: `*`, a literal, `%n`, `mss*n` or `mtu*n`. */
  function WindowSizePartText(w: WindowSize): string
  {
    match w.kind
    case Any => "*"
    case Normal => Itoa(w.size)
    case Mod => "%" + Itoa(w.size)
    case Mss => "mss*" + Itoa(w.size)
    case Mtu => "mtu*" + Itoa(w.size)
  }

  function WindowText(w: WindowSize): string
  {
    WindowSizePartText(w) + [','] + ScaleText(w.scale)
  }

  /** The layout names of a list of named kinds. */
  function LayoutNames(layout: seq<OptionKind>): (names: seq<string>)
    requires forall i :: 0 <= i < |layout| ==> IsNamedKind(layout[i])
    ensures |names| == |layout|
    ensures forall i :: 0 <= i < |layout| ==> names[i] == OptionName(layout[i])
  {
    if layout == [] then []
    else [OptionName(layout[0])] + LayoutNames(layout[1..])
  }

  /** Empty for an empty layout, otherwise the names joined by commas. */
  function LayoutText(layout: seq<OptionKind>): string
    requires forall i :: 0 <= i < |layout| ==> IsNamedKind(layout[i])
  {
    if layout == [] then "" else Join(LayoutNames(layout), ',')
  }

  /** Every quirk once, in the order of the quirk-token table. */
  const AllQuirks: seq<Quirk> := [DF, IdPlus, IdMinus, ECN, ZeroPlus, Flow,
    SeqMinus, AckPlus, AckMinus, UptrPlus, UrgfPlus, PushfPlus,
    TsMinus, TsPlus, OptPlus, EXWS, Bad]

  lemma AllQuirksListed(q: Quirk)
    ensures q in AllQuirks
  {
  }

  /** The quirks of `qs` that are set in `flags`, in the order of `qs`. */
  function SetQuirks(qs: seq<Quirk>, flags: QuirkFlags): (set_: seq<Quirk>)
    ensures forall q :: q in set_ <==> q in qs && q in flags
  {
    if qs == [] then []
    else if qs[0] in flags then [qs[0]] + SetQuirks(qs[1..], flags)
    else SetQuirks(qs[1..], flags)
  }

  /** The tokens of a list of quirks, in order. */
  function QuirkTokens(qs: seq<Quirk>): (tokens: seq<string>)
    ensures |tokens| == |qs|
    ensures forall i :: 0 <= i < |qs| ==> tokens[i] == QuirkToken(qs[i])
  {
    if qs == [] then []
    else QuirkTokens(qs[..|qs| - 1]) + [QuirkToken(qs[|qs| - 1])]
  }

  /** Empty for an absent record, otherwise the set quirks' tokens joined by commas. */
  function QuirksText(quirks: Option<QuirkFlags>): string
  {
    match quirks
    case None => ""
    case Some(flags) =>
      var tokens := QuirkTokens(SetQuirks(AllQuirks, flags));
      if tokens == [] then "" else Join(tokens, ',')
  }

  /** The colon-separated text of a signature, with `olen` in the unread third field. */
  function SignatureText(sig: Signature, olen: string): string
    requires WellFormed(sig)
  {
    Join([IpVersionText(sig.ipVersion), Itoa(sig.initialTtl), olen,
      MssText(sig.maximumSegmentSize), WindowText(sig.windowSize),
      LayoutText(sig.optionsLayout), QuirksText(sig.quirks),
      PayloadText(sig.payloadSize)], ':')
  }

  lemma TtlRoundTrip(ttl: int)
    requires ttl > 0
    ensures ParseInitialTtl(Itoa(ttl)) == Ok(ttl)
  {
    AtoiItoa(ttl);
  }

  lemma MssRoundTrip(mss: int)
    requires mss == MssWildcard || 0 <= mss <= MaxSignatureMss
    ensures ParseMaximumSegmentSize(MssText(mss)) == Ok(mss)
  {
    AtoiItoa(mss);
  }

  /** A text that starts with neither a digit nor a sign is not a number. */
  lemma NotDecimal(s: string)
    requires |s| > 0 && !IsDigit(s[0]) && s[0] != '+' && s[0] != '-'
    ensures Atoi(s).None?
  {
    assert !AllDigits(s);
  }

  /** The size text of a shaped window is recognised as that shape, carrying the number's text. */
  lemma ShapeOfSizeText(w: WindowSize)
    requires w.kind in {Mod, Mss, Mtu}
    ensures Atoi(WindowSizePartText(w)).None?
    ensures WindowShape(WindowSizePartText(w)) == WindowPart(Itoa(w.size), w.kind)
  {
    var size := WindowSizePartText(w);
    var n := Itoa(w.size);
    ItoaDigits(w.size);
    NotDecimal(size);
    if w.kind == Mod {
      assert size == ['%'] + n;
      assert |size| < 5 || size[3] != '*';
      assert size[1..] == n;
    } else {
      assert |size| >= 5 && size[3] == '*' && size[4..] == n;
      assert size[..3] == (if w.kind == Mss then "mss" else "mtu");
    }
  }

  /** The size text reads back as the window, given its scale. */
  lemma WindowOfSizeText(w: WindowSize)
    requires w.kind == Any <==> w.size == 0
    ensures WindowOf(WindowSizePartText(w), w.scale) == Some(w)
  {
    AtoiItoa(w.size);
    if w.kind == Normal {
      ItoaAvoids(w.size, '*');
    } else if w.kind != Any {
      ShapeOfSizeText(w);
    }
  }

  /** The window text splits into its size text and its scale text, and the scale reads back. */
  lemma WindowTextParts(w: WindowSize)
    ensures Split(WindowText(w), ',') == [WindowSizePartText(w), ScaleText(w.scale)]
    ensures ParseScale(ScaleText(w.scale)) == Some(w.scale)
  {
    var size, scale := WindowSizePartText(w), ScaleText(w.scale);
    ItoaAvoids(w.size, ',');
    ItoaAvoids(w.scale, ',');
    ItoaAvoids(w.scale, '*');
    assert ',' !in size;
    SplitCons(size, ',', scale);
    SplitNoSep(scale, ',');
    AtoiItoa(w.scale);
  }

  /** Every window the parser can produce is read back from its text. */
  lemma WindowRoundTrip(w: WindowSize)
    requires w.kind == Any <==> w.size == 0
    ensures ParseWindowSize(WindowText(w)) == Ok(w)
  {
    WindowTextParts(w);
    WindowOfSizeText(w);
    ItoaDigits(w.size);
  }

  /** A non-empty layout is read back from its names. */
  lemma LayoutRoundTrip(layout: seq<OptionKind>)
    requires forall i :: 0 <= i < |layout| ==> IsNamedKind(layout[i])
    ensures OptionsField(LayoutText(layout)) == Ok(layout)
  {
    if layout != [] {
      LayoutOfNames(layout, LayoutNames(layout));
    }
  }

  /** The tokens of a list of quirks parse to exactly the quirks listed. */
  lemma QuirksOfTokens(qs: seq<Quirk>)
    ensures QuirksOf(QuirkTokens(qs)).Ok?
    ensures forall q :: q in QuirksOf(QuirkTokens(qs)).value <==> q in qs
  {
    var tokens := QuirkTokens(qs);
    forall i | 0 <= i < |tokens|
      ensures QuirkOfToken(tokens[i]).Some?
    {
      QuirkTokenRoundTrip(qs[i]);
    }
    QuirkTokensInjective();
    forall q
      ensures q in QuirksOf(tokens).value <==> q in qs
    {
      if q in qs {
        var i :| 0 <= i < |qs| && qs[i] == q;
        assert tokens[i] == QuirkToken(q);
      }
      if QuirkToken(q) in tokens {
        var i :| 0 <= i < |tokens| && tokens[i] == QuirkToken(q);
        assert QuirkToken(qs[i]) == QuirkToken(q);
      }
    }
  }

  /** Quirk tokens joined by commas split back into the same tokens. */
  lemma QuirkTokensSplit(qs: seq<Quirk>)
    requires qs != []
    ensures Join(QuirkTokens(qs), ',') != ""
    ensures Split(Join(QuirkTokens(qs), ','), ',') == QuirkTokens(qs)
  {
    var tokens := QuirkTokens(qs);
    forall i | 0 <= i < |tokens|
      ensures ',' !in tokens[i]
    {
      QuirkTokenText(qs[i]);
    }
    SplitJoin(tokens, ',');
    QuirkTokenText(qs[0]);
  }

  /** A present, non-empty flag record is read back from its tokens. */
  lemma QuirksRoundTrip(quirks: Option<QuirkFlags>)
    requires quirks.Some? ==> quirks.value != {}
    ensures QuirksField(QuirksText(quirks)) == Ok(quirks)
  {
    if quirks.Some? {
      var flags := quirks.value;
      var qs := SetQuirks(AllQuirks, flags);
      var q0 :| q0 in flags;
      AllQuirksListed(q0);
      QuirkTokensSplit(qs);
      QuirksOfTokens(qs);
      ListedQuirks(QuirksOf(QuirkTokens(qs)).value, qs, flags);
    }
  }

  /** A set holding exactly the listed set quirks is the flag record itself. */
  lemma ListedQuirks(parsed: QuirkFlags, qs: seq<Quirk>, flags: QuirkFlags)
    requires forall q :: q in parsed <==> q in qs
    requires forall q :: q in qs <==> q in AllQuirks && q in flags
    ensures parsed == flags
  {
    forall q
      ensures q in parsed <==> q in flags
    {
      AllQuirksListed(q);
    }
  }

  lemma WindowTextColonFree(w: WindowSize)
    ensures ':' !in WindowText(w)
  {
    ItoaAvoids(w.size, ':');
    ItoaAvoids(w.scale, ':');
  }

  lemma LayoutTextColonFree(layout: seq<OptionKind>)
    requires forall i :: 0 <= i < |layout| ==> IsNamedKind(layout[i])
    ensures ':' !in LayoutText(layout)
  {
    if layout != [] {
      var names := LayoutNames(layout);
      forall i | 0 <= i < |names|
        ensures ':' !in names[i]
      {
        OptionNamesRoundTrip(layout[i]);
      }
      JoinAvoids(names, ',', ':');
    }
  }

  lemma QuirksTextColonFree(quirks: Option<QuirkFlags>)
    ensures ':' !in QuirksText(quirks)
  {
    if quirks.Some? {
      var qs := SetQuirks(AllQuirks, quirks.value);
      var tokens := QuirkTokens(qs);
      if tokens != [] {
        forall i | 0 <= i < |tokens|
          ensures ':' !in tokens[i]
        {
          QuirkTokenText(qs[i]);
        }
        JoinAvoids(tokens, ',', ':');
      }
    }
  }

  /** A text whose eight fields each parse to the matching part of `sig` parses to `sig`. */
  lemma FieldsParseTo(text: string, sig: Signature)
    requires |Split(text, ':')| == 8
    requires ParseIpVersion(Split(text, ':')[0]) == Ok(sig.ipVersion)
    requires ParseInitialTtl(Split(text, ':')[1]) == Ok(sig.initialTtl)
    requires ParseMaximumSegmentSize(Split(text, ':')[3]) == Ok(sig.maximumSegmentSize)
    requires ParseWindowSize(Split(text, ':')[4]) == Ok(sig.windowSize)
    requires OptionsField(Split(text, ':')[5]) == Ok(sig.optionsLayout)
    requires QuirksField(Split(text, ':')[6]) == Ok(sig.quirks)
    requires ParsePayloadSize(Split(text, ':')[7]) == Ok(sig.payloadSize)
    ensures SignatureOf(text) == Ok(sig)
  {
  }

  /** The text splits on colons into exactly the eight field texts. */
  lemma SignatureTextFields(sig: Signature, olen: string)
    requires WellFormed(sig) && ':' !in olen
    ensures Split(SignatureText(sig, olen), ':') == [IpVersionText(sig.ipVersion), Itoa(sig.initialTtl), olen,
      MssText(sig.maximumSegmentSize), WindowText(sig.windowSize),
      LayoutText(sig.optionsLayout), QuirksText(sig.quirks),
      PayloadText(sig.payloadSize)]
  {
    var parts := [IpVersionText(sig.ipVersion), Itoa(sig.initialTtl), olen,
      MssText(sig.maximumSegmentSize), WindowText(sig.windowSize),
      LayoutText(sig.optionsLayout), QuirksText(sig.quirks),
      PayloadText(sig.payloadSize)];
    ItoaAvoids(sig.initialTtl, ':');
    ItoaAvoids(sig.maximumSegmentSize, ':');
    WindowTextColonFree(sig.windowSize);
    LayoutTextColonFree(sig.optionsLayout);
    QuirksTextColonFree(sig.quirks);
    SplitJoin(parts, ':');
  }

  /** Parsing the text of a well-formed signature gives it back, whatever the option-length text. */
  lemma ParseSignatureText(sig: Signature, olen: string)
    requires WellFormed(sig) && ':' !in olen
    ensures SignatureOf(SignatureText(sig, olen)) == Ok(sig)
  {
    SignatureTextFields(sig, olen);
    TtlRoundTrip(sig.initialTtl);
    MssRoundTrip(sig.maximumSegmentSize);
    WindowRoundTrip(sig.windowSize);
    LayoutRoundTrip(sig.optionsLayout);
    QuirksRoundTrip(sig.quirks);
    FieldsParseTo(SignatureText(sig, olen), sig);
  }
}
