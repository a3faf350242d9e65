/**
 * Laws of the signature parser that relate several calls or hold for whole
 * families of inputs: field count, the unread option-length field, the
 * field order of errors, `eol+n` expansion, token order, and the
 * ambiguities the grammar leaves.
 */
module SigProperties {
  import opened Results
  import opened Decimal
  import opened Fields
  import opened SigTypes
  import opened SigParser

  /** The wildcard sentinels lie outside the MSS range the parser accepts. */
  lemma WildcardsOutsideMssRange()
    ensures MssWildcard == ScaleWildcard == -1
    ensures !(0 <= MssWildcard <= MaxSignatureMss)
  {
  }

  /** Any text without exactly seven colons is rejected as a whole. */
  lemma NeedsSevenColons(text: string)
    requires multiset(text)[':'] != 7
    ensures SignatureOf(text) == Err(InvalidSignature(text))
  {
    SplitCount(text, ':');
  }

  /** The text of eight colon-free fields with `olen` in the third slot. */
  function WithOptionLength(fields: seq<string>, olen: string): string
    requires |fields| == 8
  {
    Join(fields[..2] + [olen] + fields[3..], ':')
  }

  /** The third field (IP option length) is never read: any colon-free text there parses the same. */
  lemma OptionLengthIgnored(fields: seq<string>, olen: string, olen': string)
    requires |fields| == 8 && forall i :: 0 <= i < 8 ==> ':' !in fields[i]
    requires ':' !in olen && ':' !in olen'
    ensures SignatureOf(WithOptionLength(fields, olen)) == SignatureOf(WithOptionLength(fields, olen'))
  {
    var a := fields[..2] + [olen] + fields[3..];
    var b := fields[..2] + [olen'] + fields[3..];
    assert forall i :: 0 <= i < 8 ==> ':' !in a[i];
    assert forall i :: 0 <= i < 8 ==> ':' !in b[i];
    SplitJoin(a, ':');
    SplitJoin(b, ':');
    assert forall i :: 0 <= i < 8 && i != 2 ==> a[i] == b[i];
    SameReadFields(Join(a, ':'), Join(b, ':'));
  }

  /** Two texts whose eight fields agree outside the third parse alike. */
  lemma SameReadFields(text: string, text': string)
    requires |Split(text, ':')| == 8 && |Split(text', ':')| == 8
    requires forall i :: 0 <= i < 8 && i != 2 ==> Split(text, ':')[i] == Split(text', ':')[i]
    ensures SignatureOf(text) == SignatureOf(text')
  {
    var ss, ss' := Split(text, ':'), Split(text', ':');
    assert ss[0] == ss'[0] && ss[1] == ss'[1] && ss[3] == ss'[3] && ss[4] == ss'[4];
    assert ss[5] == ss'[5] && ss[6] == ss'[6] && ss[7] == ss'[7];
  }

  /**
   * A signature parses exactly when it has eight fields and each of the
   * seven read fields parses, and then holds those fields' values.
   */
  lemma SignatureFields(text: string)
    ensures var ss := Split(text, ':');
      SignatureOf(text).Ok? <==>
        && |ss| == 8
        && ParseIpVersion(ss[0]).Ok? && ParseInitialTtl(ss[1]).Ok?
        && ParseMaximumSegmentSize(ss[3]).Ok? && ParseWindowSize(ss[4]).Ok?
        && OptionsField(ss[5]).Ok? && QuirksField(ss[6]).Ok? && ParsePayloadSize(ss[7]).Ok?
    ensures var ss := Split(text, ':');
      SignatureOf(text).Ok? ==>
        SignatureOf(text).value == Signature(
          ParseIpVersion(ss[0]).value, ParseInitialTtl(ss[1]).value,
          ParseMaximumSegmentSize(ss[3]).value, ParseWindowSize(ss[4]).value,
          ParsePayloadSize(ss[7]).value, OptionsField(ss[5]).value, QuirksField(ss[6]).value)
  {
  }

  /**
   * The error names the first failing field in the order 0, 1, 3, 4, 5, 6, 7:
   * each kind of error occurs exactly when every earlier field parsed and
   * its own field did not.
   */
  lemma FirstFailingFieldDecides(text: string)
    requires |Split(text, ':')| == 8
    ensures var ss := Split(text, ':'); var r := SignatureOf(text);
      && (r.Err? && r.error.InvalidIpVersion? <==> ParseIpVersion(ss[0]).Err?)
      && (r.Err? && r.error.InvalidInitialTtl? <==>
            ParseIpVersion(ss[0]).Ok? && ParseInitialTtl(ss[1]).Err?)
      && (r.Err? && r.error.InvalidMaximumSegmentSize? <==>
            ParseIpVersion(ss[0]).Ok? && ParseInitialTtl(ss[1]).Ok?
            && ParseMaximumSegmentSize(ss[3]).Err?)
      && (r.Err? && r.error.InvalidWindowSize? <==>
            ParseIpVersion(ss[0]).Ok? && ParseInitialTtl(ss[1]).Ok?
            && ParseMaximumSegmentSize(ss[3]).Ok? && ParseWindowSize(ss[4]).Err?)
      && (r.Err? && r.error.InvalidOption? <==>
            ParseIpVersion(ss[0]).Ok? && ParseInitialTtl(ss[1]).Ok?
            && ParseMaximumSegmentSize(ss[3]).Ok? && ParseWindowSize(ss[4]).Ok?
            && OptionsField(ss[5]).Err?)
      && (r.Err? && r.error.InvalidQuirk? <==>
            ParseIpVersion(ss[0]).Ok? && ParseInitialTtl(ss[1]).Ok?
            && ParseMaximumSegmentSize(ss[3]).Ok? && ParseWindowSize(ss[4]).Ok?
            && OptionsField(ss[5]).Ok? && QuirksField(ss[6]).Err?)
      && (r.Err? && r.error.InvalidPayloadSize? <==>
            ParseIpVersion(ss[0]).Ok? && ParseInitialTtl(ss[1]).Ok?
            && ParseMaximumSegmentSize(ss[3]).Ok? && ParseWindowSize(ss[4]).Ok?
            && OptionsField(ss[5]).Ok? && QuirksField(ss[6]).Ok? && ParsePayloadSize(ss[7]).Err?)
      && !(r.Err? && r.error.InvalidSignature?)
  {
  }

  /** `eol+n` stands for n + 1 end-of-list kinds (exactly one when n is negative). */
  lemma EolPlusExpansion(n: int)
    ensures TokenKinds("eol+" + Itoa(n)) == Ok(EndListRun(n))
  {
    var t := "eol+" + Itoa(n);
    assert t[..4] == "eol+" && t[4..] == Itoa(n);
    AtoiItoa(n);
  }

  /** The layout of two token lists one after the other is their layouts one after the other. */
  lemma {:induction false} OptionsOfAppend(a: seq<string>, b: seq<string>)
    requires OptionsOf(a).Ok? && OptionsOf(b).Ok?
    ensures OptionsOf(a + b) == Ok(OptionsOf(a).value + OptionsOf(b).value)
  {
    if b == [] {
      assert a + b == a;
      assert OptionsOf(b) == Ok([]);
      assert OptionsOf(a).value + [] == OptionsOf(a).value;
    } else {
      var prefix := b[..|b| - 1];
      assert forall i :: 0 <= i < |prefix| ==> prefix[i] == b[i];
      var last := b[|b| - 1];
      assert TokenKinds(last).Ok?;
      assert OptionsOf(b).value == OptionsOf(prefix).value + TokenKinds(last).value;
      OptionsOfAppend(a, prefix);
      assert (a + b)[..|a + b| - 1] == a + prefix;
      assert (a + b)[|a + b| - 1] == last;
      assert OptionsOf(a + prefix) == Ok(OptionsOf(a).value + OptionsOf(prefix).value);
      assert OptionsOf(a + b) == Ok(OptionsOf(a + prefix).value + TokenKinds(last).value);
      var ka, kp, kl := OptionsOf(a).value, OptionsOf(prefix).value, TokenKinds(last).value;
      assert (ka + kp) + kl == ka + (kp + kl);
    }
  }

  /** Short tokens each add their own kind, in input order. */
  lemma {:induction false} ShortTokensInOrder(tokens: seq<string>)
    requires forall i :: 0 <= i < |tokens| ==> OptionKindOfName(tokens[i]).Some?
    ensures OptionsOf(tokens).Ok? && |OptionsOf(tokens).value| == |tokens|
    ensures forall i :: 0 <= i < |tokens| ==> OptionKindOfName(tokens[i]) == Some(OptionsOf(tokens).value[i])
  {
    if tokens == [] {
      assert OptionsOf(tokens) == Ok([]);
    } else {
      var prefix := tokens[..|tokens| - 1];
      var last := tokens[|tokens| - 1];
      assert forall i :: 0 <= i < |prefix| ==> prefix[i] == tokens[i];
      ShortTokensInOrder(prefix);
      assert TokenKinds(last) == Ok([OptionKindOfName(last).value]);
      assert OptionsOf(tokens) == Ok(OptionsOf(prefix).value + [OptionKindOfName(last).value]);
    }
  }

  /** The options field reads back a non-empty layout from its names joined by commas. */
  lemma LayoutOfNames(layout: seq<OptionKind>, names: seq<string>)
    requires |layout| >= 1 && |names| == |layout|
    requires forall i :: 0 <= i < |layout| ==> IsNamedKind(layout[i]) && names[i] == OptionName(layout[i])
    ensures OptionsField(Join(names, ',')) == Ok(layout)
  {
    NamesReadBack(layout, names);
    SplitJoin(names, ',');
    ShortTokensInOrder(names);
    var kinds := OptionsOf(names).value;
    assert forall i :: 0 <= i < |layout| ==> kinds[i] == layout[i];
    assert kinds == layout;
    assert names[0] != "";
  }

  /** Each name is comma-free and reads back as its kind. */
  lemma NamesReadBack(layout: seq<OptionKind>, names: seq<string>)
    requires |names| == |layout|
    requires forall i :: 0 <= i < |layout| ==> IsNamedKind(layout[i]) && names[i] == OptionName(layout[i])
    ensures forall i :: 0 <= i < |names| ==> ',' !in names[i] && OptionKindOfName(names[i]) == Some(layout[i])
  {
    forall i | 0 <= i < |names|
      ensures ',' !in names[i] && OptionKindOfName(names[i]) == Some(layout[i])
    {
      OptionNamesRoundTrip(layout[i]);
    }
  }

  /** Every token of `b` is known when every token of `a` is and `b` has no token `a` lacks. */
  lemma KnownTokensCovered(a: seq<string>, b: seq<string>)
    requires forall t :: t in b ==> t in a
    requires forall i :: 0 <= i < |a| ==> QuirkOfToken(a[i]).Some?
    ensures forall j :: 0 <= j < |b| ==> QuirkOfToken(b[j]).Some?
  {
    forall j | 0 <= j < |b|
      ensures QuirkOfToken(b[j]).Some?
    {
      assert b[j] in a;
      var i :| 0 <= i < |a| && a[i] == b[j];
    }
  }

  /** The flags depend only on which tokens occur, not on their order or repetition. */
  lemma QuirksOrderIrrelevant(a: seq<string>, b: seq<string>)
    requires forall t :: t in a <==> t in b
    ensures QuirksOf(a).Ok? <==> QuirksOf(b).Ok?
    ensures QuirksOf(a).Ok? ==> QuirksOf(b) == QuirksOf(a)
  {
    if QuirksOf(a).Ok? {
      KnownTokensCovered(a, b);
      var fa, fb := QuirksOf(a).value, QuirksOf(b).value;
      forall q
        ensures q in fa <==> q in fb
      {
        assert QuirkToken(q) in a <==> QuirkToken(q) in b;
      }
      assert fa == fb;
    } else if QuirksOf(b).Ok? {
      KnownTokensCovered(b, a);
    }
  }

  /** The declared `linux` token is rejected wherever it appears. */
  lemma LinuxRejected(tokens: seq<string>)
    requires QuirkLinux in tokens
    ensures QuirksOf(tokens).Err?
  {
    LinuxIsNotAQuirk();
  }

  /** An explicit scale of -1 is indistinguishable from the wildcard `*`. */
  lemma ScaleMinusOneIsWildcard(wsize: string)
    requires ',' !in wsize
    ensures ParseWindowSize(wsize + ",-1").Ok? <==> ParseWindowSize(wsize + ",*").Ok?
    ensures ParseWindowSize(wsize + ",-1").Ok? ==>
      ParseWindowSize(wsize + ",-1").value == ParseWindowSize(wsize + ",*").value
  {
    SplitCons(wsize, ',', "-1");
    SplitCons(wsize, ',', "*");
    SplitNoSep("-1", ',');
    SplitNoSep("*", ',');
    assert wsize + ",-1" == wsize + [','] + "-1";
    assert wsize + ",*" == wsize + [','] + "*";
    assert Atoi("-1") == Some(-1) by {
      assert "-1"[1..] == "1";
      assert DigitsValue("1") == 1 by {
        assert "1"[..0] == "";
      }
    }
  }
}
