/** The constrained types shared by the domain (shared/types.rb): UUID, HexId, Email,
    DisbursementFrequency and PositiveDecimal, as predicates on their input. */
module Types {
  import opened Common
  import opened Strings
  import opened Money
  import DisbursementFrequency

  /** Characters of `[0-9a-f]` under the `i` flag. */
  predicate AllHex(s: string) { forall i :: 0 <= i < |s| ==> IsHexDigit(s[i]) }

  /** HexId: exactly twelve hexadecimal digits, either case, anchored at both ends of the
      string. */
  predicate IsHexId(s: string) { |s| == 12 && AllHex(s) }

  /** One whole UUID in the 8-4-4-4-12 layout, version digit '4', variant 8, 9, a or b. */
  predicate IsUuidShape(s: string)
  {
    && |s| == 36
    && s[8] == '-' && s[13] == '-' && s[18] == '-' && s[23] == '-'
    && AllHex(s[0..8]) && AllHex(s[9..13]) && AllHex(s[14..18]) && AllHex(s[19..23]) && AllHex(s[24..36])
    && s[14] == '4'
    && s[19] in "89abAB"
  }

  /** UUID as written: the pattern is anchored with `^` and `$`, which in Ruby match at the
      start and end of every line, so a string passes when any one of its lines is a UUID. */
  predicate IsUuidAsWritten(s: string)
  {
    var lines := Split(s, '\n');
    exists k :: 0 <= k < |lines| && IsUuidShape(lines[k])
  }

  /** UUID as intended: the whole string is one UUID. */
  predicate IsUuid(s: string) { IsUuidShape(s) }

  /** Email local part `[\w+\-.]+`. */
  predicate IsLocalChar(c: char) { IsAsciiLetter(c) || IsDigit(c) || c == '_' || c == '+' || c == '-' || c == '.' }

  /** Domain label `[a-z\d\-]+` under the `i` flag. */
  predicate IsLabelChar(c: char) { IsAsciiLetter(c) || IsDigit(c) || c == '-' }

  predicate IsLocalPart(s: string) { |s| > 0 && forall i :: 0 <= i < |s| ==> IsLocalChar(s[i]) }

  predicate IsLabel(s: string) { |s| > 0 && forall i :: 0 <= i < |s| ==> IsLabelChar(s[i]) }

  predicate IsTopLabel(s: string) { |s| > 0 && forall i :: 0 <= i < |s| ==> IsAsciiLetter(s[i]) }

  /** `label(.label)*.toplabel`: at least two dot-separated labels, the last alphabetic. */
  predicate IsDomain(s: string)
  {
    var labels := Split(s, '.');
    && |labels| >= 2
    && (forall k :: 0 <= k < |labels| ==> IsLabel(labels[k]))
    && IsTopLabel(labels[|labels| - 1])
  }

  /** Email: local part, one '@', domain; neither side can hold an '@'. */
  predicate IsEmail(s: string)
  {
    var parts := Split(s, '@');
    |parts| == 2 && IsLocalPart(parts[0]) && IsDomain(parts[1])
  }

  /** DisbursementFrequency: the enum of the value object's values. */
  predicate IsDisbursementFrequency(s: string) { s in DisbursementFrequency.Values() }

  /** PositiveDecimal: the value as a BigDecimal, constrained to be at least 0. The error's
      message is a stand-in for the text dry-types builds. */
  function PositiveDecimal(d: Decimal): (r: Result<Decimal, Error>)
    ensures r.Ok? <==> d.unscaled >= 0
    ensures r.Ok? ==> r.value == d
    ensures r.Err? ==> r.error.errorClass == ConstraintError
  {
    if d.unscaled >= 0 then Ok(d) else Err(Error(ConstraintError, "value must be greater than or equal to 0"))
  }

  // ---- UUID -----------------------------------------------------------------------------

  /** A UUID has no line break, so splitting it on '\n' gives the UUID alone. */
  lemma UuidIsOneLine(s: string)
    requires IsUuidShape(s)
    ensures '\n' !in s
    ensures Split(s, '\n') == [s]
  {
    forall i | 0 <= i < |s| ensures s[i] != '\n' {
      if i < 8 { assert s[i] == s[0..8][i]; }
      else if 9 <= i < 13 { assert s[i] == s[9..13][i - 9]; }
      else if 14 <= i < 18 { assert s[i] == s[14..18][i - 14]; }
      else if 19 <= i < 23 { assert s[i] == s[19..23][i - 19]; }
      else if 24 <= i { assert s[i] == s[24..36][i - 24]; }
    }
    SplitNoSeparator(s, '\n');
  }

  /** Every string the intended check accepts is accepted as written too. */
  lemma UuidAcceptedAsWritten(s: string)
    requires IsUuid(s)
    ensures IsUuidAsWritten(s)
  {
    UuidIsOneLine(s);
    assert Split(s, '\n')[0] == s;
  }

  lemma HexHasNoDash(g: string)
    requires AllHex(g)
    ensures '-' !in g
  {
  }

  /** Splitting a UUID on '-' gives its five groups, which join back to it. */
  lemma UuidGroups(s: string)
    requires IsUuid(s)
    ensures Split(s, '-') == [s[0..8], s[9..13], s[14..18], s[19..23], s[24..36]]
  {
    var g0, g1, g2, g3, g4 := s[0..8], s[9..13], s[14..18], s[19..23], s[24..36];
    HexHasNoDash(g0); HexHasNoDash(g1); HexHasNoDash(g2); HexHasNoDash(g3); HexHasNoDash(g4);
    assert s == g0 + ['-'] + (g1 + ['-'] + (g2 + ['-'] + (g3 + ['-'] + g4)));
    SplitAround(g3, '-', g4);
    SplitAround(g2, '-', g3 + ['-'] + g4);
    SplitAround(g1, '-', g2 + ['-'] + (g3 + ['-'] + g4));
    SplitAround(g0, '-', g1 + ['-'] + (g2 + ['-'] + (g3 + ['-'] + g4)));
    SplitNoSeparator(g0, '-'); SplitNoSeparator(g1, '-'); SplitNoSeparator(g2, '-');
    SplitNoSeparator(g3, '-'); SplitNoSeparator(g4, '-');
  }

  /** As written, any text followed by a line break and a UUID passes the check, while the
      intended check rejects it. */
  lemma UuidAnchorsAcceptExtraLines(junk: string, u: string)
    requires IsUuid(u)
    ensures IsUuidAsWritten(junk + "\n" + u)
    ensures !IsUuid(junk + "\n" + u)
  {
    var s := junk + "\n" + u;
    UuidIsOneLine(u);
    assert s == junk + ['\n'] + u;
    SplitAround(junk, '\n', u);
    var lines := Split(s, '\n');
    assert lines[|lines| - 1] == u;
    if IsUuid(s) {
      UuidIsOneLine(s);
    }
  }

  const SampleUuid: string := "123e4567" + "-" + "e89b" + "-" + "4d3c" + "-" + "a456" + "-" + "426614174000"

  lemma UuidExamples()
    ensures IsUuid(SampleUuid)
    ensures !IsUuid("not-a-uuid")
    ensures var v3 := "123e4567-e89b-3d3c-a456-426614174000"; !IsUuid(v3)   // version digit 3
    ensures var vc := "123e4567-e89b-4d3c-c456-426614174000"; !IsUuid(vc)   // variant c
  {
    assert SampleUuid[0..8] == "123e4567";
    assert SampleUuid[9..13] == "e89b";
    assert SampleUuid[14..18] == "4d3c";
    assert SampleUuid[19..23] == "a456";
    assert SampleUuid[24..36] == "426614174000";
    var v3 := "123e4567-e89b-3d3c-a456-426614174000";
    assert v3[14] == '3';
    var vc := "123e4567-e89b-4d3c-c456-426614174000";
    assert vc[19] == 'c';
  }

  /** The failing input: a first line that is not a UUID, then a UUID. */
  lemma UuidAnchorsExample()
    ensures IsUuidAsWritten("not-a-uuid" + "\n" + SampleUuid)
    ensures !IsUuid("not-a-uuid" + "\n" + SampleUuid)
  {
    UuidExamples();
    UuidAnchorsAcceptExtraLines("not-a-uuid", SampleUuid);
  }

  // ---- HexId ----------------------------------------------------------------------------

  lemma HexIdExamples()
    ensures IsHexId("123abc456def") && IsHexId("ABCDEF123456")
    ensures !IsHexId("123abc") && !IsHexId("123abc456defgh")
    ensures !IsHexId("123abc456xyz") && !IsHexId("not-a-hex-id")
  {
    assert !IsHexDigit("123abc456xyz"[9]);
    assert !IsHexDigit("not-a-hex-id"[0]);
  }

  // ---- Email ----------------------------------------------------------------------------

  /** An address is a local part, '@' and a domain exactly when both sides are well formed. */
  lemma EmailParts(local: string, domain: string)
    requires '@' !in local && '@' !in domain
    ensures IsEmail(local + "@" + domain) <==> IsLocalPart(local) && IsDomain(domain)
  {
    assert local + "@" + domain == local + ['@'] + domain;
    SplitAround(local, '@', domain);
    SplitNoSeparator(local, '@');
    SplitNoSeparator(domain, '@');
  }

  /** Every piece of `[first] + tail` is a label exactly when `first` and every piece of
      `tail` are. */
  lemma LabelsCons(first: string, tail: seq<string>)
    ensures (forall k :: 0 <= k < |[first] + tail| ==> IsLabel(([first] + tail)[k]))
        <==> IsLabel(first) && (forall k :: 0 <= k < |tail| ==> IsLabel(tail[k]))
  {
    var all := [first] + tail;
    if IsLabel(first) && (forall k :: 0 <= k < |tail| ==> IsLabel(tail[k])) {
      forall k | 0 <= k < |all| ensures IsLabel(all[k]) {
        if k > 0 { assert all[k] == tail[k - 1]; }
      }
    }
    if forall k :: 0 <= k < |all| ==> IsLabel(all[k]) {
      assert all[0] == first;
      forall k | 0 <= k < |tail| ensures IsLabel(tail[k]) {
        assert tail[k] == all[k + 1];
      }
    }
  }

  /** A domain is a label, a dot, and either a shorter domain or a top label. */
  lemma DomainParts(first: string, rest: string)
    requires '.' !in first
    ensures IsDomain(first + "." + rest) <==>
      IsLabel(first) && (IsDomain(rest) || ('.' !in rest && IsTopLabel(rest)))
  {
    assert first + "." + rest == first + ['.'] + rest;
    SplitAround(first, '.', rest);
    SplitNoSeparator(first, '.');
    var tail := Split(rest, '.');
    var all := Split(first + "." + rest, '.');
    assert all == [first] + tail;
    LabelsCons(first, tail);
    assert all[|all| - 1] == tail[|tail| - 1];
    if '.' !in rest {
      SplitNoSeparator(rest, '.');
      assert tail == [rest];
      assert IsTopLabel(rest) ==> IsLabel(rest);
    } else {
      var i :| 0 <= i < |rest| && rest[i] == '.';
      assert rest == rest[..i] + ['.'] + rest[i + 1..];
      SplitAround(rest[..i], '.', rest[i + 1..]);
      assert |tail| >= 2;
    }
  }

  /** A well-formed address is its local part, a single '@' and its domain. */
  lemma EmailHasOneAt(s: string)
    requires IsEmail(s)
    ensures Join(Split(s, '@'), '@') == s
    ensures s == Split(s, '@')[0] + "@" + Split(s, '@')[1]
  {
    JoinSplit(s, '@');
    var parts := Split(s, '@');
    assert parts[1..] == [parts[1]];
    assert Join(parts, '@') == parts[0] + ['@'] + parts[1];
  }

  lemma EmailExamples()
    ensures IsEmail("user" + "@" + "example" + "." + "com")
  {
    assert '.' !in "example" && '.' !in "com" && '@' !in "user";
    assert IsTopLabel("com");
    DomainParts("example", "com");
    assert IsLabel("example");
    var d := "example" + "." + "com";
    assert IsDomain(d);
    assert '@' !in d;
    EmailParts("user", d);
    assert IsLocalPart("user");
    assert "user" + "@" + d == "user" + "@" + "example" + "." + "com";
  }

  /** A string without '@' is not an email. */
  lemma NotAnEmailExample()
    ensures !IsEmail("not-an-email")
  {
    assert '@' !in "not-an-email";
    SplitNoSeparator("not-an-email", '@');
  }

  /** A single label is not a domain: the pattern needs a dot. */
  lemma LocalhostIsNotADomain()
    ensures !IsDomain("localhost")
  {
    assert '.' !in "localhost";
    SplitNoSeparator("localhost", '.');
  }

  /** "user@localhost" is refused: its domain has no dot. */
  lemma UserAtLocalhostIsNotAnEmail()
    ensures !IsEmail("user" + "@" + "localhost")
  {
    LocalhostIsNotADomain();
    assert '@' !in "user" && '@' !in "localhost";
    EmailParts("user", "localhost");
  }

  // ---- DisbursementFrequency and PositiveDecimal ----------------------------------------

  lemma FrequencyTypeExamples()
    ensures IsDisbursementFrequency("DAILY") && IsDisbursementFrequency("WEEKLY")
    ensures !IsDisbursementFrequency("daily") && !IsDisbursementFrequency("weekly")
    ensures !IsDisbursementFrequency("MONTHLY")
  {
    DisbursementFrequency.ValuesAreDailyAndWeekly();
  }

  lemma PositiveDecimalExamples()
    ensures PositiveDecimal(Decimal(10, 0)) == Ok(Decimal(10, 0))
    ensures PositiveDecimal(Decimal(105, 1)) == Ok(Decimal(105, 1))
    ensures PositiveDecimal(Decimal(0, 0)).Ok?
    ensures PositiveDecimal(Decimal(-1, 0)).Err?
  {
  }
}
