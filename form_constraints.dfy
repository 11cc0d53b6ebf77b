/** The browser's own checks on a lead form before it dispatches `submit`
    (interactive constraint validation, section 4.10.21.2 of the HTML Living
    Standard). Both lead forms mark the name and phone inputs `required`, give
    the email input `type="email"` (not `required`), and do not set
    `novalidate`. When a control fails its constraint the browser reports it
    next to the control and the submit handler does not run at all. */
module FormConstraints {
  import opened Validation

  // ---------------------------------------------------------------------
  // `required`

  /** `required` on a text or tel input: the value must not be the empty
      string. White space counts as a value. */
  predicate RequiredSatisfied(value: string) {
    value != []
  }

  // ---------------------------------------------------------------------
  // Value sanitization of an email input

  /** ASCII whitespace: tab, line feed, form feed, carriage return, space. */
  predicate IsAsciiWhitespace(c: char) {
    c == '\t' || c == '\n' || c == '\U{C}' || c == '\r' || c == ' '
  }

  predicate IsNewline(c: char) {
    c == '\n' || c == '\r'
  }

  /** "Strip newlines": every line feed and carriage return removed. */
  function StripNewlines(s: string): string {
    if s == [] then []
    else if IsNewline(s[0]) then StripNewlines(s[1..])
    else [s[0]] + StripNewlines(s[1..])
  }

  function TrimAsciiStart(s: string): string {
    if s != [] && IsAsciiWhitespace(s[0]) then TrimAsciiStart(s[1..]) else s
  }

  function TrimAsciiEnd(s: string): string {
    if s != [] && IsAsciiWhitespace(s[|s| - 1]) then TrimAsciiEnd(s[..|s| - 1]) else s
  }

  /** The value sanitization algorithm of `type="email"`: strip newlines,
      then strip leading and trailing ASCII whitespace. */
  function SanitizeEmail(s: string): string {
    TrimAsciiEnd(TrimAsciiStart(StripNewlines(s)))
  }

  predicate NoNewlines(s: string) {
    forall i :: 0 <= i < |s| ==> !IsNewline(s[i])
  }

  /** A value the sanitization algorithm leaves as it is: no newline, and no
      ASCII whitespace at either end. */
  predicate IsSanitized(v: string) {
    NoNewlines(v)
    && (v == [] || (!IsAsciiWhitespace(v[0]) && !IsAsciiWhitespace(v[|v| - 1])))
  }

  // ---------------------------------------------------------------------
  // Valid e-mail address

  predicate IsAsciiAlphanumeric(c: char) {
    'a' <= c <= 'z' || 'A' <= c <= 'Z' || '0' <= c <= '9'
  }

  /** `[a-zA-Z0-9.!#$%&'*+/=?^_`{|}~-]` */
  predicate IsLocalChar(c: char) {
    IsAsciiAlphanumeric(c) || c in ".!#$%&'*+/=?^_`{|}~-"
  }

  /** The part before the "@": one or more local characters. */
  predicate IsLocalPart(s: string) {
    s != [] && forall i :: 0 <= i < |s| ==> IsLocalChar(s[i])
  }

  /** `[a-zA-Z0-9](?:[a-zA-Z0-9-]{0,61}[a-zA-Z0-9])?`: 1 to 63 letters, digits
      and hyphens, starting and ending with a letter or digit. */
  predicate IsLabel(s: string) {
    1 <= |s| <= 63 && IsAsciiAlphanumeric(s[0]) && IsAsciiAlphanumeric(s[|s| - 1])
    && forall i :: 0 <= i < |s| ==> IsAsciiAlphanumeric(s[i]) || s[i] == '-'
  }

  /** The position of the first `c` in `s`. */
  function FirstIndex(s: string, c: char): (i: nat)
    requires c in s
    ensures i < |s| && s[i] == c && c !in s[..i]
  {
    if s[0] == c then 0
    else
      assert s == [s[0]] + s[1..];
      var j := FirstIndex(s[1..], c);
      assert s[..j + 1] == [s[0]] + s[1..][..j];
      j + 1
  }

  /** `label(?:\.label)*`, read off left to right: labels hold no dot, so the
      first dot ends the first label. */
  predicate IsDomain(s: string)
    decreases |s|
  {
    if '.' in s then
      var i := FirstIndex(s, '.');
      IsLabel(s[..i]) && IsDomain(s[i + 1..])
    else
      IsLabel(s)
  }

  /** The "valid e-mail address" production of the HTML Living Standard
      (section 4.10.5.1.5): a local part, "@", a domain. The local part
      holds no "@", so the first "@" is the separator. */
  predicate IsValidEmailAddress(s: string) {
    '@' in s
    && var i := FirstIndex(s, '@');
       IsLocalPart(s[..i]) && IsDomain(s[i + 1..])
  }

  /** `type="email"` without `required`: an empty value passes; any other
      value must, once sanitized, be a valid e-mail address. */
  predicate EmailSatisfied(value: string) {
    var v := SanitizeEmail(value);
    v == [] || IsValidEmailAddress(v)
  }

  /** Both lead forms: the browser dispatches `submit` exactly when the name
      and the phone are not empty and the email passes its check. The
      message text area has no constraint. */
  predicate LeadFormSubmittable(name: string, phone: string, email: string) {
    RequiredSatisfied(name) && RequiredSatisfied(phone) && EmailSatisfied(email)
  }

  /** What a press of a lead form's submit button led to. */
  datatype SubmitOutcome =
    | Ignored                          // no form on screen, or its button disabled
    | Blocked                          // the browser reported an empty required field or a malformed email
    | Refused(error: ValidationError)  // the handler raised a validation notice
    | Started                          // the simulated request is in flight

  // ---------------------------------------------------------------------
  // Sanitization lemmas

  lemma {:induction false} StripNewlinesSpec(s: string)
    ensures NoNewlines(StripNewlines(s))
    ensures NoNewlines(s) ==> StripNewlines(s) == s
  {
    if s != [] {
      StripNewlinesSpec(s[1..]);
      assert NoNewlines(s) ==> NoNewlines(s[1..]);
    }
  }

  /** Trimming the start drops exactly the leading ASCII whitespace: it
      leaves a suffix, everything before that suffix is ASCII whitespace, and
      the suffix does not start with it. */
  lemma {:induction false} TrimAsciiStartSpec(s: string)
    ensures |TrimAsciiStart(s)| <= |s| && TrimAsciiStart(s) == s[|s| - |TrimAsciiStart(s)|..]
    ensures forall i :: 0 <= i < |s| - |TrimAsciiStart(s)| ==> IsAsciiWhitespace(s[i])
    ensures TrimAsciiStart(s) == [] || !IsAsciiWhitespace(TrimAsciiStart(s)[0])
  {
    if s != [] && IsAsciiWhitespace(s[0]) {
      TrimAsciiStartSpec(s[1..]);
      var t := TrimAsciiStart(s[1..]);
      forall i | 1 <= i < |s| - |t| ensures IsAsciiWhitespace(s[i]) {
        assert s[i] == s[1..][i - 1];
      }
    }
  }

  /** Trimming the end drops exactly the trailing ASCII whitespace: it leaves
      a prefix, everything after that prefix is ASCII whitespace, and the
      prefix does not end with it. */
  lemma {:induction false} TrimAsciiEndSpec(s: string)
    ensures |TrimAsciiEnd(s)| <= |s| && TrimAsciiEnd(s) == s[..|TrimAsciiEnd(s)|]
    ensures forall i :: |TrimAsciiEnd(s)| <= i < |s| ==> IsAsciiWhitespace(s[i])
    ensures TrimAsciiEnd(s) == [] || !IsAsciiWhitespace(TrimAsciiEnd(s)[|TrimAsciiEnd(s)| - 1])
  {
    if s != [] && IsAsciiWhitespace(s[|s| - 1]) {
      TrimAsciiEndSpec(s[..|s| - 1]);
      var t := TrimAsciiEnd(s[..|s| - 1]);
      forall i | |t| <= i < |s| - 1 ensures IsAsciiWhitespace(s[i]) {
        assert s[i] == s[..|s| - 1][i];
      }
    }
  }

  /** Trimming the end of a value that does not start with ASCII whitespace
      keeps that property. */
  lemma TrimAsciiEndKeepsStart(s: string)
    requires s == [] || !IsAsciiWhitespace(s[0])
    ensures TrimAsciiEnd(s) == [] || !IsAsciiWhitespace(TrimAsciiEnd(s)[0])
  {
    TrimAsciiEndSpec(s);
  }

  /** What sanitization produces is sanitized. */
  lemma SanitizeEmailSpec(s: string)
    ensures IsSanitized(SanitizeEmail(s))
  {
    StripNewlinesSpec(s);
    var a := StripNewlines(s);
    TrimAsciiStartSpec(a);
    var b := TrimAsciiStart(a);
    assert forall i :: 0 <= i < |b| ==> b[i] == a[|a| - |b| + i];
    TrimAsciiEndSpec(b);
    TrimAsciiEndKeepsStart(b);
    var c := TrimAsciiEnd(b);
    assert forall i :: 0 <= i < |c| ==> c[i] == b[i];
  }

  /** Sanitization cuts only ASCII whitespace off the two ends of the
      newline-free value: what it returns is a slice of that value, and
      everything before and after the slice is ASCII whitespace. */
  lemma SanitizeEmailSlice(s: string)
    ensures var a, r := StripNewlines(s), SanitizeEmail(s);
            var lo := |a| - |TrimAsciiStart(a)|;
            0 <= lo && lo + |r| <= |a| && r == a[lo..lo + |r|]
            && (forall i :: 0 <= i < lo ==> IsAsciiWhitespace(a[i]))
            && (forall i :: lo + |r| <= i < |a| ==> IsAsciiWhitespace(a[i]))
  {
    var a := StripNewlines(s);
    TrimAsciiStartSpec(a);
    var b := TrimAsciiStart(a);
    var lo := |a| - |b|;
    TrimAsciiEndSpec(b);
    var r := TrimAsciiEnd(b);
    assert r == a[lo..lo + |r|];
    forall i | lo + |r| <= i < |a| ensures IsAsciiWhitespace(a[i]) {
      assert a[i] == b[i - lo];
    }
  }

  /** A sanitized value is left as it is. */
  lemma SanitizedKept(v: string)
    requires IsSanitized(v)
    ensures SanitizeEmail(v) == v
  {
    StripNewlinesSpec(v);
  }

  /** Sanitizing twice is sanitizing once. */
  lemma SanitizeIdempotent(s: string)
    ensures SanitizeEmail(SanitizeEmail(s)) == SanitizeEmail(s)
  {
    SanitizeEmailSpec(s);
    SanitizedKept(SanitizeEmail(s));
  }

  // ---------------------------------------------------------------------
  // E-mail address lemmas

  /** A position holding `c` with no `c` before it is the first one. */
  lemma FirstIndexUnique(s: string, c: char, i: nat)
    requires i < |s| && s[i] == c && c !in s[..i]
    ensures c in s && FirstIndex(s, c) == i
  {
  }

  /** A local part holds no "@", so an "@" right after one is the first. */
  lemma AtAfterLocalPartIsFirst(s: string, i: nat)
    requires i < |s| && s[i] == '@' && IsLocalPart(s[..i])
    ensures '@' in s && FirstIndex(s, '@') == i
  {
    assert !IsLocalChar('@');
    assert '@' !in s[..i] by {
      forall k | 0 <= k < i ensures s[..i][k] != '@' {
        assert IsLocalChar(s[..i][k]);
      }
    }
    FirstIndexUnique(s, '@', i);
  }

  /** The address matches the standard's pattern exactly when it splits at
      some "@" into a local part and a domain: reading the first "@" as the
      separator loses no match. */
  lemma ValidEmailIff(s: string)
    ensures IsValidEmailAddress(s)
            <==> exists i :: 0 <= i < |s| && s[i] == '@' && IsLocalPart(s[..i]) && IsDomain(s[i + 1..])
  {
    if i :| 0 <= i < |s| && s[i] == '@' && IsLocalPart(s[..i]) && IsDomain(s[i + 1..]) {
      AtAfterLocalPartIsFirst(s, i);
    }
    if IsValidEmailAddress(s) {
      var j := FirstIndex(s, '@');
      assert 0 <= j < |s| && s[j] == '@' && IsLocalPart(s[..j]) && IsDomain(s[j + 1..]);
    }
  }

  /** The labels joined with dots. */
  function JoinLabels(labels: seq<string>): string
    requires |labels| >= 1
  {
    if |labels| == 1 then labels[0] else labels[0] + "." + JoinLabels(labels[1..])
  }

  /** The labels of a domain, left to right. */
  function Labels(s: string): (labels: seq<string>)
    requires IsDomain(s)
    ensures |labels| >= 1
    decreases |s|
  {
    if '.' in s then
      var i := FirstIndex(s, '.');
      [s[..i]] + Labels(s[i + 1..])
    else
      [s]
  }

  /** A domain is its labels joined with dots, and each of them is a label. */
  lemma {:induction false} LabelsJoin(s: string)
    requires IsDomain(s)
    ensures JoinLabels(Labels(s)) == s
    ensures forall k :: 0 <= k < |Labels(s)| ==> IsLabel(Labels(s)[k])
    decreases |s|
  {
    if '.' in s {
      var i := FirstIndex(s, '.');
      LabelsJoin(s[i + 1..]);
      assert Labels(s)[1..] == Labels(s[i + 1..]);
      assert s == s[..i] + "." + s[i + 1..];
    }
  }

  /** A label holds no dot, so in a label, a dot and the rest, the dot after
      the label is the first one. */
  lemma SplitAfterLabel(l: string, rest: string)
    requires IsLabel(l)
    ensures '.' in l + "." + rest
    ensures FirstIndex(l + "." + rest, '.') == |l|
    ensures (l + "." + rest)[..|l|] == l && (l + "." + rest)[|l| + 1..] == rest
  {
    var s := l + "." + rest;
    assert s[|l|] == '.';
    assert s[..|l|] == l;
    assert s[|l| + 1..] == rest;
  }

  /** Any labels joined with dots form a domain whose labels they are. */
  lemma {:induction false} JoinLabelsDomain(labels: seq<string>)
    requires |labels| >= 1 && forall k :: 0 <= k < |labels| ==> IsLabel(labels[k])
    ensures IsDomain(JoinLabels(labels))
    ensures Labels(JoinLabels(labels)) == labels
  {
    if |labels| > 1 {
      JoinLabelsDomain(labels[1..]);
      SplitAfterLabel(labels[0], JoinLabels(labels[1..]));
      assert labels == [labels[0]] + labels[1..];
    }
  }

  // ---------------------------------------------------------------------
  // The gate and the handler

  /** A submission the handler accepts has a non-empty name and phone, so the
      browser's `required` checks never stop it. */
  lemma AcceptedIsNotEmpty(name: string, phone: string)
    requires Validate(name, phone) == Accepted
    ensures RequiredSatisfied(name) && RequiredSatisfied(phone)
  {
    AcceptedIff(name, phone);
    StripIsEmptyIff(phone);
  }

  /** With the browser's checks in front, the handler's "missing fields"
      refusal is reached exactly when a field is non-empty but holds only
      white space. */
  lemma MissingFieldsBehindBrowser(name: string, phone: string, email: string)
    requires LeadFormSubmittable(name, phone, email)
    ensures Validate(name, phone) == Rejected(MissingRequiredFields)
            <==> (name != [] && AllWhitespace(name)) || (phone != [] && AllWhitespace(phone))
  {
    MissingFieldsIff(name, phone);
  }

  /** An empty email passes, one without "@" does not. */
  lemma EmailExamples()
    ensures EmailSatisfied("")
    ensures !EmailSatisfied("abc")
  {
    assert IsSanitized("abc");
    SanitizedKept("abc");
  }

  /** Letters, digits, hyphens and dots: what a domain is made of. */
  predicate IsDomainChar(c: char) {
    IsAsciiAlphanumeric(c) || c == '-' || c == '.'
  }

  lemma {:induction false} DomainChars(s: string)
    requires IsDomain(s)
    ensures forall k :: 0 <= k < |s| ==> IsDomainChar(s[k])
    decreases |s|
  {
    if '.' in s {
      var i := FirstIndex(s, '.');
      DomainChars(s[i + 1..]);
      forall k | 0 <= k < |s| ensures IsDomainChar(s[k]) {
        if k < i {
          assert s[k] == s[..i][k];
        } else if k > i {
          assert s[k] == s[i + 1..][k - i - 1];
        }
      }
    }
  }

  /** A valid address holds no white space, so sanitization keeps it and the
      email field accepts it as typed. */
  lemma ValidAddressPasses(v: string)
    requires IsValidEmailAddress(v)
    ensures IsSanitized(v) && EmailSatisfied(v)
  {
    var j := FirstIndex(v, '@');
    DomainChars(v[j + 1..]);
    forall k | 0 <= k < |v| ensures !IsAsciiWhitespace(v[k]) {
      if k < j {
        assert v[k] == v[..j][k];
      } else if k > j {
        assert v[k] == v[j + 1..][k - j - 1];
      }
    }
    SanitizedKept(v);
  }

  /** A plain address passes. */
  lemma AddressExample()
    ensures EmailSatisfied("priya@clinic.in")
  {
    var s := "priya@clinic.in";
    JoinLabelsDomain(["clinic", "in"]);
    assert JoinLabels(["clinic", "in"]) == s[6..];
    assert s[5] == '@' && IsLocalPart(s[..5]);
    AtAfterLocalPartIsFirst(s, 5);
    ValidAddressPasses(s);
  }
}
