/** The validation policy both lead forms apply before a submission starts:
    name and phone are required (blank after trimming counts as missing),
    and the phone, with every white-space character removed, must match
    `^[6-9]\d{9}$`. Email and message are never looked at. */
module Validation {

  /** The characters that JavaScript's `String.prototype.trim` removes and
      that the regular-expression class `\s` matches: ECMAScript's WhiteSpace
      (tab, vertical tab, form feed, the byte-order mark and the Unicode space
      separators of category Zs) and LineTerminator (line feed, carriage
      return, line separator, paragraph separator). Both operations use this
      one set. */
  predicate IsWhitespace(c: char) {
    c == '\t' || c == '\n' || c == '\U{B}' || c == '\U{C}' || c == '\r' || c == ' '
    || c == '\U{A0}' || c == '\U{1680}' || ('\U{2000}' <= c <= '\U{200A}')
    || c == '\U{2028}' || c == '\U{2029}' || c == '\U{202F}' || c == '\U{205F}'
    || c == '\U{3000}' || c == '\U{FEFF}'
  }

  predicate AllWhitespace(s: string) {
    forall i :: 0 <= i < |s| ==> IsWhitespace(s[i])
  }

  predicate IsDigit(c: char) {
    '0' <= c <= '9'
  }

  /** `s.trimStart()` */
  function TrimStart(s: string): string {
    if s != [] && IsWhitespace(s[0]) then TrimStart(s[1..]) else s
  }

  /** `s.trimEnd()` */
  function TrimEnd(s: string): string {
    if s != [] && IsWhitespace(s[|s| - 1]) then TrimEnd(s[..|s| - 1]) else s
  }

  /** `s.trim()` */
  function Trim(s: string): string {
    TrimEnd(TrimStart(s))
  }

  /** `!s.trim()`: the field counts as not filled in. */
  predicate IsBlank(s: string) {
    Trim(s) == []
  }

  /** `s.replace(/\s/g, "")`: every white-space character removed, the others
      kept in order. */
  function StripWhitespace(s: string): string {
    if s == [] then []
    else if IsWhitespace(s[0]) then StripWhitespace(s[1..])
    else [s[0]] + StripWhitespace(s[1..])
  }

  /** `\d{n}$`: exactly `n` ASCII digits, then the end of the input. */
  predicate DigitsToEnd(s: string, n: nat) {
    if n == 0 then s == []
    else s != [] && IsDigit(s[0]) && DigitsToEnd(s[1..], n - 1)
  }

  /** `/^[6-9]\d{9}$/.test(s)`, read off the pattern piece by piece. */
  predicate MatchesMobilePattern(s: string) {
    s != [] && '6' <= s[0] <= '9' && DigitsToEnd(s[1..], 9)
  }

  /** The closed form of the pattern: ten ASCII digits, the first 6 to 9. */
  predicate IsIndianMobileNumber(s: string) {
    |s| == 10 && '6' <= s[0] <= '9' && forall i :: 0 <= i < 10 ==> IsDigit(s[i])
  }

  datatype ValidationError = MissingRequiredFields | InvalidPhoneNumber

  datatype Verdict = Accepted | Rejected(error: ValidationError)

  /** The checks at the head of both forms' submit handlers, in their order:
      the required-field check first, the phone pattern second. */
  function Validate(name: string, phone: string): (v: Verdict)
  {
    if IsBlank(name) || IsBlank(phone) then Rejected(MissingRequiredFields)
    else if !MatchesMobilePattern(StripWhitespace(phone)) then Rejected(InvalidPhoneNumber)
    else Accepted
  }

  // ---------------------------------------------------------------------
  // Trimming

  /** `trimStart` drops exactly the leading white space: what it returns is a
      suffix of its argument, everything before that suffix is white space,
      and the suffix does not start with white space. */
  lemma {:induction false} TrimStartSpec(s: string)
    ensures |TrimStart(s)| <= |s| && TrimStart(s) == s[|s| - |TrimStart(s)|..]
    ensures forall i :: 0 <= i < |s| - |TrimStart(s)| ==> IsWhitespace(s[i])
    ensures TrimStart(s) == [] || !IsWhitespace(TrimStart(s)[0])
  {
    if s != [] && IsWhitespace(s[0]) {
      TrimStartSpec(s[1..]);
    }
  }

  /** `trimEnd` drops exactly the trailing white space: what it returns is a
      prefix of its argument, everything after that prefix is white space,
      and the prefix does not end with white space. */
  lemma {:induction false} TrimEndSpec(s: string)
    ensures |TrimEnd(s)| <= |s| && TrimEnd(s) == s[..|TrimEnd(s)|]
    ensures forall i :: |TrimEnd(s)| <= i < |s| ==> IsWhitespace(s[i])
    ensures TrimEnd(s) == [] || !IsWhitespace(TrimEnd(s)[|TrimEnd(s)| - 1])
  {
    if s != [] && IsWhitespace(s[|s| - 1]) {
      TrimEndSpec(s[..|s| - 1]);
    }
  }

  /** `trim` is no longer than its argument, and what it leaves neither
      starts nor ends with white space; that it is a slice of its argument
      with only white space cut off follows from `TrimStartSpec` and
      `TrimEndSpec`. */
  lemma TrimSpec(s: string)
    ensures |Trim(s)| <= |s|
    ensures Trim(s) == [] || (!IsWhitespace(Trim(s)[0]) && !IsWhitespace(Trim(s)[|Trim(s)| - 1]))
  {
    TrimStartSpec(s);
    TrimEndSpec(TrimStart(s));
  }

  /** A field is blank exactly when it holds nothing but white space. */
  lemma TrimIsEmptyIff(s: string)
    ensures IsBlank(s) <==> AllWhitespace(s)
  {
    TrimStartSpec(s);
    var t := TrimStart(s);
    TrimEndSpec(t);
    if !AllWhitespace(s) {
      assert t != [];
      assert !IsWhitespace(t[0]);
    }
  }

  // ---------------------------------------------------------------------
  // White-space removal

  /** What is left once white space is removed holds no white space and is no
      longer than the original. */
  lemma {:induction false} StripSpec(s: string)
    ensures |StripWhitespace(s)| <= |s|
    ensures forall i :: 0 <= i < |StripWhitespace(s)| ==> !IsWhitespace(StripWhitespace(s)[i])
  {
    if s != [] {
      StripSpec(s[1..]);
    }
  }

  /** Removing white space from a concatenation removes it from each part. */
  lemma {:induction false} StripDistributes(a: string, b: string)
    ensures StripWhitespace(a + b) == StripWhitespace(a) + StripWhitespace(b)
  {
    if a != [] {
      StripDistributes(a[1..], b);
      assert (a + b)[0] == a[0];
      assert (a + b)[1..] == a[1..] + b;
    } else {
      assert a + b == b;
    }
  }

  /** A string with no white space in it is left as it is. */
  lemma {:induction false} StripKeepsCleanString(s: string)
    requires forall i :: 0 <= i < |s| ==> !IsWhitespace(s[i])
    ensures StripWhitespace(s) == s
  {
    if s != [] {
      StripKeepsCleanString(s[1..]);
    }
  }

  /** Removing white space twice is the same as removing it once. */
  lemma StripIdempotent(s: string)
    ensures StripWhitespace(StripWhitespace(s)) == StripWhitespace(s)
  {
    StripSpec(s);
    StripKeepsCleanString(StripWhitespace(s));
  }

  /** Removing white space leaves nothing exactly when there was nothing else. */
  lemma {:induction false} StripIsEmptyIff(s: string)
    ensures StripWhitespace(s) == [] <==> AllWhitespace(s)
  {
    if s != [] {
      StripIsEmptyIff(s[1..]);
      assert AllWhitespace(s) <==> IsWhitespace(s[0]) && AllWhitespace(s[1..]);
    }
  }

  /** White space inserted anywhere into a string is removed again. */
  lemma StripIgnoresInsertedWhitespace(a: string, w: string, b: string)
    requires AllWhitespace(w)
    ensures StripWhitespace(a + w + b) == StripWhitespace(a + b)
  {
    StripDistributes(a + w, b);
    StripDistributes(a, w);
    StripDistributes(a, b);
    StripIsEmptyIff(w);
  }

  // ---------------------------------------------------------------------
  // The phone pattern

  lemma {:induction false} DigitsToEndIff(s: string, n: nat)
    ensures DigitsToEnd(s, n) <==> |s| == n && forall i :: 0 <= i < |s| ==> IsDigit(s[i])
  {
    if n > 0 && s != [] {
      DigitsToEndIff(s[1..], n - 1);
      assert forall i :: 1 <= i < |s| ==> s[i] == s[1..][i - 1];
    }
  }

  /** The pattern accepts exactly the ten-digit numbers whose first digit is
      6, 7, 8 or 9. */
  lemma MobilePatternIff(s: string)
    ensures MatchesMobilePattern(s) <==> IsIndianMobileNumber(s)
  {
    if s != [] {
      DigitsToEndIff(s[1..], 9);
      assert forall i :: 1 <= i < |s| ==> s[i] == s[1..][i - 1];
    }
  }

  // ---------------------------------------------------------------------
  // The verdict

  /** The submission is refused as incomplete exactly when the name or the
      phone holds nothing but white space. */
  lemma MissingFieldsIff(name: string, phone: string)
    ensures Validate(name, phone) == Rejected(MissingRequiredFields)
            <==> AllWhitespace(name) || AllWhitespace(phone)
  {
    TrimIsEmptyIff(name);
    TrimIsEmptyIff(phone);
  }

  /** The required-field check comes first: a phone of white space alone also
      fails the pattern, yet the verdict is "missing fields". */
  lemma BlankPhoneReportsMissingFields(name: string, phone: string)
    requires AllWhitespace(phone)
    ensures !MatchesMobilePattern(StripWhitespace(phone))
    ensures Validate(name, phone) == Rejected(MissingRequiredFields)
  {
    StripIsEmptyIff(phone);
    MissingFieldsIff(name, phone);
  }

  /** The phone is refused as malformed exactly when both fields are filled in
      and the phone, white space removed, is not a ten-digit mobile number. */
  lemma InvalidPhoneIff(name: string, phone: string)
    ensures Validate(name, phone) == Rejected(InvalidPhoneNumber)
            <==> !AllWhitespace(name) && !AllWhitespace(phone)
                 && !IsIndianMobileNumber(StripWhitespace(phone))
  {
    MissingFieldsIff(name, phone);
    MobilePatternIff(StripWhitespace(phone));
  }

  /** A submission goes ahead exactly when the name is filled in and the phone,
      white space removed, is a ten-digit number starting with 6 to 9. */
  lemma AcceptedIff(name: string, phone: string)
    ensures Validate(name, phone) == Accepted
            <==> !AllWhitespace(name) && IsIndianMobileNumber(StripWhitespace(phone))
  {
    MissingFieldsIff(name, phone);
    MobilePatternIff(StripWhitespace(phone));
    StripIsEmptyIff(phone);
  }

  /** The verdict depends on the phone only through whether it is blank and
      what is left of it once its white space is removed. */
  lemma VerdictDependsOnStrippedPhone(name: string, p: string, q: string)
    requires StripWhitespace(p) == StripWhitespace(q)
    ensures Validate(name, p) == Validate(name, q)
  {
    StripIsEmptyIff(p);
    StripIsEmptyIff(q);
    TrimIsEmptyIff(p);
    TrimIsEmptyIff(q);
  }

  /** Inserting white space into a string does not make it blank or non-blank. */
  lemma AllWhitespaceIgnoresInsertion(a: string, w: string, b: string)
    requires AllWhitespace(w)
    ensures AllWhitespace(a + w + b) == AllWhitespace(a + b)
  {
    if !AllWhitespace(a + b) {
      var k :| 0 <= k < |a + b| && !IsWhitespace((a + b)[k]);
      if k < |a| {
        assert (a + w + b)[k] == (a + b)[k];
      } else {
        assert (a + w + b)[k + |w|] == (a + b)[k];
      }
    } else {
      forall i | 0 <= i < |a + w + b| ensures IsWhitespace((a + w + b)[i]) {
        if i < |a| {
          assert (a + w + b)[i] == (a + b)[i];
        } else if i >= |a| + |w| {
          assert (a + w + b)[i] == (a + b)[i - |w|];
        }
      }
    }
  }

  /** Spaces typed inside the phone number never change the verdict. */
  lemma VerdictIgnoresInsertedWhitespace(name: string, a: string, w: string, b: string)
    requires AllWhitespace(w)
    ensures Validate(name, a + w + b) == Validate(name, a + b)
  {
    StripIgnoresInsertedWhitespace(a, w, b);
    AllWhitespaceIgnoresInsertion(a, w, b);
    VerdictDependsOnStrippedPhone(name, a + w + b, a + b);
  }

  // The verdicts of a few entries a visitor might type.

  /** A well-formed number typed without spaces is taken as it is. */
  lemma MobileNumberAccepted(name: string, phone: string)
    requires !AllWhitespace(name) && IsIndianMobileNumber(phone)
    ensures Validate(name, phone) == Accepted
  {
    StripKeepsCleanString(phone);
    AcceptedIff(name, phone);
  }

  lemma AcceptedExample()
    ensures Validate("Priya", "9876543210") == Accepted
  {
    assert !IsWhitespace("Priya"[0]);
    MobileNumberAccepted("Priya", "9876543210");
  }

  lemma MissingFieldsExamples()
    ensures Validate("", "9876543210") == Rejected(MissingRequiredFields)
    ensures Validate("Amit", "   ") == Rejected(MissingRequiredFields)
  {
    MissingFieldsIff("", "9876543210");
    MissingFieldsIff("Amit", "   ");
  }

  lemma LeadingDigitExample()
    ensures Validate("Amit", "1234567890") == Rejected(InvalidPhoneNumber)
  {
    assert !IsWhitespace("Amit"[0]) && !IsWhitespace("1234567890"[0]);
    StripKeepsCleanString("1234567890");
    InvalidPhoneIff("Amit", "1234567890");
  }

  lemma ShortNumberExample()
    ensures Validate("Amit", "987654321") == Rejected(InvalidPhoneNumber)
  {
    assert !IsWhitespace("Amit"[0]) && !IsWhitespace("987654321"[0]);
    StripKeepsCleanString("987654321");
    InvalidPhoneIff("Amit", "987654321");
  }
}
