/**
 * The input rules of a business card: the three field validators shared by
 * the create and patch schemas, and the length bounds each schema declares
 * on its fields.
 *
 * Python's validators return the value unchanged or raise `ValueError`;
 * here they answer `Accept` or `Reject(message)`.
 */
module CardSchema {
  import opened Wrappers
  import opened Text

  datatype Verdict = Accept | Reject(message: string)

  const PhoneStartMessage := "Phone number must start with 7"
  const PhoneLengthMessage := "Phone number must be 11 characters long"
  const PhoneDigitsMessage := "Phone number must contain only digits"
  const EmailMessage := "Invalid email format"
  const WebsiteMessage := "Website must start with http:// or https://"

  // ---------------------------------------------------------------------
  // str.isdigit

  predicate InDigitBlock(c: char, first: int)
  {
    first <= c as int < first + 10
  }

  /** A character of Unicode general category Nd (a decimal digit) in the Basic Multilingual Plane. */
  predicate IsDecimalDigit(c: char)
  {
    InDigitBlock(c, 0x0030) || InDigitBlock(c, 0x0660) || InDigitBlock(c, 0x06F0)
    || InDigitBlock(c, 0x07C0) || InDigitBlock(c, 0x0966) || InDigitBlock(c, 0x09E6)
    || InDigitBlock(c, 0x0A66) || InDigitBlock(c, 0x0AE6) || InDigitBlock(c, 0x0B66)
    || InDigitBlock(c, 0x0BE6) || InDigitBlock(c, 0x0C66) || InDigitBlock(c, 0x0CE6)
    || InDigitBlock(c, 0x0D66) || InDigitBlock(c, 0x0DE6) || InDigitBlock(c, 0x0E50)
    || InDigitBlock(c, 0x0ED0) || InDigitBlock(c, 0x0F20) || InDigitBlock(c, 0x1040)
    || InDigitBlock(c, 0x1090) || InDigitBlock(c, 0x17E0) || InDigitBlock(c, 0x1810)
    || InDigitBlock(c, 0x1946) || InDigitBlock(c, 0x19D0) || InDigitBlock(c, 0x1A80)
    || InDigitBlock(c, 0x1A90) || InDigitBlock(c, 0x1B50) || InDigitBlock(c, 0x1BB0)
    || InDigitBlock(c, 0x1C40) || InDigitBlock(c, 0x1C50) || InDigitBlock(c, 0xA620)
    || InDigitBlock(c, 0xA8D0) || InDigitBlock(c, 0xA900) || InDigitBlock(c, 0xA9D0)
    || InDigitBlock(c, 0xA9F0) || InDigitBlock(c, 0xAA50) || InDigitBlock(c, 0xABF0)
    || InDigitBlock(c, 0xFF10)
  }

  /**
   * Characters whose Unicode numeric type is Digit without being decimal:
   * superscripts, subscripts, circled and parenthesised digits.
   */
  predicate IsOtherDigit(c: char)
  {
    var n := c as int;
    n == 0x00B2 || n == 0x00B3 || n == 0x00B9 || 0x1369 <= n <= 0x1371 || n == 0x19DA
    || n == 0x2070 || 0x2074 <= n <= 0x2079 || 0x2080 <= n <= 0x2089
    || 0x2460 <= n <= 0x2468 || 0x2474 <= n <= 0x247C || 0x2488 <= n <= 0x2490
    || n == 0x24EA || 0x24F5 <= n <= 0x24FD || n == 0x24FF
    || 0x2776 <= n <= 0x277E || 0x2780 <= n <= 0x2788 || 0x278A <= n <= 0x2792
  }

  /** Python's `str.isdigit` on one character. */
  predicate IsDigit(c: char)
  {
    IsDecimalDigit(c) || IsOtherDigit(c)
  }

  /** Python's `s.isdigit()`: false on the empty string. */
  predicate AllDigits(s: string)
  {
    |s| > 0 && forall i :: 0 <= i < |s| ==> IsDigit(s[i])
  }

  // ---------------------------------------------------------------------
  // validate_phone

  function ValidatePhone(v: Option<string>): (r: Verdict)
    ensures v.None? ==> r == Accept
    ensures v.Some? && !StartsWith(v.value, "7") ==> r == Reject(PhoneStartMessage)
    ensures v.Some? && StartsWith(v.value, "7") && |v.value| != 11 ==> r == Reject(PhoneLengthMessage)
    ensures v.Some? && StartsWith(v.value, "7") && |v.value| == 11 && r != Accept ==> r == Reject(PhoneDigitsMessage)
    ensures r == Accept <==>
      v.None? || (|v.value| == 11 && v.value[0] == '7' && forall i :: 1 <= i < 11 ==> IsDigit(v.value[i]))
  {
    match v
    case None => Accept
    case Some(p) =>
      if !StartsWith(p, "7") then Reject(PhoneStartMessage)
      else if |p| != 11 then Reject(PhoneLengthMessage)
      else if !AllDigits(p[1..]) then
        assert !forall i :: 1 <= i < 11 ==> IsDigit(p[i]) by {
          var k :| 0 <= k < |p[1..]| && !IsDigit(p[1..][k]);
          assert p[1..][k] == p[k + 1];
        }
        Reject(PhoneDigitsMessage)
      else
        assert forall i :: 1 <= i < 11 ==> IsDigit(p[i]) by {
          forall i | 1 <= i < 11 ensures IsDigit(p[i]) { assert p[i] == p[1..][i - 1]; }
        }
        Accept
  }

  /** "8123" fails on its first character, before its length is looked at. */
  lemma PhoneStartCheckedFirst()
    ensures ValidatePhone(Some("8123")) == Reject(PhoneStartMessage)
  {
    assert "8123"[..1] == "8";
  }

  /** `isdigit` admits Arabic-Indic digits, so such a phone number is accepted. */
  lemma PhoneAcceptsArabicIndicDigits()
    ensures ValidatePhone(Some("7٠١٢٣٤٥٦٧٨٩")) == Accept
  {
    var p := "7٠١٢٣٤٥٦٧٨٩";
    assert forall i :: 1 <= i < 11 ==> InDigitBlock(p[i], 0x0660);
  }

  // ---------------------------------------------------------------------
  // validate_email: re.match(r"^[a-zA-Z0-9_.+-]+@[a-zA-Z0-9-]+\.[a-zA-Z0-9-.]+$", v)

  predicate IsAsciiAlnum(c: char)
  {
    'a' <= c <= 'z' || 'A' <= c <= 'Z' || '0' <= c <= '9'
  }

  /** `[a-zA-Z0-9_.+-]` */
  predicate IsLocalChar(c: char)
  {
    IsAsciiAlnum(c) || c == '_' || c == '.' || c == '+' || c == '-'
  }

  /** `[a-zA-Z0-9-]` */
  predicate IsLabelChar(c: char)
  {
    IsAsciiAlnum(c) || c == '-'
  }

  /** `[a-zA-Z0-9-.]` */
  predicate IsRestChar(c: char)
  {
    IsAsciiAlnum(c) || c == '-' || c == '.'
  }

  predicate AllOf(s: string, cls: char -> bool)
  {
    forall k :: 0 <= k < |s| ==> cls(s[k])
  }

  /** Python's `$` also matches just before one final newline. */
  function StripFinalNewline(s: string): string
  {
    if |s| > 0 && s[|s| - 1] == '\n' then s[..|s| - 1] else s
  }

  /**
   * The regular expression decided by reading left to right: the only '@',
   * then the first '.' after it, then non-empty runs of the three classes.
   */
  predicate BodyMatches(b: string)
  {
    match IndexOf(b, '@')
    case None => false
    case Some(i) =>
      var after := b[i + 1..];
      match IndexOf(after, '.')
      case None => false
      case Some(j) =>
        var local := b[..i];
        var domain := after[..j];
        var rest := after[j + 1..];
        |local| > 0 && AllOf(local, IsLocalChar)
        && |domain| > 0 && AllOf(domain, IsLabelChar)
        && |rest| > 0 && AllOf(rest, IsRestChar)
  }

  predicate MatchesEmail(s: string)
  {
    BodyMatches(StripFinalNewline(s))
  }

  /** `b` splits as local '@' label '.' rest, with `b[i]` the '@' and `b[j]` the '.'. */
  ghost predicate EmailSplit(b: string, i: int, j: int)
  {
    0 < i && i + 1 < j && j + 1 < |b| && b[i] == '@' && b[j] == '.'
    && AllOf(b[..i], IsLocalChar) && AllOf(b[i + 1..j], IsLabelChar) && AllOf(b[j + 1..], IsRestChar)
  }

  ghost predicate HasEmailSplit(b: string)
  {
    exists i, j :: EmailSplit(b, i, j)
  }

  /** What the regular expression accepts, stated as the existence of a split. */
  ghost predicate EmailPattern(s: string)
  {
    HasEmailSplit(s) || (|s| > 0 && s[|s| - 1] == '\n' && HasEmailSplit(s[..|s| - 1]))
  }

  lemma BodyMatchesHasSplit(b: string)
    requires BodyMatches(b)
    ensures HasEmailSplit(b)
  {
    var i := IndexOf(b, '@').value;
    var after := b[i + 1..];
    var j := IndexOf(after, '.').value;
    assert after[..j] == b[i + 1..i + 1 + j];
    assert after[j + 1..] == b[i + 2 + j..];
    assert EmailSplit(b, i, i + 1 + j);
  }

  lemma SplitBodyMatches(b: string, i: int, j: int)
    requires EmailSplit(b, i, j)
    ensures BodyMatches(b)
  {
    assert '@' !in b[..i] by {
      forall k | 0 <= k < i ensures b[..i][k] != '@' {
        assert IsLocalChar(b[..i][k]);
      }
    }
    IndexOfAt(b, '@', i);
    var after := b[i + 1..];
    var domain := b[i + 1..j];
    assert after[..j - i - 1] == domain;
    assert '.' !in domain by {
      forall k | 0 <= k < |domain| ensures domain[k] != '.' {
        assert IsLabelChar(domain[k]);
      }
    }
    assert after[j - i - 1] == '.';
    IndexOfAt(after, '.', j - i - 1);
    assert after[j - i..] == b[j + 1..];
  }

  /** A string that splits as an address ends in a character of the last class. */
  lemma SplitEndsInRestChar(b: string, i: int, j: int)
    requires EmailSplit(b, i, j)
    ensures IsRestChar(b[|b| - 1])
  {
    assert b[j + 1..][|b| - j - 2] == b[|b| - 1];
  }

  /** The left-to-right decision agrees with the regular expression on every string. */
  lemma MatchesEmailIff(s: string)
    ensures MatchesEmail(s) <==> EmailPattern(s)
  {
    var b := StripFinalNewline(s);
    if BodyMatches(b) {
      BodyMatchesHasSplit(b);
    }
    if HasEmailSplit(b) {
      var i, j :| EmailSplit(b, i, j);
      SplitBodyMatches(b, i, j);
    }
    forall i, j | EmailSplit(s, i, j) ensures IsRestChar(s[|s| - 1]) {
      SplitEndsInRestChar(s, i, j);
    }
  }

  function ValidateEmail(v: Option<string>): (r: Verdict)
    ensures v.None? ==> r == Accept
    ensures r == Accept <==> v.None? || EmailPattern(v.value)
    ensures r != Accept ==> r == Reject(EmailMessage)
  {
    match v
    case None => Accept
    case Some(e) =>
      MatchesEmailIff(e);
      if MatchesEmail(e) then Accept else Reject(EmailMessage)
  }

  /** A dotted local part and a dotted domain are accepted. */
  lemma EmailAcceptsDottedParts()
    ensures ValidateEmail(Some("john.doe@example.co.kz")) == Accept
  {
    var e := "john.doe@example.co.kz";
    assert EmailSplit(e, 8, 16);
    MatchesEmailIff(e);
  }

  /** Because `$` matches before a final newline, one trailing newline is accepted. */
  lemma EmailAcceptsFinalNewline()
    ensures ValidateEmail(Some("a@b.c\n")) == Accept
  {
    assert EmailSplit("a@b.c", 1, 3);
    assert "a@b.c\n"[..5] == "a@b.c";
    MatchesEmailIff("a@b.c\n");
  }

  /** A domain without a dot is rejected. */
  lemma EmailRejectsDotlessDomain()
    ensures ValidateEmail(Some("a@b")) == Reject(EmailMessage)
  {
    IndexOfAt("a@b", '@', 1);
    assert "a@b"[2..] == "b";
  }

  // ---------------------------------------------------------------------
  // validate_website

  function ValidateWebsite(v: Option<string>): (r: Verdict)
    ensures r == Accept <==> v.None? || StartsWith(v.value, "http://") || StartsWith(v.value, "https://")
    ensures r != Accept ==> r == Reject(WebsiteMessage)
  {
    match v
    case None => Accept
    case Some(w) =>
      if !StartsWith(w, "http://") && !StartsWith(w, "https://") then Reject(WebsiteMessage)
      else Accept
  }

  // ---------------------------------------------------------------------
  // The In and Patch schemas

  /** A field as it arrives: `None` when absent or null. */
  datatype CardInput = CardInput(
    name: Option<string>, title: Option<string>, description: Option<string>,
    phone: Option<string>, email: Option<string>, website: Option<string>, city: Option<string>)

  datatype Issue = Missing | TooShort(min: nat) | TooLong(max: nat) | Rejected(message: string)

  datatype FieldError = FieldError(field: string, issue: Issue)

  /** `min_length=lo, max_length=hi` on a string field. */
  function LengthIssues(field: string, v: string, lo: nat, hi: nat): seq<FieldError>
  {
    if |v| < lo then [FieldError(field, TooShort(lo))]
    else if |v| > hi then [FieldError(field, TooLong(hi))]
    else []
  }

  function TextField(field: string, v: Option<string>, required: bool, lo: nat, hi: nat): (errs: seq<FieldError>)
    ensures errs == [] <==> if v.None? then !required else lo <= |v.value| <= hi
  {
    match v
    case None => if required then [FieldError(field, Missing)] else []
    case Some(s) => LengthIssues(field, s, lo, hi)
  }

  function CheckedField(field: string, v: Option<string>, required: bool, verdict: Verdict): (errs: seq<FieldError>)
    ensures errs == [] <==> (v.Some? || !required) && (v.Some? ==> verdict == Accept)
  {
    match v
    case None => if required then [FieldError(field, Missing)] else []
    case Some(_) =>
      match verdict
      case Accept => []
      case Reject(m) => [FieldError(field, Rejected(m))]
  }

  /** Errors of `In` (card creation), one field after another. */
  function ValidateIn(x: CardInput): (errs: seq<FieldError>)
    ensures errs == [] <==>
      && x.name.Some? && 3 <= |x.name.value| <= 20
      && x.title.Some? && 5 <= |x.title.value| <= 75
      && x.description.Some? && 10 <= |x.description.value| <= 255
      && x.phone.Some? && ValidatePhone(x.phone) == Accept
      && x.email.Some? && ValidateEmail(x.email) == Accept
      && ValidateWebsite(x.website) == Accept
      && x.city.Some? && 3 <= |x.city.value| <= 20
  {
    TextField("name", x.name, true, 3, 20)
    + TextField("title", x.title, true, 5, 75)
    + TextField("description", x.description, true, 10, 255)
    + CheckedField("phone", x.phone, true, ValidatePhone(x.phone))
    + CheckedField("email", x.email, true, ValidateEmail(x.email))
    + CheckedField("website", x.website, false, ValidateWebsite(x.website))
    + TextField("city", x.city, true, 3, 20)
  }

  /** Errors of `Patch`: every field optional, the same rules on those present. */
  function ValidatePatch(x: CardInput): (errs: seq<FieldError>)
    ensures errs == [] <==>
      && (x.name.Some? ==> 3 <= |x.name.value| <= 20)
      && (x.title.Some? ==> 5 <= |x.title.value| <= 75)
      && (x.description.Some? ==> 10 <= |x.description.value| <= 255)
      && ValidatePhone(x.phone) == Accept
      && ValidateEmail(x.email) == Accept
      && ValidateWebsite(x.website) == Accept
      && (x.city.Some? ==> 3 <= |x.city.value| <= 20)
  {
    TextField("name", x.name, false, 3, 20)
    + TextField("title", x.title, false, 5, 75)
    + TextField("description", x.description, false, 10, 255)
    + CheckedField("phone", x.phone, false, ValidatePhone(x.phone))
    + CheckedField("email", x.email, false, ValidateEmail(x.email))
    + CheckedField("website", x.website, false, ValidateWebsite(x.website))
    + TextField("city", x.city, false, 3, 20)
  }

  /** Whatever `In` accepts, `Patch` accepts too. */
  lemma InAcceptedIsPatchAccepted(x: CardInput)
    requires ValidateIn(x) == []
    ensures ValidatePatch(x) == []
  {
  }

  /** A patch that names no field is accepted. */
  lemma EmptyPatchAccepted()
    ensures ValidatePatch(CardInput(None, None, None, None, None, None, None)) == []
  {
  }

  /** `In` rejects a card without a phone, although every validator accepts `None`. */
  lemma InRequiresPhone(x: CardInput)
    requires x.phone.None?
    ensures ValidatePhone(x.phone) == Accept
    ensures ValidateIn(x) != []
  {
  }
}
