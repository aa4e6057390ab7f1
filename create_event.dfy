/**
 * The create-event form schema: length rules on the text fields and a
 * capacity typed as text that is converted with `parseInt(val, 10) || 0`.
 * parseInt follows section 19.2.5 of ECMA-262: skip leading white space, read
 * an optional sign, then the longest run of decimal digits; no digits gives
 * NaN, and `|| 0` turns NaN (and zero) into 0.
 */
module CreateEvent {
  import opened Wrappers
  import opened Text
  import opened Schema

  predicate IsDigit(c: char) { '0' <= c <= '9' }

  predicate AllDigits(s: string) {
    forall i :: 0 <= i < |s| ==> IsDigit(s[i])
  }

  function DigitValue(c: char): (d: nat)
    requires IsDigit(c)
    ensures d < 10
  {
    c as int - '0' as int
  }

  function DigitChar(d: nat): (c: char)
    requires d < 10
    ensures IsDigit(c) && DigitValue(c) == d
  {
    ('0' as int + d) as char
  }

  /** The value of a string of decimal digits, most significant first. */
  function DigitsValue(s: string): nat
    requires AllDigits(s)
  {
    if s == [] then 0 else DigitsValue(s[..|s| - 1]) * 10 + DigitValue(s[|s| - 1])
  }

  /** The string after its leading white space. */
  function TrimStart(s: string): (r: string)
    ensures |r| <= |s| && r == s[|s| - |r|..]
    ensures forall i :: 0 <= i < |s| - |r| ==> IsWhiteSpace(s[i])
    ensures r == [] || !IsWhiteSpace(r[0])
  {
    if s != [] && IsWhiteSpace(s[0]) then TrimStart(s[1..]) else s
  }

  /** The longest prefix of decimal digits. */
  function DigitPrefix(s: string): (r: string)
    ensures AllDigits(r) && r <= s
    ensures |r| < |s| ==> !IsDigit(s[|r|])
  {
    if s != [] && IsDigit(s[0]) then [s[0]] + DigitPrefix(s[1..]) else []
  }

  /** The result of parseInt with radix 10, restricted to integers: NaN or the
      signed value of the digits read. */
  datatype ParsedInt = NotANumber | Int(value: int)

  predicate IsSign(c: char) { c == '-' || c == '+' }

  /** The text after an optional leading sign. */
  function AfterSign(t: string): (r: string)
    ensures r == if t != [] && IsSign(t[0]) then t[1..] else t
  {
    if t != [] && IsSign(t[0]) then t[1..] else t
  }

  /** parseInt once the leading white space is gone. */
  function ReadSigned(t: string): ParsedInt {
    var digits := DigitPrefix(AfterSign(t));
    var n: int := if digits == [] then 0 else DigitsValue(digits);
    if digits == [] then NotANumber
    else if t[0] == '-' then Int(-n)
    else Int(n)
  }

  function ParseInt(s: string): ParsedInt {
    ReadSigned(TrimStart(s))
  }

  /** `parseInt(val, 10) || 0`. */
  function CapacityValue(s: string): int {
    match ParseInt(s)
    case NotANumber => 0
    case Int(n) => n
  }

  /** Shortest decimal spelling of a natural number. */
  function Decimal(n: nat): (s: string)
    ensures s != [] && AllDigits(s)
  {
    if n < 10 then [DigitChar(n)] else Decimal(n / 10) + [DigitChar(n % 10)]
  }

  lemma {:induction false} DecimalValue(n: nat)
    ensures DigitsValue(Decimal(n)) == n
  {
    if n >= 10 {
      var s := Decimal(n);
      assert s[..|s| - 1] == Decimal(n / 10);
      DecimalValue(n / 10);
    }
  }

  lemma {:induction false} DigitPrefixOf(digits: string, rest: string)
    requires AllDigits(digits)
    requires rest == [] || !IsDigit(rest[0])
    ensures DigitPrefix(digits + rest) == digits
  {
    if digits != [] {
      assert (digits + rest)[1..] == digits[1..] + rest;
      DigitPrefixOf(digits[1..], rest);
      assert digits == [digits[0]] + digits[1..];
    } else {
      assert digits + rest == rest;
    }
  }

  lemma {:induction false} TrimStartOf(space: string, s: string)
    requires forall i :: 0 <= i < |space| ==> IsWhiteSpace(space[i])
    requires s == [] || !IsWhiteSpace(s[0])
    ensures TrimStart(space + s) == s
  {
    if space != [] {
      assert (space + s)[1..] == space[1..] + s;
      TrimStartOf(space[1..], s);
    } else {
      assert space + s == s;
    }
  }

  /** The sign that may precede the digits. */
  datatype Sign = Unsigned | Plus | Minus

  function SignText(sign: Sign): string {
    match sign
    case Unsigned => ""
    case Plus => "+"
    case Minus => "-"
  }

  function Signed(sign: Sign, n: nat): int {
    if sign == Minus then -(n as int) else n
  }

  /** parseInt reads the digits that follow an optional sign. */
  lemma ReadSignedOf(sign: Sign, digits: string, rest: string)
    requires digits != [] && AllDigits(digits)
    requires rest == [] || !IsDigit(rest[0])
    ensures ReadSigned(SignText(sign) + digits + rest) == Int(Signed(sign, DigitsValue(digits)))
  {
    if sign == Unsigned {
      ReadSignedUnsigned(sign, digits, rest);
    } else {
      ReadSignedAfterSign(sign, digits, rest);
    }
  }

  lemma ReadSignedUnsigned(sign: Sign, digits: string, rest: string)
    requires sign == Unsigned && digits != [] && AllDigits(digits)
    requires rest == [] || !IsDigit(rest[0])
    ensures ReadSigned(SignText(sign) + digits + rest) == Int(Signed(sign, DigitsValue(digits)))
  {
    var t := digits + rest;
    assert SignText(sign) + digits + rest == t by {
      assert SignText(sign) == [];
      assert SignText(sign) + digits == digits;
    }
    DigitPrefixOf(digits, rest);
    ReadAfter(t, digits);
    assert Signed(sign, DigitsValue(digits)) == DigitsValue(digits);
  }

  lemma ReadSignedAfterSign(sign: Sign, digits: string, rest: string)
    requires sign != Unsigned && digits != [] && AllDigits(digits)
    requires rest == [] || !IsDigit(rest[0])
    ensures ReadSigned(SignText(sign) + digits + rest) == Int(Signed(sign, DigitsValue(digits)))
  {
    DigitPrefixOf(digits, rest);
    var c := if sign == Plus then '+' else '-';
    assert SignText(sign) + digits + rest == [c] + (digits + rest);
    ReadAfterSign(c, digits + rest, digits);
  }

  lemma ReadAfter(t: string, digits: string)
    requires digits != [] && DigitPrefix(t) == digits
    ensures ReadSigned(t) == Int(DigitsValue(digits))
  {
    assert IsDigit(t[0]);
  }

  lemma ReadAfterSign(c: char, t: string, digits: string)
    requires IsSign(c) && digits != [] && DigitPrefix(t) == digits
    ensures ReadSigned([c] + t) == Int(if c == '-' then -(DigitsValue(digits) as int) else DigitsValue(digits))
  {
    assert ([c] + t)[1..] == t;
  }

  /** What parseInt reads: leading white space, an optional sign, a non-empty
      run of digits, and anything after that does not start with a digit. */
  lemma ParseIntReads(space: string, sign: Sign, digits: string, rest: string)
    requires forall i :: 0 <= i < |space| ==> IsWhiteSpace(space[i])
    requires digits != [] && AllDigits(digits)
    requires rest == [] || !IsDigit(rest[0])
    ensures ParseInt(space + SignText(sign) + digits + rest) == Int(Signed(sign, DigitsValue(digits)))
  {
    var body := SignText(sign) + digits + rest;
    assert space + SignText(sign) + digits + rest == space + body;
    assert body[0] == if sign == Unsigned then digits[0] else SignText(sign)[0];
    TrimStartOf(space, body);
    ReadSignedOf(sign, digits, rest);
  }

  /** Without a digit after the white space and the optional sign, parseInt
      gives NaN and the capacity becomes 0. White space after a sign is not
      skipped, so "- 5" gives 0 too. */
  lemma NoDigitsGivesZero(space: string, sign: Sign, rest: string)
    requires forall i :: 0 <= i < |space| ==> IsWhiteSpace(space[i])
    requires rest == [] || (!IsDigit(rest[0]) && (sign == Unsigned ==> !IsWhiteSpace(rest[0]) && !IsSign(rest[0])))
    ensures ParseInt(space + SignText(sign) + rest) == NotANumber
    ensures CapacityValue(space + SignText(sign) + rest) == 0
  {
    var body := SignText(sign) + rest;
    assert space + SignText(sign) + rest == space + body;
    if sign == Unsigned {
      assert body == rest;
    } else {
      var c := if sign == Plus then '+' else '-';
      assert SignText(sign) == [c];
      assert body[1..] == rest;
    }
    TrimStartOf(space, body);
  }

  /** An integer written in decimal, with a minus sign when negative. */
  function IntText(n: int): string {
    if n < 0 then "-" + Decimal(-n) else Decimal(n)
  }

  /** The capacity read back from any integer written in decimal is that integer. */
  lemma CapacityRoundTrip(n: int)
    ensures CapacityValue(IntText(n)) == n
  {
    if n < 0 {
      NegativeRoundTrip(n);
    } else {
      NaturalRoundTrip(n);
    }
  }

  lemma NaturalRoundTrip(n: int)
    requires n >= 0
    ensures CapacityValue(IntText(n)) == n
  {
    var digits := Decimal(n);
    assert IntText(n) == digits;
    DecimalValue(n);
    AllDigitsPrefix(digits);
    NoSpaceFirst(digits);
    ReadAfter(digits, digits);
  }

  lemma NegativeRoundTrip(n: int)
    requires n < 0
    ensures CapacityValue(IntText(n)) == n
  {
    var digits := Decimal(-n);
    DecimalValue(-n);
    AllDigitsPrefix(digits);
    var t := "-" + digits;
    assert IntText(n) == t;
    assert t == ['-'] + digits;
    NoSpaceFirst(t);
    ReadAfterSign('-', digits, digits);
  }

  /** A string of digits is its own longest digit prefix. */
  lemma AllDigitsPrefix(digits: string)
    requires AllDigits(digits)
    ensures DigitPrefix(digits) == digits
  {
    DigitPrefixOf(digits, "");
    assert digits + "" == digits;
  }

  lemma DigitPrefixIs(s: string, k: nat)
    requires k <= |s| && AllDigits(s[..k]) && (k < |s| ==> !IsDigit(s[k]))
    ensures DigitPrefix(s) == s[..k]
  {
    DigitPrefixOf(s[..k], s[k..]);
    assert s[..k] + s[k..] == s;
  }

  /** Text that starts with k digits has the value of those digits. */
  lemma ReadsLeadingDigits(s: string, k: nat)
    requires 0 < k <= |s| && AllDigits(s[..k]) && (k < |s| ==> !IsDigit(s[k]))
    ensures CapacityValue(s) == DigitsValue(s[..k])
  {
    DigitPrefixIs(s, k);
    assert IsDigit(s[0]) by { assert s[..k][0] == s[0]; }
    NoSpaceFirst(s);
    ReadAfter(s, s[..k]);
    assert ParseInt(s) == Int(DigitsValue(s[..k]));
  }

  lemma NoSpaceFirst(s: string)
    requires s != [] && (IsDigit(s[0]) || IsSign(s[0]))
    ensures TrimStart(s) == s
  {
    assert !IsWhiteSpace(s[0]);
  }

  /** Text after the digits is ignored: "12abc" reads as 12. */
  lemma TrailingTextIgnored()
    ensures CapacityValue("12abc") == 12
  {
    assert "12abc"[..2] == "12";
    ReadsLeadingDigits("12abc", 2);
    TwelveDigits();
  }

  lemma TwelveDigits()
    ensures DigitsValue("12") == 12
  {
    assert "12"[..1] == "1";
  }

  /** The form's default capacity text "100" reads as 100. */
  lemma DefaultCapacity()
    ensures CapacityValue(DefaultForm.capacity) == 100
  {
    var t := "100";
    HundredDigits();
    assert t[..3] == t;
    ReadsLeadingDigits(t, 3);
  }

  lemma HundredDigits()
    ensures AllDigits("100") && DigitsValue("100") == 100
  {
    var t := "100";
    assert IsDigit(t[0]) && IsDigit(t[1]) && IsDigit(t[2]);
    assert t[..2] == "10";
    assert "10"[..1] == "1";
    assert DigitsValue("1") == 1;
    assert DigitsValue("10") == 10;
  }

  /** Leading white space is skipped and a sign is read: "  -5" reads as -5. */
  lemma LeadingSpaceAndSign()
    ensures CapacityValue("  -5") == -5
  {
    assert TrimStart("  -5") == "-5" by {
      assert "  -5"[1..] == " -5";
      assert " -5"[1..] == "-5";
    }
    DigitPrefixIs("5", 1);
    assert "-5" == ['-'] + "5";
    ReadAfterSign('-', "5", "5");
  }

  /** Text without digits is NaN, which `|| 0` turns into 0; so is a sign
      followed by a space. */
  lemma NoDigitsIsZero()
    ensures CapacityValue("abc") == 0
    ensures CapacityValue("") == 0
    ensures CapacityValue("- 5") == 0
  {
    DigitPrefixIs("abc", 0);
    assert IsWhiteSpace(' ');
    NoDigitsGivesZero("", Minus, " 5");
    assert "" + SignText(Minus) + " 5" == "- 5";
  }

  datatype CreateField = Title | Description | Date | Time | Location | Capacity

  /** The form as typed: every field is text. */
  datatype CreateForm = CreateForm(
    title: string, description: string, date: string, time: string, location: string, capacity: string)

  /** The form after a successful parse: the capacity has become a number. */
  datatype NewEvent = NewEvent(
    title: string, description: string, date: string, time: string, location: string, capacity: int)

  /** The form's defaults. */
  const DefaultForm := CreateForm("", "", "", "", "", "100")

  const Fields := [Title, Description, Date, Time, Location, Capacity]

  /** The messages the schema reports; `MessageText` gives each one's wording. */
  datatype CreateMessage = TitleTooShort | DescriptionTooShort | DateRequired | TimeRequired | LocationTooShort

  function MessageText(m: CreateMessage): string {
    match m
    case TitleTooShort => "Title must be at least 3 characters"
    case DescriptionTooShort => "Description must be at least 10 characters"
    case DateRequired => "Date is required"
    case TimeRequired => "Time is required"
    case LocationTooShort => "Location must be at least 3 characters"
  }

  type CreateIssue = Issue<CreateField, CreateMessage>

  /** The rule each field must satisfy; the capacity text has none. */
  predicate Rule(v: CreateForm, f: CreateField) {
    match f
    case Title => |v.title| >= 3
    case Description => |v.description| >= 10
    case Date => |v.date| >= 1
    case Time => |v.time| >= 1
    case Location => |v.location| >= 3
    case Capacity => true
  }

  function FieldIssues(v: CreateForm, f: CreateField): (r: seq<CreateIssue>)
    ensures r == [] <==> Rule(v, f)
    ensures ReportsOn(r, f)
  {
    match f
    case Title => MinLength(f, v.title, 3, TitleTooShort)
    case Description => MinLength(f, v.description, 10, DescriptionTooShort)
    case Date => MinLength(f, v.date, 1, DateRequired)
    case Time => MinLength(f, v.time, 1, TimeRequired)
    case Location => MinLength(f, v.location, 3, LocationTooShort)
    case Capacity => []
  }

  function Check(v: CreateForm): CreateField -> seq<CreateIssue> {
    (f: CreateField) => FieldIssues(v, f)
  }

  lemma InFields(f: CreateField)
    ensures f in Fields
  {
    match f
    case Title => assert Fields[0] == f;
    case Description => assert Fields[1] == f;
    case Date => assert Fields[2] == f;
    case Time => assert Fields[3] == f;
    case Location => assert Fields[4] == f;
    case Capacity => assert Fields[5] == f;
  }

  lemma IssuesOverFields(v: CreateForm)
    ensures forall f :: f in Paths(IssuesOver(Fields, Check(v))) <==> !Rule(v, f)
    ensures IssuesOver(Fields, Check(v)) == [] <==> forall f :: Rule(v, f)
  {
    PathsOver(Fields, Check(v));
    forall f
      ensures f in Fields && (Check(v)(f) == [] <==> Rule(v, f))
    {
      InFields(f);
    }
  }

  /** `formSchema`'s issues, in field order: a field carries an issue exactly
      when its rule fails, and the capacity never does. */
  function Issues(v: CreateForm): (r: seq<CreateIssue>)
    ensures forall f :: f in Paths(r) <==> !Rule(v, f)
    ensures r == [] <==> forall f :: Rule(v, f)
    ensures Capacity !in Paths(r)
  {
    IssuesOverFields(v);
    IssuesOver(Fields, Check(v))
  }

  /** `formSchema.safeParse`: the issues, or the values with the capacity
      converted. */
  function Parse(v: CreateForm): (r: Result<NewEvent, seq<CreateIssue>>)
    ensures r.Success? <==>
      |v.title| >= 3 && |v.description| >= 10 && v.date != "" && v.time != "" && |v.location| >= 3
    ensures r.Success? ==> r.value == NewEvent(v.title, v.description, v.date, v.time, v.location, CapacityValue(v.capacity))
    ensures r.Failure? ==> r.error != [] && Capacity !in Paths(r.error)
  {
    var issues := Issues(v);
    RulesHold(v);
    if issues == [] then Success(NewEvent(v.title, v.description, v.date, v.time, v.location, CapacityValue(v.capacity)))
    else Failure(issues)
  }

  lemma RulesHold(v: CreateForm)
    ensures (forall f :: Rule(v, f)) <==>
      |v.title| >= 3 && |v.description| >= 10 && v.date != "" && v.time != "" && |v.location| >= 3
  {
    assert Rule(v, Title) && Rule(v, Description) && Rule(v, Date) && Rule(v, Time) && Rule(v, Location)
      ==> forall f :: Rule(v, f);
  }

  /** The capacity has no lower bound: zero and negative numbers pass. */
  lemma CapacityUnbounded(v: CreateForm, n: int)
    requires Parse(v).Success?
    ensures Parse(v.(capacity := IntText(n)))
         == Success(Parse(v).value.(capacity := n))
  {
    CapacityRoundTrip(n);
  }
}
