/**
 * The contact form's schema (preview/src/lib/contact-validation.ts): the
 * rule each field must satisfy and the values the form starts from. Lengths
 * are counted in UTF-16 code units, as JavaScript's `length` counts them; the
 * address check is the parameter `isEmail`.
 */
module ContactValidation {
  import JsNum
  import opened Wrappers
  import opened Strings

  datatype ContactForm = ContactForm(
    name: string,
    email: string,
    company: string,
    phone: Option<string>,
    projectType: string,
    budget: real,
    timeline: string,
    employeeCount: Option<string>,
    message: string,
    contactPreference: string,
    gdprConsent: bool,
    newsletterOptIn: bool,
    marketingOptIn: bool)

  /** The checked fields, in schema order. */
  datatype Field = Name | Email | Company | Phone | ProjectType | Budget | Timeline | Message | ContactPreference | GdprConsent

  const AllFields := {Name, Email, Company, Phone, ProjectType, Budget, Timeline, Message, ContactPreference, GdprConsent}

  lemma EveryField(x: Field)
    ensures x in AllFields
  {
  }

  /** The digits of a phone number: what follows an optional leading '+'. */
  function PhoneDigits(p: string): string
  {
    if |p| > 0 && p[0] == '+' then p[1..] else p
  }

  /** `/^[\+]?[1-9][\d]{0,15}$/`: an optional '+', a digit 1-9, then at most 15 digits. */
  predicate PhonePattern(p: string)
  {
    NumberPattern(PhoneDigits(p))
  }

  /** `[1-9][\d]{0,15}` */
  predicate NumberPattern(d: string)
  {
    1 <= |d| <= 16 && '1' <= d[0] <= '9' && AllDigits(d)
  }

  function Sign(plus: bool): string
  {
    if plus then "+" else ""
  }

  /** The pattern accepts a numeral, with or without '+', exactly when the number is 1 to 10^16 - 1. */
  lemma PhoneNumeral(n: nat, plus: bool)
    ensures PhonePattern(Sign(plus) + NatToString(n)) <==> 1 <= n < Pow10(16)
  {
    SignedDigits(plus, NatToString(n));
    NumeralPattern(n);
  }

  lemma NumeralPattern(n: nat)
    ensures NumberPattern(NatToString(n)) <==> 1 <= n < Pow10(16)
  {
    var d := NatToString(n);
    assert |d| <= 16 <==> n < Pow10(16) by {
      NatToStringLength(n, 16);
    }
    assert '1' <= d[0] <= '9' <==> n >= 1 by {
      if n >= 1 {
        LeadingDigit(n);
        assert IsDigit(d[0]);
      } else {
        assert d == [DigitChar(0)];
      }
    }
  }

  lemma SignedDigits(plus: bool, s: string)
    requires |s| > 0 && s[0] != '+'
    ensures PhoneDigits(Sign(plus) + s) == s
  {
    if plus {
      assert (Sign(plus) + s)[1..] == s;
    } else {
      assert Sign(plus) + s == s;
    }
  }

  /** Everything the pattern accepts is such a numeral: a sign, then the number written out. */
  lemma PhoneIsNumeral(p: string)
    requires PhonePattern(p)
    ensures var d := PhoneDigits(p);
      && p == Sign(|p| > 0 && p[0] == '+') + NatToString(ParseNat(d))
      && 1 <= ParseNat(d) < Pow10(16)
  {
    var d := PhoneDigits(p);
    DigitsAreNumeral(d);
    SignThenDigits(p);
  }

  lemma DigitsAreNumeral(d: string)
    requires NumberPattern(d)
    ensures AllDigits(d) && d == NatToString(ParseNat(d)) && 1 <= ParseNat(d) < Pow10(16)
  {
    NatToStringParse(d);
    NatToStringLength(ParseNat(d), 16);
  }

  lemma SignThenDigits(p: string)
    ensures p == Sign(|p| > 0 && p[0] == '+') + PhoneDigits(p)
  {
    if |p| > 0 && p[0] == '+' {
      assert p == "+" + p[1..];
    }
  }

  lemma FormattedPhoneRejected()
    ensures !PhonePattern("(555) 123-4567")
    ensures PhonePattern("+15551234567")
  {
  }

  /** Whether the field's rule holds. */
  predicate FieldOk(f: ContactForm, isEmail: string -> bool, k: Field)
  {
    match k
    case Name => 2 <= JsNum.JsLength(f.name) <= 100
    case Email => isEmail(f.email) && |f.email| >= 1
    case Company => 2 <= JsNum.JsLength(f.company) <= 200
    case Phone => f.phone.None? || f.phone.value == "" || PhonePattern(f.phone.value)
    case ProjectType => |f.projectType| >= 1
    case Budget => 1000.0 <= f.budget <= 100000.0
    case Timeline => |f.timeline| >= 1
    case Message => 10 <= JsNum.JsLength(f.message) <= 2000
    case ContactPreference => f.contactPreference == "email" || f.contactPreference == "phone" || f.contactPreference == "meeting"
    case GdprConsent => f.gdprConsent
  }

  /** `contactFormSchema.parse`: the set of fields whose rule fails; the form passes when it is empty. */
  function Errors(f: ContactForm, isEmail: string -> bool): (r: set<Field>)
    ensures forall x :: x in r <==> !FieldOk(f, isEmail, x)
  {
    forall x ensures x in AllFields { EveryField(x); }
    set x | x in AllFields && !FieldOk(f, isEmail, x)
  }

  /** Each field's error, spelled out. */
  lemma ErrorsIff(f: ContactForm, isEmail: string -> bool)
    ensures var r := Errors(f, isEmail);
      && (Name in r <==> !(2 <= JsNum.JsLength(f.name) <= 100))
      && (Email in r <==> !isEmail(f.email) || f.email == "")
      && (Company in r <==> !(2 <= JsNum.JsLength(f.company) <= 200))
      && (Phone in r <==> f.phone.Some? && f.phone.value != "" && !PhonePattern(f.phone.value))
      && (ProjectType in r <==> f.projectType == "")
      && (Budget in r <==> f.budget < 1000.0 || f.budget > 100000.0)
      && (Timeline in r <==> f.timeline == "")
      && (Message in r <==> !(10 <= JsNum.JsLength(f.message) <= 2000))
      && (ContactPreference in r <==> f.contactPreference != "email" && f.contactPreference != "phone" && f.contactPreference != "meeting")
      && (GdprConsent in r <==> !f.gdprConsent)
  {
    var r := Errors(f, isEmail);
    assert Name in r <==> !FieldOk(f, isEmail, Name);
    assert Email in r <==> !FieldOk(f, isEmail, Email);
    assert Company in r <==> !FieldOk(f, isEmail, Company);
    assert Phone in r <==> !FieldOk(f, isEmail, Phone);
    assert ProjectType in r <==> !FieldOk(f, isEmail, ProjectType);
    assert Budget in r <==> !FieldOk(f, isEmail, Budget);
    assert Timeline in r <==> !FieldOk(f, isEmail, Timeline);
    assert Message in r <==> !FieldOk(f, isEmail, Message);
    assert ContactPreference in r <==> !FieldOk(f, isEmail, ContactPreference);
    assert GdprConsent in r <==> !FieldOk(f, isEmail, GdprConsent);
  }

  predicate Valid(f: ContactForm, isEmail: string -> bool)
  {
    Errors(f, isEmail) == {}
  }

  /** A form that passes has consent given, so a later consent check never fires. */
  lemma ValidHasConsent(f: ContactForm, isEmail: string -> bool)
    requires Valid(f, isEmail)
    ensures f.gdprConsent
  {
    assert GdprConsent !in Errors(f, isEmail);
  }

  /** `defaultFormValues`. */
  const DefaultForm := ContactForm("", "", "", Some(""), "", 10000.0, "", Some(""), "", "email", false, false, false)

  /**
   * The defaults do not pass: name, email, company, project type, timeline,
   * message and consent fail, whatever the address check says; phone,
   * budget and contact preference pass.
   */
  lemma DefaultsFail(isEmail: string -> bool)
    ensures Errors(DefaultForm, isEmail) == {Name, Email, Company, ProjectType, Timeline, Message, GdprConsent}
  {
    var r := Errors(DefaultForm, isEmail);
    forall x
      ensures x in r <==> x in {Name, Email, Company, ProjectType, Timeline, Message, GdprConsent}
    {
      assert x in r <==> !FieldOk(DefaultForm, isEmail, x);
    }
  }
}
