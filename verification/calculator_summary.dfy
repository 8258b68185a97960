/**
 * The lead form at the end of the pricing calculator
 * (preview/src/components/calculator/CalculatorSummary.tsx): the
 * employee-count bracket it pre-fills, the lead schema, the form's starting
 * values and what a submission does to the component's flags. Text inputs
 * left blank submit as ""; the address check is the parameter `isEmail` and
 * the outcome of the request is the parameter `responseOk`.
 */
module CalculatorSummary {
  import JsNum

  datatype Bracket = UpTo50 | UpTo200 | UpTo500 | UpTo1000 | Over1000

  function BracketOf(count: int): Bracket
  {
    if count <= 50 then UpTo50
    else if count <= 200 then UpTo200
    else if count <= 500 then UpTo500
    else if count <= 1000 then UpTo1000
    else Over1000
  }

  function Label(b: Bracket): string
  {
    match b
    case UpTo50 => "1-50"
    case UpTo200 => "51-200"
    case UpTo500 => "201-500"
    case UpTo1000 => "501-1000"
    case Over1000 => "1000+"
  }

  /** The bounds a bracket's label names; the last is open above. */
  function Lower(b: Bracket): int
  {
    match b
    case UpTo50 => 1
    case UpTo200 => 51
    case UpTo500 => 201
    case UpTo1000 => 501
    case Over1000 => 1001
  }

  function Upper(b: Bracket): int
  {
    match b
    case UpTo50 => 50
    case UpTo200 => 200
    case UpTo500 => 500
    case UpTo1000 => 1000
    case Over1000 => 0
  }

  function Index(b: Bracket): nat
  {
    match b
    case UpTo50 => 0
    case UpTo200 => 1
    case UpTo500 => 2
    case UpTo1000 => 3
    case Over1000 => 4
  }

  /**
   * `getEmployeeCountRange`: one of the five labels, and a positive head
   * count lies in the range the returned label names.
   */
  function GetEmployeeCountRange(count: int): (r: string)
    ensures r in {"1-50", "51-200", "201-500", "501-1000", "1000+"}
    ensures forall b :: Label(b) == r && count >= 1 ==> Lower(b) <= count && (b != Over1000 ==> count <= Upper(b))
  {
    Label(BracketOf(count))
  }

  /** A positive head count lies in the range its label names. */
  lemma CountInItsRange(count: int)
    requires count >= 1
    ensures var b := BracketOf(count);
      Lower(b) <= count && (b != Over1000 ==> count <= Upper(b))
  {
  }

  /** The brackets follow the head count: a larger count never gets a smaller bracket. */
  lemma BracketsAscend(c1: int, c2: int)
    requires c1 <= c2
    ensures Index(BracketOf(c1)) <= Index(BracketOf(c2))
  {
  }

  /** The labels are distinct, so the bracket can be read back from the label. */
  lemma LabelsDistinct(a: Bracket, b: Bracket)
    requires Label(a) == Label(b)
    ensures a == b
  {
    assert Label(a)[0] == Label(b)[0] && |Label(a)| == |Label(b)|;
  }

  datatype LeadForm = LeadForm(
    name: string,
    email: string,
    phone: string,
    company: string,
    title: string,
    employeeCount: string,
    timeline: string,
    primaryGoal: string,
    currentChallenges: string,
    preferredContact: string,
    marketingOptIn: bool,
    gdprConsent: bool)

  datatype LeadField = Name | Email | Company | PreferredContact | GdprConsent

  const LeadFields := {Name, Email, Company, PreferredContact, GdprConsent}

  lemma EveryLeadField(x: LeadField)
    ensures x in LeadFields
  {
  }

  predicate LeadFieldOk(f: LeadForm, isEmail: string -> bool, k: LeadField)
  {
    match k
    case Name => JsNum.JsLength(f.name) >= 2
    case Email => isEmail(f.email)
    case Company => JsNum.JsLength(f.company) >= 2
    case PreferredContact => f.preferredContact == "email" || f.preferredContact == "phone" || f.preferredContact == "meeting"
    case GdprConsent => f.gdprConsent
  }

  /** `leadCaptureSchema`: the fields whose rule fails; the rest of the fields take any text. */
  function LeadErrors(f: LeadForm, isEmail: string -> bool): (r: set<LeadField>)
    ensures forall x :: x in r <==> !LeadFieldOk(f, isEmail, x)
  {
    forall x ensures x in LeadFields { EveryLeadField(x); }
    set x | x in LeadFields && !LeadFieldOk(f, isEmail, x)
  }

  /** Each rule, spelled out: name and company at least 2 characters, an address, a known contact channel, consent. */
  lemma LeadErrorsIff(f: LeadForm, isEmail: string -> bool)
    ensures var r := LeadErrors(f, isEmail);
      && (Name in r <==> JsNum.JsLength(f.name) < 2)
      && (Email in r <==> !isEmail(f.email))
      && (Company in r <==> JsNum.JsLength(f.company) < 2)
      && (PreferredContact in r <==> f.preferredContact != "email" && f.preferredContact != "phone" && f.preferredContact != "meeting")
      && (GdprConsent in r <==> !f.gdprConsent)
  {
    var r := LeadErrors(f, isEmail);
    assert Name in r <==> !LeadFieldOk(f, isEmail, Name);
    assert Email in r <==> !LeadFieldOk(f, isEmail, Email);
    assert Company in r <==> !LeadFieldOk(f, isEmail, Company);
    assert PreferredContact in r <==> !LeadFieldOk(f, isEmail, PreferredContact);
    assert GdprConsent in r <==> !LeadFieldOk(f, isEmail, GdprConsent);
  }

  /** The form's starting values for a calculator run with `employees` head count. */
  function DefaultLead(employees: int): LeadForm
  {
    LeadForm("", "", "", "", "", GetEmployeeCountRange(employees), "1-2-months", "engagement", "", "email", true, false)
  }

  /** The starting values do not pass: name, company and consent fail; the contact channel passes. */
  lemma DefaultLeadFails(employees: int, isEmail: string -> bool)
    ensures Name in LeadErrors(DefaultLead(employees), isEmail)
    ensures Company in LeadErrors(DefaultLead(employees), isEmail)
    ensures GdprConsent in LeadErrors(DefaultLead(employees), isEmail)
    ensures PreferredContact !in LeadErrors(DefaultLead(employees), isEmail)
  {
    LeadErrorsIff(DefaultLead(employees), isEmail);
  }

  /** The component's flags after `onSubmit`. */
  datatype SubmitState = SubmitState(isSubmitting: bool, isSubmitted: bool, hasError: bool, callbackFired: bool)

  /**
   * `onSubmit`: the request's outcome decides; the callback fires only after
   * a successful response, and the submitting flag is reset either way.
   */
  function OnSubmit(prev: SubmitState, responseOk: bool, hasCallback: bool): (r: SubmitState)
    ensures !r.isSubmitting
    ensures r.callbackFired <==> responseOk && hasCallback
    ensures responseOk ==> r.isSubmitted && !r.hasError
    ensures !responseOk ==> r.hasError && r.isSubmitted == prev.isSubmitted
  {
    var started := prev.(isSubmitting := true, hasError := false);
    var finished :=
      if responseOk then started.(callbackFired := hasCallback, isSubmitted := true)
      else started.(callbackFired := false, hasError := true);
    finished.(isSubmitting := false)
  }
}
