/**
 * The submission check (app.py lines 88-100) and the defaulting of the two
 * optional fields (app.py lines 124-125).
 */
module Validation {

  /** Everything the form holds once it is submitted; the résumé text comes from the résumé step. */
  datatype Submission = Submission(
    resumeText: string,
    jobDescription: string,
    name: string,
    company: string,
    manager: string,
    role: string,
    referral: string)

  /** The five required fields, in the order the check tests them. */
  datatype Field = Resume | JobDescription | Name | Company | Role

  datatype Verdict = Missing(field: Field) | Accepted

  /** The required fields in checking order. */
  const RequiredOrder: seq<Field> := [Resume, JobDescription, Name, Company, Role]

  function Value(s: Submission, f: Field): string
  {
    match f
    case Resume => s.resumeText
    case JobDescription => s.jobDescription
    case Name => s.name
    case Company => s.company
    case Role => s.role
  }

  /** The position of a field in the checking order. */
  function Rank(f: Field): (k: nat)
    ensures k < |RequiredOrder| && RequiredOrder[k] == f
  {
    match f
    case Resume => 0
    case JobDescription => 1
    case Name => 2
    case Company => 3
    case Role => 4
  }

  /** The if/elif chain: the first empty required field is reported, otherwise the submission is accepted. */
  function Validate(s: Submission): (v: Verdict)
    ensures v.Accepted? <==> forall f: Field :: Value(s, f) != ""
    ensures v.Missing? ==> Value(s, v.field) == ""
  {
    if Value(s, Resume) == "" then Missing(Resume)
    else if Value(s, JobDescription) == "" then Missing(JobDescription)
    else if Value(s, Name) == "" then Missing(Name)
    else if Value(s, Company) == "" then Missing(Company)
    else if Value(s, Role) == "" then Missing(Role)
    else Accepted
  }

  /** The user-facing message for each missing field: a polite request, one sentence long. */
  function Message(f: Field): (m: string)
    ensures |m| > 0 && m[|m| - 1] == '.'
  {
    match f
    case Resume => "Angiv venligst CV/erfaringstekst (enten via upload eller indsætning)."
    case JobDescription => "Indsæt venligst jobbeskrivelsen."
    case Name => "Indtast venligst dit navn."
    case Company => "Indtast venligst virksomhedens navn."
    case Role => "Indtast venligst jobtitel/stilling."
  }

  /** Each field has its own message, so the message tells the applicant which field to fill in. */
  lemma MessageIdentifiesField(f: Field, g: Field)
    ensures Message(f) == Message(g) <==> f == g
  {
  }

  /**
   * A field is reported exactly when it is empty and every field checked
   * before it is filled in.
   */
  lemma ValidateReportsFirstMissing(s: Submission, f: Field)
    ensures Validate(s) == Missing(f) <==>
      Value(s, f) == "" && forall g: Field :: Rank(g) < Rank(f) ==> Value(s, g) != ""
  {
  }

  /** The optional fields never change the verdict. */
  lemma OptionalFieldsIgnored(s: Submission, manager: string, referral: string)
    ensures Validate(s.(manager := manager, referral := referral)) == Validate(s)
  {
  }

  /** The sentinel for a hiring manager left blank. */
  const UnknownManager := "Ukendt"

  /** The sentinel for a referral source left blank. */
  const UnspecifiedReferral := "Ikke specificeret"

  /** Python's `value if value else sentinel`: a blank value is replaced, any other kept verbatim. */
  function OrSentinel(value: string, sentinel: string): (r: string)
    ensures value != "" ==> r == value
    ensures value == "" ==> r == sentinel
  {
    if value != "" then value else sentinel
  }

  function DefaultManager(manager: string): (r: string)
    ensures r == UnknownManager <==> manager == "" || manager == UnknownManager
    ensures r != UnknownManager ==> r == manager
    ensures r != ""
  {
    OrSentinel(manager, UnknownManager)
  }

  function DefaultReferral(referral: string): (r: string)
    ensures r == UnspecifiedReferral <==> referral == "" || referral == UnspecifiedReferral
    ensures r != UnspecifiedReferral ==> r == referral
    ensures r != ""
  {
    OrSentinel(referral, UnspecifiedReferral)
  }

  /** Defaulting twice is defaulting once. */
  lemma DefaultingIdempotent(manager: string, referral: string)
    ensures DefaultManager(DefaultManager(manager)) == DefaultManager(manager)
    ensures DefaultReferral(DefaultReferral(referral)) == DefaultReferral(referral)
  {
  }
}
