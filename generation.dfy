/**
 * One submission end to end (app.py lines 88-192): validate, render the
 * prompt, call the generation service once, extract the text and offer it
 * for download. The service is a parameter: whatever it does with the
 * prompt is the function `generate`.
 */
module Generation {
  import opened Text
  import opened ResumeExtraction
  import opened Validation
  import opened Prompt
  import opened Response
  import opened Download

  /** What one call to the service gives: a reply, a refusal by its safety filters, or any other failure. */
  datatype CallResult = Replied(reply: Reply) | PromptBlocked(reason: string) | CallFailed(message: string)

  /** The file offered for download. */
  datatype Delivery = Delivery(fileName: string, contents: string)

  /** How a submission ends. */
  datatype Outcome =
    | Rejected(missing: Field, message: string)
    | Blocked(reason: string)
    | Failed(message: string)
    | Answered(extraction: Extraction, download: Option<Delivery>)

  /** The form fields other than the résumé. */
  datatype Form = Form(jobDescription: string, name: string, company: string, manager: string, role: string, referral: string)

  function SubmissionOf(resumeText: string, form: Form): Submission
  {
    Submission(resumeText, form.jobDescription, form.name, form.company, form.manager, form.role, form.referral)
  }

  /**
   * Handles one press of the submit button. The service sees the rendered
   * prompt and nothing else; a rejected submission never reaches it.
   */
  function Submit(s: Submission, generate: string -> CallResult): (o: Outcome)
    ensures o.Rejected? <==> !Validate(s).Accepted?
    ensures o.Rejected? ==> o.missing == Validate(s).field && o.message == Message(o.missing)
    ensures o.Blocked? ==> generate(Render(s)) == PromptBlocked(o.reason)
    ensures o.Failed? ==> generate(Render(s)) == CallFailed(o.message)
    ensures o.Answered? ==> generate(Render(s)).Replied? && o.extraction == ExtractText(generate(Render(s)).reply)
    ensures o.Answered? ==> (o.download.Some? <==> o.extraction.text != "")
    ensures o.Answered? && o.download.Some? ==>
      o.download.value == Delivery(FileName(s.name, s.company), o.extraction.text)
  {
    match Validate(s)
    case Missing(f) => Rejected(f, Message(f))
    case Accepted =>
      match generate(Render(s))
      case PromptBlocked(reason) => Blocked(reason)
      case CallFailed(message) => Failed(message)
      case Replied(reply) =>
        var e := ExtractText(reply);
        Answered(e, if e.text != "" then Some(Delivery(FileName(s.name, s.company), e.text)) else None)
  }

  /** A submission missing a required field ends the same whatever the service would do. */
  lemma RejectedWithoutCall(s: Submission, g1: string -> CallResult, g2: string -> CallResult)
    requires !Validate(s).Accepted?
    ensures Submit(s, g1) == Submit(s, g2) == Rejected(Validate(s).field, Message(Validate(s).field))
  {
  }

  /** Only the service's answer for this prompt matters. */
  lemma OnlyThePromptMatters(s: Submission, g1: string -> CallResult, g2: string -> CallResult)
    requires g1(Render(s)) == g2(Render(s))
    ensures Submit(s, g1) == Submit(s, g2)
  {
  }

  /** The rendered prompt is never empty. */
  lemma RenderNonEmpty(s: Submission)
    ensures Render(s) != ""
  {
    DanishHeaded();
    SegmentVerbatim(Danish, s, 0, Danish.preamble);
  }

  /**
   * A service that echoes its prompt as direct text yields exactly the
   * prompt, and the prompt is offered for download.
   */
  lemma EchoRoundTrip(s: Submission)
    requires Validate(s).Accepted?
    ensures Submit(s, p => Replied(DirectText(p)))
      == Answered(Extraction(Render(s), false), Some(Delivery(FileName(s.name, s.company), Render(s))))
  {
    RenderNonEmpty(s);
  }

  /** A safety refusal ends the submission with the service's reason, unchanged. */
  lemma BlockedKeepsReason(s: Submission, reason: string)
    requires Validate(s).Accepted?
    ensures Submit(s, p => PromptBlocked(reason)) == Blocked(reason)
  {
  }

  /**
   * The whole page for one submission: acquire the résumé from the chosen
   * source, then handle the submit press with the form as filled in.
   */
  method Session(source: ResumeSource, form: Form, generate: string -> CallResult)
    returns (notice: Notice, outcome: Outcome)
    ensures outcome == Submit(SubmissionOf(ResumeText(source), form), generate)
    ensures source.Paste? ==> notice == NoNotice
    ensures notice.ReadError? <==> source.Upload? && source.file.Some? && !ResumeExtraction.Readable(source.file.value)
    ensures notice.ReadError? ==> Some(notice.cause) == ReadFailure(source.file.value)
    ensures notice == EmptyTextWarning <==>
      source.Upload? && source.file.Some? && ResumeExtraction.Readable(source.file.value) && ResumeText(source) == ""
    ensures notice.ReadError? ==> outcome == Rejected(Resume, Message(Resume))
    ensures notice == EmptyTextWarning ==> outcome == Rejected(Resume, Message(Resume))
  {
    var text;
    text, notice := AcquireResume(source);
    outcome := Submit(SubmissionOf(text, form), generate);
  }
}
