# Cover-letter generator: the deterministic pipeline

The application is a single-page tool that drafts a Danish cover letter
("ansøgning"). The applicant uploads a PDF résumé or pastes its text and
fills in a form: job description, name, company, hiring manager, role and
referral source. The tool checks the required fields, renders one fixed
prompt, sends it to a hosted language model and offers the reply for
download as a text file.

This project models the deterministic part of that path, in seven modules:

- `Text` (text.dfy): string facts the others share. These are occurrence
  at an index, prefix/suffix, single-character replace, and joining a list
  of parts.
- `ResumeExtraction` (extraction.dfy): a method with a loop that collects
  the text of a PDF's pages. `AcquireResume` chooses between upload and
  paste.
- `Validation` (validation.dfy): the first-failure check over the five
  required fields. It also holds the defaulting of the blank manager to
  "Ukendt" and of the blank referral to "Ikke specificeret".
- `Prompt` (prompt.dfy): the template, copied verbatim with its
  indentation. Its fixed pieces form a `Template` value, and `Danish` is
  the application's text. A filled-in template is a list of 43 segments,
  literal pieces and fields in source order, and the prompt is their
  concatenation. Containment and section order are proved for any
  template whose headings are non-empty. `Prompt.DanishHeaded` shows the
  application's template is one of them, so the results hold for
  `Render`.
- `Response` (response.dfy): the reply is a tagged union. One function
  takes its text: direct text, else the first part's text, else an error.
- `Download` (download.dfy): the download file name.
- `Generation` (generation.dfy): one submission from start to finish. The
  model service is the function parameter `generate`, which maps the
  prompt to a reply, a safety refusal or a failure.

Behaviour of the code worth knowing:

- The prompt does not contain each field exactly once.
  - The instructions quote the résumé, the job description and the
    company a second time.
  - The name appears four times in all and the role three times.
  - The recipient rule (app.py line 131) and the referral mention (line
    135) quote the manager and referral as submitted, not defaulted. A
    blank manager therefore leaves `leder () er angivet` in the prompt,
    while the details section says `Ukendt`.
- No salutation branch exists in the code. The prompt states the rule and
  leaves the choice to the model.
- A reply whose first part has empty text is not reported as malformed.
  The result is the empty text, with no error shown and nothing offered
  (`Response.EmptyFirstPartSilent`).
- The file name replaces only the space character, not other whitespace.
  So a name with a space and the same name with an underscore give the
  same file name (`Download.SpacesAndUnderscoresCollide`).
- The manager sentinel is only `Ukendt`.

## Model

| member | source | states |
|---|---|---|
| ResumeExtraction.ExtractResumeText | app.py:49-68 | The text is the page accumulation when the reader accepts the file and no page raises, and empty otherwise. A read error is reported exactly when reading failed, and it carries the message of the exception that stopped reading. The empty-text warning is shown exactly when reading succeeded and gave no text. |
| ResumeExtraction.FirstFailure | app.py:56-65 | Some message is given exactly when some page's extraction raises. |
| ResumeExtraction.ReadFailure | app.py:51-65 | Some message is given exactly when the document is not readable: the reader rejects it or a page raises. |
| ResumeExtraction.FirstFailureAt | app.py:56-65 | When page k is the first page that raises, its message is the one reported, since the loop stops there. |
| ResumeExtraction.AcquireResume | app.py:38-70 | In paste mode the résumé is exactly the pasted text. Before an upload it is empty. After an upload it is the extraction result, with the notices of `ExtractResumeText`, including the read error's message. |
| ResumeExtraction.PageTextIsLines | app.py:55-59 | The accumulated text equals the texts of the pages that have non-empty text, in page order, each followed by "\n". Pages with no text or empty text contribute nothing. |
| ResumeExtraction.PageTextEmpty | app.py:55-62 | The accumulated text is empty if and only if no page yields non-empty text (the warning case). |
| ResumeExtraction.PageTextHasPage | app.py:56-59 | Each page that has text contributes that text plus "\n", at the position right after what the earlier pages contributed. |
| Validation.Validate | app.py:90-100 | A submission is accepted if and only if all five required fields are non-empty. A reported field is always empty. |
| Validation.Message | app.py:90-99 | Each missing field's error message is a non-empty sentence ending in a full stop. |
| Validation.MessageIdentifiesField | app.py:90-99 | Two fields have the same message exactly when they are the same field, so the message names the missing field. |
| Validation.ValidateReportsFirstMissing | app.py:90-99 | A field is reported if and only if it is empty and every field before it (résumé, job description, name, company, role) is filled in. |
| Validation.OptionalFieldsIgnored | app.py:88-100 | Changing the manager or the referral never changes the verdict. |
| Validation.OrSentinel | app.py:124-125 | A blank value becomes the sentinel. Any other value is kept verbatim. |
| Validation.DefaultManager | app.py:124 | The result is never blank. It is "Ukendt" exactly when the manager is blank or is literally "Ukendt", and otherwise the manager unchanged. |
| Validation.DefaultReferral | app.py:125 | The result is never blank. It is "Ikke specificeret" exactly when the referral is blank or is literally that text, and otherwise the referral unchanged. |
| Validation.DefaultingIdempotent | app.py:124-125 | Defaulting an already defaulted value changes nothing. |
| Prompt.DanishHeaded | app.py:106-127 | The application's template has non-empty section headings and a non-empty opening, so the section facts below apply to `Render`. |
| Prompt.Segments | app.py:105-151 | The template's 43 pieces and fields in source order. Blank optional fields show as sentinels in the details and raw in the instructions. Only the count is stated as a contract; the positions are stated by the lemmas below. |
| Prompt.SegmentVerbatim | app.py:105-151 | Every template piece and every interpolated field occurs verbatim in the filled-in template where its segment starts. The next segment starts right after it. |
| Prompt.SegmentsInOrder | app.py:105-151 | Segments appear in template order: an earlier segment ends no later than a later one starts. |
| Prompt.SectionOrder | app.py:110-127 | The four section headings occur in the order CV, job description, details, instructions, at strictly increasing positions. |
| Prompt.DocumentsVerbatim | app.py:110-118 | The résumé text occurs verbatim between the CV heading and the job-description heading. The job description occurs verbatim between that heading and the details heading. |
| Prompt.DetailsVerbatim | app.py:120-126 | Name, company, role, defaulted manager and defaulted referral occur verbatim in that order. They lie after the details heading and before the instructions heading. |
| Prompt.RawManagerQuoted | app.py:131 | Inside the instructions, the manager as submitted occurs directly between the recipient rule's two template pieces. In the application's text those pieces end "…leder (" and begin ") er angivet…". |
| Prompt.RawReferralQuoted | app.py:135 | After the manager, the referral as submitted occurs directly between the pieces ending "…stillingsopslaget (" and beginning "), hvis angivet…". |
| Prompt.RenderShowsSubmission | app.py:105-151 | The application's prompt contains the résumé, the job description, name, company, role, the defaulted manager and referral, and the manager and referral as submitted. Its sections come in the order CV, job description, details, instructions. |
| Response.ExtractText | app.py:166-174 | Direct text is returned as is. Otherwise the first part's text is returned. The error is flagged exactly when neither exists, and then the text is empty. |
| Response.OfferedImpliesReadable | app.py:166-176 | Whenever a result is offered, it came out of the reply without an error. |
| Response.LaterPartsIgnored | app.py:170 | Parts after the first never change the result. |
| Response.EmptyFirstPartSilent | app.py:170-176 | A first part with empty text gives the empty text with no error, and nothing is offered. |
| Download.Underscored | app.py:184 | Same length as the input. Every space becomes "_", so no space is left. Every character other than a space is kept. |
| Download.FileName | app.py:184 | The name starts with "ansoegning_", ends with ".txt" and contains no space. Its length is the sum of its parts. The name segment and the company segment are the underscored inputs, separated by "_". |
| Download.SpaceFreeVerbatim | app.py:184 | A name and a company without spaces occur verbatim in the file name, at their positions. |
| Download.SpacesAndUnderscoresCollide | app.py:184 | Underscoring the inputs first gives the same file name. A name with a space differs from its underscored form, so two distinct names can share a file name. |
| Generation.Submit | app.py:88-192 | The submission is rejected exactly when validation fails, naming the reported field and showing that field's `Message`. Otherwise the outcome is what the service returned for the rendered prompt: a refusal with its reason, a failure with its message, or the extracted text. A download is offered exactly when that text is non-empty; it is named by `FileName` and holds that text. |
| Generation.RejectedWithoutCall | app.py:88-100 | A rejected submission ends the same whatever the service would do, so the service is never consulted. |
| Generation.OnlyThePromptMatters | app.py:158-163 | Two services that answer the rendered prompt alike give the same outcome. |
| Generation.RenderNonEmpty | app.py:105-151 | The rendered prompt is never empty. |
| Generation.EchoRoundTrip | app.py:160-186 | A service that echoes the prompt as direct text yields exactly the prompt, with no error, offered for download under `FileName`. |
| Generation.BlockedKeepsReason | app.py:189-190 | A safety refusal ends the submission carrying the service's reason unchanged. |
| Generation.Session | app.py:38-192 | The outcome is that of submitting the acquired résumé text with the form. The read error is shown exactly when an uploaded file cannot be read, and it quotes the exception's message. The empty-text warning is shown exactly when an uploaded file is read but gives no text. Either notice leads to the rejection for the missing résumé, with its message. Paste mode shows no notice. |

## Left out

- The Streamlit page is not modelled: widgets, form, radio button, spinner, markdown display and the download button's delivery (app.py lines 26-85 and 177-186). The model keeps only which field values and which result reach the user.
- PDF parsing internals (app.py lines 51-52, 57): a document is modelled as the reader rejecting the file, or as a list of per-page results (text, no text, or an exception).
- Client setup, API-key lookup, the model name and the network call (app.py lines 9-22, 159-163). The call is the function parameter `generate`, so transport errors are `CallFailed`.
- The temperature slider (app.py lines 82, 154-156): a float passed through untouched; a `generate` function stands for the service at one fixed temperature.
- UTF-8 encoding of the download (app.py line 183): the delivered contents are the extracted text itself.
- The Danish wording of the error displays (app.py lines 62, 65-66, 172-173, 190, 192): notices and outcomes are distinct tags. The read-error notice carries the exception's message, and so do the refusal and failure outcomes. A rejection carries the missing field and its `Validation.Message` text. The raw reply printed for diagnosis at line 173 is not modelled.
- Response.ExtractText: an exception other than an attribute error from the `text` accessor probed at line 166, or other than an attribute or index error from `parts[0].text` at lines 169-171 (a `TypeError` or `ValueError`, say), escapes both probes and reaches the generic handler at line 191. That case is modelled only as the service returning `CallFailed`.
