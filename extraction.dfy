/**
 * Résumé acquisition: the text of an uploaded PDF, page by page, or the text
 * the applicant pasted (app.py lines 38-70). The PDF library is outside the
 * model; a document is what it hands back for each page.
 */
module ResumeExtraction {
  import opened Text

  /** What extracting one page gave: a value (possibly none or empty) or an exception with its message. */
  datatype PageExtraction = Extracted(text: Option<string>) | ExtractionRaised(cause: string)

  /** An uploaded file: the reader rejects it outright, with a message, or it lists its pages in document order. */
  datatype Document = Unparseable(cause: string) | Pdf(pages: seq<PageExtraction>)

  /** The two mutually exclusive ways of supplying a résumé; an upload may not have happened yet. */
  datatype ResumeSource = Upload(file: Option<Document>) | Paste(text: string)

  /**
   * The advisory shown beside the result: nothing, "no text could be
   * extracted", or a read error quoting the exception's message.
   */
  datatype Notice = NoNotice | EmptyTextWarning | ReadError(cause: string)

  /** A page's text is used when it is truthy: present and non-empty. */
  predicate HasText(p: PageExtraction)
  {
    p.Extracted? && p.text.Some? && p.text.value != ""
  }

  /** What one page adds to the accumulator. */
  function Contribution(p: PageExtraction): string
  {
    if HasText(p) then p.text.value + "\n" else ""
  }

  /** The accumulator after the loop has visited `pages`, built in the order the loop builds it. */
  function PageText(pages: seq<PageExtraction>): string
  {
    if pages == [] then "" else PageText(pages[..|pages| - 1]) + Contribution(pages[|pages| - 1])
  }

  /** The reader accepts the file and no page raises while being extracted. */
  predicate Readable(doc: Document)
  {
    doc.Pdf? && forall i :: 0 <= i < |doc.pages| ==> !doc.pages[i].ExtractionRaised?
  }

  /** The message of the first page whose extraction raises, if one does. */
  function FirstFailure(pages: seq<PageExtraction>): (r: Option<string>)
    ensures r.None? <==> forall i :: 0 <= i < |pages| ==> !pages[i].ExtractionRaised?
  {
    if pages == [] then None
    else if pages[0].ExtractionRaised? then Some(pages[0].cause)
    else
      assert forall i :: 1 <= i < |pages| ==> pages[i] == pages[1..][i - 1];
      FirstFailure(pages[1..])
  }

  /** The message of the exception that stops reading the document, if one does. */
  function ReadFailure(doc: Document): (r: Option<string>)
    ensures r.None? <==> Readable(doc)
  {
    match doc
    case Unparseable(cause) => Some(cause)
    case Pdf(pages) => FirstFailure(pages)
  }

  /** The first page that raises is the one whose message is reported. */
  lemma {:induction false} FirstFailureAt(pages: seq<PageExtraction>, k: nat)
    requires k < |pages| && pages[k].ExtractionRaised?
    requires forall j :: 0 <= j < k ==> !pages[j].ExtractionRaised?
    ensures FirstFailure(pages) == Some(pages[k].cause)
  {
    if k > 0 {
      assert pages[1..][k - 1] == pages[k];
      FirstFailureAt(pages[1..], k - 1);
    }
  }

  /** The résumé text the script ends up with for a given source. */
  function ResumeText(source: ResumeSource): string
  {
    match source
    case Paste(t) => t
    case Upload(None) => ""
    case Upload(Some(doc)) => if Readable(doc) then PageText(doc.pages) else ""
  }

  // An independent description of the result: the non-empty page texts, in
  // page order, each followed by a newline.

  /** The texts of the pages that have one, in page order. */
  function TextsOf(pages: seq<PageExtraction>): seq<string>
  {
    if pages == [] then []
    else (if HasText(pages[0]) then [pages[0].text.value] else []) + TextsOf(pages[1..])
  }

  /** Each text followed by a newline, concatenated. */
  function Lines(texts: seq<string>): string
  {
    if texts == [] then "" else texts[0] + "\n" + Lines(texts[1..])
  }

  lemma {:induction false} LinesAppend(a: seq<string>, b: seq<string>)
    ensures Lines(a + b) == Lines(a) + Lines(b)
  {
    if a != [] {
      assert (a + b)[1..] == a[1..] + b;
      LinesAppend(a[1..], b);
    } else {
      assert a + b == b;
    }
  }

  lemma {:induction false} TextsOfAppend(p: seq<PageExtraction>, q: seq<PageExtraction>)
    ensures TextsOf(p + q) == TextsOf(p) + TextsOf(q)
  {
    if p != [] {
      assert (p + q)[1..] == p[1..] + q;
      TextsOfAppend(p[1..], q);
    } else {
      assert p + q == q;
    }
  }

  /** The accumulated text is the non-empty page texts joined, each with its newline. */
  lemma {:induction false} PageTextIsLines(pages: seq<PageExtraction>)
    ensures PageText(pages) == Lines(TextsOf(pages))
  {
    if pages != [] {
      var init, last := pages[..|pages| - 1], pages[|pages| - 1];
      assert pages == init + [last];
      PageTextIsLines(init);
      TextsOfAppend(init, [last]);
      LinesAppend(TextsOf(init), TextsOf([last]));
      assert TextsOf([last]) == (if HasText(last) then [last.text.value] else []) + TextsOf([]);
    }
  }

  lemma {:induction false} TextsOfEmpty(pages: seq<PageExtraction>)
    ensures TextsOf(pages) == [] <==> forall i :: 0 <= i < |pages| ==> !HasText(pages[i])
  {
    if pages != [] {
      TextsOfEmpty(pages[1..]);
      assert forall i :: 1 <= i < |pages| ==> pages[i] == pages[1..][i - 1];
    }
  }

  /**
   * The accumulated text is empty exactly when no page has text: pages
   * without text add nothing, and every page with text adds at least its newline.
   */
  lemma {:induction false} PageTextEmpty(pages: seq<PageExtraction>)
    ensures PageText(pages) == "" <==> forall i :: 0 <= i < |pages| ==> !HasText(pages[i])
  {
    PageTextIsLines(pages);
    TextsOfEmpty(pages);
  }

  /** Every text a page contributes occurs in the accumulated text, after the texts of earlier pages. */
  lemma {:induction false} PageTextHasPage(pages: seq<PageExtraction>, k: nat)
    requires k < |pages| && HasText(pages[k])
    ensures OccursAt(PageText(pages), pages[k].text.value + "\n", |PageText(pages[..k])|)
  {
    var pre, post := pages[..k], pages[k + 1..];
    assert pages == pre + [pages[k]] + post;
    assert PageText(pre + [pages[k]]) == PageText(pre) + Contribution(pages[k]) by {
      assert (pre + [pages[k]])[..k] == pre;
    }
    PageTextIsLines(pages);
    PageTextIsLines(pre + [pages[k]]);
    TextsOfAppend(pre + [pages[k]], post);
    LinesAppend(TextsOf(pre + [pages[k]]), TextsOf(post));
    OccursBetween(PageText(pre), Contribution(pages[k]), Lines(TextsOf(post)));
  }

  /**
   * Extracts the text of an uploaded document the way the script does: it
   * appends each page's non-empty text plus a newline, and any failure
   * clears the text and reports the exception's message.
   */
  method ExtractResumeText(doc: Document) returns (text: string, notice: Notice)
    ensures text == (if Readable(doc) then PageText(doc.pages) else "")
    ensures notice.ReadError? <==> !Readable(doc)
    ensures notice.ReadError? ==> Some(notice.cause) == ReadFailure(doc)
    ensures notice == EmptyTextWarning <==> Readable(doc) && text == ""
  {
    if doc.Unparseable? {
      return "", ReadError(doc.cause);
    }
    var extracted := "";
    var i := 0;
    while i < |doc.pages|
      invariant 0 <= i <= |doc.pages|
      invariant extracted == PageText(doc.pages[..i])
      invariant forall j :: 0 <= j < i ==> !doc.pages[j].ExtractionRaised?
    {
      var page := doc.pages[i];
      if page.ExtractionRaised? {
        FirstFailureAt(doc.pages, i);
        return "", ReadError(page.cause);
      }
      if page.text.Some? && page.text.value != "" {
        extracted := extracted + page.text.value + "\n";
      }
      assert doc.pages[..i + 1][..i] == doc.pages[..i];
      i := i + 1;
    }
    assert doc.pages[..i] == doc.pages;
    text := extracted;
    notice := if text == "" then EmptyTextWarning else NoNotice;
  }

  /**
   * The résumé-input step: the pasted text as it is in paste mode, the
   * extracted text once a file is uploaded, and the empty text before one is.
   */
  method AcquireResume(source: ResumeSource) returns (text: string, notice: Notice)
    ensures text == ResumeText(source)
    ensures notice.ReadError? <==> source.Upload? && source.file.Some? && !Readable(source.file.value)
    ensures notice.ReadError? ==> Some(notice.cause) == ReadFailure(source.file.value)
    ensures notice == EmptyTextWarning <==> source.Upload? && source.file.Some? && Readable(source.file.value) && text == ""
  {
    match source
    case Paste(t) =>
      text, notice := t, NoNotice;
    case Upload(None) =>
      text, notice := "", NoNotice;
    case Upload(Some(doc)) =>
      text, notice := ExtractResumeText(doc);
  }
}
