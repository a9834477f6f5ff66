/**
 * Taking the text out of the generation service's reply (app.py lines
 * 166-176). The reply is probed in a fixed order: its own text, else the
 * text of its first part, else nothing, which is reported as an error.
 */
module Response {

  /** One part of a segmented reply; a part need not carry text. */
  datatype Part = TextPart(text: string) | PartWithoutText

  /** The shapes a reply can take: text of its own, a list of parts, or neither. */
  datatype Reply = DirectText(text: string) | Segmented(parts: seq<Part>) | Unrecognised

  /** The extracted text, and whether the "could not extract" error was shown. */
  datatype Extraction = Extraction(text: string, malformed: bool)

  /** The reply has text where the script looks for it. */
  predicate Readable(r: Reply)
  {
    r.DirectText? || (r.Segmented? && |r.parts| > 0 && r.parts[0].TextPart?)
  }

  /**
   * Direct text wins; otherwise the first part's text; otherwise the empty
   * text with the error flagged. A missing first part and a first part
   * without text are the same failure.
   */
  function ExtractText(r: Reply): (e: Extraction)
    ensures e.malformed <==> !Readable(r)
    ensures e.malformed ==> e.text == ""
    ensures r.DirectText? ==> e.text == r.text
    ensures r.Segmented? && !e.malformed ==> e.text == r.parts[0].text
  {
    match r
    case DirectText(t) => Extraction(t, false)
    case Segmented(parts) =>
      if |parts| > 0 && parts[0].TextPart? then Extraction(parts[0].text, false) else Extraction("", true)
    case Unrecognised => Extraction("", true)
  }

  /** The result is shown and offered for download only when it is non-empty. */
  predicate Offered(e: Extraction)
  {
    e.text != ""
  }

  /** Whatever text was offered came out of the reply without an error. */
  lemma OfferedImpliesReadable(r: Reply)
    ensures Offered(ExtractText(r)) ==> Readable(r) && !ExtractText(r).malformed
  {
  }

  /** Only the first part is consulted: parts after it never change the result. */
  lemma LaterPartsIgnored(first: Part, rest: seq<Part>)
    ensures ExtractText(Segmented([first] + rest)) == ExtractText(Segmented([first]))
  {
  }

  /**
   * A first part whose text is empty is not an error: the result is the
   * empty text with no error shown, and nothing is offered.
   */
  lemma EmptyFirstPartSilent(rest: seq<Part>)
    ensures ExtractText(Segmented([TextPart("")] + rest)) == Extraction("", false)
    ensures !Offered(ExtractText(Segmented([TextPart("")] + rest)))
  {
  }
}
