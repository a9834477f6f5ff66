/** The name under which the generated letter is offered for download (app.py line 184). */
module Download {
  import opened Text

  const Prefix := "ansoegning_"
  const Extension := ".txt"

  /** `s.replace(' ', '_')`: only the space character is replaced. */
  function Underscored(s: string): (r: string)
    ensures |r| == |s|
    ensures ' ' !in r
    ensures forall i :: 0 <= i < |s| && s[i] == ' ' ==> r[i] == '_'
    ensures forall i :: 0 <= i < |s| && s[i] != ' ' ==> r[i] == s[i]
  {
    ReplaceChar(s, ' ', '_')
  }

  /**
   * The download file name: the prefix, the name and the company with
   * spaces turned into underscores and joined by an underscore, and the
   * extension.
   */
  function FileName(name: string, company: string): (f: string)
    ensures StartsWith(f, Prefix) && EndsWith(f, Extension)
    ensures ' ' !in f
    ensures |f| == |Prefix| + |name| + 1 + |company| + |Extension|
    ensures f[|Prefix|..|Prefix| + |name|] == Underscored(name)
    ensures f[|Prefix| + |name|] == '_'
    ensures f[|Prefix| + |name| + 1..|f| - |Extension|] == Underscored(company)
  {
    var f := Prefix + Underscored(name) + "_" + Underscored(company) + Extension;
    assert f[..|Prefix|] == Prefix;
    assert f[|f| - |Extension|..] == Extension;
    assert f[|Prefix|..|Prefix| + |name|] == Underscored(name);
    assert f[|Prefix| + |name| + 1..|f| - |Extension|] == Underscored(company);
    f
  }

  /** A name or company without spaces appears in the file name as it is. */
  lemma SpaceFreeVerbatim(name: string, company: string)
    requires ' ' !in name && ' ' !in company
    ensures OccursAt(FileName(name, company), name, |Prefix|)
    ensures OccursAt(FileName(name, company), company, |Prefix| + |name| + 1)
  {
  }

  /**
   * Spaces and underscores are not told apart: a name with a space and the
   * same name with an underscore in its place give the same file name.
   */
  lemma SpacesAndUnderscoresCollide(name: string, company: string)
    ensures FileName(name, company) == FileName(Underscored(name), Underscored(company))
    ensures ' ' in name ==> Underscored(name) != name
  {
  }
}
