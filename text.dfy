/** String facts shared by the prompt template and the download file name. */
module Text {

  datatype Option<T> = None | Some(value: T)

  /** `t` occurs in `s` starting at index `i`. */
  predicate OccursAt(s: string, t: string, i: nat)
  {
    i + |t| <= |s| && s[i..i + |t|] == t
  }

  /** `t` is a substring of `s`. */
  ghost predicate Contains(s: string, t: string)
  {
    exists i: nat :: OccursAt(s, t, i)
  }

  predicate StartsWith(s: string, prefix: string)
  {
    |prefix| <= |s| && s[..|prefix|] == prefix
  }

  predicate EndsWith(s: string, suffix: string)
  {
    |suffix| <= |s| && s[|s| - |suffix|..] == suffix
  }

  /** A string placed between two others occurs right after the first. */
  lemma OccursBetween(a: string, t: string, b: string)
    ensures OccursAt(a + t + b, t, |a|)
  {
  }

  /**
   * Python's `s.replace(target, replacement)` for single characters: every occurrence of
   * `target` becomes `replacement`, every other character is kept.
   */
  function ReplaceChar(s: string, target: char, replacement: char): (r: string)
    ensures |r| == |s|
    ensures forall i :: 0 <= i < |s| ==> r[i] == (if s[i] == target then replacement else s[i])
  {
    if s == [] then []
    else [if s[0] == target then replacement else s[0]] + ReplaceChar(s[1..], target, replacement)
  }

  /** The parts joined in order. */
  function Concat(parts: seq<string>): string
  {
    if parts == [] then "" else parts[0] + Concat(parts[1..])
  }

  lemma {:induction false} ConcatAppend(a: seq<string>, b: seq<string>)
    ensures Concat(a + b) == Concat(a) + Concat(b)
  {
    if a == [] {
      assert a + b == b;
    } else {
      assert (a + b)[1..] == a[1..] + b;
      ConcatAppend(a[1..], b);
    }
  }

  /** Part `k` occurs in the joined text right after the parts before it. */
  lemma ConcatAt(parts: seq<string>, k: nat)
    requires k < |parts|
    ensures OccursAt(Concat(parts), parts[k], |Concat(parts[..k])|)
    ensures |Concat(parts[..k + 1])| == |Concat(parts[..k])| + |parts[k]|
  {
    var before, rest := parts[..k], parts[k + 1..];
    assert parts == before + ([parts[k]] + rest);
    assert parts[..k + 1] == before + [parts[k]];
    ConcatAppend(before, [parts[k]] + rest);
    ConcatAppend(before, [parts[k]]);
    assert ([parts[k]] + rest)[1..] == rest;
    assert Concat([parts[k]]) == parts[k] by {
      assert [parts[k]][1..] == [];
    }
    OccursBetween(Concat(before), parts[k], Concat(rest));
  }

  /** A part ends no later than any later part starts. */
  lemma ConcatBefore(parts: seq<string>, j: nat, k: nat)
    requires j < k <= |parts|
    ensures |Concat(parts[..j])| + |parts[j]| <= |Concat(parts[..k])|
  {
    ConcatAt(parts, j);
    assert parts[..k] == parts[..j + 1] + parts[j + 1..k];
    ConcatAppend(parts[..j + 1], parts[j + 1..k]);
  }
}
