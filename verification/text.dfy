/** The JavaScript string operations the chunker relies on, for a non-empty
    pattern: `indexOf`, `split` with a string separator, and `join`.
    `None` stands for the `-1` that `indexOf` returns when nothing is found. */
module Text {
  import opened Common

  /** `pat` occurs in `s` starting at position `i`. */
  predicate OccursAt(s: string, pat: string, i: int) {
    0 <= i && i + |pat| <= |s| && s[i..i + |pat|] == pat
  }

  /** `s.indexOf(pat, from)`: the first occurrence at or after `from`. */
  function IndexFrom(s: string, pat: string, from: nat): (r: Option<nat>)
    ensures r.Some? ==> from <= r.value && OccursAt(s, pat, r.value)
    ensures r.Some? ==> forall j :: from <= j < r.value ==> !OccursAt(s, pat, j)
    ensures r.None? ==> forall j :: from <= j ==> !OccursAt(s, pat, j)
    decreases |s| - from
  {
    if from + |pat| > |s| then None
    else if s[from..from + |pat|] == pat then Some(from)
    else IndexFrom(s, pat, from + 1)
  }

  /** `s.indexOf(pat)`. */
  function IndexOf(s: string, pat: string): (r: Option<nat>)
    ensures r.Some? ==> OccursAt(s, pat, r.value)
    ensures r.Some? ==> forall j :: 0 <= j < r.value ==> !OccursAt(s, pat, j)
    ensures r.None? ==> forall j :: 0 <= j ==> !OccursAt(s, pat, j)
  {
    IndexFrom(s, pat, 0)
  }

  /** An occurrence with none before it is what `indexOf` finds. */
  lemma IndexOfIsFirst(s: string, pat: string, i: nat)
    requires OccursAt(s, pat, i)
    requires forall j :: 0 <= j < i ==> !OccursAt(s, pat, j)
    ensures IndexOf(s, pat) == Some(i)
  {
  }

  /** The text before the first occurrence contains no occurrence. */
  lemma NoneBeforeFirst(s: string, pat: string, i: nat)
    requires |pat| > 0
    requires IndexOf(s, pat) == Some(i)
    ensures IndexOf(s[..i], pat).None?
  {
    if IndexOf(s[..i], pat).Some? {
      var j := IndexOf(s[..i], pat).value;
      assert s[..i][j..j + |pat|] == s[j..j + |pat|];
      assert OccursAt(s, pat, j);
    }
  }

  /** Appending text after the first occurrence does not move it. */
  lemma IndexOfAppend(c: string, pat: string, tail: string)
    requires IndexOf(c, pat).Some?
    ensures IndexOf(c + tail, pat) == IndexOf(c, pat)
  {
    var i := IndexOf(c, pat).value;
    assert (c + tail)[i..i + |pat|] == c[i..i + |pat|];
    forall j | 0 <= j < i
      ensures !OccursAt(c + tail, pat, j)
    {
      assert (c + tail)[j..j + |pat|] == c[j..j + |pat|];
      assert !OccursAt(c, pat, j);
    }
    IndexOfIsFirst(c + tail, pat, i);
  }

  /** A string without an occurrence of a one-character pattern does not
      contain that character. */
  lemma AbsentChar(s: string, c: char)
    requires IndexOf(s, [c]).None?
    ensures forall k :: 0 <= k < |s| ==> s[k] != c
  {
    forall k | 0 <= k < |s|
      ensures s[k] != c
    {
      assert !OccursAt(s, [c], k);
      assert s[k..k + 1] == [s[k]];
    }
  }

  /** `s.split(sep)`: the pieces between successive occurrences of `sep`,
      scanned left to right; no piece contains `sep`. */
  function SplitOn(s: string, sep: string): (parts: seq<string>)
    requires |sep| > 0
    ensures |parts| >= 1
    ensures forall k :: 0 <= k < |parts| ==> IndexOf(parts[k], sep).None?
    decreases |s|
  {
    match IndexOf(s, sep)
    case None => [s]
    case Some(i) =>
      NoneBeforeFirst(s, sep, i);
      [s[..i]] + SplitOn(s[i + |sep|..], sep)
  }

  /** `parts.join(sep)`. */
  function Join(parts: seq<string>, sep: string): string
    decreases |parts|
  {
    if |parts| == 0 then ""
    else if |parts| == 1 then parts[0]
    else parts[0] + sep + Join(parts[1..], sep)
  }

  /** Joining the pieces of a split with the same separator gives back the
      original string. */
  lemma {:induction false} JoinSplit(s: string, sep: string)
    requires |sep| > 0
    ensures Join(SplitOn(s, sep), sep) == s
    decreases |s|
  {
    match IndexOf(s, sep)
    case None =>
    case Some(i) =>
      var rest := SplitOn(s[i + |sep|..], sep);
      assert SplitOn(s, sep) == [s[..i]] + rest;
      JoinSplit(s[i + |sep|..], sep);
      assert ([s[..i]] + rest)[1..] == rest;
      assert s == s[..i] + s[i..i + |sep|] + s[i + |sep|..];
  }

  /** `s.split(sep)[0]` is the text before the first occurrence, and
      `s.split(sep).slice(1).join(sep)` is the text after it. */
  lemma SplitAtFirst(s: string, sep: string, i: nat)
    requires |sep| > 0
    requires IndexOf(s, sep) == Some(i)
    ensures SplitOn(s, sep)[0] == s[..i]
    ensures Join(SplitOn(s, sep)[1..], sep) == s[i + |sep|..]
  {
    var rest := SplitOn(s[i + |sep|..], sep);
    var parts := SplitOn(s, sep);
    assert parts == [s[..i]] + rest;
    assert parts[0] == s[..i];
    assert parts[1..] == rest;
    JoinSplit(s[i + |sep|..], sep);
  }
}
