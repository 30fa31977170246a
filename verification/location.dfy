/** The reference extraction applied to `Location` values:
    `location.replace(new RegExp('.*(' + rt + '/\\w+)/_history/.*'), '$1')`.

    The regular expression is run the way a backtracking engine runs it:
    start positions are tried from the left; from each start the leading
    greedy `.*` first swallows the rest of the line and then gives characters
    back one at a time until `rt/`, a run of word characters and `/_history/`
    follow; the trailing `.*` then swallows the rest of that line. The match
    is replaced by the capture `rt/<id>`; everything outside the match stays. */
module Location {
  import opened Wrappers
  import opened Text

  const History: string := "/_history/"

  /** The resource type whose references the ITI-65 callback keeps. */
  const BinaryType: string := "Binary"

  /** The resource types the scenario passes are plain names, so the
      interpolated pattern has no metacharacters. */
  predicate IsPlainName(rt: string) {
    forall k :: 0 <= k < |rt| ==> IsWordChar(rt[k])
  }

  /** End of the run of word characters starting at `i` (what greedy `\w+` can take). */
  function WordRunEnd(s: string, i: nat): (j: nat)
    requires i <= |s|
    ensures i <= j <= |s|
    ensures forall k :: i <= k < j ==> IsWordChar(s[k])
    ensures j == |s| || !IsWordChar(s[j])
    decreases |s| - i
  {
    if i == |s| || !IsWordChar(s[i]) then i else WordRunEnd(s, i + 1)
  }

  /** End of the line holding index `i`: how far `.` can go from `i`. */
  function LineEnd(s: string, i: nat): (j: nat)
    requires i <= |s|
    ensures i <= j <= |s|
    ensures forall k :: i <= k < j ==> !IsLineTerminator(s[k])
    ensures j == |s| || IsLineTerminator(s[j])
    decreases |s| - i
  {
    if i == |s| || IsLineTerminator(s[i]) then i else LineEnd(s, i + 1)
  }

  /** Index where the id starts in an occurrence at `p`. */
  function IdStart(rt: string, p: nat): (r: nat) {
    p + |rt| + 1
  }

  /** `rt/<word chars>/_history/` occurs at `p`, matched the way `\w+` must
      match it: `/` is not a word character, so the id is the whole run. */
  predicate OccurrenceAt(s: string, rt: string, p: nat) {
    && OccursAt(s, p, rt + "/")
    && var k := WordRunEnd(s, IdStart(rt, p));
       k > IdStart(rt, p) && OccursAt(s, k, History)
  }

  /** The regular-expression reading of an occurrence: some id length `n`
      at least 1, all word characters, followed by `/_history/`. */
  ghost predicate MatchesWithId(s: string, rt: string, p: nat, n: nat) {
    && OccursAt(s, p, rt + "/")
    && n >= 1
    && (forall k :: IdStart(rt, p) <= k < IdStart(rt, p) + n ==> k < |s| && IsWordChar(s[k]))
    && OccursAt(s, IdStart(rt, p) + n, History)
  }

  /** The captured id of an occurrence at `p`. */
  function IdAt(s: string, rt: string, p: nat): (r: string)
    requires OccurrenceAt(s, rt, p)
  {
    s[IdStart(rt, p)..WordRunEnd(s, IdStart(rt, p))]
  }

  /** Index just past `/_history/` of an occurrence at `p`. */
  function OccurrenceEnd(s: string, rt: string, p: nat): (e: nat)
    requires OccurrenceAt(s, rt, p)
    ensures e <= |s|
  {
    WordRunEnd(s, IdStart(rt, p)) + |History|
  }

  /** Giving back characters: the leading `.*` ends at `p`, then `p - 1`, ...,
      down to the start `i`; the first `p` where an occurrence begins wins. */
  function Backtrack(s: string, rt: string, i: nat, p: nat): (r: Option<nat>)
    requires i <= p <= |s|
    ensures r.Some? ==> i <= r.value <= p && OccurrenceAt(s, rt, r.value)
    ensures r.Some? ==> forall q :: r.value < q <= p ==> !OccurrenceAt(s, rt, q)
    ensures r.None? ==> forall q :: i <= q <= p ==> !OccurrenceAt(s, rt, q)
    decreases p - i
  {
    if OccurrenceAt(s, rt, p) then Some(p)
    else if p == i then None
    else Backtrack(s, rt, i, p - 1)
  }

  /** Where the match starts, where the capture's occurrence sits, where the match ends. */
  datatype Match = Match(start: nat, at: nat, end: nat)

  /** What the leftmost-longest search returns, stated without the engine:
      the match covers the first line (from `i` on) that holds an
      occurrence, the capture is the last occurrence on that line, and the
      match runs to the end of the line after `/_history/`. */
  ghost predicate IsFirstMatch(s: string, rt: string, i: nat, m: Match)
    requires i <= |s|
  {
    && i <= m.start <= |s|
    && m.start <= m.at <= LineEnd(s, m.start)
    && OccurrenceAt(s, rt, m.at)
    && (m.start == i || IsLineTerminator(s[m.start - 1]))
    && (forall q :: i <= q < m.start ==> !OccurrenceAt(s, rt, q))
    && (forall q :: m.at < q <= LineEnd(s, m.start) ==> !OccurrenceAt(s, rt, q))
    && m.end == LineEnd(s, OccurrenceEnd(s, rt, m.at))
  }

  /** The engine's scan over start positions `i, i + 1, ..., |s|`. */
  function Search(s: string, rt: string, i: nat): (r: Option<Match>)
    requires i <= |s|
    ensures r.Some? ==> r.value.start <= |s| && r.value.end <= |s| && OccurrenceAt(s, rt, r.value.at)
    decreases |s| - i
  {
    match Backtrack(s, rt, i, LineEnd(s, i))
    case Some(p) => Some(Match(i, p, LineEnd(s, OccurrenceEnd(s, rt, p))))
    case None => if i == |s| then None else Search(s, rt, i + 1)
  }

  /** The engine finds exactly the match `IsFirstMatch` describes, and finds
      none only when no occurrence exists from `i` on. */
  lemma {:induction false} SearchCorrect(s: string, rt: string, i: nat)
    requires i <= |s|
    ensures Search(s, rt, i).Some? ==> IsFirstMatch(s, rt, i, Search(s, rt, i).value)
    ensures Search(s, rt, i).None? ==> forall q :: i <= q <= |s| ==> !OccurrenceAt(s, rt, q)
    decreases |s| - i
  {
    var b := Backtrack(s, rt, i, LineEnd(s, i));
    if b.Some? {
      assert Search(s, rt, i) == Some(Match(i, b.value, LineEnd(s, OccurrenceEnd(s, rt, b.value))));
    } else if i == |s| {
      assert Search(s, rt, i).None?;
    } else {
      SearchCorrect(s, rt, i + 1);
      SearchSkipsLine(s, rt, i);
    }
  }

  /** One step of the scan: a start position whose line part holds no
      occurrence passes the answer of the next start through. */
  lemma SearchSkipsLine(s: string, rt: string, i: nat)
    requires i < |s|
    requires Backtrack(s, rt, i, LineEnd(s, i)).None?
    requires Search(s, rt, i + 1).Some? ==> IsFirstMatch(s, rt, i + 1, Search(s, rt, i + 1).value)
    requires Search(s, rt, i + 1).None? ==> forall q :: i + 1 <= q <= |s| ==> !OccurrenceAt(s, rt, q)
    ensures Search(s, rt, i).Some? ==> IsFirstMatch(s, rt, i, Search(s, rt, i).value)
    ensures Search(s, rt, i).None? ==> forall q :: i <= q <= |s| ==> !OccurrenceAt(s, rt, q)
  {
    var r := Search(s, rt, i + 1);
    assert Search(s, rt, i) == r;
    assert !OccurrenceAt(s, rt, i);
    if r.Some? {
      var m := r.value;
      if m.start == i + 1 && !IsLineTerminator(s[i]) {
        LineEndStep(s, i);
        assert false;
      }
    }
  }

  /** Off a line terminator, the line end does not move. */
  lemma LineEndStep(s: string, i: nat)
    requires i < |s| && !IsLineTerminator(s[i])
    ensures LineEnd(s, i) == LineEnd(s, i + 1)
  {
  }

  /** The model of `location.replace(regex, '$1')`. */
  function ExtractReference(s: string, rt: string): (r: string)
    requires IsPlainName(rt)
  {
    match Search(s, rt, 0)
    case None => s
    case Some(m) => s[..m.start] + rt + "/" + IdAt(s, rt, m.at) + s[m.end..]
  }
}

module LocationFacts {
  import opened Wrappers
  import opened Text
  import opened Location

  /** `\w+` followed by `/` can only take the whole run of word characters,
      so an occurrence is exactly a regular-expression match, with a unique id. */
  lemma OccurrenceIsRegexMatch(s: string, rt: string, p: nat, n: nat)
    ensures MatchesWithId(s, rt, p, n) <==>
              OccurrenceAt(s, rt, p) && n == |IdAt(s, rt, p)|
  {
    var q := IdStart(rt, p);
    if MatchesWithId(s, rt, p, n) {
      assert OccursAt(s, q + n, History);
      assert s[q + n] == History[0];
      var j := WordRunEnd(s, q);
      assert j == q + n;
    }
  }

  lemma LineEndOfSingleLine(s: string, i: nat)
    requires NoLineTerminators(s) && i <= |s|
    ensures LineEnd(s, i) == |s|
  {
  }

  /** Without line terminators the whole location is replaced by the capture
      of the rightmost occurrence: the greedy leading `.*` gives back as few
      characters as it can. */
  lemma {:induction false} ExtractRightmost(s: string, rt: string, p: nat)
    requires IsPlainName(rt) && NoLineTerminators(s)
    requires p <= |s| && OccurrenceAt(s, rt, p)
    requires forall q :: p < q <= |s| ==> !OccurrenceAt(s, rt, q)
    ensures ExtractReference(s, rt) == rt + "/" + IdAt(s, rt, p)
  {
    SingleLineMatch(s, rt, p);
    assert ExtractReference(s, rt) == s[..0] + rt + "/" + IdAt(s, rt, p) + s[|s|..];
    assert s[..0] == [] && s[|s|..] == [];
  }

  /** Without line terminators the match is the whole location, with the
      capture at the rightmost occurrence. */
  lemma SingleLineMatch(s: string, rt: string, p: nat)
    requires NoLineTerminators(s)
    requires p <= |s| && OccurrenceAt(s, rt, p)
    requires forall q :: p < q <= |s| ==> !OccurrenceAt(s, rt, q)
    ensures Search(s, rt, 0) == Some(Match(0, p, |s|))
  {
    SearchCorrect(s, rt, 0);
    var m := Search(s, rt, 0).value;
    LineEndOfSingleLine(s, 0);
    MatchStartsTheLine(s, m.start);
    RightmostIsUnique(s, rt, m.at, p);
    LineEndOfSingleLine(s, OccurrenceEnd(s, rt, m.at));
  }

  /** Without line terminators a match can only start at the beginning. */
  lemma MatchStartsTheLine(s: string, start: nat)
    requires NoLineTerminators(s) && start <= |s|
    requires start == 0 || IsLineTerminator(s[start - 1])
    ensures start == 0
  {
  }

  /** Two occurrences with no occurrence after either, up to the end, are the same. */
  lemma RightmostIsUnique(s: string, rt: string, a: nat, b: nat)
    requires a <= |s| && b <= |s| && OccurrenceAt(s, rt, a) && OccurrenceAt(s, rt, b)
    requires forall q :: a < q <= |s| ==> !OccurrenceAt(s, rt, q)
    requires forall q :: b < q <= |s| ==> !OccurrenceAt(s, rt, q)
    ensures a == b
  {
  }

  /** Without any occurrence the location comes back unchanged. */
  lemma {:induction false} ExtractNoOccurrence(s: string, rt: string)
    requires IsPlainName(rt)
    requires forall q: nat :: q <= |s| ==> !OccurrenceAt(s, rt, q)
    ensures ExtractReference(s, rt) == s
  {
    SearchCorrect(s, rt, 0);
  }

  /** The general case, line terminators included: only the first line that
      holds an occurrence is replaced, by the capture of its last occurrence. */
  lemma {:induction false} ExtractFirstLine(s: string, rt: string)
    requires IsPlainName(rt)
    ensures Search(s, rt, 0).Some? ==>
              && IsFirstMatch(s, rt, 0, Search(s, rt, 0).value)
              && var m := Search(s, rt, 0).value;
                 ExtractReference(s, rt) == s[..m.start] + rt + "/" + IdAt(s, rt, m.at) + s[m.end..]
    ensures Search(s, rt, 0).None? ==>
              && (forall q: nat :: q <= |s| ==> !OccurrenceAt(s, rt, q))
              && ExtractReference(s, rt) == s
  {
    SearchCorrect(s, rt, 0);
  }


  /** A version-specific Location as a FHIR server returns it after a create. */
  const SampleLocation: string := "fhir/Binary/abc/_history/1"

  lemma SampleOccurrence()
    ensures OccurrenceAt(SampleLocation, "Binary", 5) && IdAt(SampleLocation, "Binary", 5) == "abc"
  {
    var s := SampleLocation;
    assert s[5..12] == "Binary/";
    assert s[15..25] == History;
    assert s[12..15] == "abc";
    assert WordRunEnd(s, 15) == 15;
    assert WordRunEnd(s, 14) == 15;
    assert WordRunEnd(s, 13) == 15;
    assert WordRunEnd(s, 12) == 15;
  }

  lemma SampleNoLaterOccurrence()
    ensures forall q: nat :: 5 < q <= |SampleLocation| ==> !OccurrenceAt(SampleLocation, "Binary", q)
  {
    assert forall q :: 5 < q < |SampleLocation| ==> SampleLocation[q] != 'B';
    forall q: nat | 5 < q <= |SampleLocation| ensures !OccurrenceAt(SampleLocation, "Binary", q) {
      if q + 7 <= |SampleLocation| {
        assert SampleLocation[q..q + 7][0] == SampleLocation[q];
      }
    }
  }

  lemma BinaryCapture()
    ensures "Binary" + "/" + "abc" == "Binary/abc"
  {
    var a := "Binary" + "/" + "abc";
    assert forall i :: 0 <= i < 10 ==> a[i] == "Binary/abc"[i];
  }

  /** The sample location yields the reference `Binary/abc`. */
  lemma ExtractSample()
    ensures ExtractReference(SampleLocation, "Binary") == "Binary/abc"
  {
    SampleOccurrence();
    SampleNoLaterOccurrence();
    assert NoLineTerminators(SampleLocation);
    ExtractRightmost(SampleLocation, "Binary", 5);
    BinaryCapture();
  }

  /** A non-empty location never extracts to the empty (falsy) string. */
  lemma {:induction false} ExtractNonEmpty(s: string, rt: string)
    requires IsPlainName(rt) && |s| > 0
    ensures |ExtractReference(s, rt)| > 0
  {
    ExtractFirstLine(s, rt);
  }
}
