/** The one regular-expression use of the extractor: the first match of a
    literal tag followed by `(.+)`. In Python's default mode `.` matches any
    character but a newline, so a match needs the tag and at least one
    non-newline character after it, and the group runs to the end of that
    line. `re.findall(...)[0]` is the leftmost such match. */
module Label {
  import opened Wrappers
  import opened Text

  /** The regular expression matches at `i`: the tag starts there and is
      followed by at least one character that is not a newline. */
  predicate MatchesAt(s: string, tag: string, i: nat) {
    OccursAt(s, tag, i) && i + |tag| < |s| && s[i + |tag|] != '\n'
  }

  /** The leftmost match position at or after `from`, if any. */
  function FirstMatchFrom(s: string, tag: string, from: nat): (r: Option<nat>)
    ensures r.Some? ==> from <= r.value && MatchesAt(s, tag, r.value)
    ensures r.Some? ==> forall j: nat :: from <= j < r.value ==> !MatchesAt(s, tag, j)
    ensures r.None? ==> forall j: nat :: from <= j ==> !MatchesAt(s, tag, j)
    decreases |s| - from
  {
    if from >= |s| then
      assert forall j: nat :: from <= j ==> !MatchesAt(s, tag, j);
      None
    else if MatchesAt(s, tag, from) then Some(from)
    else FirstMatchFrom(s, tag, from + 1)
  }

  /** The run of non-newline characters that starts at `j` (the greedy
      `.+` group, which stops at a newline or at the end). */
  function LineFrom(s: string, j: nat): (r: string)
    requires j <= |s|
    ensures OccursAt(s, r, j)
    ensures '\n' !in r
    ensures j + |r| == |s| || s[j + |r|] == '\n'
    decreases |s| - j
  {
    if j == |s| || s[j] == '\n' then []
    else
      var rest := LineFrom(s, j + 1);
      assert s[j..j + 1 + |rest|] == [s[j]] + s[j + 1..j + 1 + |rest|];
      [s[j]] + rest
  }

  /** `i` is the leftmost position where the expression matches. */
  predicate LeftmostMatch(s: string, tag: string, i: nat) {
    MatchesAt(s, tag, i) && forall j: nat :: j < i ==> !MatchesAt(s, tag, j)
  }

  /** `v` is the whole rest of the line that starts at `j`. */
  predicate RestOfLine(s: string, v: string, j: nat) {
    OccursAt(s, v, j) && '\n' !in v && (j + |v| == |s| || s[j + |v|] == '\n')
  }

  /** `re.findall(tag + "(.+)", s)[0]`: the text after the leftmost
      matching label up to the end of its line; `None` where Python's
      indexing of an empty match list raises. */
  function AfterLabel(s: string, tag: string): (r: Option<string>)
    ensures r.None? <==> forall i: nat :: !MatchesAt(s, tag, i)
    ensures r.Some? ==> |r.value| > 0
    ensures r.Some? ==> exists i: nat :: LeftmostMatch(s, tag, i) && RestOfLine(s, r.value, i + |tag|)
  {
    match FirstMatchFrom(s, tag, 0)
    case None => None
    case Some(i) =>
      var v := LineFrom(s, i + |tag|);
      assert LeftmostMatch(s, tag, i);
      assert RestOfLine(s, v, i + |tag|);
      assert |v| > 0 by {
        assert s[i + |tag|] != '\n';
      }
      Some(v)
  }

  /** A label that occurs once, followed by a value on the same line,
      yields exactly that value. */
  lemma AfterLabelValue(prefix: string, tag: string, value: string)
    requires |tag| > 0 && |value| > 0
    requires '\n' !in value
    requires forall i: nat :: i < |prefix| ==> !OccursAt(prefix + tag, tag, i)
    ensures AfterLabel(prefix + tag + value, tag) == Some(value)
  {
    var s := prefix + tag + value;
    var n := |prefix| + |tag|;
    assert s[|prefix|..n] == tag;
    assert s[n..] == value;
    assert MatchesAt(s, tag, |prefix|);
    forall j: nat | j < |prefix|
      ensures !MatchesAt(s, tag, j)
    {
      assert !OccursAt(prefix + tag, tag, j);
    }
    var r := AfterLabel(s, tag);
    var i: nat :| LeftmostMatch(s, tag, i) && RestOfLine(s, r.value, i + |tag|);
    assert i == |prefix|;
    assert '\n' !in s[n..];
    assert r.value == s[n..];
  }
}
