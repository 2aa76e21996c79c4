// Subscription subjects: dot-separated segments, wildcard matching and pattern validation.

module Subjects {
  import opened Prelude

  // ---------------------------------------------------------------------------
  // Splitting on dots
  // ---------------------------------------------------------------------------

  /** The segments between the dots; a text without dots, even an empty one, is a single segment. */
  function Split(text: string): (parts: seq<string>)
    ensures parts != []
  {
    if text == "" then [""]
    else
      var rest := Split(text[1..]);
      if text[0] == '.' then [""] + rest else [[text[0]] + rest[0]] + rest[1..]
  }

  function Join(parts: seq<string>): string
    requires parts != []
  {
    if |parts| == 1 then parts[0] else parts[0] + "." + Join(parts[1..])
  }

  /** Joining undoes splitting, so two texts with the same segments are the same text. */
  lemma {:induction false} JoinSplit(text: string)
    ensures Join(Split(text)) == text
  {
    if text != "" {
      var rest := Split(text[1..]);
      JoinSplit(text[1..]);
      if text[0] == '.' {
        assert ([""] + rest)[1..] == rest;
      } else if |rest| > 1 {
        assert ([[text[0]] + rest[0]] + rest[1..])[1..] == rest[1..];
      }
      assert text == [text[0]] + text[1..];
    }
  }

  lemma SplitIsInjective(s: string, t: string)
    requires Split(s) == Split(t)
    ensures s == t
  {
    JoinSplit(s);
    JoinSplit(t);
  }

  /** Splitting undoes joining for segments that contain no dot. */
  lemma {:induction false} SplitJoin(parts: seq<string>)
    requires parts != [] && forall i :: 0 <= i < |parts| ==> '.' !in parts[i]
    ensures Split(Join(parts)) == parts
    decreases |parts|, |parts[0]|
  {
    if parts[0] != "" {
      var shorter := [parts[0][1..]] + parts[1..];
      SplitJoin(shorter);
      assert shorter[1..] == parts[1..];
      assert Join(parts) == [parts[0][0]] + Join(shorter);
      assert parts[0] == [parts[0][0]] + shorter[0];
      assert parts == [[parts[0][0]] + shorter[0]] + shorter[1..];
    } else if |parts| > 1 {
      SplitJoin(parts[1..]);
      assert Join(parts) == "." + Join(parts[1..]);
      assert parts == [""] + parts[1..];
    }
  }

  /** A dot in between separates the segments of two texts. */
  lemma {:induction false} SplitAtDot(a: string, b: string)
    ensures Split(a + "." + b) == Split(a) + Split(b)
  {
    if a == "" {
      assert (a + "." + b)[1..] == b;
    } else {
      assert (a + "." + b)[1..] == a[1..] + "." + b;
      SplitAtDot(a[1..], b);
    }
  }

  /** Joining the segments on both sides of a dot. */
  lemma {:induction false} JoinAtDot(first: seq<string>, second: seq<string>)
    requires first != [] && second != []
    ensures Join(first + second) == Join(first) + "." + Join(second)
  {
    if |first| == 1 {
      assert (first + second)[1..] == second;
    } else {
      assert (first + second)[1..] == first[1..] + second;
      JoinAtDot(first[1..], second);
    }
  }

  lemma SegmentsContinue(prefix: string, rest: string)
    ensures Split(prefix) < Split(prefix + "." + rest)
    ensures (prefix + "." + rest)[|prefix| + 1..] == rest
  {
    SplitAtDot(prefix, rest);
  }

  lemma {:induction false} TextContinues(prefix: string, text: string)
    requires Split(prefix) < Split(text)
    ensures text == prefix + "." + Join(Split(text)[|Split(prefix)|..])
  {
    var parts := Split(text);
    var rest := parts[|Split(prefix)|..];
    JoinSplit(prefix);
    JoinSplit(text);
    JoinAtDot(Split(prefix), rest);
    assert parts == Split(prefix) + rest;
  }

  /** A text goes on after a prefix and a dot exactly when its segments go on after those of the prefix. */
  lemma {:induction false} PrefixBySegments(prefix: string, text: string)
    ensures prefix + "." <= text <==> Split(prefix) < Split(text)
  {
    if prefix + "." <= text {
      assert text == prefix + "." + text[|prefix| + 1..];
      SegmentsContinue(prefix, text[|prefix| + 1..]);
    } else if Split(prefix) < Split(text) {
      TextContinues(prefix, text);
      assert false;
    }
  }

  /** A text is a single segment exactly when it has no dot. */
  lemma {:induction false} SingleSegment(text: string)
    ensures Split(text) == [text] <==> '.' !in text
    ensures |Split(text)| == 1 <==> '.' !in text
  {
    if text != "" {
      SingleSegment(text[1..]);
      assert text == [text[0]] + text[1..];
    }
  }

  /** A character that a text does not contain is in none of its segments. */
  lemma {:induction false} AbsentCharacter(text: string, c: char)
    requires c !in text
    ensures forall i :: 0 <= i < |Split(text)| ==> c !in Split(text)[i]
  {
    if text != "" {
      AbsentCharacter(text[1..], c);
      assert text[0] in text;
    }
  }

  // ---------------------------------------------------------------------------
  // Matching
  // ---------------------------------------------------------------------------

  /** The index of the first greedy wildcard, or the length when there is none. */
  function FirstGreedy(pattern: seq<string>): (k: nat)
    ensures k <= |pattern|
    ensures forall i :: 0 <= i < k ==> pattern[i] != ">"
    ensures k < |pattern| ==> pattern[k] == ">"
  {
    if pattern == [] || pattern[0] == ">" then 0 else 1 + FirstGreedy(pattern[1..])
  }

  predicate SegmentMatches(pattern: string, segment: string) {
    pattern == "*" || pattern == segment
  }

  /**
   * The meaning of a pattern: segment by segment up to the first `>`, which absorbs one or more
   * segments; without a `>` the lengths must agree.
   */
  predicate Matches(pattern: seq<string>, subject: seq<string>) {
    var k := FirstGreedy(pattern);
    && (if k < |pattern| then k < |subject| else |pattern| == |subject|)
    && forall i :: 0 <= i < k ==> SegmentMatches(pattern[i], subject[i])
  }

  /** The two-index walk decides the meaning. */
  method MatchesParts(pattern: seq<string>, subject: seq<string>) returns (matched: bool)
    ensures matched <==> Matches(pattern, subject)
  {
    var pi, si := 0, 0;
    while pi < |pattern| && si < |subject|
      invariant 0 <= pi == si <= FirstGreedy(pattern) && si <= |subject|
      invariant forall i :: 0 <= i < pi ==> SegmentMatches(pattern[i], subject[i])
    {
      var p := pattern[pi];
      if p == ">" {
        return true;
      } else if p == "*" {
        pi, si := pi + 1, si + 1;
      } else if p == subject[si] {
        pi, si := pi + 1, si + 1;
      } else {
        return false;
      }
    }
    return pi == |pattern| && si == |subject|;
  }

  method MatchesSubject(pattern: string, subject: seq<string>) returns (matched: bool)
    ensures matched <==> Matches(Split(pattern), subject)
  {
    matched := MatchesParts(Split(pattern), subject);
  }

  lemma FirstGreedyUnique(pattern: seq<string>, k: nat)
    requires k <= |pattern|
    requires forall i :: 0 <= i < k ==> pattern[i] != ">"
    requires k < |pattern| ==> pattern[k] == ">"
    ensures FirstGreedy(pattern) == k
  {
  }

  /** Weakening one segment to `*` loses no match, unless the segment is the greedy wildcard itself. */
  lemma StarIsWeaker(pattern: seq<string>, subject: seq<string>, i: nat)
    requires i < |pattern| && i != FirstGreedy(pattern)
    requires Matches(pattern, subject)
    ensures Matches(pattern[i := "*"], subject)
  {
    FirstGreedyUnique(pattern[i := "*"], FirstGreedy(pattern));
  }

  /** A star in place of a closing greedy wildcard keeps exactly the matches of the pattern's own length. */
  lemma StarForGreedy(pattern: seq<string>, subject: seq<string>)
    requires pattern != [] && FirstGreedy(pattern) == |pattern| - 1
    ensures Matches(pattern[|pattern| - 1 := "*"], subject)
      <==> Matches(pattern, subject) && |subject| == |pattern|
  {
    FirstGreedyUnique(pattern[|pattern| - 1 := "*"], |pattern|);
  }

  predicate IsWildcardPattern(pattern: string) {
    '*' in pattern || '>' in pattern
  }

  /** A pattern without wildcard characters matches its own text and nothing else. */
  lemma ExactPatternMatchesItself(pattern: string, subject: string)
    requires !IsWildcardPattern(pattern)
    ensures Matches(Split(pattern), Split(subject)) <==> pattern == subject
  {
    var parts := Split(pattern);
    AbsentCharacter(pattern, '*');
    AbsentCharacter(pattern, '>');
    assert '*' in "*" && '>' in ">";
    FirstGreedyUnique(parts, |parts|);
    if Matches(parts, Split(subject)) {
      assert parts == Split(subject);
      SplitIsInjective(pattern, subject);
    }
  }

  // ---------------------------------------------------------------------------
  // Validation
  // ---------------------------------------------------------------------------

  const EMPTY_PATTERN := "Empty pattern"
  const GREEDY_NOT_LAST := "> wildcard can only be at the end"
  const EMPTY_SEGMENT := "Empty segment in pattern"

  /** The complaint about a pattern: that it is empty, or the fault of its first faulty segment. */
  ghost predicate IsFault(pattern: string, reason: string) {
    var parts := Split(pattern);
    if pattern == "" then reason == "Empty pattern"
    else
      exists i :: (
        && 0 <= i < |parts|
        && (if parts[i] == ">" then i < |parts| - 1 && reason == "> wildcard can only be at the end"
            else parts[i] == "" && reason == "Empty segment in pattern")
        && forall j :: 0 <= j < i ==> parts[j] != "" && parts[j] != ">")
  }

  /** Nonempty, no empty segment, and a greedy wildcard only in the last place. */
  predicate IsValidPattern(pattern: string) {
    var parts := Split(pattern);
    && pattern != ""
    && (forall i :: 0 <= i < |parts| ==> parts[i] != "")
    && (forall i :: 0 <= i < |parts| - 1 ==> parts[i] != ">")
  }

  /** Accepts exactly the valid patterns, and otherwise reports the first fault. */
  method ValidatePattern(pattern: string) returns (error: Option<string>)
    ensures error.None? <==> IsValidPattern(pattern)
    ensures error.Some? ==> IsFault(pattern, error.value)
  {
    if pattern == "" {
      return Some(EMPTY_PATTERN);
    }
    var parts := Split(pattern);
    for i := 0 to |parts|
      invariant forall j :: 0 <= j < i ==> parts[j] != "" && (parts[j] == ">" ==> j == |parts| - 1)
    {
      if parts[i] == ">" && i != |parts| - 1 {
        return Some(GREEDY_NOT_LAST);
      }
      if parts[i] == "" {
        return Some(EMPTY_SEGMENT);
      }
    }
    return None;
  }

  /** For accepted patterns the greedy wildcard, if any, closes the pattern. */
  lemma ValidPatternMatch(pattern: string, subject: seq<string>)
    requires IsValidPattern(pattern)
    ensures var parts := Split(pattern);
      var last := |parts| - 1;
      Matches(parts, subject) <==>
        if parts[last] == ">"
        then last < |subject| && forall i :: 0 <= i < last ==> SegmentMatches(parts[i], subject[i])
        else |parts| == |subject| && forall i :: 0 <= i < |parts| ==> SegmentMatches(parts[i], subject[i])
  {
    var parts := Split(pattern);
    FirstGreedyUnique(parts, if parts[|parts| - 1] == ">" then |parts| - 1 else |parts|);
  }
}
