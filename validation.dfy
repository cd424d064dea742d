/** The text-topic check of the generate handler: a topic is accepted when it
    is present and, with leading and trailing whitespace removed the way
    Python's `str.strip()` removes it, is at least five characters long. */
module Validation {
  import opened Wrappers

  /** Minimum trimmed length of an accepted topic. */
  const MinTopicLength: nat := 5

  /** Warning shown when the topic is missing or too short. */
  const TopicWarning: string := "Please enter a valid topic (at least 5 characters)"

  /** Python's `str.isspace()` on one code point: the ASCII controls tab to
      carriage return, the four information separators, space, next line,
      no-break space and the Unicode space separators. These are exactly the
      characters `str.strip()` with no argument removes. */
  predicate IsSpace(c: char) {
    || ('\U{9}' <= c <= '\U{D}')
    || ('\U{1C}' <= c <= '\U{20}')
    || c == '\U{85}' || c == '\U{A0}' || c == '\U{1680}'
    || ('\U{2000}' <= c <= '\U{200A}')
    || c == '\U{2028}' || c == '\U{2029}' || c == '\U{202F}'
    || c == '\U{205F}' || c == '\U{3000}'
  }

  /** On ASCII, `IsSpace` is Python's `string.whitespace` (space, tab, line
      feed, carriage return, vertical tab, form feed) plus the four
      information separators; on the rest of Latin-1 it holds only for next
      line and no-break space. */
  lemma IsSpaceLatin1(c: char)
    requires c < '\U{100}'
    ensures c < '\U{80}' ==> (IsSpace(c) <==> c in " \t\n\r\U{B}\U{C}\U{1C}\U{1D}\U{1E}\U{1F}")
    ensures '\U{80}' <= c ==> (IsSpace(c) <==> c == '\U{85}' || c == '\U{A0}')
  {
  }

  predicate AllSpace(s: string) {
    forall k :: 0 <= k < |s| ==> IsSpace(s[k])
  }

  /** Number of whitespace characters `s.lstrip()` removes: the length of
      the run of whitespace at the start of `s` (see `LeadingRun`). */
  function LeadingSpaces(s: string): (n: nat)
    ensures n <= |s|
    decreases |s|
  {
    if s != [] && IsSpace(s[0]) then 1 + LeadingSpaces(s[1..]) else 0
  }

  /** Number of whitespace characters `s.rstrip()` removes: the length of
      the run of whitespace at the end of `s` (see `TrailingRun`). */
  function TrailingSpaces(s: string): (n: nat)
    ensures n <= |s|
    decreases |s|
  {
    if s != [] && IsSpace(s[|s| - 1]) then 1 + TrailingSpaces(s[..|s| - 1]) else 0
  }

  /** The leading run is whitespace and stops at the first non-whitespace
      character, so it is the longest such run. */
  lemma {:induction false} LeadingRun(s: string)
    ensures forall k :: 0 <= k < LeadingSpaces(s) ==> IsSpace(s[k])
    ensures LeadingSpaces(s) == |s| || !IsSpace(s[LeadingSpaces(s)])
    decreases |s|
  {
    if s != [] && IsSpace(s[0]) {
      var t := s[1..];
      LeadingRun(t);
      forall k | 1 <= k < LeadingSpaces(s)
        ensures IsSpace(s[k])
      {
        assert s[k] == t[k - 1];
      }
      if LeadingSpaces(s) < |s| {
        assert s[LeadingSpaces(s)] == t[LeadingSpaces(t)];
      }
    }
  }

  /** The trailing run is whitespace and stops at the last non-whitespace
      character, so it is the longest such run. */
  lemma {:induction false} TrailingRun(s: string)
    ensures forall k :: |s| - TrailingSpaces(s) <= k < |s| ==> IsSpace(s[k])
    ensures TrailingSpaces(s) == |s| || !IsSpace(s[|s| - 1 - TrailingSpaces(s)])
    decreases |s|
  {
    if s != [] && IsSpace(s[|s| - 1]) {
      var t := s[..|s| - 1];
      TrailingRun(t);
      forall k | |s| - TrailingSpaces(s) <= k < |s| - 1
        ensures IsSpace(s[k])
      {
        assert s[k] == t[k];
      }
      if TrailingSpaces(s) < |s| {
        assert s[|s| - 1 - TrailingSpaces(s)] == t[|t| - 1 - TrailingSpaces(t)];
      }
    }
  }

  /** Python's `s.strip()`: the slice of `s` between its leading and its
      trailing whitespace, or empty when `s` is whitespace only. */
  function Strip(s: string): (r: string)
    ensures |r| <= |s|
  {
    var i, j := LeadingSpaces(s), TrailingSpaces(s);
    if i == |s| then []
    else
      LeadingRun(s);
      TrailingRun(s);
      s[i..|s| - j]
  }

  /** The check `not topic_text or len(topic_text.strip()) < 5`, negated:
      the topic the handler accepts. */
  predicate ValidTopic(topic: Option<string>): (ok: bool)
    ensures ok ==> topic.Some? && |topic.value| >= MinTopicLength
  {
    topic.Some? && topic.value != [] && |Strip(topic.value)| >= MinTopicLength
  }

  /** `strip()` returns the empty string exactly when the topic is whitespace
      only, so such a topic is rejected whatever its length. */
  lemma StripBlank(s: string)
    ensures Strip(s) == [] <==> AllSpace(s)
    ensures AllSpace(s) ==> !ValidTopic(Some(s))
  {
    StripShape(s);
    if AllSpace(s) {
      LeadingSpacesOfBlank(s);
    }
  }

  /** Number of non-whitespace characters of `s`. */
  function NonSpaceCount(s: string): nat {
    if s == [] then 0
    else NonSpaceCount(s[..|s| - 1]) + (if IsSpace(s[|s| - 1]) then 0 else 1)
  }

  /** `Strip` returns a contiguous slice of its input with only whitespace
      before and after it, and the slice is empty or neither starts nor ends
      with whitespace. */
  lemma StripShape(s: string)
    ensures var r, i := Strip(s), LeadingSpaces(s);
      && i + |r| <= |s| && r == s[i..i + |r|]
      && (forall k :: 0 <= k < i ==> IsSpace(s[k]))
      && (forall k :: i + |r| <= k < |s| ==> IsSpace(s[k]))
      && (r == [] || (!IsSpace(r[0]) && !IsSpace(r[|r| - 1])))
  {
    var i, j := LeadingSpaces(s), TrailingSpaces(s);
    LeadingRun(s);
    TrailingRun(s);
    var r := Strip(s);
    if i < |s| {
      assert r == s[i..|s| - j];
      assert i + |r| == |s| - j;
      assert r[0] == s[i];
      assert r[|r| - 1] == s[|s| - 1 - j];
    } else {
      assert r == [] == s[i..i];
    }
  }

  lemma {:induction false} NonSpaceCountAppend(a: string, b: string)
    ensures NonSpaceCount(a + b) == NonSpaceCount(a) + NonSpaceCount(b)
    decreases |b|
  {
    if b == [] {
      assert a + b == a;
    } else {
      assert (a + b)[..|a + b| - 1] == a + b[..|b| - 1];
      NonSpaceCountAppend(a, b[..|b| - 1]);
    }
  }

  lemma NonSpaceCountSplit(s: string, i: nat)
    requires i <= |s|
    ensures NonSpaceCount(s) == NonSpaceCount(s[..i]) + NonSpaceCount(s[i..])
  {
    assert s == s[..i] + s[i..];
    NonSpaceCountAppend(s[..i], s[i..]);
  }

  lemma {:induction false} NonSpaceCountOfSpace(s: string)
    requires AllSpace(s)
    ensures NonSpaceCount(s) == 0
    decreases |s|
  {
    if s != [] {
      NonSpaceCountOfSpace(s[..|s| - 1]);
    }
  }

  lemma {:induction false} NonSpaceCountBound(s: string)
    ensures NonSpaceCount(s) <= |s|
    decreases |s|
  {
    if s != [] {
      NonSpaceCountBound(s[..|s| - 1]);
    }
  }

  /** Stripping removes only whitespace: every non-whitespace character of a
      topic counts toward its trimmed length. */
  lemma StripKeepsNonSpace(s: string)
    ensures NonSpaceCount(Strip(s)) == NonSpaceCount(s)
    ensures NonSpaceCount(s) <= |Strip(s)| <= |s|
  {
    var i, j := LeadingSpaces(s), TrailingSpaces(s);
    LeadingRun(s);
    TrailingRun(s);
    var r := Strip(s);
    NonSpaceCountSplit(s, i);
    NonSpaceCountOfSpace(s[..i]);
    var u := s[i..];
    if i < |s| {
      NonSpaceCountSplit(u, |u| - j);
      assert u[..|u| - j] == r;
      assert AllSpace(u[|u| - j..]);
      NonSpaceCountOfSpace(u[|u| - j..]);
    } else {
      assert u == [];
    }
    NonSpaceCountBound(r);
  }

  /** A topic of fewer than five characters, such as "Hi", is rejected. */
  lemma ShortTopicRejected(s: string)
    requires |s| < MinTopicLength
    ensures !ValidTopic(Some(s))
  {
  }

  /** A topic with at least five non-whitespace characters is accepted,
      wherever its whitespace lies. */
  lemma FiveNonSpaceAccepted(s: string)
    requires NonSpaceCount(s) >= MinTopicLength
    ensures ValidTopic(Some(s))
  {
    StripKeepsNonSpace(s);
  }

  lemma {:induction false} LeadingSpacesPadded(w: string, s: string)
    requires AllSpace(w)
    ensures LeadingSpaces(w + s) == |w| + LeadingSpaces(s)
    decreases |w|
  {
    if w == [] {
      assert w + s == s;
    } else {
      assert (w + s)[1..] == w[1..] + s;
      LeadingSpacesPadded(w[1..], s);
    }
  }

  lemma {:induction false} TrailingSpacesPadded(s: string, w: string)
    requires AllSpace(w)
    ensures TrailingSpaces(s + w) == TrailingSpaces(s) + |w|
    decreases |w|
  {
    if w == [] {
      assert s + w == s;
    } else {
      assert (s + w)[..|s + w| - 1] == s + w[..|w| - 1];
      TrailingSpacesPadded(s, w[..|w| - 1]);
    }
  }

  lemma {:induction false} LeadingSpacesAppend(s: string, w: string)
    requires LeadingSpaces(s) < |s|
    ensures LeadingSpaces(s + w) == LeadingSpaces(s)
    decreases |s|
  {
    if IsSpace(s[0]) {
      assert (s + w)[1..] == s[1..] + w;
      LeadingSpacesAppend(s[1..], w);
    }
  }

  lemma {:induction false} TrailingSpacesPrepend(w: string, s: string)
    requires TrailingSpaces(s) < |s|
    ensures TrailingSpaces(w + s) == TrailingSpaces(s)
    decreases |s|
  {
    if IsSpace(s[|s| - 1]) {
      assert (w + s)[..|w + s| - 1] == w + s[..|s| - 1];
      TrailingSpacesPrepend(w, s[..|s| - 1]);
    }
  }

  lemma {:induction false} LeadingSpacesOfBlank(s: string)
    requires AllSpace(s)
    ensures LeadingSpaces(s) == |s|
    decreases |s|
  {
    if s != [] {
      LeadingSpacesOfBlank(s[1..]);
    }
  }

  /** Whitespace before a topic does not change its stripped form. */
  lemma StripPadStart(w: string, s: string)
    requires AllSpace(w)
    ensures Strip(w + s) == Strip(s)
  {
    var i, j := LeadingSpaces(s), TrailingSpaces(s);
    LeadingSpacesPadded(w, s);
    if i < |s| {
      LeadingRun(s);
      TrailingRun(s);
      TrailingSpacesPrepend(w, s);
      assert (w + s)[|w| + i..|w + s| - j] == s[i..|s| - j];
    }
  }

  /** Whitespace after a topic does not change its stripped form. */
  lemma StripPadEnd(s: string, w: string)
    requires AllSpace(w)
    ensures Strip(s + w) == Strip(s)
  {
    var i, j := LeadingSpaces(s), TrailingSpaces(s);
    LeadingRun(s);
    if i < |s| {
      TrailingRun(s);
      LeadingSpacesAppend(s, w);
      TrailingSpacesPadded(s, w);
      assert (s + w)[i..|s + w| - (j + |w|)] == s[i..|s| - j];
    } else {
      assert AllSpace(s + w);
      LeadingSpacesOfBlank(s + w);
    }
  }

  /** Whitespace around a topic never changes its stripped form, so padding
      can neither make a short topic pass nor a long one fail. */
  lemma StripIgnoresPadding(w1: string, s: string, w2: string)
    requires AllSpace(w1) && AllSpace(w2)
    ensures Strip(w1 + s + w2) == Strip(s)
    ensures ValidTopic(Some(w1 + s + w2)) <==> ValidTopic(Some(s))
  {
    StripPadEnd(w1 + s, w2);
    StripPadStart(w1, s);
  }
}
