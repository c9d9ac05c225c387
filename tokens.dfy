/**
  Hashtag and mention counting.

  The validator counts the matches of the global regular expressions
  `(^|\s)#[\p{L}\p{N}_]+` and `(^|\s)@[\p{L}\p{N}_.-]+`. The matcher is
  modelled as ECMAScript runs a global match: try every start position from
  the current one, take the first alternative of `(^|\s)` that succeeds,
  extend the character run greedily, and resume the search where the match
  ended. The main theorem says that the number of matches is the number of
  positions holding the sigil that start the text or follow whitespace and
  are followed by a word character.
*/
module Tokens {
  import opened Wrappers

  /** `\s` of ECMAScript regular expressions: the WhiteSpace and LineTerminator code points. */
  predicate IsWhitespace(c: char) {
    var n := c as int;
    (0x09 <= n <= 0x0D) || n == 0x20 || n == 0xA0 || n == 0x1680
    || (0x2000 <= n <= 0x200A) || n == 0x2028 || n == 0x2029
    || n == 0x202F || n == 0x205F || n == 0x3000 || n == 0xFEFF
  }

  /** `\p{L}` or `\p{N}`, restricted to ASCII letters and digits. */
  predicate IsLetterOrNumber(c: char) {
    'a' <= c <= 'z' || 'A' <= c <= 'Z' || '0' <= c <= '9'
  }

  /** The character class `[\p{L}\p{N}_]` of a hashtag. */
  predicate IsHashtagChar(c: char) {
    IsLetterOrNumber(c) || c == '_'
  }

  /** The character class `[\p{L}\p{N}_.-]` of a mention. */
  predicate IsMentionChar(c: char) {
    IsLetterOrNumber(c) || c == '_' || c == '.' || c == '-'
  }

  /** The word class never contains the sigil or a whitespace character. */
  ghost predicate Separated(sigil: char, word: char -> bool) {
    forall c :: word(c) ==> c != sigil && !IsWhitespace(c)
  }

  /** The strings the pattern `(^|\s)<sigil><word>+` can match, leaving aside where `^` holds. */
  ghost predicate IsMatchText(m: string, sigil: char, word: char -> bool) {
    || (|m| >= 2 && m[0] == sigil && forall j :: 1 <= j < |m| ==> word(m[j]))
    || (|m| >= 3 && IsWhitespace(m[0]) && m[1] == sigil && forall j :: 2 <= j < |m| ==> word(m[j]))
  }

  /** The end of the longest run of word characters starting at `k` (a greedy `+`). */
  function RunEnd(t: string, k: nat, word: char -> bool): (r: nat)
    requires k <= |t|
    ensures k <= r <= |t|
    ensures forall j :: k <= j < r ==> word(t[j])
    ensures r == |t| || !word(t[r])
    decreases |t| - k
  {
    if k < |t| && word(t[k]) then RunEnd(t, k + 1, word) else k
  }

  /**
    One attempt of the pattern at start position `s`: the end of the match,
    or None. The `^` alternative is tried first and holds only at 0.
  */
  function MatchAt(t: string, s: nat, sigil: char, word: char -> bool): (r: Option<nat>)
    requires s <= |t|
    ensures r.Some? ==> s < r.value <= |t|
  {
    if s == 0 && 1 < |t| && t[0] == sigil && word(t[1]) then
      Some(RunEnd(t, 1, word))
    else if s + 2 < |t| && IsWhitespace(t[s]) && t[s + 1] == sigil && word(t[s + 2]) then
      Some(RunEnd(t, s + 2, word))
    else
      None
  }

  /**
    The array of matched strings that `String.prototype.match` returns for
    the global pattern, searching from `p` on.
  */
  function MatchAll(t: string, p: nat, sigil: char, word: char -> bool): (ms: seq<string>)
    requires p <= |t|
    decreases |t| - p
  {
    if p == |t| then []
    else
      match MatchAt(t, p, sigil, word)
      case Some(e) => [t[p..e]] + MatchAll(t, e, sigil, word)
      case None => MatchAll(t, p + 1, sigil, word)
  }

  /**
    A successful attempt matches the pattern and its run of word characters
    is maximal; away from position 0, where `^` cannot hold, it starts with
    whitespace.
  */
  lemma {:induction false} MatchAtMatchesPattern(t: string, s: nat, sigil: char, word: char -> bool)
    requires s <= |t| && MatchAt(t, s, sigil, word).Some?
    ensures var e := MatchAt(t, s, sigil, word).value;
      && IsMatchText(t[s..e], sigil, word)
      && (e == |t| || !word(t[e]))
    ensures s > 0 ==> IsWhitespace(t[s])
  {
  }

  /**
    Every string the global match returns matches the pattern. Every match
    after the first, and every match of a search that starts past 0, starts
    with whitespace.
  */
  lemma {:induction false} MatchAllMatchesPattern(t: string, p: nat, sigil: char, word: char -> bool)
    requires p <= |t|
    ensures forall m <- MatchAll(t, p, sigil, word) :: IsMatchText(m, sigil, word)
    ensures forall k :: 0 <= k < |MatchAll(t, p, sigil, word)| && (p > 0 || k > 0) ==>
      |MatchAll(t, p, sigil, word)[k]| > 0 && IsWhitespace(MatchAll(t, p, sigil, word)[k][0])
    decreases |t| - p
  {
    if p < |t| {
      match MatchAt(t, p, sigil, word)
      case Some(e) =>
        MatchAtMatchesPattern(t, p, sigil, word);
        MatchAllMatchesPattern(t, e, sigil, word);
      case None =>
        MatchAllMatchesPattern(t, p + 1, sigil, word);
    }
  }

  /**
    The `^` alternative: a first match that does not start with whitespace
    comes from a search that starts at 0, and it is a prefix of the text.
  */
  lemma {:induction false} FirstMatchAnchored(t: string, p: nat, sigil: char, word: char -> bool)
    requires p <= |t|
    ensures |MatchAll(t, p, sigil, word)| > 0 && |MatchAll(t, p, sigil, word)[0]| > 0
      && !IsWhitespace(MatchAll(t, p, sigil, word)[0][0])
      ==> p == 0 && MatchAll(t, p, sigil, word)[0] <= t
    decreases |t| - p
  {
    if p < |t| {
      match MatchAt(t, p, sigil, word)
      case Some(e) =>
        MatchAtMatchesPattern(t, p, sigil, word);
      case None =>
        assert MatchAll(t, p, sigil, word) == MatchAll(t, p + 1, sigil, word);
        FirstMatchAnchored(t, p + 1, sigil, word);
    }
  }

  /** Position `i` starts a token: the sigil, at the start or after whitespace, then a word character. */
  predicate IsTokenStart(t: string, i: nat, sigil: char, word: char -> bool) {
    && i + 1 < |t|
    && t[i] == sigil
    && (i == 0 || IsWhitespace(t[i - 1]))
    && word(t[i + 1])
  }

  /** The number of token starts at positions `from` and beyond. */
  function CountTokenStarts(t: string, from: nat, sigil: char, word: char -> bool): nat
    decreases |t| - from
  {
    if from >= |t| then 0
    else (if IsTokenStart(t, from, sigil, word) then 1 else 0) + CountTokenStarts(t, from + 1, sigil, word)
  }

  /** Skipping positions that start no token does not change the count. */
  lemma {:induction false} SkipNonStarts(t: string, a: nat, b: nat, sigil: char, word: char -> bool)
    requires a <= b
    requires forall i :: a <= i < b ==> !IsTokenStart(t, i, sigil, word)
    ensures CountTokenStarts(t, a, sigil, word) == CountTokenStarts(t, b, sigil, word)
    decreases b - a
  {
    if a < b {
      SkipNonStarts(t, a + 1, b, sigil, word);
    }
  }

  /** Inside a match run, and right after it, no token can start. */
  lemma {:induction false} NoStartsInRun(t: string, k: nat, e: nat, sigil: char, word: char -> bool)
    requires Separated(sigil, word)
    requires 1 <= k < e <= |t|
    requires forall j :: k <= j < e ==> word(t[j])
    ensures forall i :: k <= i < e + 1 ==> !IsTokenStart(t, i, sigil, word)
  {
    forall i | k <= i < e + 1
      ensures !IsTokenStart(t, i, sigil, word)
    {
      if i < e {
        assert word(t[i]);
      } else {
        assert word(t[i - 1]);
      }
    }
  }

  /** A match through the `^` alternative covers exactly one token start, the one at 0. */
  lemma {:induction false} AnchoredMatchCount(t: string, sigil: char, word: char -> bool)
    requires Separated(sigil, word)
    requires 1 < |t| && t[0] == sigil && word(t[1])
    ensures CountTokenStarts(t, 0, sigil, word) == 1 + CountTokenStarts(t, RunEnd(t, 1, word) + 1, sigil, word)
  {
    var e := RunEnd(t, 1, word);
    assert IsTokenStart(t, 0, sigil, word);
    NoStartsInRun(t, 1, e, sigil, word);
    SkipNonStarts(t, 1, e + 1, sigil, word);
  }

  /**
    A match through the `\s` alternative at `p` covers exactly one token
    start, the one at `p + 1`; the one at `p` is excluded when `p` is 0
    because `t[0]` is whitespace, and belongs to the previous match otherwise.
  */
  lemma {:induction false} SpacedMatchCount(t: string, p: nat, sigil: char, word: char -> bool)
    requires Separated(sigil, word)
    requires p + 2 < |t| && IsWhitespace(t[p]) && t[p + 1] == sigil && word(t[p + 2])
    ensures CountTokenStarts(t, if p == 0 then 0 else p + 1, sigil, word)
      == 1 + CountTokenStarts(t, RunEnd(t, p + 2, word) + 1, sigil, word)
  {
    var e := RunEnd(t, p + 2, word);
    assert IsTokenStart(t, p + 1, sigil, word);
    if p == 0 {
      assert !IsTokenStart(t, 0, sigil, word);
      assert CountTokenStarts(t, 0, sigil, word) == CountTokenStarts(t, 1, sigil, word);
    }
    NoStartsInRun(t, p + 2, e, sigil, word);
    SkipNonStarts(t, p + 2, e + 1, sigil, word);
  }

  /** When no match starts at `p`, no token starts where that match would have put it. */
  lemma {:induction false} MissCount(t: string, p: nat, sigil: char, word: char -> bool)
    requires p < |t| && MatchAt(t, p, sigil, word).None?
    ensures CountTokenStarts(t, if p == 0 then 0 else p + 1, sigil, word) == CountTokenStarts(t, p + 2, sigil, word)
  {
    assert !IsTokenStart(t, p + 1, sigil, word);
    if p == 0 {
      assert !IsTokenStart(t, 0, sigil, word);
      SkipNonStarts(t, 0, 2, sigil, word);
    } else {
      SkipNonStarts(t, p + 1, p + 2, sigil, word);
    }
  }

  /** One step of the count when a match is found at `p`, given the count after it. */
  lemma {:induction false} FoundStep(t: string, p: nat, sigil: char, word: char -> bool)
    requires Separated(sigil, word)
    requires p < |t| && MatchAt(t, p, sigil, word).Some?
    requires var e := MatchAt(t, p, sigil, word).value;
      |MatchAll(t, e, sigil, word)| == CountTokenStarts(t, e + 1, sigil, word)
    ensures |MatchAll(t, p, sigil, word)| == CountTokenStarts(t, if p == 0 then 0 else p + 1, sigil, word)
  {
    var e := MatchAt(t, p, sigil, word).value;
    assert |MatchAll(t, p, sigil, word)| == 1 + |MatchAll(t, e, sigil, word)|;
    if p == 0 && t[0] == sigil && word(t[1]) {
      AnchoredMatchCount(t, sigil, word);
    } else {
      SpacedMatchCount(t, p, sigil, word);
    }
  }

  /** One step of the count when no match is found at `p`, given the count after it. */
  lemma {:induction false} MissedStep(t: string, p: nat, sigil: char, word: char -> bool)
    requires p < |t| && MatchAt(t, p, sigil, word).None?
    requires |MatchAll(t, p + 1, sigil, word)| == CountTokenStarts(t, p + 2, sigil, word)
    ensures |MatchAll(t, p, sigil, word)| == CountTokenStarts(t, if p == 0 then 0 else p + 1, sigil, word)
  {
    assert MatchAll(t, p, sigil, word) == MatchAll(t, p + 1, sigil, word);
    MissCount(t, p, sigil, word);
  }

  /**
    The global match finds exactly one match per token start: searching from
    0 counts every token start, searching from a later `p` (the end of the
    previous match) counts those after `p`, since a token at `p` would need
    whitespace inside the previous match.
  */
  lemma {:induction false} MatchAllCountsTokenStarts(t: string, p: nat, sigil: char, word: char -> bool)
    requires p <= |t|
    requires Separated(sigil, word)
    ensures |MatchAll(t, p, sigil, word)| == CountTokenStarts(t, if p == 0 then 0 else p + 1, sigil, word)
    decreases |t| - p
  {
    if p < |t| {
      var r := MatchAt(t, p, sigil, word);
      if r.Some? {
        MatchAllCountsTokenStarts(t, r.value, sigil, word);
        FoundStep(t, p, sigil, word);
      } else {
        MatchAllCountsTokenStarts(t, p + 1, sigil, word);
        MissedStep(t, p, sigil, word);
      }
    }
  }

  lemma {:induction false} HashtagClassSeparated()
    ensures Separated('#', IsHashtagChar)
  {
  }

  lemma {:induction false} MentionClassSeparated()
    ensures Separated('@', IsMentionChar)
  {
  }

  /** `countHashtags`: the number of matches of `(^|\s)#[\p{L}\p{N}_]+`. */
  function CountHashtags(text: string): (n: nat)
    ensures n == CountTokenStarts(text, 0, '#', IsHashtagChar)
  {
    HashtagClassSeparated();
    MatchAllCountsTokenStarts(text, 0, '#', IsHashtagChar);
    |MatchAll(text, 0, '#', IsHashtagChar)|
  }

  /** `countMentions`: the number of matches of `(^|\s)@[\p{L}\p{N}_.-]+`. */
  function CountMentions(text: string): (n: nat)
    ensures n == CountTokenStarts(text, 0, '@', IsMentionChar)
  {
    MentionClassSeparated();
    MatchAllCountsTokenStarts(text, 0, '@', IsMentionChar);
    |MatchAll(text, 0, '@', IsMentionChar)|
  }

  /**
    Worked examples of hashtags: tokens separated by whitespace each count; a
    token glued to the previous one does not (`#a#b` is one hashtag); a sigil
    followed by whitespace is no token.
  */
  lemma {:induction false} HashtagExamples()
    ensures CountHashtags("#a #b") == 2
    ensures CountHashtags("#a#b") == 1
    ensures CountHashtags("# a") == 0
  {
    assert IsTokenStart("#a #b", 3, '#', IsHashtagChar);
  }

  /** Worked examples of mentions: an address inside a word is no mention; `.` and `-` belong to one. */
  lemma {:induction false} MentionExamples()
    ensures CountMentions("mail me@x.io") == 0
    ensures CountMentions("hi @ann.b-c") == 1
  {
    assert IsTokenStart("hi @ann.b-c", 3, '@', IsMentionChar);
  }
}
