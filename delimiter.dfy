/**
 * The reply protocol of chapter generation: the model writes the chapter,
 * then `[AI_SUMMARY]`, then a synopsis of what it wrote. The window stops
 * showing the stream once the delimiter arrives, and the finished reply is
 * cut with Python's `str.split`, so the synopsis is the piece between the
 * first and the second delimiter.
 */
module Delimiter {
  import opened Text

  const SUMMARY_DELIMITER: string := "[AI_SUMMARY]"

  /** A finished reply: the chapter's prose and the synopsis the model appended. */
  datatype Reply = Reply(content: string, summary: string)

  /** The reply as committed: `parts[0].strip()` and, when present, `parts[1].strip()`. */
  function SplitReply(buffer: string): Reply {
    var parts := Split(buffer, SUMMARY_DELIMITER);
    Reply(Strip(parts[0]), if |parts| > 1 then Strip(parts[1]) else "")
  }

  /** A reply without the delimiter is all prose, with no synopsis. */
  lemma SplitReplyWithoutDelimiter(buffer: string)
    requires !Contains(buffer, SUMMARY_DELIMITER)
    ensures SplitReply(buffer) == Reply(Strip(buffer), "")
  {
  }

  /** The committed prose never holds the delimiter. */
  lemma ContentHasNoDelimiter(buffer: string)
    ensures !Contains(SplitReply(buffer).content, SUMMARY_DELIMITER)
  {
    StrippedHeadHasNoSeparator(buffer, SUMMARY_DELIMITER);
  }

  lemma StrippedHeadHasNoSeparator(s: string, sep: string)
    requires |sep| > 0
    ensures !Contains(Strip(Split(s, sep)[0]), sep)
  {
    var head := Split(s, sep)[0];
    SplitHeadHasNoSeparator(s, sep);
    var i := StripIsSlice(head);
    SliceHasNoOccurrence(head, sep, i, i + |Strip(head)|);
  }

  /** `[` occurs in the delimiter only as its first character, so no occurrence can overlap it. */
  lemma FirstDelimiterAt(p: string, q: string)
    requires !Contains(p, SUMMARY_DELIMITER)
    ensures Find(p + SUMMARY_DELIMITER + q, SUMMARY_DELIMITER) == Some(|p|)
  {
    var d := SUMMARY_DELIMITER;
    var s := p + d + q;
    assert OccursAt(s, d, |p|) by {
      assert s[|p|..|p| + |d|] == d;
    }
    NotContainsNowhere(p, d);
    forall k: nat | k < |p| ensures !OccursAt(s, d, k) {
      if k + |d| <= |p| {
        assert !OccursAt(p, d, k);
        assert s[k..k + |d|] == p[k..k + |d|];
      } else {
        var m := |p| - k;
        assert s[k + m] == '[' && d[m] != '[';
        if k + |d| <= |s| {
          assert s[k..k + |d|][m] != d[m];
        }
      }
    }
    OccursAtContains(s, d, |p|);
    var r := Find(s, d);
    assert r.Some? && r.value <= |p|;
  }

  /**
   * The prose is the text before the first delimiter; the synopsis stops at
   * the second delimiter, if any.
   */
  lemma SplitReplyAtFirstDelimiter(p: string, q: string)
    requires !Contains(p, SUMMARY_DELIMITER)
    ensures SplitReply(p + SUMMARY_DELIMITER + q) == Reply(Strip(p), Strip(Split(q, SUMMARY_DELIMITER)[0]))
  {
    var d := SUMMARY_DELIMITER;
    var s := p + d + q;
    FirstDelimiterAt(p, q);
    assert s[..|p|] == p;
    assert s[|p| + |d|..] == q;
    assert Split(s, d) == [p] + Split(q, d);
  }

  /** Text after a second delimiter is lost from the synopsis. */
  lemma SecondDelimiterEndsSummary(p: string, m: string, t: string)
    requires !Contains(p, SUMMARY_DELIMITER) && !Contains(m, SUMMARY_DELIMITER)
    ensures SplitReply(p + SUMMARY_DELIMITER + m + SUMMARY_DELIMITER + t) == Reply(Strip(p), Strip(m))
  {
    var d := SUMMARY_DELIMITER;
    assert p + d + m + d + t == p + d + (m + d + t);
    SplitReplyAtFirstDelimiter(p, m + d + t);
    FirstDelimiterAt(m, t);
    assert (m + d + t)[..|m|] == m;
  }

  /**
   * The live view of a stream (main_window.py `append_content`): the buffer
   * of everything received, whether the delimiter has been seen, and the
   * text shown in the chapter's editor.
   */
  datatype Live = Live(buffer: string, hit: bool, view: string)

  /**
   * One streamed piece: it always joins the buffer. Before the delimiter
   * is in the buffer the piece is shown (when the chapter is on screen);
   * the first time it is, the view is replaced by the prose before it and
   * the flag is set; after that nothing more is shown.
   */
  function Feed(s: Live, text: string, visible: bool): (r: Live)
    ensures r.buffer == s.buffer + text
    ensures r.hit == (s.hit || Contains(r.buffer, SUMMARY_DELIMITER))
  {
    var buffer := s.buffer + text;
    if Contains(buffer, SUMMARY_DELIMITER) then
      if s.hit then s.(buffer := buffer)
      else Live(buffer, true, if visible then SplitReply(buffer).content else s.view)
    else Live(buffer, s.hit, if visible then s.view + text else s.view)
  }

  /** Every piece of a stream, in order. */
  function FeedAll(s: Live, pieces: seq<string>, visible: bool): Live
    decreases |pieces|
  {
    if |pieces| == 0 then s
    else Feed(FeedAll(s, pieces[..|pieces| - 1], visible), pieces[|pieces| - 1], visible)
  }

  /**
   * What an editor that shows the stream from its start holds: the whole
   * buffer until the delimiter arrives, and never the delimiter itself.
   */
  predicate ShowsStream(s: Live) {
    (s.hit <==> Contains(s.buffer, SUMMARY_DELIMITER)) &&
    (!s.hit ==> s.view == s.buffer) &&
    !Contains(s.view, SUMMARY_DELIMITER)
  }

  lemma ContainsExtends(s: string, t: string, pat: string)
    requires Contains(s, pat)
    ensures Contains(s + t, pat)
  {
    var k := Find(s, pat).value;
    assert (s + t)[k..k + |pat|] == s[k..k + |pat|];
    OccursAtContains(s + t, pat, k);
  }

  lemma FeedShowsStream(s: Live, text: string)
    requires ShowsStream(s)
    ensures ShowsStream(Feed(s, text, true))
  {
    var buffer := s.buffer + text;
    if s.hit {
      ContainsExtends(s.buffer, text, SUMMARY_DELIMITER);
    } else if Contains(buffer, SUMMARY_DELIMITER) {
      ContentHasNoDelimiter(buffer);
    }
  }

  /** Streaming into an editor on screen keeps it showing the stream, piece after piece. */
  lemma {:induction false} FeedAllShowsStream(s: Live, pieces: seq<string>)
    requires ShowsStream(s)
    ensures ShowsStream(FeedAll(s, pieces, true))
    decreases |pieces|
  {
    if |pieces| > 0 {
      FeedAllShowsStream(s, pieces[..|pieces| - 1]);
      FeedShowsStream(FeedAll(s, pieces[..|pieces| - 1], true), pieces[|pieces| - 1]);
    }
  }

  /** The buffer of a stream is the concatenation of its pieces. */
  lemma {:induction false} FeedAllBuffer(s: Live, pieces: seq<string>, visible: bool)
    ensures FeedAll(s, pieces, visible).buffer == s.buffer + Concat(pieces)
    decreases |pieces|
  {
    if |pieces| > 0 {
      var init := pieces[..|pieces| - 1];
      FeedAllBuffer(s, init, visible);
      ConcatSnoc(init, pieces[|pieces| - 1]);
      assert init + [pieces[|pieces| - 1]] == pieces;
    }
  }
}
