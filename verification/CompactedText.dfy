/** What compaction does to a text, told by the positions of its tool headers. */
module CompactedText {
  import opened BodyCompaction
  import opened Text

  /** The first message of the tool: its marker, the end of its header line, and the end of its body. */
  ghost predicate FirstMessage(s: string, tool: string, next: string, start: nat, line: nat, end: nat) {
    && start < line < end <= |s|
    && OccursAt(s, tool, start) && (forall i | 0 <= i < start :: !OccursAt(s, tool, i))
    && s[line] == '\n' && '\n' !in s[start..line]
    && (end == |s| || OccursAt(s, next, end)) && (forall i | line < i < end :: !OccursAt(s, next, i))
  }

  lemma OccursBehind(s: string, from: nat, pattern: string, i: nat)
    requires from <= |s|
    ensures OccursAt(s[from..], pattern, i) <==> OccursAt(s, pattern, from + i)
  {
    if from + i + |pattern| <= |s| {
      assert s[from..][i..i + |pattern|] == s[from + i..from + i + |pattern|];
    }
  }

  /** The position of a pattern in what lies behind a position. */
  lemma IndexBehind(s: string, from: nat, pattern: string, at: nat)
    requires from <= at <= |s| && pattern != "" && (at == |s| || OccursAt(s, pattern, at))
    requires forall i | from <= i < at :: !OccursAt(s, pattern, i)
    ensures IndexOf(s[from..], pattern) == if at == |s| then -1 else at - from
  {
    var rest := s[from..];
    IndexFirst(rest, pattern);
    var r := IndexOf(rest, pattern);
    if r >= 0 {
      OccursBehind(s, from, pattern, r);
    }
    if at < |s| {
      OccursBehind(s, from, pattern, at - from);
    }
  }

  /** The same positions, counted from the marker and from the end of the header line. */
  lemma SlicesOf(s: string, start: nat, line: nat, end: nat)
    requires start < line < end <= |s|
    ensures var message := s[start..];
            var after := message[line - start + 1..];
            && message[..line - start + 1] == s[start..line + 1] && message[..line - start] == s[start..line]
            && after == s[line + 1..]
            && after[..end - line - 1] == s[line + 1..end] && after[end - line - 1..] == s[end..]
  {
  }

  lemma FirstPositions(s: string, m: Marks, start: nat, line: nat, end: nat)
    requires m.newline == '\n' && m.tool != "" && m.next != "" && FirstMessage(s, m.tool, m.next, start, line, end)
    ensures IndexOf(s, m.tool) == start && IndexOf(s[start..], [m.newline]) == line - start
    ensures IndexOf(s[line + 1..], m.next) == if end == |s| then -1 else end - (line + 1)
  {
    SlicesOf(s, start, line, end);
    hide IndexOf, OccursAt;
    IndexIs(s, m.tool, start);
    FirstChar(s[start..], '\n', line - start);
    IndexBehind(s, line + 1, m.next, end);
  }

  /** The pieces of the first message. */
  lemma FirstPieces(s: string, m: Marks, start: nat, line: nat, end: nat)
    requires m.newline == '\n' && m.tool != "" && m.next != "" && FirstMessage(s, m.tool, m.next, start, line, end)
    ensures CutFirst(s, m)
            == ([Outside(s[..start]), Header(s[start..line + 1]), Body(s[line + 1..end])], s[end..])
  {
    FirstPositions(s, m, start, line, end);
    SlicesOf(s, start, line, end);
    hide IndexOf, OccursAt, FirstMessage;
    assert end == |s| ==> s[line + 1..end] == s[line + 1..] && s[end..] == "";
  }

  /**
   * The text up to the end of the first tool header stays, the body behind it is cut if it is over the limit, and
   * compaction goes on behind the body. A tool header is a line from `[tool]` on; its body ends where the next message
   * starts with a blank line and a bracket.
   */
  lemma FirstMessageTold(s: string, limit: nat, start: nat, line: nat, end: nat)
    requires limit > 0 && FirstMessage(s, "[tool]", "\n\n[", start, line, end)
    ensures var body := s[line + 1..end];
            Compact(s, limit)
            == s[..line + 1] + (if |body| > limit then TruncateRunes(body, limit) else body) + Compact(s[end..], limit)
  {
    FirstPieces(s, MARKS, start, line, end);
    hide *;
    CompactedMessage(s, start, line, end, limit);
  }

  lemma CompactedMessage(s: string, start: nat, line: nat, end: nat, limit: nat)
    requires limit > 0 && start < line < end <= |s|
    requires CutFirst(s, MARKS) == ([Outside(s[..start]), Header(s[start..line + 1]), Body(s[line + 1..end])], s[end..])
    ensures var body := s[line + 1..end];
            Compact(s, limit)
            == s[..line + 1] + (if |body| > limit then TruncateRunes(body, limit) else body) + Compact(s[end..], limit)
  {
    hide *;
    var a, b, c := s[..start], s[start..line + 1], s[line + 1..end];
    CompactStep(s, [Outside(a), Header(b), Body(c)], s[end..], limit);
    ShortenedMessage(a, b, c, limit);
    assert s[..line + 1] == a + b;
  }

  lemma ShortenedMessage(a: string, b: string, c: string, limit: nat)
    ensures Join(ShortenAll([Outside(a), Header(b), Body(c)], limit))
            == a + b + if |c| > limit then TruncateRunes(c, limit) else c
  {
    hide TruncateRunes, Join, ShortenAll;
    ShortenThree(Outside(a), Header(b), Body(c), limit);
    JoinThree(Outside(a), Header(b), Shorten(Body(c), limit));
  }

  lemma CompactStep(s: string, pieces: seq<Piece>, rest: string, limit: nat)
    requires limit > 0 && s != "" && CutFirst(s, MARKS) == (pieces, rest)
    ensures Compact(s, limit) == Join(ShortenAll(pieces, limit)) + Compact(rest, limit)
  {
    hide CutFirst, Join, ShortenAll;
    if rest != "" {
      AppendPieces(pieces, Cut(rest, MARKS), limit);
    }
  }

  lemma NoPieces(s: string, m: Marks) returns (pieces: seq<Piece>)
    requires m.newline == '\n' && (IndexOf(s, m.tool) < 0 || '\n' !in s[IndexOf(s, m.tool)..])
    ensures CutFirst(s, m) == (pieces, "")
    ensures pieces == [Outside(s)] || (|pieces| == 2 && pieces[0].Outside? && pieces[1].Outside?)
  {
    var start := IndexOf(s, m.tool);
    if start >= 0 {
      CharIndex(s[start..], '\n');
    }
    hide IndexOf;
    pieces := CutFirst(s, m).0;
  }

  lemma OutsideStays(pieces: seq<Piece>, limit: nat)
    requires (|pieces| == 1 && pieces[0].Outside?) || (|pieces| == 2 && pieces[0].Outside? && pieces[1].Outside?)
    ensures ShortenAll(pieces, limit) == pieces
  {
  }

  /** A text without such a header stays as it is: without the marker, or with no line end behind the first one. */
  lemma NoMessageTold(s: string, limit: nat)
    requires var start := IndexOf(s, "[tool]"); start < 0 || '\n' !in s[start..]
    ensures Compact(s, limit) == s
  {
    var pieces := NoPieces(s, MARKS);
    hide IndexOf, CutFirst, Join, ShortenAll, Cut;
    if limit > 0 && s != "" {
      CutFirstLossless(s, MARKS);
      assert Join(pieces) + "" == Join(pieces);
      CompactStep(s, pieces, "", limit);
      OutsideStays(pieces, limit);
      assert Join(pieces) + Compact("", limit) == Join(pieces);
    }
  }
}
