/**
 * Shortening of tool output inside a formatted trace: the text is cut at the tool headers, and the body of each
 * tool message that is longer than the limit is replaced by its head, a notice and its tail.
 */
module BodyCompaction {
  import opened Text

  /** The patterns the text is cut at: a tool header, the end of its line, and the next message. */
  datatype Marks = Marks(tool: string, newline: char, next: string)

  const MARKS := Marks("[tool]", '\n', "\n\n[")
  const NOTICE := "\n...[工具输出已截断 / tool output truncated]...\n"

  datatype Piece = Outside(text: string) | Header(text: string) | Body(text: string)

  // ---------------------------------------------------------------- specification

  /** The pieces up to the end of the first tool message, and what follows that message. */
  function CutFirst(s: string, m: Marks): (r: (seq<Piece>, string))
    ensures |r.1| < |s| || r.1 == ""
  {
    var start := IndexOf(s, m.tool);
    if start < 0 then ([Outside(s)], "")
    else
      var message := s[start..];
      var newline := IndexOf(message, [m.newline]);
      if newline < 0 then ([Outside(s[..start]), Outside(message)], "")
      else
        var header, after := message[..newline + 1], message[newline + 1..];
        var end := IndexOf(after, m.next);
        if end < 0 then ([Outside(s[..start]), Header(header), Body(after)], "")
        else ([Outside(s[..start]), Header(header), Body(after[..end])], after[end..])
  }

  function Cut(s: string, m: Marks): seq<Piece>
    decreases |s|
  {
    var (pieces, rest) := CutFirst(s, m);
    if rest == "" then pieces else pieces + Cut(rest, m)
  }

  function Join(pieces: seq<Piece>): string {
    if pieces == [] then "" else pieces[0].text + Join(pieces[1..])
  }

  /** Runes of the body to keep beside the notice. */
  function KeptRunes(maxRunes: nat, notice: nat): nat {
    var keep := maxRunes - notice;
    if keep < 200 then maxRunes * 2 / 3 else keep
  }

  function TruncateWith(s: string, maxRunes: nat, notice: string): string {
    if |s| <= maxRunes then s
    else
      var keep := KeptRunes(maxRunes, |notice|);
      if keep < 1 then notice
      else
        var head := keep * 70 / 100;
        s[..head] + notice + s[|s| - (keep - head)..]
  }

  function TruncateRunes(s: string, maxRunes: nat): string {
    TruncateWith(s, maxRunes, NOTICE)
  }

  function Shorten(piece: Piece, limit: nat): Piece {
    if piece.Body? && |piece.text| > limit then Body(TruncateRunes(piece.text, limit)) else piece
  }

  function ShortenAll(pieces: seq<Piece>, limit: nat): (r: seq<Piece>)
    ensures |r| == |pieces|
    ensures forall k | 0 <= k < |pieces| :: r[k] == Shorten(pieces[k], limit)
  {
    if pieces == [] then [] else [Shorten(pieces[0], limit)] + ShortenAll(pieces[1..], limit)
  }

  function Compact(s: string, limit: nat): string {
    if limit == 0 || s == "" then s else Join(ShortenAll(Cut(s, MARKS), limit))
  }

  // ---------------------------------------------------------------- the operation

  method CompactFormattedToolBodies(s: string, maxRunesPerBody: nat) returns (r: string)
    ensures r == Compact(s, maxRunesPerBody)
  {
    if maxRunesPerBody == 0 || s == "" {
      return s;
    }
    var m := MARKS;
    var out, remaining, changed, stop := "", s, false, false;
    ghost var done: seq<Piece> := [];
    while !stop
      invariant out == Join(ShortenAll(done, maxRunesPerBody))
      invariant !stop ==> done + Cut(remaining, m) == Cut(s, m)
      invariant stop ==> done == Cut(s, m)
      invariant !changed ==> out == Join(done)
      decreases !stop, |remaining|
    {
      ghost var pieces := CutFirst(remaining, m).0;
      AppendPieces(done, pieces, maxRunesPerBody);
      CutStep(done, remaining, m);
      var text, rest, cut := CompactFirst(remaining, maxRunesPerBody, m);
      done := done + pieces;
      out := out + text;
      changed := changed || cut;
      remaining := rest;
      stop := rest == "";
    }
    if !changed {
      CutLossless(s, m);
      return s;
    }
    r := out;
  }

  /** The loop body: everything up to the end of the first tool message, shortened. */
  method CompactFirst(remaining: string, maxRunesPerBody: nat, m: Marks)
    returns (text: string, rest: string, changed: bool)
    ensures text == Join(ShortenAll(CutFirst(remaining, m).0, maxRunesPerBody)) && rest == CutFirst(remaining, m).1
    ensures !changed ==> text == Join(CutFirst(remaining, m).0)
  {
    changed := false;
    var start := IndexOf(remaining, m.tool);
    if start < 0 {
      JoinOne(Outside(remaining));
      ShortenOne(Outside(remaining), maxRunesPerBody);
      return remaining, "", false;
    }
    var message := remaining[start..];
    var newline := IndexOf(message, [m.newline]);
    if newline < 0 {
      JoinTwo(Outside(remaining[..start]), Outside(message));
      ShortenTwo(Outside(remaining[..start]), Outside(message), maxRunesPerBody);
      return remaining[..start] + message, "", false;
    }
    var header, after := message[..newline + 1], message[newline + 1..];
    var end := IndexOf(after, m.next);
    var body := if end < 0 then after else after[..end];
    rest := if end < 0 then "" else after[end..];
    var outside := Outside(remaining[..start]);
    ShortenThree(outside, Header(header), Body(body), maxRunesPerBody);
    JoinThree(outside, Header(header), Shorten(Body(body), maxRunesPerBody));
    JoinThree(outside, Header(header), Body(body));
    if |body| > maxRunesPerBody {
      body := TruncateRunes(body, maxRunesPerBody);
      changed := true;
    }
    text := remaining[..start] + header + body;
  }

  lemma CutStep(done: seq<Piece>, remaining: string, m: Marks)
    ensures var (pieces, rest) := CutFirst(remaining, m);
            if rest == "" then done + Cut(remaining, m) == done + pieces
            else done + Cut(remaining, m) == done + pieces + Cut(rest, m)
  {
  }

  lemma {:induction false} ShortenConcat(a: seq<Piece>, b: seq<Piece>, limit: nat)
    ensures ShortenAll(a + b, limit) == ShortenAll(a, limit) + ShortenAll(b, limit)
  {
    hide Shorten;
    var both, apart := ShortenAll(a + b, limit), ShortenAll(a, limit) + ShortenAll(b, limit);
    forall k | 0 <= k < |a| + |b| ensures both[k] == apart[k] {
    }
    assert both == apart;
  }

  lemma AppendPieces(a: seq<Piece>, b: seq<Piece>, limit: nat)
    ensures Join(ShortenAll(a + b, limit)) == Join(ShortenAll(a, limit)) + Join(ShortenAll(b, limit))
    ensures Join(a + b) == Join(a) + Join(b)
  {
    ShortenConcat(a, b, limit);
    JoinConcat(ShortenAll(a, limit), ShortenAll(b, limit));
    JoinConcat(a, b);
  }

  lemma ShortenOne(a: Piece, limit: nat)
    ensures ShortenAll([a], limit) == [Shorten(a, limit)]
  {
  }

  lemma ShortenTwo(a: Piece, b: Piece, limit: nat)
    ensures ShortenAll([a, b], limit) == [Shorten(a, limit), Shorten(b, limit)]
  {
  }

  lemma ShortenThree(a: Piece, b: Piece, c: Piece, limit: nat)
    ensures ShortenAll([a, b, c], limit) == [Shorten(a, limit), Shorten(b, limit), Shorten(c, limit)]
  {
  }

  // ---------------------------------------------------------------- main results

  lemma {:induction false} JoinConcat(a: seq<Piece>, b: seq<Piece>)
    ensures Join(a + b) == Join(a) + Join(b)
  {
    if a == [] {
      assert a + b == b;
    } else {
      JoinConcat(a[1..], b);
      assert (a + b)[1..] == a[1..] + b;
      Associate(a[0].text, Join(a[1..]), Join(b));
    }
  }

  lemma JoinOne(piece: Piece)
    ensures Join([piece]) == piece.text
  {
    assert [piece][1..] == [] && piece.text + "" == piece.text;
  }

  lemma JoinTwo(a: Piece, b: Piece)
    ensures Join([a, b]) == a.text + b.text
  {
    JoinConcat([a], [b]);
    JoinOne(a);
    JoinOne(b);
    assert [a] + [b] == [a, b];
  }

  lemma JoinThree(a: Piece, b: Piece, c: Piece)
    ensures Join([a, b, c]) == a.text + b.text + c.text
  {
    JoinConcat([a, b], [c]);
    JoinTwo(a, b);
    JoinOne(c);
    assert [a, b] + [c] == [a, b, c];
  }

  lemma SplitTwo(s: string, i: nat)
    requires i <= |s|
    ensures s == s[..i] + s[i..]
  {
  }

  lemma SplitFour(s: string, i: nat, j: nat, k: nat)
    requires i <= |s| && j <= |s[i..]| && k <= |s[i..][j..]|
    ensures s == s[..i] + s[i..][..j] + s[i..][j..][..k] + s[i..][j..][k..]
  {
    var b, c := s[i..], s[i..][j..];
    SplitTwo(s, i);
    SplitTwo(b, j);
    SplitTwo(c, k);
    Associate(s[..i], b[..j], c);
    Associate(s[..i] + b[..j], c[..k], c[k..]);
  }

  lemma CutFirstLossless(s: string, m: Marks)
    ensures Join(CutFirst(s, m).0) + CutFirst(s, m).1 == s
  {
    var start := IndexOf(s, m.tool);
    if start < 0 {
      JoinOne(Outside(s));
    } else {
      var message := s[start..];
      var newline := IndexOf(message, [m.newline]);
      if newline < 0 {
        JoinTwo(Outside(s[..start]), Outside(message));
        SplitTwo(s, start);
      } else {
        var header, after := message[..newline + 1], message[newline + 1..];
        var end := IndexOf(after, m.next);
        if end < 0 {
          JoinThree(Outside(s[..start]), Header(header), Body(after));
          SplitFour(s, start, newline + 1, |after|);
          assert after[..|after|] == after;
        } else {
          JoinThree(Outside(s[..start]), Header(header), Body(after[..end]));
          SplitFour(s, start, newline + 1, end);
        }
      }
    }
  }

  /** Cutting loses no character. */
  lemma {:induction false} CutLossless(s: string, m: Marks)
    ensures Join(Cut(s, m)) == s
    decreases |s|
  {
    var (pieces, rest) := CutFirst(s, m);
    CutFirstLossless(s, m);
    if rest != "" {
      CutLossless(rest, m);
      JoinConcat(pieces, Cut(rest, m));
    }
  }

  ghost predicate Lacks(s: string, pattern: string) {
    forall i :: !OccursAt(s, pattern, i)
  }

  /** Outside text, a header line that starts with the tool marker, and a body up to the next message; and so on. */
  ghost predicate WellCut(pieces: seq<Piece>, m: Marks) {
    || (|pieces| == 1 && pieces[0].Outside? && Lacks(pieces[0].text, m.tool))
    || (|pieces| == 2 && pieces[0].Outside? && Lacks(pieces[0].text, m.tool)
        && pieces[1].Outside? && OccursAt(pieces[1].text, m.tool, 0) && Lacks(pieces[1].text, [m.newline]))
    || (|pieces| >= 3 && pieces[0].Outside? && Lacks(pieces[0].text, m.tool)
        && pieces[1].Header? && HeaderLine(pieces[1].text, m)
        && pieces[2].Body? && Lacks(pieces[2].text, m.next)
        && (|pieces| > 3 ==> OccursAt(Join(pieces[3..]), m.next, 0) && WellCut(pieces[3..], m)))
  }

  ghost predicate HeaderLine(text: string, m: Marks) {
    && OccursAt(text, m.tool, 0)
    && OccursAt(text, [m.newline], |text| - 1)
    && forall i | 0 <= i < |text| - 1 :: !OccursAt(text, [m.newline], i)
  }

  lemma PrefixOccurs(s: string, n: nat, pattern: string, i: nat)
    requires n <= |s| && i + |pattern| <= n
    ensures OccursAt(s[..n], pattern, i) <==> OccursAt(s, pattern, i)
  {
    assert s[..n][i..i + |pattern|] == s[i..i + |pattern|];
  }

  lemma SuffixOccurs(s: string, n: nat, pattern: string)
    requires n <= |s| && OccursAt(s, pattern, n)
    ensures OccursAt(s[n..], pattern, 0)
  {
    assert s[n..][..|pattern|] == s[n..n + |pattern|];
  }

  /** The text before a first occurrence has none. */
  lemma LacksBefore(s: string, pattern: string)
    requires pattern != ""
    ensures var i := IndexOf(s, pattern);
            Lacks(if i < 0 then s else s[..i], pattern)
  {
    IndexFirst(s, pattern);
    var n := IndexOf(s, pattern);
    if n >= 0 {
      forall i | 0 <= i && i + |pattern| <= n ensures !OccursAt(s[..n], pattern, i) {
        PrefixOccurs(s, n, pattern, i);
      }
    }
  }

  /** A header runs from the marker to the first line end. */
  lemma HeaderShape(message: string, m: Marks)
    requires m.newline !in m.tool
    requires OccursAt(message, m.tool, 0) && IndexOf(message, [m.newline]) >= 0
    ensures HeaderLine(message[..IndexOf(message, [m.newline]) + 1], m)
  {
    IndexFirst(message, [m.newline]);
    var n := IndexOf(message, [m.newline]);
    assert message[n] == m.newline by {
      assert message[n..n + 1][0] == m.newline;
    }
    assert forall i | 0 <= i < |m.tool| :: message[i] == message[0..0 + |m.tool|][i] == m.tool[i];
    assert n >= |m.tool|;
    PrefixOccurs(message, n + 1, m.tool, 0);
    var header := message[..n + 1];
    forall i | 0 <= i < n ensures !OccursAt(header, [m.newline], i) {
      assert !OccursAt(message, [m.newline], i);
      PrefixOccurs(message, n + 1, [m.newline], i);
    }
    PrefixOccurs(message, n + 1, [m.newline], n);
    assert |header| - 1 == n && OccursAt(header, [m.newline], n);
    assert OccursAt(header, m.tool, 0);
  }

  /** The pieces of the first message, alone. */
  lemma FirstWellShaped(s: string, m: Marks)
    requires m.newline !in m.tool && m.tool != "" && m.next != ""
    ensures var (pieces, rest) := CutFirst(s, m);
            WellCut(pieces, m) && (rest != "" ==> |pieces| == 3 && OccursAt(rest, m.next, 0))
  {
    hide IndexOf;
    var (pieces, rest) := CutFirst(s, m);
    var start := IndexOf(s, m.tool);
    LacksBefore(s, m.tool);
    IndexFirst(s, m.tool);
    if start >= 0 {
      var message := s[start..];
      SuffixOccurs(s, start, m.tool);
      var newline := IndexOf(message, [m.newline]);
      if newline < 0 {
        LacksBefore(message, [m.newline]);
      } else {
        HeaderShape(message, m);
        var after := message[newline + 1..];
        LacksBefore(after, m.next);
        IndexFirst(after, m.next);
        if rest != "" {
          SuffixOccurs(after, IndexOf(after, m.next), m.next);
        }
      }
    }
  }

  /** The pieces of a cut alternate as intended: each marker outside a tool message opens one. */
  lemma {:induction false} CutWellShaped(s: string, m: Marks)
    requires m.newline !in m.tool && m.tool != "" && m.next != ""
    ensures WellCut(Cut(s, m), m)
    decreases |s|
  {
    var (pieces, rest) := CutFirst(s, m);
    FirstWellShaped(s, m);
    hide CutFirst, HeaderLine, OccursAt, Lacks;
    if rest != "" {
      CutWellShaped(rest, m);
      CutLossless(rest, m);
      assert (pieces + Cut(rest, m))[3..] == Cut(rest, m);
    }
  }

  /** A limit that leaves room for the notice. */
  predicate RoomFor(notice: nat, limit: nat) {
    limit - notice >= 200 || limit - limit * 2 / 3 >= notice
  }

  lemma NoticeLength()
    ensures |NOTICE| == 41
  {
  }

  /** `r` is a head of `s`, the notice and a tail of `s`. */
  ghost predicate EndsAround(s: string, notice: string, r: string, head: nat, tail: nat) {
    head + tail <= |s| && r == s[..head] + notice + s[|s| - tail..]
  }

  /**
   * An over-long body keeps its head and tail around the notice: seven tenths and three tenths of what the limit
   * leaves beside the notice, or of two thirds of the limit if that is less than 200 runes. It meets its limit
   * exactly when the limit leaves room for the notice, and fills it when 200 runes are left for the body.
   */
  lemma TruncatedBody(s: string, limit: nat, notice: string) returns (head: nat, tail: nat)
    requires |s| > limit
    ensures EndsAround(s, notice, TruncateWith(s, limit, notice), head, tail)
    ensures head + tail == if limit >= |notice| + 200 then limit - |notice| else limit * 2 / 3
    ensures head == (head + tail) * 70 / 100
    ensures |TruncateWith(s, limit, notice)| <= limit <==> RoomFor(|notice|, limit)
    ensures limit >= |notice| + 200 ==> |TruncateWith(s, limit, notice)| == limit
  {
    var keep := KeptRunes(limit, |notice|);
    head := if keep < 1 then 0 else keep * 70 / 100;
    tail := if keep < 1 then 0 else keep - head;
    if keep < 1 {
      assert s[..0] + notice + s[|s|..] == notice;
    }
  }

  predicate AllBodiesWithin(pieces: seq<Piece>, limit: nat) {
    forall k | 0 <= k < |pieces| && pieces[k].Body? :: |pieces[k].text| <= limit
  }

  lemma {:induction false} ShortenedLength(pieces: seq<Piece>, limit: nat)
    requires RoomFor(|NOTICE|, limit)
    ensures |Join(ShortenAll(pieces, limit))| <= |Join(pieces)|
    ensures AllBodiesWithin(pieces, limit) ==> ShortenAll(pieces, limit) == pieces
    ensures !AllBodiesWithin(pieces, limit) ==> |Join(ShortenAll(pieces, limit))| < |Join(pieces)|
  {
    if pieces != [] {
      ShortenedLength(pieces[1..], limit);
      if pieces[0].Body? && |pieces[0].text| > limit {
        var _, _ := TruncatedBody(pieces[0].text, limit, NOTICE);
      }
      assert ShortenAll(pieces, limit)[1..] == ShortenAll(pieces[1..], limit);
    }
  }

  /** Compaction never lengthens a text, and changes it exactly when some tool body is over the limit. */
  lemma CompactionShortens(s: string, limit: nat)
    requires limit > 0 && RoomFor(|NOTICE|, limit)
    ensures |Compact(s, limit)| <= |s|
    ensures Compact(s, limit) == s <==> s == "" || AllBodiesWithin(Cut(s, MARKS), limit)
  {
    ShortenedLength(Cut(s, MARKS), limit);
    CutLossless(s, MARKS);
  }

  lemma OccursHead(s: string, pattern: string, i: int)
    requires OccursAt(s, pattern, i) && pattern != ""
    ensures pattern[0] in s
  {
    assert s[i] == s[i..i + |pattern|][0];
  }

  /** A text without a bracket has no tool message to shorten. */
  lemma CompactionIdle(text: string, limit: nat)
    requires '[' !in text
    ensures Compact(text, limit) == text
  {
    IndexFirst(text, MARKS.tool);
    hide IndexOf;
    if IndexOf(text, MARKS.tool) >= 0 {
      OccursHead(text, MARKS.tool, IndexOf(text, MARKS.tool));
    }
    ShortenOne(Outside(text), limit);
    JoinOne(Outside(text));
  }

  /** Outside text and headers, in order. */
  function Frame(pieces: seq<Piece>): seq<Piece> {
    if pieces == [] then []
    else (if pieces[0].Body? then [] else [pieces[0]]) + Frame(pieces[1..])
  }

  /** Every header and all text outside tool messages survives compaction, in order. */
  lemma {:induction false} FrameSurvives(pieces: seq<Piece>, limit: nat)
    ensures Frame(ShortenAll(pieces, limit)) == Frame(pieces)
  {
    if pieces != [] {
      FrameSurvives(pieces[1..], limit);
      assert ShortenAll(pieces, limit)[1..] == ShortenAll(pieces[1..], limit);
    }
  }
}
