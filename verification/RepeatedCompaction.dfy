/**
 * Compacting twice: the payload is compacted under one limit after the other, and each time the compacted text is
 * cut again. The second cut finds the shortened pieces of the first one unless a kept tail reads like a new message.
 */
module RepeatedCompaction {
  import opened BodyCompaction
  import opened Text
  import opened TokenBudget

  /** The end of an over-long body that compaction keeps. */
  function KeptTail(body: string, limit: nat, notice: nat): string
    requires |body| > limit
  {
    var keep := KeptRunes(limit, notice);
    if keep < 1 then "" else body[|body| - (keep - keep * 70 / 100)..]
  }

  /** Behind the line end of the notice, this tail reads like the start of the next message. */
  predicate ReadsAsMessage(tail: string) {
    |tail| >= 2 && tail[0] == '\n' && tail[1] == '['
  }

  predicate Steady(body: string, limit: nat) {
    |body| > limit ==> !ReadsAsMessage(KeptTail(body, limit, |NOTICE|))
  }

  predicate AllSteady(pieces: seq<Piece>, limit: nat) {
    forall k | 0 <= k < |pieces| && pieces[k].Body? :: Steady(pieces[k].text, limit)
  }

  // ---------------------------------------------------------------- where the next message starts

  /** Two line ends and a bracket at position `i`. */
  predicate Opens(s: string, i: int) {
    0 <= i && i + 3 <= |s| && s[i] == '\n' && s[i + 1] == '\n' && s[i + 2] == '['
  }

  lemma NextOpens(s: string, i: int)
    ensures OccursAt(s, MARKS.next, i) <==> Opens(s, i)
  {
    if 0 <= i && i + 3 <= |s| {
      assert s[i..i + 3] == [s[i], s[i + 1], s[i + 2]];
    }
  }

  /** What the rest of a text looks like behind a body: nothing, or the next message. */
  predicate NextOrEnd(rest: string) {
    rest == "" || Opens(rest, 0)
  }

  /** No message starts inside a body. */
  ghost predicate OneBody(body: string, rest: string) {
    NextOrEnd(rest) && forall i | 0 <= i < |body| :: !Opens(body + rest, i)
  }

  function NextIndex(body: string, rest: string): int {
    if rest == "" then -1 else |body|
  }

  lemma OneBodyIff(body: string, rest: string)
    requires NextOrEnd(rest)
    ensures OneBody(body, rest) <==> IndexOf(body + rest, MARKS.next) == NextIndex(body, rest)
  {
    var text := body + rest;
    IndexFirst(text, MARKS.next);
    forall i ensures OccursAt(text, MARKS.next, i) <==> Opens(text, i) {
      NextOpens(text, i);
    }
    assert rest != "" ==> Opens(text, |body|);
    if OneBody(body, rest) && rest != "" {
      IndexIs(text, MARKS.next, |body|);
    }
  }

  /** What the proofs need to know of the notice: it starts and ends with a line end of its own and opens nothing. */
  ghost predicate GoodNotice(notice: string) {
    && |notice| >= 3 && notice[0] == '\n' && notice[1] != '['
    && notice[|notice| - 2] != '\n' && notice[|notice| - 1] == '\n'
    && forall i :: !Opens(notice, i)
  }

  lemma NoticeIsGood()
    ensures GoodNotice(NOTICE)
  {
    forall i ensures !Opens(NOTICE, i) {
      if 0 <= i && i + 3 <= |NOTICE| && NOTICE[i] == '\n' {
        assert i == 0;
      }
    }
  }

  /** Around the notice a message starts exactly where the tail reads like one. */
  lemma AroundNotice(head: string, notice: string, tail: string, rest: string)
    requires GoodNotice(notice) && NextOrEnd(rest)
    requires forall i :: !Opens(head, i)
    requires forall i | 0 <= i < |tail| :: !Opens(tail + rest, i)
    ensures OneBody(head + notice + tail, rest) <==> !ReadsAsMessage(tail)
  {
    var text := head + notice + tail + rest;
    var a, b := |head|, |head| + |notice|;
    assert forall k | 0 <= k < a :: text[k] == head[k];
    assert forall k | 0 <= k < |notice| :: text[a + k] == notice[k];
    assert forall k | 0 <= k < |tail + rest| :: text[b + k] == (tail + rest)[k];
    forall i | 0 <= i < b + |tail| && i != b - 1 ensures !Opens(text, i) {
      if i + 3 <= a {
        assert !Opens(head, i);
      } else if a <= i && i + 3 <= b {
        assert !Opens(notice, i - a);
      } else if b <= i {
        assert !Opens(tail + rest, i - b);
      }
    }
    assert Opens(text, b - 1) <==> ReadsAsMessage(tail);
  }

  /** Shortening a body keeps it one body exactly if it is steady. */
  lemma ShortenedBody(body: string, limit: nat, rest: string, rest': string)
    requires OneBody(body, rest) && NextOrEnd(rest') && (rest == "" <==> rest' == "")
    ensures OneBody(Shorten(Body(body), limit).text, rest') <==> Steady(body, limit)
  {
    assert forall i | 0 <= i < |body| :: Opens(body + rest, i) <==> Opens(body + rest', i);
    if |body| > limit {
      var keep := KeptRunes(limit, |NOTICE|);
      var tail := KeptTail(body, limit, |NOTICE|);
      var head := if keep < 1 then "" else body[..keep * 70 / 100];
      var from := |body| - |tail|;
      assert tail == body[from..];
      forall i ensures !Opens(head, i) {
        assert Opens(head, i) ==> Opens(body + rest, i);
      }
      forall i | 0 <= i < |tail| ensures !Opens(tail + rest', i) {
        assert Opens(tail + rest', i) ==> Opens(body + rest', from + i);
      }
      NoticeIsGood();
      AroundNotice(head, NOTICE, tail, rest');
      assert Shorten(Body(body), limit).text == head + NOTICE + tail;
    }
  }

  // ---------------------------------------------------------------- cutting the compacted text

  /** A tool header that ends the text it is found in. */
  ghost predicate HeaderFound(outside: string, header: string) {
    IndexOf(outside + header, MARKS.tool) == |outside| && IndexOf(header, [MARKS.newline]) == |header| - 1 >= 0
  }

  /** The cut at a header depends on what stands in front of it only. */
  lemma CutAtHeader(outside: string, header: string, after: string)
    requires HeaderFound(outside, header)
    ensures var end := IndexOf(after, MARKS.next);
            CutFirst(outside + header + after, MARKS)
            == if end < 0 then ([Outside(outside), Header(header), Body(after)], "")
               else ([Outside(outside), Header(header), Body(after[..end])], after[end..])
  {
    hide IndexOf;
    var s := outside + header + after;
    IndexInFront(outside + header, after, MARKS.tool);
    assert s[..|outside|] == outside && s[|outside|..] == header + after;
    IndexInFront(header, after, [MARKS.newline]);
    assert (header + after)[..|header|] == header && (header + after)[|header|..] == after;
  }

  /** The three texts of a tool message: what stands before it, its header, and what follows the header. */
  lemma FirstMessage(s: string) returns (outside: string, header: string, after: string)
    requires |CutFirst(s, MARKS).0| == 3
    ensures s == outside + header + after && HeaderFound(outside, header) && |header| >= 3
  {
    hide IndexOf;
    ThreePieces(s, MARKS);
    var start := IndexOf(s, MARKS.tool);
    var end := IndexOf(s[start..], [MARKS.newline]) + 1;
    hide CutFirst;
    MessageParts(s, MARKS);
    outside, header, after := s[..start], s[start..][..end], s[start..][end..];
  }

  lemma ThreePieces(s: string, m: Marks)
    requires |CutFirst(s, m).0| == 3
    ensures IndexOf(s, m.tool) >= 0 && IndexOf(s[IndexOf(s, m.tool)..], [m.newline]) >= 0
  {
    hide IndexOf;
  }

  lemma IndexInPrefix(s: string, n: nat, pattern: string)
    requires n <= |s| && 0 <= IndexOf(s, pattern) && IndexOf(s, pattern) + |pattern| <= n
    ensures IndexOf(s[..n], pattern) == IndexOf(s, pattern)
  {
    hide IndexOf;
    var start := IndexOf(s, pattern);
    IndexFirst(s, pattern);
    PrefixOccurs(s, n, pattern, start);
    forall i | 0 <= i < start ensures !OccursAt(s[..n], pattern, i) {
      if i + |pattern| <= n {
        PrefixOccurs(s, n, pattern, i);
      }
    }
    IndexIs(s[..n], pattern, start);
  }

  lemma MessageParts(s: string, m: Marks)
    requires m.newline !in m.tool && IndexOf(s, m.tool) >= 0
    requires IndexOf(s[IndexOf(s, m.tool)..], [m.newline]) >= 0
    ensures var start := IndexOf(s, m.tool);
            var end := IndexOf(s[start..], [m.newline]) + 1;
            var outside, header, after := s[..start], s[start..][..end], s[start..][end..];
            && s == outside + header + after && |header| > |m.tool|
            && IndexOf(outside + header, m.tool) == start && IndexOf(header, [m.newline]) == end - 1
  {
    hide IndexOf;
    var start := IndexOf(s, m.tool);
    var message := s[start..];
    var end := IndexOf(message, [m.newline]) + 1;
    IndexFirst(s, m.tool);
    SuffixOccurs(s, start, m.tool);
    HeaderShape(message, m);
    HeaderLength(message[..end], m);
    IndexInPrefix(message, end, [m.newline]);
    IndexInPrefix(s, start + end, m.tool);
    assert s[..start + end] == s[..start] + message[..end];
  }

  lemma HeaderLength(header: string, m: Marks)
    requires m.newline !in m.tool && HeaderLine(header, m)
    ensures |header| > |m.tool|
  {
    var n := |header| - 1;
    assert header[n..n + 1] == [m.newline];
    assert header[n] == m.newline;
    assert forall i | 0 <= i < |m.tool| :: header[i] == header[0..0 + |m.tool|][i] == m.tool[i];
  }

  /** What compaction writes for a text. */
  function Shortened(s: string, limit: nat): string {
    Join(ShortenAll(Cut(s, MARKS), limit))
  }

  lemma ShortenedEmpty(limit: nat)
    ensures Shortened("", limit) == ""
  {
    assert Cut("", MARKS) == [Outside("")];
    ShortenOne(Outside(""), limit);
    JoinOne(Outside(""));
  }

  /** A text without a complete tool message is left alone. */
  lemma NoMessage(s: string, limit: nat)
    requires |CutFirst(s, MARKS).0| < 3
    ensures Cut(s, MARKS) == ShortenAll(Cut(s, MARKS), limit) && Shortened(s, limit) == s
    ensures AllSteady(Cut(s, MARKS), limit)
  {
    hide IndexOf;
    var pieces := CutFirst(s, MARKS).0;
    CutLossless(s, MARKS);
    if |pieces| == 1 {
      ShortenOne(pieces[0], limit);
    } else {
      ShortenTwo(pieces[0], pieces[1], limit);
    }
  }

  /** The first message of a text, cut off. */
  ghost predicate StartsWith(s: string, outside: string, header: string, body: string, rest: string) {
    && HeaderFound(outside, header) && |header| >= 3 && OneBody(body, rest)
    && s == outside + header + (body + rest)
  }

  /** Such a text is cut into that message and the pieces of the rest. */
  lemma CutMessage(s: string, outside: string, header: string, body: string, rest: string)
    requires StartsWith(s, outside, header, body, rest)
    ensures CutFirst(s, MARKS) == ([Outside(outside), Header(header), Body(body)], rest)
    ensures Cut(s, MARKS)
            == [Outside(outside), Header(header), Body(body)] + if rest == "" then [] else Cut(rest, MARKS)
  {
    hide IndexOf;
    OneBodyIff(body, rest);
    CutAtHeader(outside, header, body + rest);
    assert (body + rest)[..|body|] == body && (body + rest)[|body|..] == rest;
    if rest == "" {
      assert body + rest == body;
    }
  }

  lemma SplitMessage(s: string) returns (outside: string, header: string, body: string, rest: string)
    requires |CutFirst(s, MARKS).0| == 3
    ensures StartsWith(s, outside, header, body, rest)
  {
    hide IndexOf;
    var after;
    outside, header, after := FirstMessage(s);
    var end := IndexOf(after, MARKS.next);
    body, rest := if end < 0 then after else after[..end], if end < 0 then "" else after[end..];
    assert after == body + rest;
    IndexFirst(after, MARKS.next);
    if end >= 0 {
      NextOpens(after, end);
    }
    OneBodyIff(body, rest);
  }

  lemma ShortenMessage(a: Piece, b: Piece, c: Piece, more: seq<Piece>, limit: nat)
    requires !a.Body? && !b.Body?
    ensures ShortenAll([a, b, c] + more, limit) == [a, b, Shorten(c, limit)] + ShortenAll(more, limit)
  {
    ShortenConcat([a, b, c], more, limit);
    ShortenThree(a, b, c, limit);
  }

  lemma JoinMessage(a: Piece, b: Piece, c: Piece, more: seq<Piece>)
    ensures Join([a, b, c] + more) == a.text + b.text + (c.text + Join(more))
  {
    JoinConcat([a, b, c], more);
    JoinThree(a, b, c);
  }

  /** Compaction of such a text, message by message. */
  lemma ShortenedMessage(s: string, outside: string, header: string, body: string, rest: string, limit: nat)
    requires StartsWith(s, outside, header, body, rest)
    ensures ShortenAll(Cut(s, MARKS), limit)
            == [Outside(outside), Header(header), Shorten(Body(body), limit)]
               + if rest == "" then [] else ShortenAll(Cut(rest, MARKS), limit)
    ensures Shortened(s, limit) == outside + header + (Shorten(Body(body), limit).text + Shortened(rest, limit))
  {
    var pieces := [Outside(outside), Header(header), Body(body)];
    var more := if rest == "" then [] else Cut(rest, MARKS);
    CutMessage(s, outside, header, body, rest);
    hide IndexOf, Cut, Shorten, ShortenAll, Join, StartsWith;
    ShortenMessage(pieces[0], pieces[1], pieces[2], more, limit);
    JoinMessage(pieces[0], pieces[1], Shorten(pieces[2], limit), ShortenAll(more, limit));
    ShortenedEmpty(limit);
  }

  /** What follows a message still does after compaction. */
  lemma ShortenedStart(s: string, limit: nat)
    requires NextOrEnd(s)
    ensures NextOrEnd(Shortened(s, limit)) && (Shortened(s, limit) == "" <==> s == "")
  {
    hide IndexOf, Cut;
    if s == "" {
      ShortenedEmpty(limit);
    } else if |CutFirst(s, MARKS).0| < 3 {
      NoMessage(s, limit);
    } else {
      var outside, header, body, rest := SplitMessage(s);
      ShortenedMessage(s, outside, header, body, rest, limit);
      var front := outside + header;
      assert s[..3] == front[..3] == Shortened(s, limit)[..3];
    }
  }

  lemma SteadyFirst(s: string, outside: string, header: string, body: string, rest: string, limit: nat)
    requires StartsWith(s, outside, header, body, rest)
    ensures AllSteady(Cut(s, MARKS), limit)
            <==> Steady(body, limit) && (rest != "" ==> AllSteady(Cut(rest, MARKS), limit))
  {
    hide IndexOf, Cut, Steady;
    CutMessage(s, outside, header, body, rest);
    var pieces, more := Cut(s, MARKS), if rest == "" then [] else Cut(rest, MARKS);
    assert pieces[2] == Body(body) && pieces[3..] == more;
    assert forall k | 0 <= k < |more| :: pieces[3 + k] == more[k];
  }

  /**
   * Cutting a compacted text gives the shortened pieces of the text itself exactly if no kept tail reads like a
   * message: then no message appears that was not there, and none is lost.
   */
  lemma {:induction false} RecutIff(s: string, limit: nat)
    ensures Cut(Shortened(s, limit), MARKS) == ShortenAll(Cut(s, MARKS), limit)
            <==> AllSteady(Cut(s, MARKS), limit)
    decreases |s|
  {
    hide IndexOf, Cut, Steady, AllSteady, Shortened;
    if |CutFirst(s, MARKS).0| < 3 {
      NoMessage(s, limit);
    } else {
      var outside, header, body, rest := SplitMessage(s);
      var body' := Shorten(Body(body), limit).text;
      var rest' := Shortened(rest, limit);
      ShortenedMessage(s, outside, header, body, rest, limit);
      SteadyFirst(s, outside, header, body, rest, limit);
      ShortenedStart(rest, limit);
      ShortenedBody(body, limit, rest, rest');
      if Steady(body, limit) {
        CutMessage(Shortened(s, limit), outside, header, body', rest');
        if rest != "" {
          RecutIff(rest, limit);
        }
        SameBehind([Outside(outside), Header(header), Body(body')],
                   if rest' == "" then [] else Cut(rest', MARKS),
                   if rest == "" then [] else ShortenAll(Cut(rest, MARKS), limit));
      } else {
        OtherBody(Shortened(s, limit), outside, header, body', rest');
      }
    }
  }

  lemma SameBehind<T>(a: seq<T>, b: seq<T>, c: seq<T>)
    ensures a + b == a + c <==> b == c
  {
    assert (a + b)[|a|..] == b && (a + c)[|a|..] == c;
  }

  /** If a message starts in what was a body, the cut has another body there. */
  lemma OtherBody(s: string, outside: string, header: string, body: string, rest: string)
    requires s == outside + header + (body + rest) && HeaderFound(outside, header)
    requires NextOrEnd(rest) && !OneBody(body, rest)
    ensures |Cut(s, MARKS)| >= 3 && Cut(s, MARKS)[2] != Body(body)
  {
    hide IndexOf;
    CutAtHeader(outside, header, body + rest);
    OneBodyIff(body, rest);
  }

  /** So headers and outside text are the same for the next cut. */
  lemma FrameSurvivesRecut(s: string, limit: nat)
    requires AllSteady(Cut(s, MARKS), limit)
    ensures Frame(Cut(Compact(s, limit), MARKS)) == Frame(Cut(s, MARKS))
  {
    RecutIff(s, limit);
    FrameSurvives(Cut(s, MARKS), limit);
  }

  /** With room for the notice, compaction then changes nothing more under the same limit. */
  lemma CompactTwice(s: string, limit: nat)
    requires limit > 0 && RoomFor(|NOTICE|, limit)
    requires AllSteady(Cut(s, MARKS), limit)
    ensures Compact(Compact(s, limit), limit) == Compact(s, limit)
  {
    hide RoomFor, AllSteady, Cut, Join;
    var pieces := Cut(s, MARKS);
    RecutIff(s, limit);
    if s != "" {
      forall k | 0 <= k < |pieces| && pieces[k].Body? ensures |Shorten(pieces[k], limit).text| <= limit {
        if |pieces[k].text| > limit {
          var _, _ := TruncatedBody(pieces[k].text, limit, NOTICE);
        }
      }
      CompactionShortens(Compact(s, limit), limit);
    }
  }

  // ---------------------------------------------------------------- a tail that reads like a message

  function UnsteadyBody(): string {
    Repeat('x', 600) + "\n[" + Repeat('x', 226)
  }

  lemma UnsteadyTail()
    ensures !Steady(UnsteadyBody(), 800) && OneBody(UnsteadyBody(), "")
  {
    var body := UnsteadyBody();
    NoticeLength();
    assert |body| == 828 && body[600] == '\n' && body[601] == '[';
    assert forall i | 0 <= i < 828 && i != 600 :: body[i] != '\n';
    assert KeptTail(body, 800, 41) == body[600..];
    hide UnsteadyBody;
    forall i | 0 <= i < |body| ensures !Opens(body + "", i) {
    }
  }

  lemma PlainHeader()
    ensures HeaderFound("", "[tool]\n")
  {
    hide IndexOf;
    var header := "[tool]\n";
    assert "" + header == header;
    assert OccursAt(header, MARKS.tool, 0);
    IndexIs(header, MARKS.tool, 0);
    FirstChar(header, MARKS.newline, 6);
  }

  lemma MessageInFrame(a: Piece, b: Piece, c: Piece, more: seq<Piece>)
    requires !a.Body? && !b.Body? && c.Body?
    ensures Frame([a, b, c] + more) == [a, b] + Frame(more)
  {
    assert ([a, b, c] + more)[1..] == [b, c] + more;
    assert ([b, c] + more)[1..] == [c] + more;
    assert ([c] + more)[1..] == more;
    assert Frame([c] + more) == Frame(more);
    assert Frame([b, c] + more) == [b] + Frame(more);
  }

  /** The outside text in front of a cut is in the frame. */
  lemma FrameNotEmpty(s: string)
    ensures Frame(Cut(s, MARKS)) != []
  {
    hide IndexOf;
    var pieces := CutFirst(s, MARKS).0;
    assert pieces[0].Outside? && Cut(s, MARKS)[0] == pieces[0];
  }

  /**
   * The body of this single message holds a line that starts with a bracket. Compacted to 800 runes it is cut there:
   * the frame has one outside text more.
   */
  lemma TailReadAsMessage()
    ensures var s := "[tool]\n" + UnsteadyBody();
            && Cut(Compact(s, 800), MARKS) != ShortenAll(Cut(s, MARKS), 800)
            && Frame(Cut(Compact(s, 800), MARKS)) != Frame(Cut(s, MARKS))
  {
    hide IndexOf, Cut, Steady, AllSteady, Shorten, UnsteadyBody, Frame;
    var header, body := "[tool]\n", UnsteadyBody();
    var s := header + body;
    var body' := Shorten(Body(body), 800).text;
    UnsteadyTail();
    PlainHeader();
    assert s == "" + header + (body + "");
    assert StartsWith(s, "", header, body, "");
    CutMessage(s, "", header, body, "");
    SteadyFirst(s, "", header, body, "", 800);
    RecutIff(s, 800);
    ShortenedMessage(s, "", header, body, "", 800);
    ShortenedEmpty(800);
    ShortenedBody(body, 800, "", "");
    SplitAtTail(Compact(s, 800), header, body');
    MessageInFrame(Outside(""), Header(header), Body(body), []);
    assert [Outside(""), Header(header), Body(body)] + [] == [Outside(""), Header(header), Body(body)];
    FrameEmpty();
  }

  lemma FrameEmpty()
    ensures Frame([]) == []
  {
  }

  /** A single message in whose body another one starts has a longer frame. */
  lemma SplitAtTail(s: string, header: string, body: string)
    requires s == "" + header + (body + "") && HeaderFound("", header) && !OneBody(body, "")
    ensures |Frame(Cut(s, MARKS))| > 2
  {
    hide IndexOf;
    CutAtHeader("", header, body + "");
    OneBodyIff(body, "");
    var end := IndexOf(body + "", MARKS.next);
    var rest := (body + "")[end..];
    IndexFirst(body + "", MARKS.next);
    var pieces := [Outside(""), Header(header), Body((body + "")[..end])];
    assert Cut(s, MARKS) == pieces + Cut(rest, MARKS);
    MessageInFrame(pieces[0], pieces[1], pieces[2], Cut(rest, MARKS));
    FrameNotEmpty(rest);
  }

  // ---------------------------------------------------------------- one rung after the other

  /** A smaller share of the runes is a shorter tail. */
  lemma TailShorter(keep: nat, less: nat)
    requires less <= keep
    ensures less - less * 70 / 100 <= keep - keep * 70 / 100
  {
  }

  lemma SameEnd(front: string, body: string, tail: nat, n: nat)
    requires n <= tail <= |body|
    ensures var s := front + body[|body| - tail..]; |s| >= n && s[|s| - n..] == body[|body| - n..]
  {
  }

  /** Behind a larger limit a smaller one keeps the same tail as without it. */
  lemma TailAgain(body: string, limit: nat, smaller: nat, notice: string)
    requires |body| > limit > smaller >= |notice| + 200
    ensures |TruncateWith(body, limit, notice)| == limit
    ensures KeptTail(TruncateWith(body, limit, notice), smaller, |notice|) == KeptTail(body, smaller, |notice|)
  {
    var keep, less := limit - |notice|, smaller - |notice|;
    var tail := keep - keep * 70 / 100;
    TailShorter(keep, less);
    SameEnd(body[..keep * 70 / 100] + notice, body, tail, less - less * 70 / 100);
  }

  lemma SteadyAfter(body: string, limit: nat, smaller: nat)
    requires 241 <= smaller <= limit && Steady(body, smaller)
    ensures Steady(Shorten(Body(body), limit).text, smaller)
  {
    NoticeLength();
    hide TruncateWith, KeptTail, RoomFor, ReadsAsMessage;
    if |body| > limit {
      if limit > smaller {
        TailAgain(body, limit, smaller, NOTICE);
      } else {
        var _, _ := TruncatedBody(body, limit, NOTICE);
      }
    }
  }

  lemma AllSteadyAfter(s: string, limit: nat, smaller: nat)
    requires 241 <= smaller <= limit && AllSteady(Cut(s, MARKS), limit) && AllSteady(Cut(s, MARKS), smaller)
    ensures AllSteady(Cut(Compact(s, limit), MARKS), smaller)
  {
    RecutIff(s, limit);
    hide Cut, Steady, Join;
    var pieces := Cut(s, MARKS);
    if s != "" {
      forall k | 0 <= k < |pieces| && pieces[k].Body? ensures Steady(Shorten(pieces[k], limit).text, smaller) {
        SteadyAfter(pieces[k].text, limit, smaller);
      }
    }
  }

  /** Limits that fall, with room for 200 runes beside the notice. */
  predicate Falling(limits: seq<nat>) {
    && (forall i | 0 <= i < |limits| :: limits[i] >= 241)
    && (forall i, j | 0 <= i < j < |limits| :: limits[i] >= limits[j])
  }

  ghost predicate SteadyForAll(s: string, limits: seq<nat>) {
    forall i | 0 <= i < |limits| :: AllSteady(Cut(s, MARKS), limits[i])
  }

  /** Down the whole ladder headers and outside text stay, if the text itself is steady under each of its limits. */
  lemma {:induction false} DescentKeepsFrame(counter: Counter, text: string, budget: nat, limits: seq<nat>)
    requires Falling(limits) && SteadyForAll(text, limits)
    ensures Frame(Cut(Descend(counter, text, budget, limits), MARKS)) == Frame(Cut(text, MARKS))
    decreases |limits|
  {
    hide Cut, AllSteady, Frame, Compact;
    if limits != [] {
      var limit, rest := limits[0], limits[1..];
      var shorter := Compact(text, limit);
      FrameSurvivesRecut(text, limit);
      forall i | 0 <= i < |rest| ensures AllSteady(Cut(shorter, MARKS), rest[i]) {
        assert rest[i] == limits[i + 1];
        AllSteadyAfter(text, limit, rest[i]);
      }
      DescentKeepsFrame(counter, shorter, budget, rest);
    }
  }

  /** So does the ladder of the builder. */
  lemma LadderKeepsFrame(b: Builder, reactInput: string)
    requires SteadyForAll(reactInput, LADDER)
    ensures Frame(Cut(Descended(b, reactInput), MARKS)) == Frame(Cut(reactInput, MARKS))
  {
    hide SteadyForAll, Cut, Frame;
    DescentKeepsFrame(b.counter, reactInput, ReactBudget(b), LADDER);
  }
}
