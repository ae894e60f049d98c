/** The text test for refusals that the old local guard wrote. */
module LegacyGuard {
  import opened Text

  /** The fixed texts of the envelope: its two openings, and what stands before rule, rule ID and matched content. */
  datatype Marks = Marks(colon: string, newline: string, rule: string, id: string, content: string)

  const MARKS := Marks("工具调用已被安全规则拦截：", "工具调用已被安全规则拦截\n规则: ", "\n规则: ", " (", "\n匹配内容: ")

  /** All that the proofs use of the marks. */
  predicate Sound(m: Marks) {
    && m.rule != "" && m.rule[0] == '\n' && m.content != "" && m.content[0] == '\n'
    && '\n' !in m.rule[1..] && '\n' !in m.content[1..]
    && |m.id| == 2 && m.id[0] != m.id[1] && m.id[1] != ')' && m.id[0] != ')' && '\n' !in m.id
  }

  // ---------------------------------------------------------------- specification

  /** The last position of `pattern` in `s`, or -1. */
  function LastIndexOf(s: string, pattern: string): (r: int)
    ensures r == -1 || 0 <= r <= |s| - |pattern|
  {
    if |pattern| > |s| then -1 else LastIndexUpTo(s, pattern, |s| - |pattern|)
  }

  function LastIndexUpTo(s: string, pattern: string, i: nat): (r: int)
    requires i + |pattern| <= |s|
    ensures -1 <= r <= i
  {
    if OccursAt(s, pattern, i) then i else if i == 0 then -1 else LastIndexUpTo(s, pattern, i - 1)
  }

  predicate EndsWith(s: string, c: char) {
    s != "" && s[|s| - 1] == c
  }

  predicate RuleNamed(rule: string, m: Marks)
    requires |m.id| == 2
  {
    var i := LastIndexOf(rule, m.id);
    i > 0 && EndsWith(rule, ')') && i + 2 < |rule| - 1 && '\n' !in rule
  }

  /** `unquotes` tells whether a text is a Go string literal. */
  predicate IsRefusal(text: string, unquotes: string -> bool, m: Marks)
    requires |m.id| == 2
  {
    && (m.colon <= text || m.newline <= text)
    && var contentAt := LastIndexOf(text, m.content);
       contentAt >= 0 && unquotes(text[contentAt + |m.content|..])
       && var ruleAt := LastIndexOf(text[..contentAt], m.rule);
          ruleAt >= 0 && RuleNamed(text[ruleAt + |m.rule|..contentAt], m)
  }

  predicate IsLegacyToolGuardRefusal(text: string, unquotes: string -> bool) {
    IsRefusal(text, unquotes, MARKS)
  }

  // ---------------------------------------------------------------- the envelope, told independently

  /** What the old guard wrote: a front, the rule with its ID, and the matched content as a literal. */
  function Envelope(front: string, rule: string, id: string, content: string, m: Marks): string {
    front + m.rule + (rule + m.id + id + [')']) + m.content + content
  }

  predicate Lacks(s: string, pattern: string) {
    forall i | 0 <= i <= |s| :: !OccursAt(s, pattern, i)
  }

  /** The parts of an envelope: a rule and an ID on one line, and content in which no further content mark occurs. */
  predicate PartsOK(rule: string, id: string, content: string, m: Marks) {
    rule != "" && id != "" && '\n' !in rule && '\n' !in id && Lacks(id, m.id) && Lacks(content, m.content)
  }

  lemma {:induction false} LastUpTo(s: string, pattern: string, i: nat)
    requires i + |pattern| <= |s|
    ensures var r := LastIndexUpTo(s, pattern, i);
            && (r >= 0 ==> OccursAt(s, pattern, r))
            && forall j | r < j <= i :: !OccursAt(s, pattern, j)
  {
    if !OccursAt(s, pattern, i) && i > 0 {
      LastUpTo(s, pattern, i - 1);
    }
  }

  /** The last index is an occurrence, and no occurrence comes behind it. */
  lemma LastOccurrence(s: string, pattern: string)
    ensures var r := LastIndexOf(s, pattern);
            && (r >= 0 ==> OccursAt(s, pattern, r))
            && forall j | r < j :: !OccursAt(s, pattern, j)
  {
    if |pattern| <= |s| {
      LastUpTo(s, pattern, |s| - |pattern|);
    }
  }

  lemma LastIs(s: string, pattern: string, i: nat)
    requires OccursAt(s, pattern, i) && forall j | i < j :: !OccursAt(s, pattern, j)
    ensures LastIndexOf(s, pattern) == i
  {
    LastOccurrence(s, pattern);
  }

  /** A mark that starts with a character it has only once occurs last where no such mark lies in the text behind it. */
  lemma LastMark(front: string, mark: string, behind: string)
    requires mark != "" && mark[0] !in mark[1..] && Lacks(behind, mark)
    ensures LastIndexOf(front + mark + behind, mark) == |front|
  {
    var s := front + mark + behind;
    assert s[|front|..|front| + |mark|] == mark;
    forall j | |front| < j && j + |mark| <= |s| ensures !OccursAt(s, mark, j) {
      if j < |front| + |mark| {
        assert s[j..j + |mark|][0] == s[j] == mark[1..][j - |front| - 1];
      } else {
        var k := j - |front| - |mark|;
        assert behind[k..k + |mark|] == s[j..j + |mark|];
        assert !OccursAt(behind, mark, k);
      }
    }
    LastIs(s, mark, |front|);
  }

  /** Text without a line end has no mark that starts with one. */
  lemma OneLineLacks(s: string, mark: string)
    requires mark != "" && mark[0] == '\n' && '\n' !in s
    ensures Lacks(s, mark)
  {
    forall i | 0 <= i && i + |mark| <= |s| ensures !OccursAt(s, mark, i) {
      assert s[i..i + |mark|][0] == s[i];
    }
  }

  /** The mark in front of the ID is the last one of the rule. */
  lemma IdLacks(id: string, m: Marks)
    requires Sound(m) && Lacks(id, m.id)
    ensures Lacks(id + [')'], m.id)
  {
    var s := id + [')'];
    forall i | 0 <= i && i + 2 <= |s| ensures !OccursAt(s, m.id, i) {
      assert s[i..i + 2][1] == s[i + 1];
      if i + 2 <= |id| {
        assert id[i..i + 2] == s[i..i + 2];
        assert !OccursAt(id, m.id, i);
      }
    }
  }

  lemma EnvelopeRule(rule: string, id: string, m: Marks)
    requires Sound(m) && rule != "" && id != "" && '\n' !in rule && '\n' !in id && Lacks(id, m.id)
    ensures RuleNamed(rule + m.id + id + [')'], m)
  {
    IdLacks(id, m);
    LastMark(rule, m.id, id + [')']);
    assert rule + m.id + id + [')'] == rule + m.id + (id + [')']);
  }

  /** Every envelope of good parts is recognized, if its content is a literal and it has one of the openings. */
  lemma EnvelopeRecognized(front: string, rule: string, id: string, content: string, unquotes: string -> bool, m: Marks)
    requires Sound(m) && PartsOK(rule, id, content, m) && unquotes(content)
    requires var text := Envelope(front, rule, id, content, m); m.colon <= text || m.newline <= text
    ensures IsRefusal(Envelope(front, rule, id, content, m), unquotes, m)
  {
    var named := rule + m.id + id + [')'];
    var head := front + m.rule + named;
    var text := head + m.content + content;
    assert text == Envelope(front, rule, id, content, m);
    LastMark(head, m.content, content);
    assert text[..|head|] == head && text[|head| + |m.content|..] == content;
    assert '\n' !in named;
    OneLineLacks(named, m.rule);
    LastMark(front, m.rule, named);
    assert text[|front| + |m.rule|..|head|] == named;
    EnvelopeRule(rule, id, m);
  }

  lemma LacksBehind(s: string, mark: string)
    requires LastIndexOf(s, mark) >= 0
    ensures var i := LastIndexOf(s, mark);
            s == s[..i] + mark + s[i + |mark|..] && (mark != "" ==> Lacks(s[i + |mark|..], mark))
  {
    LastOccurrence(s, mark);
    var i := LastIndexOf(s, mark);
    var behind := s[i + |mark|..];
    forall k | 0 <= k <= |behind| && mark != "" ensures !OccursAt(behind, mark, k) {
      assert !OccursAt(s, mark, i + |mark| + k);
      if k + |mark| <= |behind| {
        assert behind[k..k + |mark|] == s[i + |mark| + k..i + |mark| + k + |mark|];
      }
    }
  }

  /** A recognized rule is a name, the mark and an ID in front of the closing parenthesis. */
  lemma NamedRule(named: string, m: Marks) returns (rule: string, id: string)
    requires Sound(m) && RuleNamed(named, m)
    ensures named == rule + m.id + id + [')']
    ensures rule != "" && id != "" && '\n' !in rule && '\n' !in id && Lacks(id, m.id)
  {
    LacksBehind(named, m.id);
    var i := LastIndexOf(named, m.id);
    var behind := named[i + 2..];
    rule, id := named[..i], behind[..|behind| - 1];
    assert behind == id + [')'];
    forall k | 0 <= k <= |id| ensures !OccursAt(id, m.id, k) {
      assert !OccursAt(behind, m.id, k);
      if k + 2 <= |id| {
        assert behind[k..k + 2] == id[k..k + 2];
      }
    }
  }

  /** Every recognized text is such an envelope. */
  lemma RecognizedIsEnvelope(text: string, unquotes: string -> bool, m: Marks)
      returns (front: string, rule: string, id: string, content: string)
    requires Sound(m) && IsRefusal(text, unquotes, m)
    ensures text == Envelope(front, rule, id, content, m)
    ensures PartsOK(rule, id, content, m) && unquotes(content) && (m.colon <= text || m.newline <= text)
  {
    LacksBehind(text, m.content);
    var i := LastIndexOf(text, m.content);
    var head := text[..i];
    content := text[i + |m.content|..];
    LacksBehind(head, m.rule);
    var j := LastIndexOf(head, m.rule);
    front := head[..j];
    var named := text[j + |m.rule|..i];
    assert named == head[j + |m.rule|..];
    rule, id := NamedRule(named, m);
    assert text == front + m.rule + named + m.content + content;
  }

  /**
   * Only the exact envelope is recognized: a text passes exactly if it has one of the openings and falls into a front,
   * a rule with its ID on one line, and a literal without a further content mark.
   */
  lemma RefusalIffEnvelope(text: string, unquotes: string -> bool, m: Marks)
    requires Sound(m)
    ensures IsRefusal(text, unquotes, m)
            <==> && (m.colon <= text || m.newline <= text)
                 && exists front, rule, id, content ::
                      && text == Envelope(front, rule, id, content, m)
                      && PartsOK(rule, id, content, m) && unquotes(content)
  {
    if IsRefusal(text, unquotes, m) {
      var front, rule, id, content := RecognizedIsEnvelope(text, unquotes, m);
      assert text == Envelope(front, rule, id, content, m);
    } else if m.colon <= text || m.newline <= text {
      forall front, rule, id, content | text == Envelope(front, rule, id, content, m) && PartsOK(rule, id, content, m)
        ensures !unquotes(content)
      {
        if unquotes(content) {
          EnvelopeRecognized(front, rule, id, content, unquotes, m);
        }
      }
    }
  }

  /** The same for the texts that the old guard used. */
  lemma LegacyRefusalIff(text: string, unquotes: string -> bool)
    ensures var m := Marks("工具调用已被安全规则拦截：", "工具调用已被安全规则拦截\n规则: ", "\n规则: ", " (", "\n匹配内容: ");
            IsLegacyToolGuardRefusal(text, unquotes)
            <==> && (m.colon <= text || m.newline <= text)
                 && exists front, rule, id, content ::
                      && text == Envelope(front, rule, id, content, m)
                      && PartsOK(rule, id, content, m) && unquotes(content)
  {
    MarksSound();
    RefusalIffEnvelope(text, unquotes, MARKS);
  }

  lemma MarksSound()
    ensures Sound(MARKS)
  {
  }
}
