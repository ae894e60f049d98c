/** The agent file format: a header between two `---` lines, and the instruction behind it. */
module FrontMatter {
  import opened Text

  const FENCE := "---"

  /** All that the proofs use of the fence. */
  predicate Sound(fence: string) {
    fence != "" && forall i | 0 <= i < |fence| :: fence[i] == '-'
  }

  datatype Split = Parts(header: string, body: string) | MissingFence

  // ---------------------------------------------------------------- specification

  function TrimLineEnds(s: string): string {
    if s != "" && (s[0] == '\r' || s[0] == '\n') then TrimLineEnds(s[1..]) else s
  }

  /** Cuts what follows the opening fence at the closing one. */
  function Divide(rest: string, fence: string): Split {
    var end := IndexOf(rest, "\n" + fence);
    if end < 0 then MissingFence
    else Parts(TrimSpace(rest[..end]), TrimLineEnds(TrimSpace(rest[end + 1 + |fence|..])))
  }

  function SplitFrontMatter(content: string, fence: string): Split {
    var s := TrimSpace(content);
    if !(fence <= s) then Parts("", s) else Divide(TrimLineEnds(s[|fence|..]), fence)
  }

  /** The file for a serialized header and an instruction. */
  function Build(header: string, instruction: string, fence: string): string {
    fence + "\n" + header + fence + "\n\n" + TrimSpace(instruction)
    + if instruction != "" && instruction[|instruction| - 1] != '\n' then "\n" else ""
  }

  method BuildMarkdownFile(header: string, instruction: string) returns (content: string)
    ensures content == Build(header, instruction, FENCE)
  {
    content := "---\n";
    content := content + header;
    content := content + "---\n\n";
    content := content + TrimSpace(instruction);
    if instruction != "" && instruction[|instruction| - 1] != '\n' {
      content := content + "\n";
    }
    assert content == Build(header, instruction, FENCE);
  }

  // ---------------------------------------------------------------- what splitting a built file sees

  predicate IsLineEnd(c: char) {
    c == '\r' || c == '\n'
  }

  /** Line ends in front, then text that starts with something else. */
  lemma {:induction false} TrimLineEndsAppend(a: string, x: string)
    requires x != "" && !IsLineEnd(x[0])
    ensures TrimLineEnds(a + x) == TrimLineEnds(a) + x
  {
    if a == "" {
      assert a + x == x;
    } else if IsLineEnd(a[0]) {
      TrimLineEndsAppend(a[1..], x);
      assert (a + x)[1..] == a[1..] + x;
    }
  }

  lemma {:induction false} LineEndsInFront(a: string) returns (ends: string)
    ensures a == ends + TrimLineEnds(a) && AllSpace(ends)
    ensures TrimLineEnds(a) != "" ==> !IsLineEnd(TrimLineEnds(a)[0])
  {
    ends := "";
    if a != "" && IsLineEnd(a[0]) {
      ends := LineEndsInFront(a[1..]);
      ends := [a[0]] + ends;
      assert a == [a[0]] + a[1..];
    }
  }

  lemma TrimmedIsTrimmed(s: string)
    ensures TrimSpace(TrimSpace(s)) == TrimSpace(s)
    ensures TrimLineEnds(TrimSpace(s)) == TrimSpace(s)
  {
    TrimTwice(s);
    var _, _ := TrimParts(s);
  }

  /** What follows the closing fence once the file is trimmed. */
  function Tail(instruction: string): string {
    if TrimSpace(instruction) == "" then "" else "\n\n" + TrimSpace(instruction)
  }

  /** The file without the white space at its end. */
  function Kept(header: string, tail: string, fence: string): string {
    fence + ("\n" + (header + (fence + tail)))
  }

  lemma Nest(a: string, b: string, c: string, d: string, e: string, f: string, g: string)
    ensures a + b + c + d + e + f + g == "" + (a + (b + (c + (d + (e + f))))) + g
    ensures a + b + c + d + e + "" + g == "" + (a + (b + (c + (d + "")))) + (e + g)
  {
  }

  lemma KeptEnds(header: string, tail: string, fence: string)
    requires Sound(fence) && (tail == "" || !IsSpace(tail[|tail| - 1]))
    ensures var kept := Kept(header, tail, fence);
            kept != "" && !IsSpace(kept[0]) && !IsSpace(kept[|kept| - 1])
  {
    var kept, end := Kept(header, tail, fence), fence + tail;
    assert kept[0] == fence[0];
    assert kept[|kept| - 1] == end[|end| - 1];
  }

  lemma BuildParts(header: string, t: string, newline: string, fence: string)
    ensures fence + "\n" + header + fence + "\n\n" + t + newline
            == "" + Kept(header, if t == "" then "" else "\n\n" + t, fence)
                  + if t == "" then "\n\n" + newline else newline
  {
    Nest(fence, "\n", header, fence, "\n\n", t, newline);
  }

  lemma TailEnds(instruction: string)
    ensures Tail(instruction) == "" || !IsSpace(Tail(instruction)[|Tail(instruction)| - 1])
  {
    var _, _ := TrimParts(instruction);
  }

  lemma TrimmedFile(header: string, instruction: string, fence: string)
    requires Sound(fence)
    ensures TrimSpace(Build(header, instruction, fence)) == Kept(header, Tail(instruction), fence)
  {
    hide Sound, TrimSpace, Kept;
    var t := TrimSpace(instruction);
    var newline := if instruction != "" && instruction[|instruction| - 1] != '\n' then "\n" else "";
    TailEnds(instruction);
    KeptEnds(header, Tail(instruction), fence);
    BuildParts(header, t, newline, fence);
    TrimIs("", Kept(header, Tail(instruction), fence), if t == "" then "\n\n" + newline else newline);
  }

  lemma DropPrefix(a: string, b: string)
    ensures a <= a + b && (a + b)[|a|..] == b
  {
  }

  /** The text in which the closing fence is looked for: the header without its leading line ends, and so on. */
  lemma SearchedText(header: string, instruction: string, fence: string)
    requires Sound(fence)
    ensures SplitFrontMatter(Build(header, instruction, fence), fence)
            == Divide(TrimLineEnds(header) + (fence + Tail(instruction)), fence)
  {
    TrimmedFile(header, instruction, fence);
    var behind := fence + Tail(instruction);
    DropPrefix(fence, "\n" + (header + behind));
    DropPrefix("\n", header + behind);
    TrimLineEndsAppend(header, behind);
  }

  /** In text that ends with a line end and has no fence line, the fence line is the one that comes behind it. */
  lemma FenceBehind(h: string, fence: string, tail: string)
    requires Sound(fence) && h != "" && h[|h| - 1] == '\n' && IndexOf(h, "\n" + fence) < 0
    ensures IndexOf(h + (fence + tail), "\n" + fence) == |h| - 1
  {
    var pattern, rest, at := "\n" + fence, h + (fence + tail), |h| - 1;
    assert rest[at..at + |pattern|] == pattern;
    IndexFirst(h, pattern);
    forall j | 0 <= j < at ensures !OccursAt(rest, pattern, j) {
      assert !OccursAt(h, pattern, j);
      if j + |pattern| <= |h| {
        assert rest[j..j + |pattern|] == h[j..j + |pattern|];
      } else if j + |pattern| <= |rest| {
        assert rest[j..j + |pattern|][at - j] == '\n' != fence[at - j - 1] == pattern[at - j];
      }
    }
    IndexIs(rest, pattern, at);
  }

  lemma TailTrimmed(instruction: string)
    ensures TrimLineEnds(TrimSpace(Tail(instruction))) == TrimSpace(instruction)
  {
    var t := TrimSpace(instruction);
    TrimmedIsTrimmed(instruction);
    if t == "" {
      TrimIs("", "", "");
    } else {
      TrimAbsorbs("\n\n", t, "");
      assert "\n\n" + t + "" == "\n\n" + t;
    }
  }

  lemma HeaderTrimmed(header: string)
    requires var h := TrimLineEnds(header); h != "" && h[|h| - 1] == '\n'
    ensures var h := TrimLineEnds(header); TrimSpace(h[..|h| - 1]) == TrimSpace(header)
  {
    var h := TrimLineEnds(header);
    var ends := LineEndsInFront(header);
    TrimAbsorbs(ends, h[..|h| - 1], "\n");
    assert h == h[..|h| - 1] + "\n";
    assert header == ends + h[..|h| - 1] + "\n";
  }

  lemma AroundFence(h: string, fence: string, tail: string)
    requires h != ""
    ensures var rest := h + (fence + tail);
            rest[..|h| - 1] == h[..|h| - 1] && rest[|h| - 1 + 1 + |fence|..] == tail
  {
  }

  /** A header without its own fence line comes back, and so does the instruction. */
  lemma GoodHeaderComesBack(header: string, instruction: string, fence: string)
    requires Sound(fence)
    requires var h := TrimLineEnds(header); h != "" && h[|h| - 1] == '\n' && IndexOf(h, "\n" + fence) < 0
    ensures SplitFrontMatter(Build(header, instruction, fence), fence)
            == Parts(TrimSpace(header), TrimSpace(instruction))
  {
    var h := TrimLineEnds(header);
    SearchedText(header, instruction, fence);
    DivideBehind(h, fence, Tail(instruction));
    HeaderTrimmed(header);
    TailTrimmed(instruction);
  }

  lemma DivideBehind(h: string, fence: string, tail: string)
    requires Sound(fence) && h != "" && h[|h| - 1] == '\n' && IndexOf(h, "\n" + fence) < 0
    ensures Divide(h + (fence + tail), fence) == Parts(TrimSpace(h[..|h| - 1]), TrimLineEnds(TrimSpace(tail)))
  {
    FenceBehind(h, fence, tail);
    AroundFence(h, fence, tail);
  }

  // ---------------------------------------------------------------- headers that do not come back

  function Dashes(s: string): nat {
    if s == "" then 0 else Dashes(s[..|s| - 1]) + if s[|s| - 1] == '-' then 1 else 0
  }

  lemma {:induction false} DashesAppend(a: string, b: string)
    ensures Dashes(a + b) == Dashes(a) + Dashes(b)
  {
    if b == "" {
      assert a + b == a;
    } else {
      DashesAppend(a, b[..|b| - 1]);
      assert (a + b)[..|a + b| - 1] == a + b[..|b| - 1];
    }
  }

  lemma {:induction false} NoDashInSpace(s: string)
    requires AllSpace(s)
    ensures Dashes(s) == 0
  {
    if s != "" {
      NoDashInSpace(s[..|s| - 1]);
    }
  }

  lemma DashesOfTrimmed(s: string)
    ensures Dashes(TrimSpace(s)) == Dashes(s)
  {
    var left, right := TrimParts(s);
    DashesAppend(left + TrimSpace(s), right);
    DashesAppend(left, TrimSpace(s));
    NoDashInSpace(left);
    NoDashInSpace(right);
  }

  /** A header with a fence line of its own loses that line. */
  lemma FenceLineCutsHeader(header: string, instruction: string, fence: string)
    requires Sound(fence) && IndexOf(TrimLineEnds(header), "\n" + fence) >= 0
    ensures var r := SplitFrontMatter(Build(header, instruction, fence), fence);
            r.Parts? && Dashes(r.header) < Dashes(TrimSpace(header))
  {
    var h, pattern := TrimLineEnds(header), "\n" + fence;
    var behind := fence + Tail(instruction);
    SearchedText(header, instruction, fence);
    IndexInFront(h, behind, pattern);
    var e := IndexOf(h, pattern);
    assert (h + behind)[..e] == h[..e];
    SplitAtIndex(h, pattern);
    var ends := LineEndsInFront(header);
    DashesOfTrimmed(h[..e]);
    DashesOfTrimmed(header);
    DashesAppend(ends, h);
    DashesAppend(h[..e] + pattern, h[e + |pattern|..]);
    DashesAppend(h[..e], pattern);
    assert pattern[|pattern| - 1] == '-';
  }

  /** A text that starts with the fence is not cut in front of it. */
  lemma DivideKeepsFence(rest: string, fence: string)
    requires Sound(fence) && fence <= rest
    ensures Divide(rest, fence).MissingFence? || Dashes(Divide(rest, fence).header) > 0
  {
    var pattern := "\n" + fence;
    var e := IndexOf(rest, pattern);
    IndexFirst(rest, pattern);
    if e >= 0 {
      assert rest[e..e + |pattern|][0] == '\n' && rest[0] == '-';
      assert rest[..e] == [rest[0]] + rest[1..e];
      DashesAppend([rest[0]], rest[1..e]);
      DashesOfTrimmed(rest[..e]);
    }
  }

  /** A header of line ends only leaves the opening fence in what is read as the header, or no fence to find. */
  lemma EmptyHeaderSwallowsFence(header: string, instruction: string, fence: string)
    requires Sound(fence) && TrimLineEnds(header) == ""
    ensures var r := SplitFrontMatter(Build(header, instruction, fence), fence);
            r.MissingFence? || Dashes(r.header) > Dashes(TrimSpace(header))
  {
    SearchedText(header, instruction, fence);
    var ends := LineEndsInFront(header);
    NoDashInSpace(ends);
    DashesOfTrimmed(header);
    assert header == ends + "" == ends;
    DivideKeepsFence(fence + Tail(instruction), fence);
    assert "" + (fence + Tail(instruction)) == fence + Tail(instruction);
  }

  /**
   * For a header that ends with a line end, as a serializer writes it, the built file splits into the trimmed header
   * and the trimmed instruction exactly when the header is more than line ends and no line after its first starts
   * with the fence. The instruction does not matter.
   */
  lemma RoundTripIff(header: string, instruction: string, fence: string)
    requires Sound(fence) && header != "" && header[|header| - 1] == '\n'
    ensures SplitFrontMatter(Build(header, instruction, fence), fence)
            == Parts(TrimSpace(header), TrimSpace(instruction))
            <==> TrimLineEnds(header) != "" && IndexOf(TrimLineEnds(header), "\n" + fence) < 0
  {
    var h := TrimLineEnds(header);
    var ends := LineEndsInFront(header);
    if h == "" {
      EmptyHeaderSwallowsFence(header, instruction, fence);
    } else if IndexOf(h, "\n" + fence) >= 0 {
      FenceLineCutsHeader(header, instruction, fence);
    } else {
      assert h[|h| - 1] == header[|header| - 1];
      GoodHeaderComesBack(header, instruction, fence);
    }
  }
}
