/** Expansion of `${VAR}` and `${VAR:-default}` references in a configuration string. */
module EnvExpand {
  import opened Text

  type Env = string -> string

  /** What opens and closes a reference, and what separates a variable from its default. */
  datatype Syntax = Syntax(open: string, close: char, default: string)

  const SYNTAX := Syntax("${", '}', ":-")

  /** All that the proofs use of the syntax; SYNTAX has it. */
  predicate Sound(x: Syntax) {
    |x.open| == 2 && x.open[0] != x.open[1] && x.close !in x.open
  }

  // ---------------------------------------------------------------- specification

  /** The text to insert for the inside of one reference. */
  function Value(expr: string, env: Env, x: Syntax): string {
    var colon := IndexOf(expr, x.default);
    if colon >= 0 then
      var value := env(expr[..colon]);
      if value == "" then expr[colon + |x.default|..] else value
    else env(expr)
  }

  /** A string is read once from left to right as plain text and references. */
  datatype Piece = Plain(text: string) | Reference(expr: string)

  /** The pieces up to the end of the first reference, and how much of the string they cover. */
  function ParseFirst(s: string, x: Syntax): (r: (Piece, Piece, nat))
    requires Sound(x)
    ensures r.2 <= |s| && (s != "" ==> r.2 > 0)
  {
    var start := IndexOf(s, x.open);
    if start < 0 then (Plain(s), Plain(""), |s|)
    else
      var after := s[start + 2..];
      var end := IndexOf(after, [x.close]);
      if end < 0 then (Plain(s[..start]), Plain(x.open), start + 2)
      else (Plain(s[..start]), Reference(after[..end]), start + 2 + end + 1)
  }

  function Parse(s: string, x: Syntax): seq<Piece>
    requires Sound(x)
    decreases |s|
  {
    if s == "" then []
    else
      var (a, b, length) := ParseFirst(s, x);
      [a, b] + Parse(s[length..], x)
  }

  function Insert(piece: Piece, env: Env, x: Syntax): string {
    match piece
    case Plain(text) => text
    case Reference(expr) => Value(expr, env, x)
  }

  function Inserts(pieces: seq<Piece>, env: Env, x: Syntax): (parts: seq<string>)
    ensures |parts| == |pieces|
  {
    if pieces == [] then [] else [Insert(pieces[0], env, x)] + Inserts(pieces[1..], env, x)
  }

  function Expand(s: string, env: Env, x: Syntax): string
    requires Sound(x)
  {
    Flatten(Inserts(Parse(s, x), env, x))
  }

  // ---------------------------------------------------------------- the operation

  method ExpandEnvVar(s: string, env: Env) returns (r: string)
    ensures r == Expand(s, env, SYNTAX)
  {
    r := ExpandReferences(s, env, SYNTAX);
  }

  method ExpandReferences(s: string, env: Env, x: Syntax) returns (r: string)
    requires Sound(x)
    ensures r == Expand(s, env, x)
  {
    r := "";
    var i := 0;
    assert s[0..] == s;
    while i < |s|
      invariant 0 <= i <= |s|
      invariant r + Expand(s[i..], env, x) == Expand(s, env, x)
    {
      hide Expand;
      var text, length := ExpandNext(s[i..], env, x);
      Advance(s, i, length);
      Associate(r, text, Expand(s[i + length..], env, x));
      r := r + text;
      i := i + length;
    }
    assert s[i..] == "";
  }

  lemma Advance(s: string, i: nat, length: nat)
    requires i + length <= |s|
    ensures s[i..][length..] == s[i + length..]
  {
  }

  /** The loop body: what is written for the part of the string up to the end of its first reference. */
  method ExpandNext(s: string, env: Env, x: Syntax) returns (text: string, length: nat)
    requires Sound(x) && s != ""
    ensures 0 < length <= |s| && text + Expand(s[length..], env, x) == Expand(s, env, x)
  {
    assert |x.open| == 2;
    hide *;
    var start := IndexOf(s, x.open);
    if start < 0 {
      ExpandPlain(s, env, x);
      return s, |s|;
    }
    var after := s[start + |x.open|..];
    var end := IndexOf(after, [x.close]);
    if end < 0 {
      ExpandUnclosed(s, env, x);
      text, length := s[..start] + x.open, start + |x.open|;
      return;
    }
    ExpandReference(s, env, x);
    length := start + |x.open| + end + 1;
    var value := ExpandExpr(after[..end], env, x);
    text := s[..start] + value;
  }

  method ExpandExpr(expr: string, env: Env, x: Syntax) returns (val: string)
    ensures val == Value(expr, env, x)
  {
    var varName, defaultVal, hasDefault := expr, "", false;
    var colon := IndexOf(expr, x.default);
    if colon >= 0 {
      varName, defaultVal, hasDefault := expr[..colon], expr[colon + |x.default|..], true;
    }
    val := env(varName);
    if val == "" && hasDefault {
      val := defaultVal;
    }
  }

  lemma {:induction false} InsertsConcat(a: seq<Piece>, b: seq<Piece>, env: Env, x: Syntax)
    ensures Inserts(a + b, env, x) == Inserts(a, env, x) + Inserts(b, env, x)
  {
    if a == [] {
      assert a + b == b;
    } else {
      InsertsConcat(a[1..], b, env, x);
      assert (a + b)[1..] == a[1..] + b;
    }
  }

  lemma InsertsTwo(a: Piece, b: Piece, env: Env, x: Syntax)
    ensures Inserts([a, b], env, x) == [Insert(a, env, x), Insert(b, env, x)]
  {
    assert [a, b][1..] == [b] && [b][1..] == [];
  }

  /** What expansion does up to the end of the first reference, and that it goes on behind it. */
  lemma ExpandStep(s: string, env: Env, x: Syntax)
    requires Sound(x) && s != ""
    ensures var (a, b, length) := ParseFirst(s, x);
            Expand(s, env, x) == Insert(a, env, x) + Insert(b, env, x) + Expand(s[length..], env, x)
  {
    var (a, b, length) := ParseFirst(s, x);
    var rest := Parse(s[length..], x);
    InsertsConcat([a, b], rest, env, x);
    InsertsTwo(a, b, env, x);
    FlattenConcat([Insert(a, env, x), Insert(b, env, x)], Inserts(rest, env, x));
    FlattenTwo(Insert(a, env, x), Insert(b, env, x));
  }

  lemma ExpandNothing(env: Env, x: Syntax)
    requires Sound(x)
    ensures Expand("", env, x) == ""
  {
  }

  lemma ExpandPlain(s: string, env: Env, x: Syntax)
    requires Sound(x) && s != "" && IndexOf(s, x.open) < 0
    ensures s + Expand(s[|s|..], env, x) == Expand(s, env, x)
  {
    ExpandStep(s, env, x);
    hide Expand, IndexOf, Sound;
    assert s + "" == s;
  }

  lemma ExpandUnclosed(s: string, env: Env, x: Syntax)
    requires Sound(x) && IndexOf(s, x.open) >= 0 && IndexOf(s[IndexOf(s, x.open) + |x.open|..], [x.close]) < 0
    ensures var start := IndexOf(s, x.open);
            s[..start] + x.open + Expand(s[start + |x.open|..], env, x) == Expand(s, env, x)
  {
    hide Expand, IndexOf;
    ExpandStep(s, env, x);
  }

  /** A closed reference is replaced by its value, and reading goes on behind it. */
  lemma ExpandReference(s: string, env: Env, x: Syntax)
    requires Sound(x) && IndexOf(s, x.open) >= 0 && IndexOf(s[IndexOf(s, x.open) + |x.open|..], [x.close]) >= 0
    ensures var start := IndexOf(s, x.open);
            var end := IndexOf(s[start + |x.open|..], [x.close]);
            s[..start] + Value(s[start + |x.open|..][..end], env, x) + Expand(s[start + |x.open| + end + 1..], env, x)
            == Expand(s, env, x)
  {
    hide Expand, IndexOf, Value;
    ExpandStep(s, env, x);
    var start := IndexOf(s, x.open);
    var end := IndexOf(s[start + 2..], [x.close]);
    assert ParseFirst(s, x) == (Plain(s[..start]), Reference(s[start + 2..][..end]), start + 2 + end + 1);
  }

  // ---------------------------------------------------------------- main results

  function Source(piece: Piece, x: Syntax): string {
    match piece
    case Plain(text) => text
    case Reference(expr) => x.open + expr + [x.close]
  }

  function Sources(pieces: seq<Piece>, x: Syntax): (parts: seq<string>)
    ensures |parts| == |pieces|
  {
    if pieces == [] then [] else [Source(pieces[0], x)] + Sources(pieces[1..], x)
  }

  lemma FirstSources(s: string, x: Syntax)
    requires Sound(x)
    ensures var (a, b, length) := ParseFirst(s, x);
            Source(a, x) + Source(b, x) == s[..length]
  {
    IndexFirst(s, x.open);
    var start := IndexOf(s, x.open);
    if start < 0 {
      hide IndexOf;
      assert s + "" == s == s[..|s|];
    } else {
      var after := s[start + 2..];
      var end := IndexOf(after, [x.close]);
      CharIndex(after, x.close);
      hide IndexOf;
      if end < 0 {
        assert s[..start] + x.open == s[..start + 2];
      } else {
        ClosedSource(s, start, after, end, x);
      }
    }
  }

  lemma ClosedSource(s: string, start: nat, after: string, end: nat, x: Syntax)
    requires |x.open| == 2 && start + 2 <= |s| && s[start..start + 2] == x.open && after == s[start + 2..]
    requires end < |after| && after[end] == x.close
    ensures s[..start] + (x.open + after[..end] + [x.close]) == s[..start + 2 + end + 1]
  {
    var whole := s[..start + 2 + end + 1];
    assert whole == whole[..start] + whole[start..];
    assert whole[start..] == x.open + after[..end] + [x.close];
  }

  lemma SourcesBehindTwo(a: Piece, b: Piece, rest: seq<Piece>, x: Syntax)
    ensures Flatten(Sources([a, b] + rest, x)) == Source(a, x) + Source(b, x) + Flatten(Sources(rest, x))
  {
    hide Flatten, Source;
    assert ([a, b] + rest)[1..] == [b] + rest && ([b] + rest)[1..] == rest;
    assert Sources([a, b] + rest, x) == [Source(a, x), Source(b, x)] + Sources(rest, x);
    FlattenConcat([Source(a, x), Source(b, x)], Sources(rest, x));
    FlattenTwo(Source(a, x), Source(b, x));
  }

  /** The pieces are the whole string: nothing is dropped and nothing is read twice. */
  lemma {:induction false} ParseLossless(s: string, x: Syntax)
    requires Sound(x)
    ensures Flatten(Sources(Parse(s, x), x)) == s
    decreases |s|
  {
    if s != "" {
      ParseLossless(s[ParseFirst(s, x).2..], x);
      LosslessStep(s, x);
    }
  }

  lemma LosslessStep(s: string, x: Syntax)
    requires Sound(x) && s != ""
    ensures var n := ParseFirst(s, x).2;
            Flatten(Sources(Parse(s[n..], x), x)) == s[n..] ==> Flatten(Sources(Parse(s, x), x)) == s
  {
    hide ParseFirst, Source, Sources, Flatten, Sound, IndexOf;
    var (a, b, length) := ParseFirst(s, x);
    FirstSources(s, x);
    SourcesBehindTwo(a, b, Parse(s[length..], x), x);
    assert s == s[..length] + s[length..];
  }

  /** Without a closing brace there is no reference, and the text stays as it is. */
  lemma {:induction false} UnclosedVerbatim(s: string, env: Env, x: Syntax)
    requires Sound(x) && x.close !in s
    ensures Expand(s, env, x) == s
    decreases |s|
  {
    if s != "" {
      ExpandStep(s, env, x);
      FirstSources(s, x);
      var (a, b, length) := ParseFirst(s, x);
      var start := IndexOf(s, x.open);
      if start >= 0 {
        CharIndex(s[start + 2..], x.close);
      }
      UnclosedVerbatim(s[length..], env, x);
      assert s == s[..length] + s[length..];
    }
  }

  /** A two-character pattern behind a text that lacks it starts right there, whatever the text ends with. */
  lemma FirstPair(prefix: string, pattern: string, rest: string)
    requires |pattern| == 2 && pattern[0] != pattern[1] && IndexOf(prefix, pattern) < 0
    ensures IndexOf(prefix + pattern + rest, pattern) == |prefix|
  {
    var s := prefix + pattern + rest;
    IndexFirst(prefix, pattern);
    assert s[|prefix|..|prefix| + 2] == pattern;
    forall j | 0 <= j < |prefix| ensures !OccursAt(s, pattern, j) {
      if j + 2 <= |prefix| {
        assert !OccursAt(prefix, pattern, j);
        assert s[j..j + 2] == prefix[j..j + 2];
      } else {
        assert s[j..j + 2][1] == s[|prefix|] == pattern[0];
      }
    }
    IndexIs(s, pattern, |prefix|);
  }

  /**
   * A single pass: the text before the first reference is kept, the reference is replaced by its value, and reading
   * goes on behind it. The inserted value is never looked at again, even if it contains references.
   */
  lemma FirstReferenceReplaced(prefix: string, expr: string, rest: string, env: Env, x: Syntax)
    requires Sound(x) && IndexOf(prefix, x.open) < 0 && x.close !in expr
    ensures Expand(prefix + x.open + (expr + [x.close] + rest), env, x)
            == prefix + Value(expr, env, x) + Expand(rest, env, x)
  {
    assert |x.open| == 2 && x.open[0] != x.open[1];
    hide *;
    var after := expr + [x.close] + rest;
    FirstPair(prefix, x.open, after);
    AfterReference(expr, x.close, rest);
    BehindPrefix(prefix, x.open, after, |expr| + 1);
    ExpandReferenceAt(prefix + x.open + after, prefix, expr, after, rest, env, x);
  }

  lemma ExpandReferenceAt(s: string, prefix: string, expr: string, after: string, rest: string, env: Env, x: Syntax)
    requires Sound(x) && |x.open| == 2 && IndexOf(s, x.open) == |prefix| && |prefix| + 2 <= |s|
    requires s[..|prefix|] == prefix && s[|prefix| + 2..] == after
    requires IndexOf(after, [x.close]) == |expr| < |after| && after[..|expr|] == expr && after[|expr| + 1..] == rest
    ensures Expand(s, env, x) == prefix + Value(expr, env, x) + Expand(rest, env, x)
  {
    hide *;
    ExpandReference(s, env, x);
    assert s[|prefix| + 2 + |expr| + 1..] == after[|expr| + 1..];
  }

  lemma AfterReference(expr: string, close: char, rest: string)
    requires close !in expr
    ensures var after := expr + [close] + rest;
            after[..|expr|] == expr && after[|expr| + 1..] == rest && IndexOf(after, [close]) == |expr|
  {
    var after := expr + [close] + rest;
    assert after[..|expr|] == expr && after[|expr|] == close;
    FirstChar(after, close, |expr|);
  }

  lemma BehindPrefix(prefix: string, open: string, after: string, n: nat)
    requires n <= |after|
    ensures var s := prefix + open + after;
            s[..|prefix|] == prefix && s[|prefix| + |open|..] == after && s[|prefix| + |open| + n..] == after[n..]
  {
  }

  /** A reference that is closed in front of the tail is read the same with the tail behind it. */
  lemma FirstInFront(a: string, tail: string, x: Syntax)
    requires Sound(x) && IndexOf(a, x.open) >= 0 && a[|a| - 1] == x.close
    ensures ParseFirst(a + tail, x) == ParseFirst(a, x)
    ensures var rest := a[ParseFirst(a, x).2..]; rest == "" || rest[|rest| - 1] == x.close
  {
    hide IndexOf;
    IndexInFront(a, tail, x.open);
    IndexFirst(a, x.open);
    var start := IndexOf(a, x.open);
    var after := a[start + 2..];
    assert a[start..start + 2][1] == x.open[1] != x.close;
    assert after != "" && after[|after| - 1] == x.close;
    CharIndex(after, x.close);
    IndexInFront(after, tail, [x.close]);
    var end := IndexOf(after, [x.close]);
    assert (a + tail)[start + 2..] == after + tail && (a + tail)[..start] == a[..start];
    assert (after + tail)[..end] == after[..end];
  }

  /** No pattern in `a`, whose last character is not the pattern's first: every occurrence lies behind `a`. */
  lemma PatternBehind(a: string, tail: string, pattern: string)
    requires |pattern| == 2 && IndexOf(a, pattern) < 0 && (a == "" || a[|a| - 1] != pattern[0])
    ensures IndexOf(a + tail, pattern) < 0 || IndexOf(a + tail, pattern) >= |a|
  {
    IndexFirst(a, pattern);
    IndexFirst(a + tail, pattern);
    var s := a + tail;
    forall j | 0 <= j < |a| ensures !OccursAt(s, pattern, j) {
      assert !OccursAt(a, pattern, j);
      if j + 2 <= |a| {
        assert s[j..j + 2] == a[j..j + 2];
      } else if j + 2 <= |s| {
        assert s[j..j + 2][0] == a[|a| - 1];
      }
    }
  }

  /** Everything behind the last closing brace is kept, an unclosed `${` included. */
  lemma {:induction false} TailVerbatim(a: string, tail: string, env: Env, x: Syntax)
    requires Sound(x) && x.close !in tail && (a == "" || a[|a| - 1] == x.close)
    ensures Expand(a + tail, env, x) == Expand(a, env, x) + tail
    decreases |a|
  {
    hide Expand, IndexOf, ParseFirst;
    if a == "" {
      UnclosedVerbatim(tail, env, x);
      ExpandNothing(env, x);
      assert a + tail == tail;
    } else if IndexOf(a, x.open) < 0 {
      ExpandPlain(a, env, x);
      ExpandNothing(env, x);
      assert a[|a|..] == "";
      assert a + "" == a;
      TextThenTail(a, tail, env, x);
    } else {
      FirstInFront(a, tail, x);
      TailVerbatim(a[ParseFirst(a, x).2..], tail, env, x);
      SameFirst(a, tail, env, x);
    }
  }

  lemma SameFirst(a: string, tail: string, env: Env, x: Syntax)
    requires Sound(x) && a != "" && ParseFirst(a + tail, x) == ParseFirst(a, x)
    requires var rest := a[ParseFirst(a, x).2..]; Expand(rest + tail, env, x) == Expand(rest, env, x) + tail
    ensures Expand(a + tail, env, x) == Expand(a, env, x) + tail
  {
    hide Expand, ParseFirst, Insert, Sound;
    var (p, q, length) := ParseFirst(a, x);
    var head := Insert(p, env, x) + Insert(q, env, x);
    var rest := a[length..];
    assert Expand(a, env, x) == head + Expand(rest, env, x) by {
      ExpandStep(a, env, x);
    }
    assert Expand(a + tail, env, x) == head + Expand(rest + tail, env, x) by {
      ExpandStep(a + tail, env, x);
      assert (a + tail)[length..] == rest + tail;
    }
    Associate(head, Expand(rest, env, x), tail);
  }

  /** Text without references up to a closing brace, then a tail without one: nothing to expand. */
  lemma TextThenTail(a: string, tail: string, env: Env, x: Syntax)
    requires Sound(x) && a != "" && a[|a| - 1] == x.close && IndexOf(a, x.open) < 0 && x.close !in tail
    ensures Expand(a + tail, env, x) == a + tail
  {
    var s := a + tail;
    PatternBehind(a, tail, x.open);
    ExpandStep(s, env, x);
    FirstSources(s, x);
    var start := IndexOf(s, x.open);
    var length := ParseFirst(s, x).2;
    if start < 0 {
      assert s[|s|..] == "" && Expand("", env, x) == "" && s[..|s|] == s;
    } else {
      assert forall c | c in s[start + 2..] :: c in tail;
      CharIndex(s[start + 2..], x.close);
      UnclosedVerbatim(s[length..], env, x);
      assert s == s[..length] + s[length..];
    }
  }

  predicate HasReference(pieces: seq<Piece>) {
    exists k :: 0 <= k < |pieces| && pieces[k].Reference?
  }

  lemma {:induction false} PlainRenders(pieces: seq<Piece>, env: Env, x: Syntax)
    requires !HasReference(pieces)
    ensures Inserts(pieces, env, x) == Sources(pieces, x)
  {
    if pieces != [] {
      assert !pieces[0].Reference?;
      forall k | 0 <= k < |pieces[1..]| ensures !pieces[1..][k].Reference? {
        assert !pieces[k + 1].Reference?;
      }
      PlainRenders(pieces[1..], env, x);
    }
  }

  lemma {:induction false} RenderAtLeast(pieces: seq<Piece>, env: Env, x: Syntax, k: nat)
    requires k < |pieces|
    ensures |Flatten(Inserts(pieces, env, x))| >= |Insert(pieces[k], env, x)|
  {
    assert Inserts(pieces, env, x)[1..] == Inserts(pieces[1..], env, x);
    if k > 0 {
      RenderAtLeast(pieces[1..], env, x, k - 1);
    }
  }

  /** A string survives every environment unchanged exactly when it contains no complete reference. */
  lemma UnchangedIff(s: string, x: Syntax)
    requires Sound(x)
    ensures (forall env: Env :: Expand(s, env, x) == s) <==> !HasReference(Parse(s, x))
  {
    ParseLossless(s, x);
    if !HasReference(Parse(s, x)) {
      forall env: Env ensures Expand(s, env, x) == s {
        PlainRenders(Parse(s, x), env, x);
      }
    } else {
      var k :| 0 <= k < |Parse(s, x)| && Parse(s, x)[k].Reference?;
      var long: string := seq(|s| + 1, _ => 'x');
      var env: Env := _ => long;
      RenderAtLeast(Parse(s, x), env, x, k);
      assert Value(Parse(s, x)[k].expr, env, x) == long;
      assert |Expand(s, env, x)| > |s|;
    }
  }

  // ---------------------------------------------------------------- references as they are written

  ghost predicate Lacks(s: string, pattern: string) {
    forall i :: !OccursAt(s, pattern, i)
  }

  lemma LacksIndex(s: string, pattern: string)
    requires Lacks(s, pattern)
    ensures IndexOf(s, pattern) < 0
  {
    IndexFirst(s, pattern);
  }

  lemma DefaultIndex(name: string, default: string)
    requires Lacks(name, ":-")
    ensures IndexOf(name + ":-" + default, ":-") == |name|
  {
    LacksIndex(name, ":-");
    assert ":-"[0] != ":-"[1];
    FirstPair(name, ":-", default);
  }

  /** A variable is replaced by its value, which may be blank. */
  lemma VariableExpanded(prefix: string, name: string, rest: string, env: Env)
    requires Lacks(prefix, "${") && '}' !in name && Lacks(name, ":-")
    ensures Expand(prefix + "${" + (name + ['}'] + rest), env, SYNTAX) == prefix + env(name) + Expand(rest, env, SYNTAX)
  {
    LacksIndex(prefix, "${");
    LacksIndex(name, ":-");
    FirstReferenceReplaced(prefix, name, rest, env, SYNTAX);
    hide Expand, IndexOf, Lacks;
  }

  /** A variable with a default is replaced by its value, and by the default if that is blank. */
  lemma DefaultExpanded(prefix: string, name: string, default: string, rest: string, env: Env)
    requires Lacks(prefix, "${") && '}' !in name && Lacks(name, ":-") && '}' !in default
    ensures Expand(prefix + "${" + (name + ":-" + default + ['}'] + rest), env, SYNTAX)
            == prefix + (if env(name) != "" then env(name) else default) + Expand(rest, env, SYNTAX)
  {
    var expr := name + ":-" + default;
    LacksIndex(prefix, "${");
    DefaultIndex(name, default);
    assert expr[..|name|] == name && expr[|name| + 2..] == default;
    assert '}' !in expr;
    FirstReferenceReplaced(prefix, expr, rest, env, SYNTAX);
    hide Expand, IndexOf, Lacks;
  }

  /** Text without the start of a reference stays. */
  lemma PlainExpanded(s: string, env: Env)
    requires Lacks(s, "${")
    ensures Expand(s, env, SYNTAX) == s
  {
    LacksIndex(s, "${");
    if s == "" {
      ExpandNothing(env, SYNTAX);
    } else {
      ExpandPlain(s, env, SYNTAX);
      assert s[|s|..] == "" && s + "" == s;
      ExpandNothing(env, SYNTAX);
    }
  }
}
