/** Strings as the source's `strings` and `strconv` packages treat them. */
module Text {

  /** Lower-casing of the letters A to Z; every other character is unchanged. */
  function LowerAscii(s: string): string {
    seq(|s|, i requires 0 <= i < |s| => Lower(s[i]))
  }

  function Lower(c: char): char {
    if 'A' <= c <= 'Z' then c - 'A' + 'a' else c
  }

  /** Unicode white space, as Go's `unicode.IsSpace` lists it. */
  predicate IsSpace(c: char) {
    || '\t' <= c <= '\r'
    || c in {' ', '\U{85}', '\U{A0}', '\U{1680}', '\U{2028}', '\U{2029}', '\U{202F}', '\U{205F}', '\U{3000}'}
    || '\U{2000}' <= c <= '\U{200A}'
  }

  function TrimLeft(s: string): string {
    if s == "" || !IsSpace(s[0]) then s else TrimLeft(s[1..])
  }

  function TrimRight(s: string): string {
    if s == "" || !IsSpace(s[|s| - 1]) then s else TrimRight(s[..|s| - 1])
  }

  function TrimSpace(s: string): string {
    TrimRight(TrimLeft(s))
  }

  predicate AllSpace(s: string) {
    forall i | 0 <= i < |s| :: IsSpace(s[i])
  }

  /** What trimming takes off lies around the result and is white space. */
  lemma TrimParts(s: string) returns (left: string, right: string)
    ensures s == left + TrimSpace(s) + right && AllSpace(left) && AllSpace(right)
    ensures TrimSpace(s) != "" ==> !IsSpace(TrimSpace(s)[0]) && !IsSpace(TrimSpace(s)[|TrimSpace(s)| - 1])
  {
    left := LeftPart(s);
    right := RightPart(TrimLeft(s));
    var t := TrimSpace(s);
    assert t != "" ==> t[0] == TrimLeft(s)[0];
  }

  lemma {:induction false} LeftPart(s: string) returns (left: string)
    ensures s == left + TrimLeft(s) && AllSpace(left)
    ensures TrimLeft(s) != "" ==> !IsSpace(TrimLeft(s)[0])
  {
    left := "";
    if s != "" && IsSpace(s[0]) {
      left := LeftPart(s[1..]);
      left := [s[0]] + left;
      assert s == [s[0]] + s[1..];
    }
  }

  lemma {:induction false} RightPart(s: string) returns (right: string)
    ensures s == TrimRight(s) + right && AllSpace(right)
    ensures TrimRight(s) != "" ==> !IsSpace(TrimRight(s)[|TrimRight(s)| - 1])
  {
    right := "";
    if s != "" && IsSpace(s[|s| - 1]) {
      right := RightPart(s[..|s| - 1]);
      right := right + [s[|s| - 1]];
      assert s == s[..|s| - 1] + [s[|s| - 1]];
    }
  }

  /** Text between white space, with no white space at its ends, is what trimming leaves. */
  lemma {:induction false} TrimIs(left: string, t: string, right: string)
    requires AllSpace(left) && AllSpace(right)
    requires t != "" ==> !IsSpace(t[0]) && !IsSpace(t[|t| - 1])
    ensures TrimSpace(left + t + right) == t
  {
    if t == "" {
      TrimLeftIs(left + right, "");
      assert left + t + right == left + right + "";
    } else {
      TrimLeftIs(left, t + right);
      assert left + t + right == left + (t + right);
      TrimRightIs(t, right);
    }
  }

  lemma {:induction false} TrimLeftIs(left: string, t: string)
    requires AllSpace(left) && (t == "" || !IsSpace(t[0]))
    ensures TrimLeft(left + t) == t
  {
    if left == "" {
      assert left + t == t;
    } else {
      TrimLeftIs(left[1..], t);
      assert (left + t)[1..] == left[1..] + t;
    }
  }

  lemma {:induction false} TrimRightIs(t: string, right: string)
    requires AllSpace(right) && (t == "" || !IsSpace(t[|t| - 1]))
    ensures TrimRight(t + right) == t
  {
    if right == "" {
      assert t + right == t;
    } else {
      TrimRightIs(t, right[..|right| - 1]);
      assert (t + right)[..|t + right| - 1] == t + right[..|right| - 1];
    }
  }

  /** White space around a text does not change what trimming leaves. */
  lemma TrimAbsorbs(left: string, s: string, right: string)
    requires AllSpace(left) && AllSpace(right)
    ensures TrimSpace(left + s + right) == TrimSpace(s)
  {
    var l, r := TrimParts(s);
    TrimIs(left + l, TrimSpace(s), r + right);
    assert left + s + right == (left + l) + TrimSpace(s) + (r + right);
  }

  lemma BlankTrims()
    ensures TrimSpace("") == ""
  {
  }

  lemma TrimTwice(s: string)
    ensures TrimSpace(TrimSpace(s)) == TrimSpace(s)
  {
    var _, _ := TrimParts(s);
    TrimIs("", TrimSpace(s), "");
    assert "" + TrimSpace(s) + "" == TrimSpace(s);
  }

  function Flatten(parts: seq<string>): string {
    if parts == [] then "" else parts[0] + Flatten(parts[1..])
  }

  lemma {:induction false} FlattenConcat(a: seq<string>, b: seq<string>)
    ensures Flatten(a + b) == Flatten(a) + Flatten(b)
  {
    if a == [] {
      assert a + b == b;
    } else {
      FlattenConcat(a[1..], b);
      assert (a + b)[1..] == a[1..] + b;
      hide Flatten;
      Associate(a[0], Flatten(a[1..]), Flatten(b));
    }
  }

  lemma Associate(a: string, b: string, c: string)
    ensures a + (b + c) == a + b + c
  {
  }

  lemma FlattenTwo(a: string, b: string)
    ensures Flatten([a]) == a && Flatten([a, b]) == a + b
  {
    assert [a][1..] == [] && [a, b][1..] == [b] && [b][1..] == [];
    assert a + "" == a && b + "" == b;
  }

  function Repeat(c: char, n: nat): (s: string)
    ensures |s| == n
  {
    seq(n, _ => c)
  }

  predicate OccursAt(s: string, pattern: string, i: int) {
    0 <= i && i + |pattern| <= |s| && s[i..i + |pattern|] == pattern
  }

  /** The first position of `pattern` in `s`, or -1. */
  function IndexOf(s: string, pattern: string): (r: int)
    ensures -1 <= r && (r >= 0 ==> r + |pattern| <= |s|)
  {
    IndexFrom(s, pattern, 0)
  }

  function IndexFrom(s: string, pattern: string, from: nat): (r: int)
    requires from <= |s|
    ensures r == -1 || (from <= r && r + |pattern| <= |s|)
    decreases |s| - from
  {
    if OccursAt(s, pattern, from) then from
    else if from == |s| then -1
    else IndexFrom(s, pattern, from + 1)
  }

  lemma {:induction false} IndexFromFirst(s: string, pattern: string, from: nat)
    requires from <= |s|
    ensures var r := IndexFrom(s, pattern, from);
            && (r >= 0 ==> OccursAt(s, pattern, r))
            && forall i | from <= i && (r < 0 || i < r) :: !OccursAt(s, pattern, i)
    decreases |s| - from
  {
    if !OccursAt(s, pattern, from) && from < |s| {
      IndexFromFirst(s, pattern, from + 1);
    }
  }

  /** The index is an occurrence, and no occurrence comes before it. */
  lemma IndexFirst(s: string, pattern: string)
    ensures var r := IndexOf(s, pattern);
            && (r >= 0 ==> OccursAt(s, pattern, r))
            && forall i | 0 <= i && (r < 0 || i < r) :: !OccursAt(s, pattern, i)
  {
    IndexFromFirst(s, pattern, 0);
  }

  /** A first occurrence is the index. */
  lemma IndexIs(s: string, pattern: string, r: nat)
    requires OccursAt(s, pattern, r)
    requires forall i | 0 <= i < r :: !OccursAt(s, pattern, i)
    ensures IndexOf(s, pattern) == r
  {
    IndexFirst(s, pattern);
  }

  /** Position of a one-character pattern. */
  lemma FirstChar(s: string, c: char, i: nat)
    requires i < |s| && s[i] == c && c !in s[..i]
    ensures IndexOf(s, [c]) == i
  {
    assert s[i..i + 1] == [c];
    forall j | 0 <= j < i ensures !OccursAt(s, [c], j) {
      assert s[j] in s[..i];
      assert s[j..j + 1][0] == s[j];
    }
    IndexIs(s, [c], i);
  }

  /** The index of a character that occurs holds it, and no earlier position does. */
  lemma CharIndex(s: string, c: char)
    ensures IndexOf(s, [c]) < 0 <==> c !in s
    ensures IndexOf(s, [c]) >= 0 ==> s[IndexOf(s, [c])] == c && c !in s[..IndexOf(s, [c])]
  {
    IndexFirst(s, [c]);
    var i := IndexOf(s, [c]);
    if i >= 0 {
      assert s[i..i + 1][0] == c;
    }
    forall j | 0 <= j < |s| && (i < 0 || j < i) ensures s[j] != c {
      assert !OccursAt(s, [c], j);
      assert s[j..j + 1] == [s[j]];
    }
  }

  /** A string falls into what stands before its first occurrence of a pattern, the pattern and the rest. */
  lemma SplitAtIndex(s: string, pattern: string)
    requires IndexOf(s, pattern) >= 0
    ensures var i := IndexOf(s, pattern);
            s == s[..i] + pattern + s[i + |pattern|..]
  {
    IndexFirst(s, pattern);
  }

  /** Text behind `a` does not move the first occurrence of a pattern in `a`. */
  lemma IndexInFront(a: string, tail: string, pattern: string)
    requires IndexOf(a, pattern) >= 0
    ensures IndexOf(a + tail, pattern) == IndexOf(a, pattern)
  {
    IndexFirst(a, pattern);
    var s, i := a + tail, IndexOf(a, pattern);
    forall j | 0 <= j <= i ensures OccursAt(s, pattern, j) <==> OccursAt(a, pattern, j) {
      assert s[j..j + |pattern|] == a[j..j + |pattern|];
    }
    IndexIs(s, pattern, i);
  }

  /** Decimal digits, as `strconv.Itoa` writes a non-negative number. */
  function Itoa(n: nat): (s: string)
    ensures |s| > 0
    ensures forall i | 0 <= i < |s| :: '0' <= s[i] <= '9'
  {
    if n < 10 then ["0123456789"[n]] else Itoa(n / 10) + ["0123456789"[n % 10]]
  }

  function ParseNat(s: string): nat
    requires forall i | 0 <= i < |s| :: '0' <= s[i] <= '9'
  {
    if s == "" then 0 else 10 * ParseNat(s[..|s| - 1]) + (s[|s| - 1] - '0') as int
  }

  lemma {:induction false} ParseItoa(n: nat)
    ensures ParseNat(Itoa(n)) == n
  {
    var digits := Itoa(n);
    assert (digits[|digits| - 1] - '0') as int == n % 10;
    if n >= 10 {
      ParseItoa(n / 10);
      assert digits[..|digits| - 1] == Itoa(n / 10);
    } else {
      assert digits[..|digits| - 1] == "";
    }
  }
}
