/**
 * The throttle on repeated failure rows of the audit log: a key is let through once a cooldown, and stale keys are
 * evicted when the table grows too large.
 */
module Throttle {

  const CAPACITY := 4096

  datatype Call = Call(key: string, cooldown: int, now: int)

  type Table = map<string, int>

  // ---------------------------------------------------------------- specification

  predicate Unthrottled(c: Call) {
    c.cooldown <= 0 || c.key == ""
  }

  predicate Denies(last: Table, c: Call) {
    !Unthrottled(c) && c.key in last && c.now - last[c.key] < c.cooldown
  }

  function Evict(last: Table, c: Call): Table {
    map k | k in last && !(c.now - last[k] > 2 * c.cooldown) :: last[k]
  }

  /** The table of a throttle that never evicts. */
  function Record(last: Table, c: Call): Table {
    if Unthrottled(c) || Denies(last, c) then last else last[c.key := c.now]
  }

  /** The table of the throttle as it is: recording may be followed by an eviction. */
  function RecordAndEvict(last: Table, c: Call): Table {
    var recorded := Record(last, c);
    if !Unthrottled(c) && !Denies(last, c) && |recorded| > CAPACITY then Evict(recorded, c) else recorded
  }

  function Run(calls: seq<Call>): Table {
    if calls == [] then map[] else RecordAndEvict(Run(calls[..|calls| - 1]), calls[|calls| - 1])
  }

  function PlainRun(calls: seq<Call>): Table {
    if calls == [] then map[] else Record(PlainRun(calls[..|calls| - 1]), calls[|calls| - 1])
  }

  /** Whether call `n` is let through. */
  predicate Allowed(calls: seq<Call>, n: nat)
    requires n < |calls|
  {
    !Denies(Run(calls[..n]), calls[n])
  }

  predicate PlainAllowed(calls: seq<Call>, n: nat)
    requires n < |calls|
  {
    !Denies(PlainRun(calls[..n]), calls[n])
  }

  // ---------------------------------------------------------------- the operation

  class FailureThrottle {
    var last: Table

    constructor ()
      ensures last == map[]
    {
      last := map[];
    }

    method Allow(key: string, cooldown: int, now: int) returns (allowed: bool)
      modifies this
      ensures allowed == !Denies(old(last), Call(key, cooldown, now))
      ensures last == RecordAndEvict(old(last), Call(key, cooldown, now))
    {
      if cooldown <= 0 || key == "" {
        return true;
      }
      if key in last && now - last[key] < cooldown {
        return false;
      }
      last := last[key := now];
      ghost var recorded := last;
      if |last| > CAPACITY {
        var keys := last.Keys;
        while keys != {}
          invariant keys <= last.Keys
          invariant forall k :: k in last <==> k in recorded && (k in keys || !(now - recorded[k] > 2 * cooldown))
          invariant forall k | k in last :: last[k] == recorded[k]
          decreases |keys|
        {
          var k :| k in keys;
          if now - last[k] > cooldown * 2 {
            last := last - {k};
          }
          keys := keys - {k};
        }
        assert last == Evict(recorded, Call(key, cooldown, now));
      }
      allowed := true;
    }
  }

  // ---------------------------------------------------------------- what the plain throttle decides

  ghost predicate ClockRises(calls: seq<Call>) {
    forall i, j | 0 <= i < j < |calls| :: calls[i].now <= calls[j].now
  }

  /** Call `i` wrote a row that call `n` is too close to. */
  ghost predicate Blocks(calls: seq<Call>, i: nat, n: nat)
    requires i < n < |calls|
  {
    && calls[i].cooldown > 0 && calls[i].key != "" && PlainAllowed(calls, i)
    && calls[i].key == calls[n].key && calls[n].now - calls[i].now < calls[n].cooldown
  }

  /** The table holds, for each key, the time of its last allowed call. */
  lemma {:induction false} PlainTable(calls: seq<Call>, key: string) returns (i: int)
    ensures key in PlainRun(calls) <==> i >= 0
    ensures i >= 0 ==>
              && i < |calls| && !Unthrottled(calls[i]) && PlainAllowed(calls, i)
              && calls[i].key == key && PlainRun(calls)[key] == calls[i].now
    ensures forall j | i < j < |calls| && 0 <= j && calls[j].key == key ::
              Unthrottled(calls[j]) || !PlainAllowed(calls, j)
  {
    i := -1;
    if calls != [] {
      var n := |calls| - 1;
      i := PlainTable(calls[..n], key);
      assert forall j | 0 <= j < n :: calls[..n][..j] == calls[..j];
      if calls[n].key == key && !Unthrottled(calls[n]) && PlainAllowed(calls, n) {
        i := n;
      }
    }
  }

  /**
   * A call is denied exactly when an earlier allowed call with its key is less than its cooldown away. Calls without a
   * key or a cooldown are never denied, and deny nothing.
   */
  lemma PlainDeniedIff(calls: seq<Call>, n: nat)
    requires ClockRises(calls) && n < |calls|
    ensures !PlainAllowed(calls, n)
            <==> calls[n].cooldown > 0 && calls[n].key != "" && exists i: nat :: i < n && Blocks(calls, i, n)
  {
    var last := PlainTable(calls[..n], calls[n].key);
    assert forall j | 0 <= j < n :: calls[..n][..j] == calls[..j];
    if last >= 0 {
      assert PlainAllowed(calls, last);
      if !PlainAllowed(calls, n) {
        assert Blocks(calls, last, n);
      }
    }
    forall i: nat | i < n && Blocks(calls, i, n) && !Unthrottled(calls[n]) ensures !PlainAllowed(calls, n) {
      assert PlainAllowed(calls[..n], i);
      assert last >= i;
      assert calls[last].now >= calls[i].now;
    }
  }

  // ---------------------------------------------------------------- eviction

  /** Every effective cooldown is at least `low` and at most one tick over twice `low`. */
  ghost predicate CooldownsWithin(calls: seq<Call>, low: int) {
    low > 0 && forall i | 0 <= i < |calls| && calls[i].cooldown > 0 :: low <= calls[i].cooldown <= 2 * low + 1
  }

  /** The evicting table is part of the plain one; what it lacks is too old to deny anything. */
  ghost predicate Simulates(evicting: Table, plain: Table, now: int, low: int) {
    forall k | k in evicting || k in plain ::
      && k in plain
      && (k in evicting ==> evicting[k] == plain[k])
      && (k !in evicting ==> now - plain[k] > 2 * low)
  }

  lemma StepSimulates(evicting: Table, plain: Table, before: int, c: Call, low: int)
    requires Simulates(evicting, plain, before, low) && before <= c.now
    requires low > 0 && (c.cooldown > 0 ==> low <= c.cooldown <= 2 * low + 1)
    ensures Denies(evicting, c) <==> Denies(plain, c)
    ensures Simulates(RecordAndEvict(evicting, c), Record(plain, c), c.now, low)
  {
    var recorded := Record(evicting, c);
    assert Simulates(recorded, Record(plain, c), c.now, low);
  }

  lemma {:induction false} RunSimulates(calls: seq<Call>, now: int, low: int)
    requires ClockRises(calls) && CooldownsWithin(calls, low)
    requires calls != [] ==> calls[|calls| - 1].now <= now
    ensures Simulates(Run(calls), PlainRun(calls), now, low)
  {
    if calls != [] {
      var n := |calls| - 1;
      RunSimulates(calls[..n], calls[n].now, low);
      StepSimulates(Run(calls[..n]), PlainRun(calls[..n]), calls[n].now, calls[n], low);
    }
  }

  /** Within one such range of cooldowns, eviction changes no decision of any run. */
  lemma EvictionUnobservable(calls: seq<Call>, n: nat, low: int)
    requires ClockRises(calls) && CooldownsWithin(calls, low) && n < |calls|
    ensures Allowed(calls, n) <==> PlainAllowed(calls, n)
  {
    RunSimulates(calls[..n], calls[n].now, low);
    StepSimulates(Run(calls[..n]), PlainRun(calls[..n]), calls[n].now, calls[n], low);
  }

  /** Two allowed rows of one key are at least a cooldown apart, evictions or not. */
  lemma AllowedRowsApart(calls: seq<Call>, i: nat, n: nat, low: int)
    requires ClockRises(calls) && CooldownsWithin(calls, low) && i < n < |calls|
    requires calls[i].key == calls[n].key != "" && calls[i].cooldown > 0 && calls[n].cooldown > 0
    requires Allowed(calls, i) && Allowed(calls, n)
    ensures calls[n].now - calls[i].now >= calls[n].cooldown
  {
    EvictionUnobservable(calls, i, low);
    EvictionUnobservable(calls, n, low);
    PlainDeniedIff(calls, n);
    assert !Blocks(calls, i, n);
  }

  // ---------------------------------------------------------------- the range is the widest possible

  /** Filler keys, all different and different from "k". */
  function Filler(i: nat): (key: string)
    ensures |key| == i + 2
  {
    seq(i + 2, _ => 'x')
  }

  lemma RunAppend(calls: seq<Call>, c: Call)
    ensures Run(calls + [c]) == RecordAndEvict(Run(calls), c)
    ensures PlainRun(calls + [c]) == Record(PlainRun(calls), c)
  {
    assert (calls + [c])[..|calls|] == calls;
  }

  /** One call for "k", then `n` filler calls at the first moment that makes "k" stale for them. */
  function Flood(low: int, high: int, n: nat): (calls: seq<Call>)
    ensures |calls| == n + 1
  {
    if n == 0 then [Call("k", high, 0)] else Flood(low, high, n - 1) + [Call(Filler(n - 1), low, 2 * low + 1)]
  }

  lemma {:induction false} FloodTable(low: int, high: int, n: nat)
    requires low > 0 && high > 0
    ensures n < CAPACITY ==> Run(Flood(low, high, n)) == PlainRun(Flood(low, high, n))
    ensures |PlainRun(Flood(low, high, n))| == n + 1
    ensures "k" in PlainRun(Flood(low, high, n)) && PlainRun(Flood(low, high, n))["k"] == 0
    ensures forall i: nat | i >= n :: Filler(i) !in PlainRun(Flood(low, high, n))
  {
    if n == 0 {
      assert Flood(low, high, 0) == [] + [Call("k", high, 0)];
      RunAppend([], Call("k", high, 0));
    } else {
      FloodTable(low, high, n - 1);
      var c := Call(Filler(n - 1), low, 2 * low + 1);
      var before := Flood(low, high, n - 1);
      assert Flood(low, high, n) == before + [c];
      assert |c.key| >= 2 && |"k"| == 1;
      RunAppend(before, c);
      hide Flood, Run, PlainRun, Evict;
      var plain := PlainRun(before);
      assert c.key !in plain && !Denies(plain, c);
      assert |plain[c.key := c.now]| == |plain| + 1;
    }
  }

  /** With a cooldown two ticks over twice another one, some run lets a call through that should be denied. */
  lemma EvictionObservable(low: int, high: int)
    requires low > 0 && high >= 2 * low + 2
    ensures var calls := Flood(low, high, 4096) + [Call("k", high, 2 * low + 1)];
            Allowed(calls, 4097) && !PlainAllowed(calls, 4097)
  {
    var flood := Flood(low, high, CAPACITY - 1);
    var c := Call(Filler(CAPACITY - 1), low, 2 * low + 1);
    FloodTable(low, high, CAPACITY - 1);
    FloodTable(low, high, CAPACITY);
    RunAppend(flood, c);
    assert Flood(low, high, CAPACITY) == flood + [c];
    assert "k" !in Run(flood + [c]);
    assert (flood + [c] + [Call("k", high, 2 * low + 1)])[..CAPACITY + 1] == flood + [c];
  }
}
