/**
 * Fitting an attack-chain prompt into the model's context window: the token budget, the binary searches that
 * cut a text to a number of tokens, and the ladder of limits that shortens tool output before that.
 */
module TokenBudget {
  import opened BodyCompaction
  import opened Text

  const TRUNCATION_MARKER := "\n\n...[攻击链输入已截断 / attack chain input truncated]...\n\n"
  const SYSTEM_RESERVE := 256
  const SAFETY_RESERVE := 2048
  const LADDER: seq<nat> := [12000, 6000, 3000, 1500, 800]

  /** The token counter of the configured model; only non-blank texts reach it. */
  type Counter = string -> nat

  datatype Builder = Builder(maxTokens: int, counter: Counter, template: string)

  function CountTokens(counter: Counter, text: string): nat {
    if text == "" then 0 else counter(text)
  }

  // ---------------------------------------------------------------- budget arithmetic

  function MaxTotal(b: Builder): nat {
    if b.maxTokens <= 0 then 100000 else b.maxTokens
  }

  function MaxCompletionTokens(maxTotal: int): nat {
    if maxTotal <= 0 then 8192
    else
      var v := maxTotal / 8;
      var v := if v < 4096 then 4096 else v;
      if v > 16384 then 16384 else v
  }

  function Reserve(b: Builder): nat {
    CountTokens(b.counter, b.template) + SYSTEM_RESERVE + MaxCompletionTokens(MaxTotal(b)) + SAFETY_RESERVE
  }

  function PayloadBudget(b: Builder): (budget: nat)
    ensures budget >= 4096 && ModelBudget(budget) + 512 <= budget
  {
    var budget := MaxTotal(b) - Reserve(b);
    var minBudget := MaxTotal(b) * 35 / 100;
    var budget := if budget < minBudget then minBudget else budget;
    if budget < 4096 then 4096 else budget
  }

  /** The raw budget is below one of the two floors that lift it. */
  predicate FloorApplies(b: Builder) {
    MaxTotal(b) - Reserve(b) < MaxTotal(b) * 35 / 100 || MaxTotal(b) - Reserve(b) < 4096
  }

  /** The reserves and the payload fit the context window exactly when no floor lifts the budget. */
  lemma WindowFitsIff(b: Builder)
    ensures Reserve(b) + PayloadBudget(b) <= MaxTotal(b) <==> !FloorApplies(b)
  {
  }

  // ---------------------------------------------------------------- binary searches

  /** The upper-half search for a prefix within the budget. */
  function SearchPrefix(counter: Counter, text: string, maxTokens: nat, lo: nat, hi: nat): (k: nat)
    requires lo <= hi <= |text|
    ensures lo <= k <= hi
    decreases hi - lo
  {
    if lo == hi then lo
    else
      var mid := (lo + hi + 1) / 2;
      if CountTokens(counter, text[..mid]) <= maxTokens then SearchPrefix(counter, text, maxTokens, mid, hi)
      else SearchPrefix(counter, text, maxTokens, lo, mid - 1)
  }

  /** The lower-half search for a suffix within the budget. */
  function SearchSuffix(counter: Counter, text: string, maxTokens: nat, lo: nat, hi: nat): (k: nat)
    requires lo <= hi <= |text|
    ensures lo <= k <= hi
    decreases hi - lo
  {
    if lo == hi then lo
    else
      var mid := (lo + hi) / 2;
      if CountTokens(counter, text[mid..]) <= maxTokens then SearchSuffix(counter, text, maxTokens, lo, mid)
      else SearchSuffix(counter, text, maxTokens, mid + 1, hi)
  }

  function TakeStart(counter: Counter, text: string, maxTokens: int): string {
    if text == "" || maxTokens <= 0 then "" else text[..SearchPrefix(counter, text, maxTokens, 0, |text|)]
  }

  function TakeEnd(counter: Counter, text: string, maxTokens: int): string {
    if text == "" || maxTokens <= 0 then "" else text[SearchSuffix(counter, text, maxTokens, 0, |text|)..]
  }

  method TakeTokensFromStart(counter: Counter, text: string, maxTokens: int) returns (r: string)
    ensures r == TakeStart(counter, text, maxTokens)
  {
    if |text| == 0 || maxTokens <= 0 {
      return "";
    }
    hide CountTokens;
    var lo, hi := 0, |text|;
    while lo < hi
      invariant 0 <= lo <= hi <= |text|
      invariant SearchPrefix(counter, text, maxTokens, lo, hi) == SearchPrefix(counter, text, maxTokens, 0, |text|)
    {
      var mid := (lo + hi + 1) / 2;
      if CountTokens(counter, text[..mid]) <= maxTokens {
        lo := mid;
      } else {
        hi := mid - 1;
      }
    }
    r := text[..lo];
  }

  method TakeTokensFromEnd(counter: Counter, text: string, maxTokens: int) returns (r: string)
    ensures r == TakeEnd(counter, text, maxTokens)
  {
    if |text| == 0 || maxTokens <= 0 {
      return "";
    }
    hide CountTokens;
    var lo, hi := 0, |text|;
    while lo < hi
      invariant 0 <= lo <= hi <= |text|
      invariant SearchSuffix(counter, text, maxTokens, lo, hi) == SearchSuffix(counter, text, maxTokens, 0, |text|)
    {
      var mid := (lo + hi) / 2;
      assert lo <= mid < hi;
      if CountTokens(counter, text[mid..]) <= maxTokens {
        hi := mid;
      } else {
        lo := mid + 1;
      }
    }
    r := text[lo..];
  }

  /** A prefix within the budget that one more rune would push over, or the whole text. */
  ghost predicate TightPrefix(counter: Counter, text: string, maxTokens: nat, k: nat)
    requires k <= |text|
  {
    && CountTokens(counter, text[..k]) <= maxTokens
    && (k == |text| || CountTokens(counter, text[..k + 1]) > maxTokens)
  }

  ghost predicate TightSuffix(counter: Counter, text: string, maxTokens: nat, k: nat)
    requires k <= |text|
  {
    && CountTokens(counter, text[k..]) <= maxTokens
    && (k == 0 || CountTokens(counter, text[k - 1..]) > maxTokens)
  }

  /** Whatever the counter, the search ends at a tight prefix. */
  lemma {:induction false} SearchPrefixTight(counter: Counter, text: string, maxTokens: nat, lo: nat, hi: nat)
    requires lo <= hi <= |text|
    requires CountTokens(counter, text[..lo]) <= maxTokens
    requires hi == |text| || CountTokens(counter, text[..hi + 1]) > maxTokens
    ensures TightPrefix(counter, text, maxTokens, SearchPrefix(counter, text, maxTokens, lo, hi))
    decreases hi - lo
  {
    hide CountTokens;
    if lo < hi {
      var mid := (lo + hi + 1) / 2;
      if CountTokens(counter, text[..mid]) <= maxTokens {
        SearchPrefixTight(counter, text, maxTokens, mid, hi);
      } else {
        SearchPrefixTight(counter, text, maxTokens, lo, mid - 1);
      }
    }
  }

  lemma {:induction false} SearchSuffixTight(counter: Counter, text: string, maxTokens: nat, lo: nat, hi: nat)
    requires lo <= hi <= |text|
    requires CountTokens(counter, text[hi..]) <= maxTokens
    requires lo == 0 || CountTokens(counter, text[lo - 1..]) > maxTokens
    ensures TightSuffix(counter, text, maxTokens, SearchSuffix(counter, text, maxTokens, lo, hi))
    decreases hi - lo
  {
    hide CountTokens;
    if lo < hi {
      var mid := (lo + hi) / 2;
      assert lo <= mid < hi;
      if CountTokens(counter, text[mid..]) <= maxTokens {
        SearchSuffixTight(counter, text, maxTokens, lo, mid);
      } else {
        SearchSuffixTight(counter, text, maxTokens, mid + 1, hi);
      }
    }
  }

  /** The head kept of a text is a tight prefix of it. */
  lemma TakeStartTight(counter: Counter, text: string, maxTokens: nat)
    requires maxTokens > 0
    ensures var r := TakeStart(counter, text, maxTokens);
            r <= text && TightPrefix(counter, text, maxTokens, |r|)
  {
    if text != "" {
      assert text[..0] == "";
      SearchPrefixTight(counter, text, maxTokens, 0, |text|);
    }
  }

  /** The tail kept of a text is a tight suffix of it. */
  lemma TakeEndTight(counter: Counter, text: string, maxTokens: nat)
    requires maxTokens > 0
    ensures var r := TakeEnd(counter, text, maxTokens);
            |r| <= |text| && r == text[|text| - |r|..] && TightSuffix(counter, text, maxTokens, |text| - |r|)
  {
    if text != "" {
      assert text[|text|..] == "";
      SearchSuffixTight(counter, text, maxTokens, 0, |text|);
    }
  }

  /** A counter for which dropping runes never costs tokens. */
  ghost predicate Monotone(counter: Counter) {
    forall a: string, b: string :: CountTokens(counter, a) <= CountTokens(counter, a + b)
                                   && CountTokens(counter, b) <= CountTokens(counter, a + b)
  }

  /** With a monotone counter the head taken is the longest prefix within the budget. */
  lemma HeadIsLongest(counter: Counter, text: string, maxTokens: nat, k: nat)
    requires Monotone(counter) && maxTokens > 0 && k <= |text|
    ensures CountTokens(counter, text[..k]) <= maxTokens <==> k <= |TakeStart(counter, text, maxTokens)|
  {
    TakeStartTight(counter, text, maxTokens);
    var head := |TakeStart(counter, text, maxTokens)|;
    if k <= head {
      assert CountTokens(counter, text[..k]) <= CountTokens(counter, text[..head]) by {
        assert text[..head] == text[..k] + text[k..head];
      }
    } else {
      assert CountTokens(counter, text[..head + 1]) <= CountTokens(counter, text[..k]) by {
        assert text[..k] == text[..head + 1] + text[head + 1..k];
      }
    }
  }

  lemma SuffixCost(counter: Counter, text: string, i: nat, j: nat)
    requires Monotone(counter) && i <= j <= |text|
    ensures CountTokens(counter, text[j..]) <= CountTokens(counter, text[i..])
  {
    assert text[i..] == text[i..j] + text[j..];
  }

  /** With a monotone counter the tail taken is the longest suffix within the budget. */
  lemma TailIsLongest(counter: Counter, text: string, maxTokens: nat, k: nat)
    requires Monotone(counter) && maxTokens > 0 && k <= |text|
    ensures CountTokens(counter, text[k..]) <= maxTokens <==> |text| - k <= |TakeEnd(counter, text, maxTokens)|
  {
    TakeEndTight(counter, text, maxTokens);
    var tail := |text| - |TakeEnd(counter, text, maxTokens)|;
    if tail <= k {
      SuffixCost(counter, text, tail, k);
    } else {
      SuffixCost(counter, text, k, tail - 1);
    }
  }

  // ---------------------------------------------------------------- truncation

  /** The tokens left for head and tail; when too few are left the marker is not paid for. */
  function UsableTokens(counter: Counter, maxTokens: nat, marker: string): nat {
    var usable := maxTokens - CountTokens(counter, marker);
    if usable < 256 then maxTokens / 2 else usable
  }

  function Truncate(counter: Counter, text: string, maxTokens: int, marker: string): string {
    if maxTokens <= 0 || text == "" then ""
    else if CountTokens(counter, text) <= maxTokens then text
    else
      var usable := UsableTokens(counter, maxTokens, marker);
      var headBudget := usable * 60 / 100;
      TakeStart(counter, text, headBudget) + marker + TakeEnd(counter, text, usable - headBudget)
  }

  method TruncateTextByTokens(counter: Counter, text: string, maxTokens: int, marker: string) returns (r: string)
    ensures r == Truncate(counter, text, maxTokens, marker)
  {
    hide TakeStart, TakeEnd, CountTokens;
    if maxTokens <= 0 || text == "" {
      return "";
    }
    if CountTokens(counter, text) <= maxTokens {
      return text;
    }
    var usable := maxTokens - CountTokens(counter, marker);
    if usable < 256 {
      usable := maxTokens / 2;
    }
    var headBudget := usable * 60 / 100;
    var head := TakeTokensFromStart(counter, text, headBudget);
    var tail := TakeTokensFromEnd(counter, text, usable - headBudget);
    r := head + marker + tail;
  }

  /** Joining two texts costs at most `slack` tokens more than the texts cost apart. */
  ghost predicate Subadditive(counter: Counter, slack: nat) {
    forall a: string, b: string ::
      CountTokens(counter, a + b) <= CountTokens(counter, a) + CountTokens(counter, b) + slack
  }

  lemma TakenWithinBudget(counter: Counter, text: string, maxTokens: nat)
    ensures CountTokens(counter, TakeStart(counter, text, maxTokens)) <= maxTokens
    ensures CountTokens(counter, TakeEnd(counter, text, maxTokens)) <= maxTokens
  {
    if maxTokens > 0 {
      TakeStartTight(counter, text, maxTokens);
      TakeEndTight(counter, text, maxTokens);
    }
  }

  lemma JoinBound(counter: Counter, a: string, b: string, c: string, slack: nat)
    requires Subadditive(counter, slack)
    ensures CountTokens(counter, a + b + c)
            <= CountTokens(counter, a) + CountTokens(counter, b) + CountTokens(counter, c) + 2 * slack
  {
    var ab := a + b;
    assert CountTokens(counter, ab) <= CountTokens(counter, a) + CountTokens(counter, b) + slack;
    assert CountTokens(counter, ab + c) <= CountTokens(counter, ab) + CountTokens(counter, c) + slack;
  }

  /** A truncated text stays within its budget, up to the slack of its two joints. */
  lemma TruncateBound(counter: Counter, text: string, maxTokens: nat, marker: string, slack: nat)
    requires Subadditive(counter, slack)
    requires CountTokens(counter, marker) <= 256 && maxTokens >= 512
    ensures CountTokens(counter, Truncate(counter, text, maxTokens, marker)) <= maxTokens + 2 * slack
  {
    if text != "" && CountTokens(counter, text) > maxTokens {
      var usable := UsableTokens(counter, maxTokens, marker);
      var headBudget := usable * 60 / 100;
      var head, tail := TakeStart(counter, text, headBudget), TakeEnd(counter, text, usable - headBudget);
      assert Truncate(counter, text, maxTokens, marker) == head + marker + tail;
      hide Truncate, TakeStart, TakeEnd, CountTokens, Subadditive;
      TakenWithinBudget(counter, text, headBudget);
      TakenWithinBudget(counter, text, usable - headBudget);
      JoinBound(counter, head, marker, tail, slack);
    }
  }

  // ---------------------------------------------------------------- the whole fit

  /** Shortens tool output with ever smaller limits until the text is within its budget. */
  function Descend(counter: Counter, text: string, budget: nat, limits: seq<nat>): string
    decreases |limits|, |text|
  {
    if limits == [] then text
    else
      var shorter := Compact(text, limits[0]);
      if CountTokens(counter, shorter) <= budget then shorter
      else Descend(counter, shorter, budget, limits[1..])
  }

  function ModelBudget(budget: nat): nat {
    var share := budget * 15 / 100;
    if share < 512 then 512 else share
  }

  /** A text that is over its budget is truncated to it. */
  function Within(counter: Counter, text: string, budget: nat, marker: string): string {
    if CountTokens(counter, text) > budget then Truncate(counter, text, budget, marker) else text
  }

  function FitModel(b: Builder, modelOutput: string): string {
    Within(b.counter, modelOutput, ModelBudget(PayloadBudget(b)), TRUNCATION_MARKER)
  }

  function FitTrace(counter: Counter, text: string, budget: nat, limits: seq<nat>, marker: string): string {
    Within(counter, Descend(counter, text, budget, limits), budget, marker)
  }

  function ReactBudget(b: Builder): nat {
    PayloadBudget(b) - ModelBudget(PayloadBudget(b))
  }

  function FitReact(b: Builder, reactInput: string): string {
    FitTrace(b.counter, reactInput, ReactBudget(b), LADDER, TRUNCATION_MARKER)
  }

  method DescendLadder(counter: Counter, text: string, budget: nat, limits: seq<nat>)
    returns (r: string, changed: bool)
    ensures r == Descend(counter, text, budget, limits)
    ensures !changed ==> r == text
  {
    r, changed := text, false;
    for i := 0 to |limits|
      invariant Descend(counter, r, budget, limits[i..]) == Descend(counter, text, budget, limits)
      invariant !changed ==> r == text
    {
      var compact := CompactFormattedToolBodies(r, limits[i]);
      assert limits[i..][1..] == limits[i + 1..];
      if compact != r {
        r := compact;
        changed := true;
      }
      if CountTokens(counter, r) <= budget {
        return;
      }
    }
  }

  method TruncateIfOver(counter: Counter, text: string, budget: nat, marker: string)
    returns (r: string, changed: bool)
    ensures r == Within(counter, text, budget, marker)
    ensures !changed ==> r == text
  {
    r, changed := text, false;
    if CountTokens(counter, text) > budget {
      r := TruncateTextByTokens(counter, text, budget, marker);
      changed := true;
    }
  }

  method FitShares(counter: Counter, reactInput: string, modelOutput: string, budget: nat,
                   limits: seq<nat>, marker: string)
    returns (outReact: string, outModel: string, truncated: bool)
    requires ModelBudget(budget) <= budget
    ensures outReact == FitTrace(counter, reactInput, budget - ModelBudget(budget), limits, marker)
    ensures outModel == Within(counter, modelOutput, ModelBudget(budget), marker)
    ensures !truncated ==> outReact == reactInput && outModel == modelOutput
  {
    hide Within, ModelBudget, Descend;
    var modelBudget := ModelBudget(budget);
    var reactBudget := budget - modelBudget;
    var shortened, cut;
    outModel, truncated := TruncateIfOver(counter, modelOutput, modelBudget, marker);
    outReact, shortened := DescendLadder(counter, reactInput, reactBudget, limits);
    outReact, cut := TruncateIfOver(counter, outReact, reactBudget, marker);
    truncated := truncated || shortened || cut;
  }

  /** The trace and the model output, each cut to its share; `truncated` is false only if neither changed. */
  method FitAttackChainPayload(b: Builder, reactInput: string, modelOutput: string)
    returns (outReact: string, outModel: string, truncated: bool)
    ensures outReact == FitReact(b, reactInput) && outModel == FitModel(b, modelOutput)
    ensures !truncated ==> outReact == reactInput && outModel == modelOutput
  {
    outReact, outModel, truncated :=
      FitShares(b.counter, reactInput, modelOutput, PayloadBudget(b), LADDER, TRUNCATION_MARKER);
  }

  lemma WithinBound(counter: Counter, text: string, budget: nat, marker: string, slack: nat)
    requires Subadditive(counter, slack)
    requires CountTokens(counter, marker) <= 256 && budget >= 512
    ensures CountTokens(counter, Within(counter, text, budget, marker)) <= budget + 2 * slack
  {
    TruncateBound(counter, text, budget, marker, slack);
  }

  lemma SharesFit(counter: Counter, reactInput: string, modelOutput: string, budget: nat,
                  limits: seq<nat>, marker: string, slack: nat)
    requires Subadditive(counter, slack)
    requires CountTokens(counter, marker) <= 256 && ModelBudget(budget) + 512 <= budget
    ensures CountTokens(counter, FitTrace(counter, reactInput, budget - ModelBudget(budget), limits, marker))
            + CountTokens(counter, Within(counter, modelOutput, ModelBudget(budget), marker))
            <= budget + 4 * slack
  {
    var reactBudget := budget - ModelBudget(budget);
    WithinBound(counter, modelOutput, ModelBudget(budget), marker, slack);
    WithinBound(counter, Descend(counter, reactInput, reactBudget, limits), reactBudget, marker, slack);
  }

  /**
   * For every input, trace and output together stay within the payload budget, up to the slack of four joints:
   * exactly within it when the counter is subadditive.
   */
  lemma PayloadFits(b: Builder, reactInput: string, modelOutput: string, slack: nat)
    requires Subadditive(b.counter, slack)
    requires CountTokens(b.counter, TRUNCATION_MARKER) <= 256
    ensures CountTokens(b.counter, FitReact(b, reactInput)) + CountTokens(b.counter, FitModel(b, modelOutput))
            <= PayloadBudget(b) + 4 * slack
  {
    hide Subadditive, CountTokens, Within, Descend, LADDER, ModelBudget;
    SharesFit(b.counter, reactInput, modelOutput, PayloadBudget(b), LADDER, TRUNCATION_MARKER, slack);
  }

  /** The parts of the prompt, counted one by one, and the completion are within the context window. */
  predicate PartsFit(b: Builder, reactInput: string, modelOutput: string) {
    Reserve(b) + CountTokens(b.counter, FitReact(b, reactInput)) + CountTokens(b.counter, FitModel(b, modelOutput))
    <= MaxTotal(b)
  }

  /** With a subadditive counter and no floor in force, reserves, trace and output fit the context window. */
  lemma PromptFitsWindow(b: Builder, reactInput: string, modelOutput: string)
    requires Subadditive(b.counter, 0)
    requires CountTokens(b.counter, TRUNCATION_MARKER) <= 256
    requires !FloorApplies(b)
    ensures PartsFit(b, reactInput, modelOutput)
  {
    PayloadFits(b, reactInput, modelOutput, 0);
    WindowFitsIff(b);
  }

  /** A character that costs one token each time it is written. */
  ghost predicate CostsOne(counter: Counter, c: char) {
    forall n :: CountTokens(counter, Repeat(c, n)) == n
  }

  /** A text without a tool marker goes down the ladder as it is. */
  lemma {:induction false} DescentIdle(counter: Counter, text: string, budget: nat, limits: seq<nat>)
    requires '[' !in text
    ensures Descend(counter, text, budget, limits) == text
    decreases |limits|
  {
    if limits != [] {
      CompactionIdle(text, limits[0]);
      DescentIdle(counter, text, budget, limits[1..]);
    }
  }

  /** A trace and an output that use up their shares leave as they came. */
  lemma SharesUsedUp(b: Builder, c: char)
    requires CostsOne(b.counter, c) && c != '['
    ensures var trace, output := Repeat(c, ReactBudget(b)), Repeat(c, ModelBudget(PayloadBudget(b)));
            && FitReact(b, trace) == trace && FitModel(b, output) == output
            && CountTokens(b.counter, trace) + CountTokens(b.counter, output) == PayloadBudget(b)
  {
    hide PayloadBudget, LADDER, CountTokens;
    DescentIdle(b.counter, Repeat(c, ReactBudget(b)), ReactBudget(b), LADDER);
  }

  /**
   * Every trace and every output end up within the window, the parts counted one by one, exactly when no floor lifts
   * the payload budget: otherwise two texts that use up their shares are too long together.
   */
  lemma PartsAlwaysFitIff(b: Builder, c: char)
    requires Subadditive(b.counter, 0) && CountTokens(b.counter, TRUNCATION_MARKER) <= 256
    requires CostsOne(b.counter, c) && c != '['
    ensures (forall reactInput, modelOutput :: PartsFit(b, reactInput, modelOutput)) <==> !FloorApplies(b)
    ensures FloorApplies(b) ==> !PartsFit(b, Repeat(c, ReactBudget(b)), Repeat(c, ModelBudget(PayloadBudget(b))))
  {
    WindowFitsIff(b);
    SharesUsedUp(b, c);
    hide FloorApplies, PayloadBudget, FitReact, FitModel, Reserve, MaxTotal, ReactBudget, ModelBudget, CountTokens;
    if !FloorApplies(b) {
      forall reactInput, modelOutput ensures PartsFit(b, reactInput, modelOutput) {
        PromptFitsWindow(b, reactInput, modelOutput);
      }
    } else {
      assert !PartsFit(b, Repeat(c, ReactBudget(b)), Repeat(c, ModelBudget(PayloadBudget(b))));
    }
  }

  /** A token for every rune. */
  function Runes(text: string): nat {
    |text|
  }

  /** Counted in runes, a window of 8192 tokens is overrun: completion and reserves take 6400, the payload 4096. */
  lemma SmallWindowOverrun(template: string)
    ensures var b := Builder(8192, Runes, template);
            FloorApplies(b) && !PartsFit(b, Repeat('x', ReactBudget(b)), Repeat('x', ModelBudget(PayloadBudget(b))))
  {
    var b := Builder(8192, Runes, template);
    MarkerLength();
    assert Subadditive(Runes, 0);
    PartsAlwaysFitIff(b, 'x');
  }

  /** Every limit of the ladder leaves room for the notice, so no rung lengthens the trace. */
  lemma {:induction false} DescentShortens(counter: Counter, text: string, budget: nat, limits: seq<nat>)
    requires forall i | 0 <= i < |limits| :: limits[i] in LADDER
    ensures |Descend(counter, text, budget, limits)| <= |text|
    decreases |limits|
  {
    if limits != [] {
      NoticeLength();
      CompactionShortens(text, limits[0]);
      DescentShortens(counter, Compact(text, limits[0]), budget, limits[1..]);
    }
  }

  // ---------------------------------------------------------------- the fallback counter

  /** What the builder counts when the tokenizer fails: a token for every four runes, rounded down. */
  function Quarter(text: string): nat {
    |text| / 4
  }

  /** The fallback counter is subadditive up to one token and not up to none, so it may overrun the budget by four. */
  lemma QuarterSlack(b: Builder, reactInput: string, modelOutput: string)
    requires b.counter == Quarter
    ensures Subadditive(Quarter, 1) && !Subadditive(Quarter, 0)
    ensures CountTokens(Quarter, FitReact(b, reactInput)) + CountTokens(Quarter, FitModel(b, modelOutput))
            <= PayloadBudget(b) + 4
  {
    forall s: string, t: string
      ensures CountTokens(Quarter, s + t) <= CountTokens(Quarter, s) + CountTokens(Quarter, t) + 1
    {
      assert (|s| + |t|) / 4 <= |s| / 4 + |t| / 4 + 1;
    }
    assert CountTokens(Quarter, "xx" + "xx") > CountTokens(Quarter, "xx") + CountTokens(Quarter, "xx");
    MarkerLength();
    PayloadFits(b, reactInput, modelOutput, 1);
  }

  lemma MarkerLength()
    ensures |TRUNCATION_MARKER| == 51
  {
  }

  /** The head taken of a text that is long enough fills its tokens to the last rune. */
  lemma QuarterStart(text: string, maxTokens: nat)
    requires |text| >= 4 * maxTokens + 3
    ensures |TakeStart(Quarter, text, maxTokens)| == if maxTokens == 0 then 0 else 4 * maxTokens + 3
  {
    if maxTokens > 0 {
      TakeStartTight(Quarter, text, maxTokens);
    }
  }

  lemma QuarterEnd(text: string, maxTokens: nat)
    requires |text| >= 4 * maxTokens + 3
    ensures |TakeEnd(Quarter, text, maxTokens)| == if maxTokens == 0 then 0 else 4 * maxTokens + 3
  {
    if maxTokens > 0 {
      TakeEndTight(Quarter, text, maxTokens);
    }
  }

  /** What a text over its budget costs after the cut, by the fallback counter. */
  function QuarterCost(maxTokens: nat): nat {
    if maxTokens >= 268 then maxTokens + 2
    else if maxTokens >= 4 then maxTokens / 2 + 14
    else if maxTokens >= 2 then 14
    else 12
  }

  /** Head and tail of a cut, and what the three parts are long together. */
  lemma QuarterLength(text: string, maxTokens: nat, usable: nat, headBudget: nat)
    requires |text| >= 4 * maxTokens + 4 && headBudget <= usable <= maxTokens
    requires usable == UsableTokens(Quarter, maxTokens, TRUNCATION_MARKER) && headBudget == usable * 60 / 100
    requires maxTokens > 0 && CountTokens(Quarter, text) > maxTokens
    ensures |Truncate(Quarter, text, maxTokens, TRUNCATION_MARKER)|
            == 51 + (if headBudget == 0 then 0 else 4 * headBudget + 3)
                  + (if usable == headBudget then 0 else 4 * (usable - headBudget) + 3)
  {
    MarkerLength();
    hide TakeStart, TakeEnd, UsableTokens, CountTokens;
    QuarterStart(text, headBudget);
    QuarterEnd(text, usable - headBudget);
  }

  /** Every text over its budget is cut to the same number of fallback tokens: two over it from 268 tokens on. */
  lemma QuarterCut(text: string, maxTokens: nat)
    requires maxTokens > 0 && CountTokens(Quarter, text) > maxTokens
    ensures CountTokens(Quarter, Truncate(Quarter, text, maxTokens, TRUNCATION_MARKER)) == QuarterCost(maxTokens)
  {
    MarkerLength();
    var usable := UsableTokens(Quarter, maxTokens, TRUNCATION_MARKER);
    var headBudget := usable * 60 / 100;
    assert usable == if maxTokens >= 268 then maxTokens - 12 else maxTokens / 2;
    QuarterLength(text, maxTokens, usable, headBudget);
  }

  /** By the fallback counter a text is within its budget exactly if it needs no cut, or that is 0 or 27 to 267. */
  lemma QuarterFitsIff(text: string, maxTokens: nat)
    ensures CountTokens(Quarter, Truncate(Quarter, text, maxTokens, TRUNCATION_MARKER)) <= maxTokens
            <==> CountTokens(Quarter, text) <= maxTokens || maxTokens == 0 || 27 <= maxTokens < 268
  {
    if maxTokens > 0 && CountTokens(Quarter, text) > maxTokens {
      QuarterCut(text, maxTokens);
    }
  }

  lemma QuarterWithin(text: string, budget: nat)
    requires budget >= 268
    ensures CountTokens(Quarter, Within(Quarter, text, budget, TRUNCATION_MARKER))
            == if CountTokens(Quarter, text) > budget then budget + 2 else CountTokens(Quarter, text)
  {
    if CountTokens(Quarter, text) > budget {
      QuarterCut(text, budget);
    }
  }

  /** The trace after the descent through the ladder, before it is cut. */
  function Descended(b: Builder, reactInput: string): string {
    Descend(b.counter, reactInput, ReactBudget(b), LADDER)
  }

  /**
   * With the fallback counter the model output stays within its share exactly if it is within it uncut, and the trace
   * exactly if the ladder brings it there; otherwise each is two tokens over its share.
   */
  lemma QuarterOverruns(b: Builder, reactInput: string, modelOutput: string)
    requires b.counter == Quarter
    ensures var share := ModelBudget(PayloadBudget(b));
            && CountTokens(Quarter, FitModel(b, modelOutput))
               == (if CountTokens(Quarter, modelOutput) > share then share + 2 else CountTokens(Quarter, modelOutput))
            && (CountTokens(Quarter, FitModel(b, modelOutput)) <= share <==> CountTokens(Quarter, modelOutput) <= share)
    ensures var share, trace := ReactBudget(b), CountTokens(Quarter, Descended(b, reactInput));
            && CountTokens(Quarter, FitReact(b, reactInput)) == (if trace > share then share + 2 else trace)
            && (CountTokens(Quarter, FitReact(b, reactInput)) <= share <==> trace <= share)
  {
    hide Descend, Within, PayloadBudget, CountTokens, LADDER;
    QuarterWithin(modelOutput, ModelBudget(PayloadBudget(b)));
    QuarterWithin(Descended(b, reactInput), ReactBudget(b));
  }
}
