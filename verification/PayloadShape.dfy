/**
 * What fitting makes of a text, told by the counter alone: which part of it stays at the front, which at the end, and
 * what the shares are in tokens.
 */
module PayloadShape {
  import opened BodyCompaction
  import opened TokenBudget

  function Cost(counter: Counter, text: string): nat {
    if text == "" then 0 else counter(text)
  }

  /** So many runes at the front are within the tokens, and one more is not, unless that is all of them. */
  predicate FrontFor(counter: Counter, text: string, tokens: nat, k: nat) {
    && k <= |text|
    && if tokens == 0 then k == 0
       else Cost(counter, text[..k]) <= tokens && (k < |text| ==> Cost(counter, text[..k + 1]) > tokens)
  }

  /** The runes from `m` on are within the tokens, and those from one before are not, unless that is all of them. */
  predicate EndFor(counter: Counter, text: string, tokens: nat, m: nat) {
    && m <= |text|
    && if tokens == 0 then m == |text|
       else Cost(counter, text[m..]) <= tokens && (m > 0 ==> Cost(counter, text[m - 1..]) > tokens)
  }

  /** What a budget leaves for the text: all but the marker, or half of it if that would be less than 256 tokens. */
  predicate LeftFor(counter: Counter, budget: nat, marker: string, usable: nat) {
    if Cost(counter, marker) + 256 <= budget then usable + Cost(counter, marker) == budget else usable == budget / 2
  }

  /** The front of the text for 60 of 100 usable tokens, the marker, and the end of the text for the others. */
  ghost predicate CutTo(counter: Counter, text: string, budget: nat, marker: string, r: string) {
    exists usable: nat, k: nat, m: nat ::
      && LeftFor(counter, budget, marker, usable) && FrontFor(counter, text, usable * 60 / 100, k)
      && EndFor(counter, text, usable - usable * 60 / 100, m) && r == text[..k] + marker + text[m..]
  }

  lemma FrontTold(counter: Counter, text: string, tokens: nat)
    ensures var k := |TakeStart(counter, text, tokens)|;
            FrontFor(counter, text, tokens, k) && TakeStart(counter, text, tokens) == text[..k]
  {
    if tokens > 0 {
      TakeStartTight(counter, text, tokens);
    }
  }

  lemma EndTold(counter: Counter, text: string, tokens: nat)
    ensures var n := |TakeEnd(counter, text, tokens)|;
            && n <= |text| && EndFor(counter, text, tokens, |text| - n)
            && TakeEnd(counter, text, tokens) == text[|text| - n..]
  {
    if tokens > 0 {
      TakeEndTight(counter, text, tokens);
    }
  }

  lemma CutParts(counter: Counter, text: string, budget: nat, marker: string, usable: nat, head: nat)
    requires LeftFor(counter, budget, marker, usable) && head == usable * 60 / 100 && head <= usable
    ensures CutTo(counter, text, budget, marker,
                  TakeStart(counter, text, head) + marker + TakeEnd(counter, text, usable - head))
  {
    hide Cost, LeftFor, FrontFor, EndFor, TakeStart, TakeEnd;
    FrontTold(counter, text, head);
    EndTold(counter, text, usable - head);
    var k, m := |TakeStart(counter, text, head)|, |text| - |TakeEnd(counter, text, usable - head)|;
    assert FrontFor(counter, text, usable * 60 / 100, k) && EndFor(counter, text, usable - usable * 60 / 100, m);
  }

  lemma LeftTold(counter: Counter, budget: nat, marker: string)
    ensures LeftFor(counter, budget, marker, UsableTokens(counter, budget, marker))
  {
  }

  lemma TruncateParts(counter: Counter, text: string, budget: nat, marker: string) returns (usable: nat, head: nat)
    requires budget > 0 && Cost(counter, text) > budget
    ensures LeftFor(counter, budget, marker, usable) && head == usable * 60 / 100 && head <= usable
    ensures Truncate(counter, text, budget, marker)
            == TakeStart(counter, text, head) + marker + TakeEnd(counter, text, usable - head)
  {
    LeftTold(counter, budget, marker);
    hide TakeStart, TakeEnd, UsableTokens, LeftFor;
    usable := UsableTokens(counter, budget, marker);
    head := usable * 60 / 100;
  }

  /** A text over its budget keeps its front before the marker and its end behind it; any other text stays. */
  lemma TruncateTold(counter: Counter, text: string, budget: nat, marker: string)
    ensures var r := Truncate(counter, text, budget, marker);
            if budget == 0 then r == ""
            else if Cost(counter, text) <= budget then r == text
            else CutTo(counter, text, budget, marker, r)
  {
    if budget > 0 && Cost(counter, text) > budget {
      CutTold(counter, text, budget, marker);
    }
  }

  lemma CutTold(counter: Counter, text: string, budget: nat, marker: string)
    requires budget > 0 && Cost(counter, text) > budget
    ensures CutTo(counter, text, budget, marker, Truncate(counter, text, budget, marker))
  {
    hide *;
    var usable, head := TruncateParts(counter, text, budget, marker);
    CutParts(counter, text, budget, marker, usable, head);
  }

  // ---------------------------------------------------------------- the shares

  /** An eighth of the window for the completion, but 4096 at least and 16384 at most. */
  predicate CompletionTold(window: nat, tokens: nat) {
    && 4096 <= tokens <= 16384
    && (tokens < window / 8 ==> tokens == 16384) && (window / 8 < tokens ==> tokens == 4096)
  }

  /** What the window leaves, but 35 of 100 and 4096 at least. */
  predicate BudgetTold(window: nat, reserve: nat, budget: nat) {
    && budget >= 4096 && budget >= window * 35 / 100 && budget + reserve >= window
    && (budget == 4096 || budget == window * 35 / 100 || budget + reserve == window)
  }

  /** 15 of 100 for the model output, but 512 at least; the rest for the trace. */
  predicate SharesTold(budget: nat, model: nat, trace: nat) {
    && model + trace == budget && model >= 512
    && (model == budget * 15 / 100 || (model == 512 && budget * 15 / 100 < 512))
  }

  lemma WindowShares(b: Builder) returns (window: nat, completion: nat)
    ensures window == if b.maxTokens <= 0 then 100000 else b.maxTokens
    ensures CompletionTold(window, completion)
    ensures BudgetTold(window, Cost(b.counter, b.template) + 256 + completion + 2048, PayloadBudget(b))
    ensures SharesTold(PayloadBudget(b), ModelBudget(PayloadBudget(b)), ReactBudget(b))
  {
    window := MaxTotal(b);
    completion := MaxCompletionTokens(window);
  }

  // ---------------------------------------------------------------- both outputs

  /** What is left of a text with a share: the text itself if it is within the share, and else its front and its end. */
  ghost predicate WithinShare(counter: Counter, text: string, share: nat, r: string) {
    if Cost(counter, text) <= share then r == text else CutTo(counter, text, share, TRUNCATION_MARKER, r)
  }

  /**
   * The texts on the way down: each is the one before it, compacted under the next limit, and all but the last are
   * over.
   */
  ghost predicate WayDown(counter: Counter, texts: seq<string>, limits: seq<nat>, share: nat) {
    && 2 <= |texts| <= |limits| + 1
    && (forall i | 0 <= i < |texts| - 1 :: texts[i + 1] == Compact(texts[i], limits[i]))
    && (forall i | 0 < i < |texts| - 1 :: Cost(counter, texts[i]) > share)
    && (|texts| <= |limits| ==> Cost(counter, texts[|texts| - 1]) <= share)
  }

  lemma {:induction false} DescendTold(counter: Counter, text: string, share: nat, limits: seq<nat>)
      returns (texts: seq<string>)
    requires limits != []
    ensures |texts| >= 2 && WayDown(counter, texts, limits, share)
    ensures texts[0] == text && texts[|texts| - 1] == Descend(counter, text, share, limits)
    decreases |limits|
  {
    hide Compact;
    var shorter := Compact(text, limits[0]);
    if Cost(counter, shorter) <= share || |limits| == 1 {
      texts := [text, shorter];
      assert limits[1..] == [] || Cost(counter, shorter) <= share;
    } else {
      var rest := DescendTold(counter, shorter, share, limits[1..]);
      texts := [text] + rest;
      forall i | 0 <= i < |texts| - 1 ensures texts[i + 1] == Compact(texts[i], limits[i]) {
        if i > 0 {
          assert rest[i] == Compact(rest[i - 1], limits[1..][i - 1]);
        }
      }
    }
  }

  /** The model output within its share. */
  lemma FitModelTold(b: Builder, modelOutput: string)
    ensures WithinShare(b.counter, modelOutput, ModelBudget(PayloadBudget(b)), FitModel(b, modelOutput))
  {
    hide PayloadBudget, CutTo, Truncate;
    TruncateTold(b.counter, modelOutput, ModelBudget(PayloadBudget(b)), TRUNCATION_MARKER);
  }

  /** The trace, compacted rung by rung until it is within its share or there is no rung left, and then cut to it. */
  lemma FitReactTold(b: Builder, reactInput: string) returns (texts: seq<string>)
    ensures WayDown(b.counter, texts, [12000, 6000, 3000, 1500, 800], ReactBudget(b)) && texts[0] == reactInput
    ensures WithinShare(b.counter, texts[|texts| - 1], ReactBudget(b), FitReact(b, reactInput))
  {
    hide PayloadBudget, CutTo, Truncate, WayDown, Descend, ReactBudget;
    texts := DescendTold(b.counter, reactInput, ReactBudget(b), [12000, 6000, 3000, 1500, 800]);
    ShareIsPositive(b);
    TruncateTold(b.counter, texts[|texts| - 1], ReactBudget(b), TRUNCATION_MARKER);
  }

  lemma ShareIsPositive(b: Builder)
    ensures ReactBudget(b) > 0
  {
  }
}
