/**
 Prompt budgeting (engine/context.py) over the token estimate
 (providers/tokenizer.py), with the 15% margin as the exact fraction 23/20.
 */
module Context {
  import opened Wrappers
  import Render

  const CHARS_PER_TOKEN := 4

  function Max(a: int, b: int): int {
    if a < b then b else a
  }

  /** The least integer at or above a/b. */
  function CeilDiv(a: nat, b: nat): (r: nat)
    requires 0 < b
    ensures a <= r * b < a + b
  {
    (a + b - 1) / b
  }

  /** One token for every four characters begun, and at least one. */
  function Raw(n: nat): (tokens: nat)
    ensures 1 <= tokens
  {
    Max(1, CeilDiv(n, CHARS_PER_TOKEN))
  }

  /** `estimate_tokens` for a text of `n` characters. */
  function Estimate(n: nat): (tokens: nat)
    ensures 2 <= tokens
  {
    Max(1, CeilDiv(Raw(n) * 23, 20))
  }

  /** `prompt_budget`; negative when the output alone is larger than the window. */
  datatype ModelEntry = ModelEntry(contextWindow: int, maxOutput: int)
  {
    function Budget(): int { contextWindow - maxOutput }
  }

  datatype Role = System | User | Assistant | Tool

  datatype Message = Message(role: Role, content: string, name: Option<string>)

  datatype ContextError = ValueError

  function CountMessages(ms: seq<Message>): nat {
    if ms == [] then 0 else CountMessages(ms[..|ms| - 1]) + Estimate(|ms[|ms| - 1].content|)
  }

  /** How many characters are kept of a text that is over its allowance: int(allowance / 1.15) * 4. */
  function Limit(allowance: nat): nat {
    allowance * 20 / 23 * CHARS_PER_TOKEN
  }

  function Clip(content: string, allowance: int): string {
    if allowance <= 0 then ""
    else if Estimate(|content|) <= allowance then content
    else content[..if Limit(allowance) <= |content| then Limit(allowance) else |content|]
  }

  // --- the estimate -------------------------------------------------------------

  lemma MulMonotone(a: nat, b: nat, d: nat)
    requires a <= b
    ensures a * d <= b * d
  {
  }

  lemma CeilDivIsMonotone(a: nat, b: nat, d: nat)
    requires 0 < d && a <= b
    ensures CeilDiv(a, d) <= CeilDiv(b, d)
  {
    if CeilDiv(b, d) + 1 <= CeilDiv(a, d) {
      MulMonotone(CeilDiv(b, d) + 1, CeilDiv(a, d), d);
    }
  }

  /** A longer text never counts for less. */
  lemma EstimateIsMonotone(m: nat, n: nat)
    requires m <= n
    ensures Estimate(m) <= Estimate(n)
  {
    CeilDivIsMonotone(m, n, CHARS_PER_TOKEN);
    CeilDivIsMonotone(Raw(m) * 23, Raw(n) * 23, 20);
  }

  /** The estimate is never below length/4, with the margin on top. */
  lemma EstimateIsSafe(n: nat)
    ensures n * 23 <= Estimate(n) * 80
  {
  }

  /** The least number of tokens at or above 1.15 for every four characters begun, one at least. */
  lemma EstimateIsExact(n: nat)
    ensures (Raw(n) - 1) * 4 < n <= Raw(n) * 4 || (n == 0 && Raw(n) == 1)
    ensures (Estimate(n) - 1) * 20 < Raw(n) * 23 <= Estimate(n) * 20
  {
  }

  /** What `Limit` keeps is within the allowance, from 2 tokens on. */
  lemma LimitFits(allowance: nat)
    requires 2 <= allowance
    ensures Estimate(Limit(allowance)) <= allowance
  {
    var k := allowance * 20 / 23;
    assert 1 <= k && k * 23 <= allowance * 20;
    assert CeilDiv(k * 4, 4) == k;
  }

  /** It is the most: a whole token more would not fit. */
  lemma LimitIsTight(allowance: nat)
    requires 1 <= allowance
    ensures Estimate(Limit(allowance) + 1) > allowance
  {
    var k := allowance * 20 / 23;
    assert allowance * 20 < (k + 1) * 23;
    assert CeilDiv(k * 4 + 1, 4) == k + 1;
  }

  /** A clipped text is a prefix, and fits its allowance exactly from 2 tokens on. */
  lemma ClipFits(content: string, allowance: int)
    ensures Clip(content, allowance) <= content
    ensures Estimate(|Clip(content, allowance)|) <= Max(2, allowance)
    ensures Estimate(|Clip(content, allowance)|) <= allowance <==> 2 <= allowance
  {
    if 2 <= allowance {
      LimitFits(allowance);
      var longest := if Estimate(|content|) <= allowance then |content| else Limit(allowance);
      EstimateIsMonotone(|Clip(content, allowance)|, longest);
    }
  }

  /** Clipping keeps as much as fits: where a text was cut, one character more would not. */
  lemma ClipKeepsMost(content: string, allowance: int)
    requires 1 <= allowance && |Clip(content, allowance)| < |content|
    ensures Estimate(|Clip(content, allowance)| + 1) > allowance
  {
    LimitIsTight(allowance);
  }

  // --- the trace cap --------------------------------------------------------------

  function Digits(n: nat): string {
    if n < 10 then [(('0' as int) + n) as char] else Digits(n / 10) + [(('0' as int) + n % 10) as char]
  }

  function ValueOf(digits: string): int {
    if digits == [] then 0 else ValueOf(digits[..|digits| - 1]) * 10 + (digits[|digits| - 1] as int - '0' as int)
  }

  /** The marker counts in decimal. */
  lemma {:induction false} DigitsAreDecimal(n: nat)
    ensures ValueOf(Digits(n)) == n && Digits(n) != []
    ensures forall c :: c in Digits(n) ==> '0' <= c <= '9'
    ensures |Digits(n)| > 1 ==> Digits(n)[0] != '0'
  {
    if n >= 10 {
      DigitsAreDecimal(n / 10);
      var front, last := Digits(n / 10), (('0' as int) + n % 10) as char;
      assert (front + [last])[..|front|] == front;
      assert n / 10 < 10 ==> front == [(('0' as int) + n / 10) as char];
    } else {
      assert ValueOf([]) == 0;
    }
  }

  function Marker(elided: nat): string {
    "... [" + Digits(elided) + " lines elided] ..."
  }

  /** Python's `lines[-tail:]`: all of the lines when `tail` is 0. */
  function LastLines(lines: seq<string>, tail: nat): seq<string>
    requires tail <= |lines|
  {
    if tail == 0 then lines else lines[|lines| - tail..]
  }

  /** The lines of a capped trace. */
  function CapLines(lines: seq<string>, head: nat, tail: nat): seq<string> {
    if |lines| <= head + tail then lines
    else lines[..head] + [Marker(|lines| - head - tail)] + LastLines(lines, tail)
  }

  /** `cap_trace`; `splitLines` is the string library's `splitlines`. */
  function CapTrace(splitLines: string -> seq<string>, text: string, head: int, tail: int)
    : Result<string, ContextError>
  {
    if head < 0 || tail < 0 then Err(ValueError)
    else
      var lines := splitLines(text);
      if |lines| <= head + tail then Ok(text) else Ok(Render.Join(CapLines(lines, head, tail)))
  }

  /** A capped trace keeps its first `head` and last `tail` lines. */
  lemma CapKeepsBothEnds(lines: seq<string>, head: nat, tail: nat)
    requires head + tail <= |lines|
    ensures var capped := CapLines(lines, head, tail);
            && head + tail <= |capped|
            && capped[..head] == lines[..head]
            && capped[|capped| - tail..] == lines[|lines| - tail..]
  {
  }

  /** It is bounded by the window and its marker exactly if `tail` is not 0 or nothing had to be cut. */
  lemma CapIsBoundedIff(lines: seq<string>, head: nat, tail: nat)
    ensures |CapLines(lines, head, tail)| <= head + tail + 1 <==> 0 < tail || |lines| <= head
  {
  }

  /** A trace within the window is returned as it is, and of a longer one both ends and how many lines were left out. */
  lemma CapTraceKeeps(splitLines: string -> seq<string>, text: string, head: nat, tail: nat)
    ensures var lines := splitLines(text);
            if |lines| <= head + tail then CapTrace(splitLines, text, head, tail) == Ok(text)
            else exists capped: seq<string> ::
                   && CapTrace(splitLines, text, head, tail) == Ok(Render.Join(capped))
                   && head + tail < |capped| && capped[..head] == lines[..head]
                   && capped[head] == Marker(|lines| - (head + tail))
                   && capped[|capped| - tail..] == lines[|lines| - tail..]
  {
    var lines := splitLines(text);
    if |lines| > head + tail {
      CapKeepsBothEnds(lines, head, tail);
      assert CapLines(lines, head, tail)[head] == Marker(|lines| - head - tail);
    }
  }

  /** With `tail` 0, three lines become four. */
  lemma CapWithoutTailGrows()
    ensures CapLines(["a", "b", "c"], 0, 0) == ["... [3 lines elided] ...", "a", "b", "c"]
  {
    assert Digits(3) == ['3'] == "3";
    assert Marker(3) == "... [3 lines elided] ...";
    assert ["a", "b", "c"][..0] == [];
  }

  // --- the prompt -----------------------------------------------------------------

  function ClipAll(ms: seq<Message>, share: int): seq<Message> {
    seq(|ms|, i requires 0 <= i < |ms| => ms[i].(content := Clip(ms[i].content, share)))
  }

  /** What every message may have: an equal part of the budget, at least one token. */
  function Share(budget: int, count: nat): int {
    Max(1, budget / Max(1, count))
  }

  function Prepared(splitLines: string -> seq<string>, ms: seq<Message>, trace: Option<string>, head: int, tail: int)
    : Result<seq<Message>, ContextError>
  {
    if trace.None? then Ok(ms)
    else
      match CapTrace(splitLines, trace.value, head, tail)
      case Err(error) => Err(error)
      case Ok(capped) => Ok(ms + [Message(User, capped, None)])
  }

  function Shaped(prepared: seq<Message>, budget: int): seq<Message> {
    if CountMessages(prepared) <= budget then prepared else ClipAll(prepared, Share(budget, |prepared|))
  }

  /** `build_prompt`. */
  function BuildPrompt(splitLines: string -> seq<string>, ms: seq<Message>, entry: ModelEntry,
                       trace: Option<string>, head: int, tail: int): Result<seq<Message>, ContextError>
  {
    match Prepared(splitLines, ms, trace, head, tail)
    case Err(error) => Err(error)
    case Ok(prepared) => Ok(Shaped(prepared, entry.Budget()))
  }

  function Times(count: nat, each: nat): nat {
    count * each
  }

  lemma OneMore(count: nat, each: nat)
    ensures Times(count + 1, each) == Times(count, each) + each
    ensures Times(0, each) == 0
  {
  }

  lemma {:induction false} CountIsBetween(ms: seq<Message>, each: nat)
    requires forall i :: 0 <= i < |ms| ==> Estimate(|ms[i].content|) <= each
    ensures 2 * |ms| <= CountMessages(ms) <= Times(|ms|, each)
  {
    OneMore(0, each);
    if ms != [] {
      CountIsBetween(ms[..|ms| - 1], each);
      OneMore(|ms| - 1, each);
    }
  }

  lemma {:induction false} CountIsAtLeastTwoEach(ms: seq<Message>)
    ensures 2 * |ms| <= CountMessages(ms)
  {
    if ms != [] {
      CountIsAtLeastTwoEach(ms[..|ms| - 1]);
    }
  }

  lemma ShareFits(budget: int, count: nat)
    requires 2 * count <= budget && 0 < count
    ensures 2 <= Share(budget, count) && Times(count, Share(budget, count)) <= budget
  {
  }

  /** The prompt fits the budget exactly when the budget has 2 tokens for each message, whatever the messages hold. */
  lemma ShapedFitsIff(prepared: seq<Message>, budget: int)
    ensures CountMessages(Shaped(prepared, budget)) <= budget <==> 2 * |prepared| <= budget
  {
    var shaped := Shaped(prepared, budget);
    CountIsAtLeastTwoEach(shaped);
    if CountMessages(prepared) > budget && 2 * |prepared| <= budget {
      var share := Share(budget, |prepared|);
      ShareFits(budget, |prepared|);
      forall i | 0 <= i < |shaped| ensures Estimate(|shaped[i].content|) <= share {
        ClipFits(prepared[i].content, share);
      }
      CountIsBetween(shaped, share);
    }
  }

  /** One empty message already counts for 2 tokens, so a budget of 1 is exceeded. */
  lemma EmptyMessageExceedsBudget(name: Option<string>)
    ensures CountMessages(Shaped([Message(User, "", name)], 1)) == 2
  {
    var one := [Message(User, "", name)];
    assert CountMessages(one) == CountMessages(one[..0]) + Estimate(0);
    assert Shaped(one, 1) == one;
  }

  /** Roles, names and order stay; every content is a prefix; a prompt within budget is returned as it is. */
  lemma ShapedKeepsMessages(prepared: seq<Message>, budget: int)
    ensures var shaped := Shaped(prepared, budget);
            && |shaped| == |prepared|
            && (forall i :: 0 <= i < |prepared| ==>
                  shaped[i].role == prepared[i].role && shaped[i].name == prepared[i].name
                  && shaped[i].content <= prepared[i].content)
            && (CountMessages(prepared) <= budget ==> shaped == prepared)
  {
    forall i | 0 <= i < |prepared| ensures Clip(prepared[i].content, Share(budget, |prepared|)) <= prepared[i].content {
      ClipFits(prepared[i].content, Share(budget, |prepared|));
    }
  }

  /** Every message that was cut has as much of its text as its share of the budget can hold. */
  lemma ShapedKeepsMost(prepared: seq<Message>, budget: int, i: nat)
    requires i < |prepared| && |Shaped(prepared, budget)[i].content| < |prepared[i].content|
    ensures Estimate(|Shaped(prepared, budget)[i].content| + 1) > Share(budget, |prepared|)
  {
    ClipKeepsMost(prepared[i].content, Share(budget, |prepared|));
  }

  /**
   What is kept of a message: its role, its name, and a prefix of its text, which is all of it or as much as its
   share of the budget can hold.
   */
  ghost predicate Keeps(given: Message, built: Message, share: int) {
    && built.role == given.role && built.name == given.name && built.content <= given.content
    && (|built.content| < |given.content| ==> Estimate(|built.content| + 1) > share)
  }

  lemma ShapedKeeps(prepared: seq<Message>, budget: int, i: nat)
    requires i < |prepared|
    ensures |Shaped(prepared, budget)| == |prepared|
    ensures Keeps(prepared[i], Shaped(prepared, budget)[i], Share(budget, |prepared|))
  {
    ShapedKeepsMessages(prepared, budget);
    if |Shaped(prepared, budget)[i].content| < |prepared[i].content| {
      ShapedKeepsMost(prepared, budget, i);
    }
  }

  /**
   `build_prompt` keeps the messages it is given, in order, and then the capped trace: each as far as an equal
   part of the budget, and at least one token, can hold it.
   */
  lemma BuildPromptKeepsMost(splitLines: string -> seq<string>, ms: seq<Message>, entry: ModelEntry,
                             trace: Option<string>, head: int, tail: int)
    requires BuildPrompt(splitLines, ms, entry, trace, head, tail).Ok?
    ensures var built := BuildPrompt(splitLines, ms, entry, trace, head, tail).value;
            && |built| == |ms| + (if trace.Some? then 1 else 0)
            && (forall i :: 0 <= i < |ms| ==> Keeps(ms[i], built[i], Max(1, entry.Budget() / |built|)))
            && (trace.Some? ==>
                  && CapTrace(splitLines, trace.value, head, tail).Ok?
                  && Keeps(Message(User, CapTrace(splitLines, trace.value, head, tail).value, None), built[|ms|],
                           Max(1, entry.Budget() / |built|)))
  {
    var prepared := Prepared(splitLines, ms, trace, head, tail).value;
    forall i | 0 <= i < |prepared|
      ensures Keeps(prepared[i], Shaped(prepared, entry.Budget())[i], Max(1, entry.Budget() / |prepared|))
    {
      ShapedKeeps(prepared, entry.Budget(), i);
    }
  }

  /** The whole of `build_prompt`: it fails only on a negative window, and its result is bounded as above. */
  lemma BuildPromptIsBounded(splitLines: string -> seq<string>, ms: seq<Message>, entry: ModelEntry,
                             trace: Option<string>, head: int, tail: int)
    ensures var built := BuildPrompt(splitLines, ms, entry, trace, head, tail);
            && (built.Err? <==> trace.Some? && (head < 0 || tail < 0))
            && (built.Ok? ==>
                  && |built.value| == |ms| + (if trace.Some? then 1 else 0)
                  && (CountMessages(built.value) <= entry.Budget() <==> 2 * |built.value| <= entry.Budget())
                  && forall i :: 0 <= i < |ms| ==> built.value[i].content <= ms[i].content)
  {
    var prepared := Prepared(splitLines, ms, trace, head, tail);
    if prepared.Ok? {
      ShapedFitsIff(prepared.value, entry.Budget());
      ShapedKeepsMessages(prepared.value, entry.Budget());
    }
  }
}
