/**
  Agent runs under an arbitrary provider.  Every provider call may raise, answer with any
  text, or (for a repair) decline; a parser accepts or rejects a text.
*/
module Agents {
  import opened Common
  import opened Risk
  import opened Gate

  datatype Answer = Raises | Declines | Text(raw: string)

  datatype Failure = CompleteException | RepairException | RepairUnavailable | RepairParseFailed

  datatype Status = Success | Repaired | Failed

  /** A stage's output with the flags that are logged for it. */
  datatype Stage<T> = Stage(output: T, failure: Option<Failure>, repairAsked: bool) {
    predicate Degraded() {
      failure.Some?
    }

    function ParsingStatus(): (status: Status)
      ensures status == Failed <==> failure.Some?
      ensures status == Repaired <==> failure.None? && repairAsked
    {
      if Degraded() then Failed else if repairAsked then Repaired else Success
    }
  }

  /** How the provider answers attempt n, given the text it is asked to repair. */
  type Repairer = (nat, string) -> Answer

  /** The text that decides a stage after at most n more repairs, starting from a rejected one. */
  function RepairFrom<T>(
    raw: string, attempt: nat, n: nat, parse: string -> Option<T>, repair: Repairer
  ): Result<string, Failure>
    decreases n
  {
    if n == 0 then Err(RepairParseFailed)
    else match repair(attempt, raw)
      case Raises => Err(RepairException)
      case Declines => Err(RepairUnavailable)
      case Text(t) => if parse(t).Some? then Ok(t) else RepairFrom(t, attempt + 1, n - 1, parse, repair)
  }

  function Decide<T>(answer: Answer, n: nat, parse: string -> Option<T>, repair: Repairer): Result<string, Failure> {
    match answer
    case Raises => Err(CompleteException)
    case Declines => Err(CompleteException)
    case Text(raw) => if parse(raw).Some? then Ok(raw) else RepairFrom(raw, 0, n, parse, repair)
  }

  /**
    What may be accepted, attempt by attempt: the completion; or the first repair's answer to
    it; or the second repair's answer to that one.  Each repair is only asked when everything
    before it was rejected, and with the text rejected last.
  */
  lemma RepairsInTurn<T>(raw: string, parse: string -> Option<T>, repair: Repairer)
    ensures var decided := Decide(Text(raw), 2, parse, repair);
      if parse(raw).Some? then decided == Ok(raw)
      else if !repair(0, raw).Text? then
        decided == Err(if repair(0, raw).Raises? then RepairException else RepairUnavailable)
      else
        var first := repair(0, raw).raw;
        if parse(first).Some? then decided == Ok(first)
        else if !repair(1, first).Text? then
          decided == Err(if repair(1, first).Raises? then RepairException else RepairUnavailable)
        else
          var second := repair(1, first).raw;
          decided == if parse(second).Some? then Ok(second) else Err(RepairParseFailed)
  {
    if parse(raw).None? && repair(0, raw).Text? {
      var first := repair(0, raw).raw;
      assert RepairFrom(raw, 0, 2, parse, repair)
          == if parse(first).Some? then Ok(first) else RepairFrom(first, 1, 1, parse, repair);
      if parse(first).None? && repair(1, first).Text? {
        assert RepairFrom(repair(1, first).raw, 2, 0, parse, repair) == Err(RepairParseFailed);
      }
    }
  }

  /** The single agent has one repair. */
  lemma RepairsOnce<T>(raw: string, parse: string -> Option<T>, repair: Repairer)
    ensures var decided := Decide(Text(raw), 1, parse, repair);
      if parse(raw).Some? then decided == Ok(raw)
      else if !repair(0, raw).Text? then
        decided == Err(if repair(0, raw).Raises? then RepairException else RepairUnavailable)
      else
        var first := repair(0, raw).raw;
        decided == if parse(first).Some? then Ok(first) else Err(RepairParseFailed)
  {
    if parse(raw).None? && repair(0, raw).Text? {
      assert RepairFrom(repair(0, raw).raw, 1, 0, parse, repair) == Err(RepairParseFailed);
    }
  }

  /** The stage is failed exactly when no text was accepted, and then its output is the fallback. */
  ghost predicate StageOf<T>(s: Stage<T>, text: Result<string, Failure>, parse: string -> Option<T>, fallback: T) {
    match text
    case Ok(t) => !s.Degraded() && parse(t) == Some(s.output)
    case Err(f) => s.failure == Some(f) && s.output == fallback
  }

  /** A pipeline stage: one completion and up to two repairs. */
  method RunStage<T>(answer: Answer, parse: string -> Option<T>, repair: Repairer, fallback: T) returns (s: Stage<T>)
    requires !answer.Declines?
    ensures StageOf(s, Decide(answer, 2, parse, repair), parse, fallback)
    ensures s.ParsingStatus() == Success <==> answer.Text? && parse(answer.raw).Some?
  {
    if answer.Raises? {
      return Stage(fallback, Some(CompleteException), false);
    }
    s := ParseWithRepair(answer.raw, parse, repair, fallback);
  }

  method ParseWithRepair<T>(raw: string, parse: string -> Option<T>, repair: Repairer, fallback: T)
    returns (s: Stage<T>)
    ensures StageOf(s, Decide(Text(raw), 2, parse, repair), parse, fallback)
    ensures s.repairAsked <==> parse(raw).None?
  {
    var parsed := parse(raw);
    var failure: Option<Failure> := None;
    var asked := false;
    if parsed.None? {
      var input := raw;
      var attempt := 0;
      while attempt < 2
        invariant attempt <= 2 && parsed.None? && asked == (attempt > 0)
        invariant Decide(Text(raw), 2, parse, repair) == RepairFrom(input, attempt, 2 - attempt, parse, repair)
        invariant attempt == 2 ==> failure == Some(RepairParseFailed)
      {
        asked := true;
        match repair(attempt, input) {
          case Raises =>
            failure := Some(RepairException);
            break;
          case Declines =>
            failure := Some(RepairUnavailable);
            break;
          case Text(t) =>
            parsed := parse(t);
            if parsed.Some? {
              failure := None;
              break;
            }
            input := t;
            failure := Some(RepairParseFailed);
        }
        attempt := attempt + 1;
      }
    }
    s := Stage(if parsed.Some? then parsed.value else fallback, failure, asked);
  }

  const FALLBACK_DECISION := AgentOutput(Hold, StayOut, 0, 0, false)
  const FALLBACK_RISK := High

  /** The single agent: one completion, one repair, then the gate. */
  method RunSingleAgent(
    answer: Answer, parse: string -> Option<AgentOutput>, repair: Repairer,
    h: Holdings, price: real, threshold: Option<Pct>
  ) returns (decision: AgentOutput, status: Status)
    requires !answer.Declines?
    ensures exists s: Stage<AgentOutput> ::
      && StageOf(s, Decide(answer, 1, parse, repair), parse, FALLBACK_DECISION)
      && status == s.ParsingStatus()
      && decision == Apply(s.output, h, price, threshold, None).decision
  {
    var parsed: AgentOutput;
    var failure: Option<Failure> := None;
    var asked := false;
    if answer.Raises? {
      parsed := FALLBACK_DECISION;
      failure := Some(CompleteException);
    } else {
      var first := parse(answer.raw);
      if first.Some? {
        parsed := first.value;
      } else {
        asked := true;
        parsed := FALLBACK_DECISION;
        match repair(0, answer.raw) {
          case Raises => failure := Some(RepairException);
          case Declines => failure := Some(RepairUnavailable);
          case Text(t) =>
            var second := parse(t);
            if second.Some? {
              parsed := second.value;
            } else {
              failure := Some(RepairParseFailed);
            }
        }
      }
    }
    ghost var s := Stage(parsed, failure, asked);
    assert StageOf(s, Decide(answer, 1, parse, repair), parse, FALLBACK_DECISION);
    decision := Apply(parsed, h, price, threshold, None).decision;
    status := if failure.Some? then Failed else if asked then Repaired else Success;
  }

  /** The pipeline's final decision from its risk stage and portfolio-manager stage. */
  function SelectFinal(
    portfolio: Stage<AgentOutput>, risk: Stage<RiskLevel>, h: Holdings, price: real, threshold: Option<Pct>
  ): AgentOutput
  {
    var input := if portfolio.Degraded() then FALLBACK_DECISION else portfolio.output;
    Apply(input, h, price, threshold, Some(risk.output)).decision
  }

  /** The RiskCheck a paper step runs on an agent's decision. */
  function Check(d: AgentOutput, h: Holdings, price: real): RiskResult {
    EvaluateTargetExposure(d.action, Some(Fraction(d.target)), h, price)
  }

  // ---------- Fail-safety, end to end ----------

  ghost predicate ParsesInRange(parse: string -> Option<AgentOutput>) {
    forall t :: parse(t).Some? ==> InRange(parse(t).value)
  }

  /** Whatever the provider does, an order means the agent's own parsed output asked for that side. */
  lemma SingleAgentFailSafe(
    answer: Answer, parse: string -> Option<AgentOutput>, repair: Repairer, s: Stage<AgentOutput>,
    h: Holdings, price: real, threshold: Option<Pct>
  )
    requires ParsesInRange(parse)
    requires StageOf(s, Decide(answer, 1, parse, repair), parse, FALLBACK_DECISION)
    ensures var r := Check(Apply(s.output, h, price, threshold, None).decision, h, price);
      r.action != Hold ==>
        && !s.Degraded() && Decide(answer, 1, parse, repair).Ok?
        && parse(Decide(answer, 1, parse, repair).value) == Some(s.output)
        && s.output.action == r.action
        && (r.action == Buy ==> BuyJustified(s.output, h, price, threshold))
  {
    DirectionKept(s.output, h, price, threshold, None);
  }

  predicate BuyJustified(o: AgentOutput, h: Holdings, price: real, threshold: Option<Pct>) {
    && o.newInformation
    && (threshold.Some? ==> o.confidence >= threshold.value)
    && o.target > CurrentExposure(h, price)
  }

  /**
    The pipeline: any order means the portfolio-manager stage was parsed or repaired and
    asked for that side; a BUY further means the risk stage did not fail and is not HIGH.
  */
  lemma PipelineFailSafe(
    answer: Answer, parse: string -> Option<AgentOutput>, repair: Repairer, portfolio: Stage<AgentOutput>,
    riskAnswer: Answer, riskParse: string -> Option<RiskLevel>, riskRepair: Repairer, risk: Stage<RiskLevel>,
    h: Holdings, price: real, threshold: Option<Pct>
  )
    requires ParsesInRange(parse)
    requires StageOf(portfolio, Decide(answer, 2, parse, repair), parse, FALLBACK_DECISION)
    requires StageOf(risk, Decide(riskAnswer, 2, riskParse, riskRepair), riskParse, FALLBACK_RISK)
    ensures var r := Check(SelectFinal(portfolio, risk, h, price, threshold), h, price);
      r.action != Hold ==>
        && !portfolio.Degraded() && Decide(answer, 2, parse, repair).Ok?
        && parse(Decide(answer, 2, parse, repair).value) == Some(portfolio.output)
        && portfolio.output.action == r.action
        && (r.action == Buy ==>
            !risk.Degraded() && risk.output != High && BuyJustified(portfolio.output, h, price, threshold))
  {
    var input := if portfolio.Degraded() then FALLBACK_DECISION else portfolio.output;
    DirectionKept(input, h, price, threshold, Some(risk.output));
  }

  /**
    And the other way round: the pipeline's decision is a BUY, or a SELL, exactly when the
    portfolio-manager stage was accepted, asked for it and every condition of the gate is met,
    a risk stage that failed counting as HIGH; an order keeps the target asked for.
  */
  lemma PipelineDecides(
    portfolio: Stage<AgentOutput>, riskAnswer: Answer, riskParse: string -> Option<RiskLevel>, riskRepair: Repairer,
    risk: Stage<RiskLevel>, h: Holdings, price: real, threshold: Option<Pct>
  )
    requires !portfolio.Degraded() ==> InRange(portfolio.output)
    requires StageOf(risk, Decide(riskAnswer, 2, riskParse, riskRepair), riskParse, FALLBACK_RISK)
    ensures var d, o := SelectFinal(portfolio, risk, h, price, threshold), portfolio.output;
      var confident := threshold.Some? ==> o.confidence >= threshold.value;
      && (d.action == Buy <==>
            && portfolio.failure.None? && o.action == Buy && confident
            && o.target > CurrentExposure(h, price) && o.newInformation
            && risk.failure.None? && risk.output != High)
      && (d.action == Sell <==>
            && portfolio.failure.None? && o.action == Sell && confident
            && h.Quantity() > 0.0 && o.target < CurrentExposure(h, price))
      && (d.action != Hold ==> d.target == o.target)
  {
    var input := if portfolio.Degraded() then FALLBACK_DECISION else portfolio.output;
    DecisionSurvives(input, h, price, threshold, Some(risk.output));
    SurvivingTarget(input, h, price, threshold, Some(risk.output));
    hide Apply;
    hide CurrentExposure;
  }
}
