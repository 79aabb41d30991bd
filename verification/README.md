# Execution kernel: model and proofs

The backend turns bars into decisions and decisions into money: a strategy or an agent
proposes an action, RiskCheck turns it into a quantity, a step carries it out in a
simulation or at a paper broker, and the portfolio, trades, snapshots and metrics follow.
This project models that path in Dafny, together with the step protocol that decides who
may run it and the calendar arithmetic that decides when, and proves what holds over every
run.

`dafny verify dfyconfig.toml` checks everything.  One module per component:

- `Decimals`, `Significant`: half-even rounding at a fixed scale and to 28 significant
  digits, over reals and over integers.
- `Risk`, `Sizing`, `Gate`, `Agents`: RiskCheck, what sizing to a target promises and exactly
  when it keeps it, the agent decision gate, and agent runs under an arbitrary provider.
- `Ledger`, `Reports`: the paper account, its orders and fills, from submissions and broker
  polls, and what the broker's answers alone determine of it.
- `StepProtocol`: step creation by any number of interleaved workers, beside full runs.
- `PaperStep`: paper steps over the step, RiskCheck and order tables, with commit and
  rollback and an exception possible at every point that can raise.
- `Metrics`, `Strategies`, `Simulation`, `Historical`, `Orb`: the historical runs.
- `Calendar`, `Intraday`: trading days, early closes, bar grids, bar validation and hourly
  bars.

Numbers.  Prices and quantities are exact `real` values (or whole units of 1e-8, `Ticks`),
money is a whole number of 1/10000 units.  `quantize` is `RoundHalfEven`; `Mul`, `Add`, `Sub`
and `Div` round half-even to 28 digits, as RiskCheck and the gate do after every operation.
Objects whose fields the source updates in place are classes (`Account`, `Experiment`,
`PaperRunner`); each method equates the new contents with a function of the old, and the
properties are proved of those functions.

What turned out false of the code is stated as such, with the exact condition and an input
that meets it:

- Sizing to a target can miss it: exactly when the integers computed from the columns give
  another quantity than exact arithmetic does (`TargetSizing`); where nothing on the way has
  more than 28 digits, exactly when the quotient carries and nothing else limits the order
  (`UnroundedSizing`).  `OvershootsByQuotient` and `OvershootsByDifference` are two accounts.
- An order can be refused that exact arithmetic would make: never with a stored value, and
  otherwise exactly when the integers of `TargetRefusals` differ; `RefusedByRounding` is an
  account.
- A step can stay RUNNING: exactly when `StepsTerminate` says.  `MissingDataLeavesRunning`: an
  event step without market data, and a manual or scheduled one whose failure handler fails
  too.  The other clause, a re-raised error after creation, no input of the paper path meets:
  it raises those four errors only before the step exists (paper_step_runner.py:277-356) or
  from the handler itself (line 196), so for run_next_step the handler is what matters.
- A call to the broker can be left without an order row, and is then never polled: exactly
  when `CallsAndOrders` says.  `CallWithoutOrder`: a BUY whose call, or whose transaction after
  the call, raises.
- A position is the net traded quantity exactly when nothing was oversold
  (`PositionOfTrades`, `PositionFromReports`).  `OpenSellIsSoldAgain`: RiskCheck does not see
  open orders, so a second SELL of the same shares passes, and both fill.
- Cash depends on when fills were polled: by the drift of the reported prices from the final
  one, to half a tick per fill, and exactly where no amount needs rounding
  (`CashFromReports`; `CashDependsOnPolling` is an instance).
- A step can start on a paused experiment: exactly when the status was written to another
  after the worker's own read (`PauseMissedExactly`; `PauseCanBeMissed` is an instance).
- Full runs beside the step runners can make a second RUNNING step: exactly when, at one of
  their inserts, one is RUNNING or a worker is past its check (`FullRunsSafeExactly`;
  `FullRunBesideWorker` is an instance).
- Recomputed prices are the prefix exactly when no earlier bar has the date (`PrefixByDate`;
  with a repeated date `RepeatedDateHolds` holds where the full run buys).
- An orphaned step blocks its experiment for good (`OrphanBlocksForever`), and a worker that
  dies after its commit leaves one (`OrphanReachable`).

## Model

| member | source | states |
|---|---|---|
| Decimals.SigMonotone | backend/app/modules/execution/risk.py:83 | Rounding a quotient to 28 digits never reverses an order. |
| Decimals.SigError | backend/app/modules/execution/risk.py:83 | Rounding to 28 digits moves a value by at most half a unit of its 28th digit. |
| Decimals.FloorOfQuotientExactly | backend/app/modules/execution/risk.py:30-32 | Flooring a quotient already rounded to 28 digits gives the exact integer floor, or one more exactly when 2(p - n mod p)10^(28-d) <= p, d being the digits of the floor. |
| Decimals.SmallNeverCarries | backend/app/modules/execution/risk.py:173-175 | No share is ever added when the numerator is below 2 * 10^27. |
| Decimals.ShortNeverCarries | backend/app/modules/execution/risk.py:83-92 | No share is ever added when numerator and denominator together have at most 27 digits. |
| Decimals.RoundMonotone | backend/app/modules/execution/risk.py:78 | Half-even rounding is monotone, ties included. |
| Significant.SigInUnits | backend/app/modules/execution/risk.py:134-145 | Rounding a value to 28 digits is rounding its integer in any fixed unit: the context is integer arithmetic. |
| Significant.ShortIsKept | backend/app/modules/execution/risk.py:134-145 | A value is left as it is if and only if it has at most 28 significant digits. |
| Risk.CashSharesExact | backend/app/modules/execution/risk.py:83-92 | For every cash in Numeric(19,4) and positive price in Numeric(19,8), buying power is the exact integer floor of cash / price. |
| Risk.BuySizing | backend/app/modules/execution/risk.py:83-104 | A BUY without a target spends no more than the cash and leaves less than the price of a share; HOLD exactly when one share is too much. |
| Risk.ResultsAreConsistent | backend/app/modules/execution/risk.py:34-225 | Every result is approved and is a positive quantity with its rounded value, or a HOLD with neither; a price that is not positive always gives a HOLD, and no target means the rule without one. |
| Sizing.TargetSizing | backend/app/modules/execution/risk.py:106-225 | For any portfolio in its columns (fractional, overdrawn or unvalued too), every product, sum and difference rounded as the code does: the quantity ordered, and that a BUY stays within target value and cash, a SELL leaves at least the target and sells at most the holding, in whole shares and with less than a share of gap left unless cash ran out, if and only if that quantity is the one exact arithmetic gives, both computed in integers from the columns. |
| Sizing.TargetOrders | backend/app/modules/execution/risk.py:114-175 | An order is refused exactly for a HOLD, a portfolio without value, a computed gap below one share or cash below one share; otherwise the side is the sign of the gap. |
| Sizing.CountedExactly | backend/app/modules/execution/risk.py:133-175 | The shares the code counts for its rounded gap are the integer count. |
| Sizing.UnroundedSizing | backend/app/modules/execution/risk.py:134-225 | Where no intermediate has more than 28 digits, the promise fails if and only if the quotient carries and cash does not limit the BUY. |
| Sizing.TargetRefusals | backend/app/modules/execution/risk.py:134-215 | Exactly when an order that was asked for is refused, and exactly when that is right in exact values (no portfolio value, a gap below one share, or a BUY that cash cannot pay), both in integers from the columns; with a stored value every refusal is right. |
| Sizing.DecidedInIntegers | backend/app/modules/execution/risk.py:106-225 | Whether an order is made, on which side and for how much, all from the columns in integers. |
| Sizing.UnroundedRefusals | backend/app/modules/execution/risk.py:134-215 | Where no intermediate has more than 28 digits, an order is refused if and only if that is right. |
| Sizing.RefusedByRounding | backend/app/modules/execution/risk.py:134-165 | A concrete account without a stored value, one share away from its target, whose computed gap is 4e-16 short of a share. |
| Sizing.WholeAccountsAreSized | backend/app/modules/execution/risk.py:106-225 | An account of whole shares, with a stored value or without, always gets the promise, and is refused an order if and only if that is right. |
| Sizing.OvershootsByQuotient | backend/app/modules/execution/risk.py:173-175 | A concrete account whose quotient alone is rounded: the gap pays for 100,007,999 shares and 100,008,000 are bought. |
| Sizing.OvershootsByDifference | backend/app/modules/execution/risk.py:144-175 | A concrete account whose quotient does not carry but whose 29-digit gap rounds up: 470,788,218,700 shares are bought, one too many. |
| Sizing.WholeWorthUnrounded | backend/app/modules/execution/simulation_provider.py:66-79 | The value of a whole-share holding that fits its column is rounded once only. |
| Gate.DecisionSurvives | backend/app/modules/agents/decision_gate.py:33-71 | A BUY leaves the gate if and only if confidence meets the threshold, the target exceeds rounded exposure, there is new information and risk is not HIGH; a SELL if and only if confidence does, something is held and the target is below. |
| Gate.GateIdempotent | backend/app/modules/agents/decision_gate.py:15-111 | Gating a gated decision changes nothing. |
| Gate.GateOutcome | backend/app/modules/agents/decision_gate.py:15-111 | At any cap: which of the six reasons is recorded, in their order, and what action, target and intent are left. |
| Gate.ExposureIsNear | backend/app/modules/agents/decision_gate.py:113-121 | The exposure compared with is the holding's share of the portfolio within its two roundings, 0 without value. |
| Gate.ExposureOrder | backend/app/modules/agents/decision_gate.py:113-121 | A grid target on one side of the exposure is on that side of it after the division and the quantization. |
| Gate.GapSign | backend/app/modules/agents/decision_gate.py:33-62 | A surviving BUY has no negative value gap to close and a surviving SELL no positive one, with every operation on both sides rounded. |
| Gate.DirectionKept | backend/app/modules/agents/decision_gate.py:23-62 | For the same portfolio and price, RiskCheck never turns a gated BUY into a SELL, a gated SELL into a BUY, or a HOLD into an order. |
| Agents.RunStage | backend/app/modules/agents/pipeline_agent.py:303-337 | A stage is failed exactly when no completion or repair was accepted, and then its output is the fallback. |
| Agents.ParseWithRepair | backend/app/modules/agents/pipeline_agent.py:749-826 | The bounded repair loop decides as the recursive reading of at most two repairs does, whatever raises, declines or fails to parse. |
| Agents.RepairsInTurn | backend/app/modules/agents/pipeline_agent.py:765-800 | What is accepted, attempt by attempt: completion, first repair, second repair, each asked with the text rejected last; and the failure recorded otherwise. |
| Agents.RepairsOnce | backend/app/modules/agents/single_agent.py:40-103 | The same for the single agent's one repair. |
| Agents.RunSingleAgent | backend/app/modules/agents/single_agent.py:40-149 | Status and decision are those of one completion, one repair, the fallback and the gate. |
| Agents.SingleAgentFailSafe | backend/app/modules/agents/single_agent.py:40-103 | Any order means the agent's own accepted output asked for that side; a BUY also met every condition of the gate. |
| Agents.PipelineFailSafe | backend/app/modules/agents/pipeline_agent.py:870-926 | Any order means the portfolio-manager stage was parsed or repaired and asked for it; a BUY also means the risk stage did not fail, is not HIGH, and every condition of the gate. |
| Agents.PipelineDecides | backend/app/modules/agents/pipeline_agent.py:870-926 | And conversely: the decision is a BUY, or a SELL, if and only if the portfolio-manager stage was accepted and asked for it and every condition of the gate holds, a failed risk stage counting as HIGH; the target is the one asked for. |
| Ledger.Account.constructor | backend/app/modules/experiments/service.py:198-212 | A new account holds its capital in cash and nothing else. |
| Ledger.Account.ApplyFill | backend/app/modules/execution/paper_provider.py:145-189 | The fill's effect on cash, position and trades; a SELL below zero stops at zero. |
| Ledger.Account.MarkToMarket | backend/app/modules/execution/paper_step_runner.py:1280-1289 | Position value and total at a price, from the current cash and position. |
| Ledger.Account.ExecuteOrder | backend/app/modules/execution/paper_provider.py:72-121 | Submission: one order row, at most one fill, revaluation. |
| Ledger.Account.SumFilled | backend/app/persistence/repositories/trade_repository.py:45-49 | The summed trade quantity of an order. |
| Ledger.Account.PersistOrderSync | backend/app/modules/execution/broker_sync.py:88-175 | One poll: status and price recorded, the unseen part of the fill applied, unknown words ignored. |
| Ledger.Account.PollOrder | backend/app/modules/execution/broker_sync.py:64-79 | A provider error leaves the account untouched and is reported. |
| Ledger.Account.SyncOpenOrders | backend/app/modules/execution/broker_sync.py:57-80 | A pass polls exactly the orders open when it began, in order and up to the first that raises anything but a provider error, and reports which were synced and which failed. |
| Ledger.Reached | backend/app/modules/execution/broker_sync.py:64-79 | The orders a pass gets to are the longest prefix of the open ones that does not raise. |
| Ledger.SecondSellOversells | backend/app/modules/execution/broker_sync.py:269-282 | An instance: ten shares bought and sold twice leave a position of 0 with a net of -10 traded. |
| Ledger.OpenOrders | backend/app/persistence/repositories/order_repository.py:46-57 | Exactly the SUBMITTED orders are polled, each once, by submission time and then by row. |
| Ledger.OpenInTime | backend/app/persistence/repositories/order_repository.py:46-57 | The earlier submitted is polled first; of two submitted at once, the earlier row. |
| Ledger.AnsweredExactly | backend/app/modules/execution/broker_sync.py:64-79 | Reported as synced are exactly the polled orders answered in a known word, as failed the others. |
| Ledger.StatusIsLastKnown | backend/app/modules/execution/broker_sync.py:246-256 | After any history an order's status is what the last known answer about it said; unknown words and polls of other orders leave it. |
| Ledger.StatusByWord | backend/app/modules/execution/broker_sync.py:246-256 | After any history from a fresh account, what each status means in the broker's last known word: filled only is FILLED; accepted, new, pending_new and partially_filled are SUBMITTED; and so on. |
| Ledger.OpenByWord | backend/app/modules/execution/broker_sync.py:57-80 | A pass polls an order if and only if its last known word was accepted, new, pending_new or partially_filled. |
| Ledger.PassCatchesUp | backend/app/modules/execution/broker_sync.py:57-147 | After any history and a pass that raises nothing, every order the broker still works on, partly filled ones included, has at least the quantity the pass reports for it; the trades of all others are as before. |
| Ledger.EventLeaves | backend/app/modules/execution/broker_sync.py:88-175 | The price the account is valued at after each event, the row of a new order, and what a poll changes of a row: status and price alone. |
| Ledger.StepFills | backend/app/modules/execution/broker_sync.py:133-147 | Any event moves an order's traded quantity to the larger of itself and what is reported. |
| Ledger.SyncConverges | backend/app/modules/execution/broker_sync.py:88-175 | After any history, an order's trades sum to the largest filled quantity any priced, known answer reported, the submission counted. |
| Ledger.StalePollIsNoOp | backend/app/modules/execution/broker_sync.py:133-135 | A poll reporting no more than is traded changes neither trades nor portfolio. |
| Ledger.ResyncIsNoOp | backend/app/modules/execution/broker_sync.py:133-147 | Syncing the same answer twice is syncing it once. |
| Ledger.HistoryBalanced | backend/app/modules/execution/broker_sync.py:259-290 | Over any interleaving of submissions and polls, cash is the starting cash minus bought plus sold order values, to the last 1/10000. |
| Ledger.PositionOfTrades | backend/app/modules/execution/paper_provider.py:157-174 | The position is never negative and equals the net traded quantity if and only if no SELL fill exceeded the holding; otherwise it is more. |
| Ledger.PositionOfOneOrder | backend/app/modules/execution/broker_sync.py:269-282 | One order's effect on the position depends on its total only, not on how the fills were split. |
| Reports.FillsAreIncreases | backend/app/modules/execution/broker_sync.py:133-147 | After any history the trades of an order are exactly the increases in what was reported for it, at the prices reported. |
| Reports.PositionFromReports | backend/app/modules/execution/broker_sync.py:259-290 | With any number of orders, fills in any order: the position is at least the signed sum of the largest reports, and equal to it if and only if no SELL fill exceeded the holding. |
| Reports.SameReportsSamePosition | backend/app/modules/execution/broker_sync.py:88-175 | Two histories that end with the same reports end with the same position. |
| Reports.CashFromReports | backend/app/modules/execution/broker_sync.py:136-145 | What an order costs differs from its whole quantity at a final price by the drift of the reported prices, within half a tick per fill; a larger drift makes it differ, and where no amount needs rounding it is equal if and only if there is no drift. |
| Reports.OneFillOffFinal | backend/app/modules/execution/broker_sync.py:136-145 | One fill off the final price by more than the tick bound makes the cash differ. |
| Ledger.LedgerTheorem | backend/app/modules/execution/paper_provider.py:145-189 | All of the above for the account after any history from a fresh start. |
| Ledger.CashDependsOnPolling | backend/app/modules/execution/broker_sync.py:136-145 | An instance: two histories with the same final report and different cash. |
| StepProtocol.StepsAreSafe | backend/app/modules/execution/paper_step_runner.py:336-383 | For any number of workers and any interleaving: at most one RUNNING step per experiment, one SCHEDULED paper step per slot, numbers exactly 1..n in order, and the unique constraint never rejects. |
| StepProtocol.ActKeeps | backend/app/modules/execution/step_runner.py:186-230 | Every single act of either step runner keeps the invariant. |
| StepProtocol.RunKeeps | backend/app/modules/execution/step_runner.py:146-230 | Hence every run keeps it, and while the runners alone insert every pending number stays free. |
| StepProtocol.CommitKeeps | backend/app/modules/execution/paper_step_runner.py:363-383 | Making an insert visible keeps exclusion, slots and numbering, though its number was read earlier. |
| StepProtocol.UndisturbedWorker | backend/app/modules/execution/paper_step_runner.py:282-383 | From any reachable state, an idle worker left undisturbed creates a step, with the next number, if and only if the experiment is active and not locked, nothing is RUNNING and the slot or a bar is left; locks are restored either way. |
| StepProtocol.CreatesExactly | backend/app/modules/execution/paper_step_runner.py:282-383 | The same in terms of the rows: the row is added if and only if the experiment is active and unlocked, none of its steps is RUNNING and, for a scheduled paper job, no scheduled step of it has that very slot, or for a historical one fewer steps than bars exist. |
| StepProtocol.NoLockLeaks | backend/app/modules/execution/paper_step_runner.py:336-383 | Over any run, crashes and full runs included, an experiment is locked if and only if a worker is between its try-lock and its release, and that worker holds it. |
| StepProtocol.StepsEndAsFinished | backend/app/modules/execution/paper_step_runner.py:1245-1258 | Over any run, a step is RUNNING until its own worker (or, historical, a full run) finishes it, and then as that said; visible rows never change. |
| StepProtocol.NumbersExact | backend/app/persistence/repositories/execution_step_repository.py:13-17 | max + 1 numbering uses exactly the numbers 1..n. |
| StepProtocol.NumbersIncrease | backend/app/persistence/repositories/execution_step_repository.py:13-26 | Later steps of an experiment have larger numbers. |
| StepProtocol.OrphanBlocksForever | backend/app/modules/execution/paper_step_runner.py:244-271 | A step nobody will finish stays RUNNING and no run ever adds another step to its experiment. |
| StepProtocol.OrphanReachable | backend/app/modules/execution/paper_step_runner.py:244-271 | From any initial state a worker that may start creates a step and dies, leaving an orphan. |
| StepProtocol.PauseMissedExactly | backend/app/modules/execution/paper_step_runner.py:306-383 | Over any run: a commit makes a step visible on an experiment that is not ACTIVE if and only if the last act to write the status after that worker's own read wrote another one, a runner ending the experiment included. |
| StepProtocol.PauseCanBeMissed | backend/app/modules/execution/paper_step_runner.py:306-339 | An instance: a run in which a paused experiment starts a step. |
| StepProtocol.FullRunInsertExactly | backend/app/modules/execution/orchestrator.py:125-149 | The full run's insert keeps exclusion if and only if the experiment has no RUNNING step. |
| StepProtocol.FullRunSafeExactly | backend/app/modules/execution/orchestrator.py:125-149 | From any reachable state, no continuation of the runners has two RUNNING steps if and only if, in addition, no worker is between its RUNNING check and its insert with a slot or bar left; of two rows with one number the unique constraint rejects the one flushed last. |
| StepProtocol.FullRunsSafeExactly | backend/app/modules/execution/orchestrator.py:92-149 | Over any interleaving with any number of full-run inserts, one for every bar: no point of it and no continuation of the runners has two RUNNING steps if and only if every insert was safe when it was made. |
| StepProtocol.SafeInsertsKeep | backend/app/modules/execution/orchestrator.py:92-149 | Such full runs also keep one step per slot and the numbers exactly 1..n. |
| StepProtocol.FullRunBesideWorker | backend/app/modules/execution/orchestrator.py:125-149 | An instance: from any initial state, a full run's insert beside one worker that has passed its checks leads to two RUNNING steps. |
| PaperStep.PaperRunner.constructor | backend/app/modules/execution/paper_step_runner.py:125-149 | A runner starts with the capital in cash, empty tables and no call, and they are gated. |
| PaperStep.PaperRunner.CreateStep | backend/app/modules/execution/paper_step_runner.py:363-383 | The new step is RUNNING, no call and no order names it, and the tables stay gated. |
| PaperStep.PaperRunner.PlaceOrder | backend/app/modules/execution/paper_provider.py:72-81 | The broker may only be called on a committed, approved check of the same step that asks for this side and this positive quantity, and not twice for a step. |
| PaperStep.PaperRunner.FindOrder | backend/app/modules/execution/paper_provider.py:54-70 | The lookup finds an order of the step or of the check if there is one. |
| PaperStep.PaperRunner.ExecuteIfApplicable | backend/app/modules/execution/paper_provider.py:46-121 | Guard, lookup, call, order row and fill, in the caller's transaction. |
| PaperStep.PaperRunner.PersistFailure | backend/app/modules/execution/paper_step_runner.py:1366-1426 | The failure handler, in a transaction that may itself fail. |
| PaperStep.PaperRunner.RunStepArtifacts | backend/app/modules/execution/paper_step_runner.py:452-588 | The first transaction: RiskCheck on the account as it stands, its commit before the broker, or the end of the step. |
| PaperStep.PaperRunner.RunBrokerExecution | backend/app/modules/execution/paper_step_runner.py:1188-1258 | The second transaction: provider, revaluation, end of step, and what is rolled back when anything raises. |
| PaperStep.PaperRunner.RunNextStep | backend/app/modules/execution/paper_step_runner.py:151-242 | A whole step: refusals, creation, work and failure handler. |
| PaperStep.PaperRunner.RunEventStep | backend/app/modules/execution/paper_step_runner.py:244-271 | A whole event step, without the handler. |
| PaperStep.GuardsAgree | backend/app/modules/execution/paper_step_runner.py:1260-1266 | The runner's guard, the provider's guard and "not a HOLD" are the same for every RiskCheck on every account; a SELL is for no more than is held. |
| PaperStep.NothingExists | backend/app/modules/execution/paper_provider.py:54-70 | The lookup never finds an order for a fresh step. |
| PaperStep.BrokerIsGated | backend/app/modules/execution/paper_step_runner.py:546-573 | After any history of steps, event steps and syncs: every call carries out a committed, approved RiskCheck of its step for the same side and positive quantity, no step calls twice, and every order row belongs to a call. |
| PaperStep.CallsAndOrders | backend/app/modules/execution/paper_step_runner.py:1188-1258 | At the end of any history, exactly which created steps have called the broker and which of those have an order row: not those whose call or whose transaction raised. |
| PaperStep.TargetedCall | backend/app/modules/execution/paper_step_runner.py:846-883 | What a step with an agent's target asks of the broker on any account in its columns: side and quantity in integers, and nothing exactly when the decision is a HOLD or the integers refuse. |
| PaperStep.TargetedCallIsSized | backend/app/modules/execution/paper_step_runner.py:846-883 | On an account of whole shares every such call keeps what target sizing promises for the account the step read, and an uninterrupted step makes none if and only if the decision is a HOLD or refusing is right. |
| PaperStep.RuledCall | backend/app/modules/execution/paper_step_runner.py:1188-1266 | Without a target, a BUY asks for all the whole shares cash pays for, a SELL for the whole position; nothing is asked exactly when there is nothing to order. |
| PaperStep.StepCreated | backend/app/modules/execution/paper_step_runner.py:272-383 | A step is created if and only if nothing raises before, the experiment has not failed and none of its steps is RUNNING. |
| PaperStep.NotCreatedLeaves | backend/app/modules/execution/paper_step_runner.py:180-204 | A step that is not created changes nothing but, through the handler, fails the experiment on a configuration error. |
| PaperStep.StepLeaves | backend/app/modules/execution/paper_step_runner.py:1188-1258 | What a created step leaves: the account unchanged, revalued or with the broker's answer submitted, and when step and experiment are FAILED: on rejected or an unknown word, or a recorded configuration error. |
| PaperStep.FailedBlocks | backend/app/modules/execution/paper_step_runner.py:306-315 | A failed experiment creates no more steps and makes no more calls. |
| PaperStep.LostCallsAreNeverPolled | backend/app/modules/execution/broker_sync.py:57-80 | A call without an order row is never polled. |
| PaperStep.StepEnds | backend/app/modules/execution/paper_step_runner.py:151-271 | How each created step ends, from the first exception among the stages it passes and the broker's answer. |
| PaperStep.StepsTerminate | backend/app/modules/execution/paper_step_runner.py:151-271 | A step is RUNNING at the end if and only if some run left it so: run_next_step when the first stage to raise raised one of the four re-raised errors or the failure handler failed too, run_event_step when any stage raised. |
| PaperStep.NextStepsTerminate | backend/app/modules/execution/paper_step_runner.py:180-242 | run_next_step alone leaves every step COMPLETED or FAILED when no stage raises one of the four and the handler commits. |
| PaperStep.MissingDataLeavesRunning | backend/app/modules/execution/paper_step_runner.py:244-271 | Inputs: without market data an event step stays RUNNING, and one of run_next_step exactly when its failure handler fails too. |
| PaperStep.CallWithoutOrder | backend/app/modules/execution/paper_step_runner.py:1188-1258 | Inputs: a BUY at $100 is called for, then the call or the rest of its transaction raises; there is no order row and the account is as before. |
| PaperStep.OpenSellIsSoldAgain | backend/app/modules/execution/paper_step_runner.py:452-588 | Input: three gated steps and a sync, the second SELL sized while the first is open; ten shares are bought once and sold twice. |
| PaperStep.RunningBlocks | backend/app/modules/execution/paper_step_runner.py:336-353 | A step left RUNNING stops all later steps and calls of its experiment. |
| PaperStep.AccountBalanced | backend/app/modules/execution/paper_step_runner.py:1188-1258 | Over any history of steps and syncs together, cash and position satisfy the ledger identities. |
| Metrics.MaxDrawdown | backend/app/modules/execution/metrics.py:39-49 | The one pass returns the worst rounded drop between any two positions, within [-1, 0]. |
| Metrics.DropMonotone | backend/app/modules/execution/metrics.py:44-48 | A higher peak never makes the rounded drop smaller, after both roundings. |
| Metrics.DrawdownIsWorstDrop | backend/app/modules/execution/metrics.py:39-49 | The running-peak value is the quadratic minimum for every nonnegative list. |
| Metrics.ReturnOrder | backend/app/modules/execution/metrics.py:16-37 | Total return is ordered as the value is, 0 at the initial capital and -1 when all is lost. |
| Metrics.DrawdownNeverImproves | backend/app/modules/execution/metrics.py:39-49 | Appending a value never raises the drawdown. |
| Metrics.DropIsNear | backend/app/modules/execution/metrics.py:44-48 | A drop is the relative change from the peak, within its two roundings. |
| Metrics.CalculatesExactly | backend/app/modules/execution/metrics.py:16-37 | The recorded profit, return and trade count, and the worst drop over all values with the newest included. |
| Strategies.BuysOnlyWhenFlat | backend/app/modules/strategies/moving_average.py:20-69 | No rule-based strategy buys while holding or sells while flat. |
| Strategies.AverageDecides | backend/app/modules/strategies/moving_average.py:20-69 | Moving Average buys exactly when flat above a known average, and sells exactly when holding below it. |
| Strategies.AverageIsMean | backend/app/modules/execution/orchestrator.py:445-448 | The average is known exactly once the window is full, and is the mean of its closes within two roundings. |
| Strategies.BreakoutDecides | backend/app/modules/strategies/opening_range_breakout.py:53-115 | ORB buys exactly when flat, before a round trip, above the range, and sells exactly when holding, on the final bar or below the range. |
| Strategies.AverageWithinWindow | backend/app/modules/execution/orchestrator.py:445-448 | The twice rounded average lies between the lowest and highest close of the window. |
| Simulation.Experiment.constructor | backend/app/modules/experiments/service.py:198-212 | A new experiment has its capital in cash, no rows and is active. |
| Simulation.Experiment.MaxSequenceNumber | backend/app/persistence/repositories/execution_step_repository.py:13-17 | The largest step number, which is the number of steps. |
| Simulation.Experiment.CreateRunningStep | backend/app/modules/execution/orchestrator.py:125-149 | The new step's number is above every earlier one, and the numbers stay 1, 2, 3 and so on. |
| Simulation.Experiment.ExecuteIfApplicable | backend/app/modules/execution/simulation_provider.py:47-82 | The simulated fill; a SELL empties the position whatever its quantity. |
| Simulation.Experiment.MarkToMarket | backend/app/modules/execution/orchestrator.py:257-267 | Position value and total at the close. |
| Simulation.Experiment.Record | backend/app/modules/execution/orchestrator.py:269-316 | The trade, snapshot and metric rows of a step. |
| Simulation.Experiment.RunStep | backend/app/modules/execution/orchestrator.py:151-320 | The step's transaction as one function of the old rows, rolled back when a value overflows its column. |
| Simulation.Experiment.RunBar | backend/app/modules/execution/orchestrator.py:101-115 | Create, run, complete; or fail the step and the experiment. |
| Simulation.BuyIsAffordable | backend/app/modules/execution/simulation_provider.py:66-73 | A simulated BUY leaves cash between 0 and a share's price plus half a tick, though its cost is rounded. |
| Simulation.TradeIsNeutral | backend/app/modules/execution/simulation_provider.py:66-79 | A trade leaves cash plus rounded position value unchanged. |
| Simulation.StepTrades | backend/app/modules/execution/simulation_provider.py:47-82 | What a step trades: a SELL everything held, a BUY all that cash pays for, each at the close and on record; otherwise nothing. |
| Simulation.StepFailsExactly | backend/app/modules/execution/orchestrator.py:257-316 | A step fails exactly when a number it stores does not fit its column. |
| Simulation.StepOnRecord | backend/app/modules/execution/orchestrator.py:269-316 | Every step keeps the records exact: trades account for cash and position, and every metric row is about the values up to its snapshot. |
| Simulation.AdvanceSound | backend/app/modules/execution/orchestrator.py:196-316 | Every committed step keeps solvency, whole shares, the snapshot identities and the telescoped profit. |
| Simulation.ProcessBarSound | backend/app/modules/execution/orchestrator.py:101-115 | Every bar, failing ones included, keeps them and leaves no step RUNNING. |
| Historical.RunAll | backend/app/modules/execution/orchestrator.py:408-432 | The loop with its growing price list is the fold over bar prefixes, stopping at the first failure. |
| Historical.PricesThroughBar | backend/app/modules/execution/step_runner.py:271-287 | The recomputed closes, up to the first bar with the date. |
| Historical.RunNextStep | backend/app/modules/execution/step_runner.py:106-230 | One manual call with its four refusals (status, lock, RUNNING step, no bar left) and its completion of the experiment. |
| Historical.PrefixByDate | backend/app/modules/execution/step_runner.py:271-287 | Recomputed prices are the bar prefix if and only if no earlier bar has the same date. |
| Historical.RepeatedDateHolds | backend/app/modules/execution/step_runner.py:271-287 | Input: with a repeated date the recomputed prices miss a bar, and Moving Average holds where the full run buys. |
| Historical.ManualRefinesFull | backend/app/modules/execution/step_runner.py:106-287 | k manual calls leave exactly the rows the full run has after k bars, and the experiment is COMPLETED exactly when the bars are used up. |
| Historical.FullRunSound | backend/app/modules/execution/orchestrator.py:408-432 | The run invariant holds after every bar. |
| Historical.HistoricalRunSound | backend/app/modules/execution/orchestrator.py:240-267 | Over any bars: cash never negative, whole nonnegative position, and profit exactly the telescoped sum of rounded changes of what was held. |
| Historical.FullRunOnRecord | backend/app/modules/execution/orchestrator.py:269-316 | The records are exact at every point of a run. |
| Historical.FullRunSteps | backend/app/modules/execution/orchestrator.py:101-149 | A run has one step for each bar, with its date and the next number, all COMPLETED but the one it failed at. |
| Historical.AverageRunTrades | backend/app/modules/execution/orchestrator.py:400-448 | Every bar of a Moving Average run: nothing before the window is full; then everything held is sold at a close below the mean of the window's closes, all that cash pays for is bought above it when flat, otherwise nothing. |
| Historical.HoldBuysOnce | backend/app/modules/strategies/buy_and_hold.py:17-32 | A Buy-and-Hold run buys exactly once, at the first bar whose price the capital covers, and never sells; before that it keeps its capital. |
| Historical.BuyLeavesLessThanAShare | backend/app/modules/execution/risk.py:83-104 | Each executed BUY of a run leaves less than one share price plus half a tick. |
| Orb.RangeIsExtreme | backend/app/modules/execution/orchestrator.py:668-680 | The opening range is the extreme high and low of the bars up to 9:55, present as soon as one is. |
| Orb.ValidatedSession | backend/app/modules/market_data/intraday_validation.py:12-63 | Bars validated for a trading day are a full session at five-minute steps from 9:30. |
| Orb.StatesAgree | backend/app/modules/execution/paper_step_runner.py:1099-1134 | At every bar the paper runner, from the bar prefix, shows the strategy the same range, completion and final flag as the full run, from the whole session. |
| Orb.DueSlotShown | backend/app/modules/scheduler/jobs.py:375-386 | On a day whose bars validate, the bars loaded until the due slot are exactly those that have ended, and the strategy is shown the state the full run shows it at that bar. |
| Orb.GroupBySession | backend/app/modules/execution/orchestrator.py:709-713 | Every day with bars once, in date order, each with exactly its bars in the order given. |
| Orb.RunSession | backend/app/modules/execution/orchestrator.py:668-703 | The session loop with its round-trip flag; a session without an opening-range bar fails the run. |
| Orb.RunSessionBar | backend/app/modules/execution/orchestrator.py:682-703 | One bar of it; the flag is set by an executed SELL. |
| Orb.RunSessions | backend/app/modules/execution/orchestrator.py:668-707 | The loop over sessions, stopping at the first failure. |
| Orb.RunAll | backend/app/modules/execution/orchestrator.py:658-713 | The whole run over ungrouped bars. |
| Orb.BarEffect | backend/app/modules/strategies/opening_range_breakout.py:53-115 | What one bar does to the trades for each thing the strategy may ask. |
| Orb.SessionLanguage | backend/app/modules/strategies/opening_range_breakout.py:53-115 | A session entered holding sells exactly once and ends flat; any other trades [], [BUY], or [BUY, SELL], a lone BUY only on the final bar; nothing trades inside the opening range. |
| Orb.AskedAt | backend/app/modules/strategies/opening_range_breakout.py:53-115 | What the strategy asks for at each bar of a session, from the bars' highs, lows and closes. |
| Orb.SessionTrades | backend/app/modules/execution/orchestrator.py:668-703 | Exactly what a session trades: entered flat, all that cash pays for at the first affordable close above every high up to 9:55, sold at the first later bar that is final or closes below every low up to 9:55; entered holding, that sale alone; nothing else. |
| Orb.SessionSteps | backend/app/modules/execution/orchestrator.py:682-703 | Every bar is one COMPLETED step with its stamp and the next number. |
| Orb.MissingRangeFails | backend/app/modules/execution/orchestrator.py:668-680 | A session without a bar up to 9:55 fails the run before any step. |
| Orb.EverySessionSpeaks | backend/app/modules/execution/orchestrator.py:668-703 | Every session of a run from a fresh experiment speaks the language and trades exactly as its bars say. |
| Orb.ValidatedGroups | backend/app/modules/execution/orchestrator.py:709-713 | Grouping bars validated for a date range gives exactly its trading days, each a full session of bars that were given. |
| Orb.ValidatedRunSpeaks | backend/app/modules/execution/orchestrator.py:658-707 | So a run over validated bars has one session for every trading day, in order, and each session it finishes speaks the session language and trades exactly as its bars say. |
| Orb.OrbRunSound | backend/app/modules/execution/orchestrator.py:658-707 | Solvency and telescoped profit for every ORB run. |
| Orb.OrbRunOnRecord | backend/app/modules/execution/orchestrator.py:658-707 | The records are exact at every point of an ORB run. |
| Calendar.EasterIsSunday | backend/app/modules/market_data/trading_calendar.py:143-159 | For every year the computed Easter is a Sunday from March 22 to April 25 and Good Friday a Friday. |
| Calendar.EpactGivesH | backend/app/modules/market_data/trading_calendar.py:143-159 | The algorithm's h is the Gregorian epact's distance from 23, the epact defined from golden number and century corrections. |
| Calendar.EasterIsFirstSundayAfterFullMoon | backend/app/modules/market_data/trading_calendar.py:143-159 | Easter is the first Sunday strictly after the paschal full moon the epact gives. |
| Calendar.FindNthWeekday | backend/app/modules/market_data/trading_calendar.py:126-130 | The search ends on the occurrence-th such weekday of the month. |
| Calendar.FindLastWeekday | backend/app/modules/market_data/trading_calendar.py:133-140 | The search ends on the last such weekday of the month. |
| Calendar.HolidayPlace | backend/app/modules/market_data/trading_calendar.py:117-123 | Every holiday is a weekday of its own year, or New Year observed on the day before it. |
| Calendar.HolidaysAreLocal | backend/app/modules/market_data/trading_calendar.py:57-75 | The holiday set built for a query's years agrees on every date with a reading that does not know the query. |
| Calendar.HolidaysExactly | backend/app/modules/market_data/trading_calendar.py:57-75 | Exactly the closing dates of a year: fixed dates or the weekday beside them, weekdays by their week of the month, and the Friday before the first Sunday after the full moon. |
| Calendar.SessionsExactly | backend/app/modules/market_data/trading_calendar.py:28-88 | Which days trade, and which close at 13:00: July 3, December 24 and the Friday after the fourth Thursday of November. |
| Calendar.DatesCount | backend/app/modules/market_data/trading_calendar.py:32-54 | Dates count on from month to month and year to year. |
| Calendar.Holidays | backend/app/modules/market_data/trading_calendar.py:57-75 | The loop collects the holidays of the years from one before to one after. |
| Calendar.EarlyCloses | backend/app/modules/market_data/trading_calendar.py:77-88 | The loop keeps the early-close candidates that are weekdays and no holidays. |
| Calendar.ExpectedBarStartTimes | backend/app/modules/market_data/trading_calendar.py:103-114 | The bar loop produces the five-minute grid. |
| Calendar.GridShape | backend/app/modules/market_data/trading_calendar.py:103-114 | The grid's length and each of its entries. |
| Calendar.SessionsBetween | backend/app/modules/market_data/trading_calendar.py:28-55 | The day loop yields sessions that depend on each date alone, never on the range. |
| Calendar.SessionsJoin | backend/app/modules/market_data/trading_calendar.py:28-55 | A query over two adjacent ranges is the two queries joined. |
| Calendar.SessionsComplete | backend/app/modules/market_data/trading_calendar.py:28-55 | Dates strictly increase and are exactly the trading days of the range. |
| Intraday.ValidateIntradayBars | backend/app/modules/market_data/intraday_validation.py:12-63 | The nested loops over sessions validate against the union of their grids. |
| Intraday.AcceptedExactly | backend/app/modules/market_data/intraday_validation.py:30-63 | Bars pass if and only if every expected stamp has exactly one bar. |
| Intraday.ValidationExact | backend/app/modules/market_data/intraday_validation.py:12-63 | Accepted bars are given bars, and their stamps are the expected grid in order. |
| Intraday.RejectedExactly | backend/app/modules/market_data/intraday_validation.py:30-63 | A refusal names an expected stamp that several bars have, or else exactly the expected stamps that none has. |
| Intraday.CalendarValidation | backend/app/modules/market_data/intraday_validation.py:12-63 | Both, for the sessions of any calendar range. |
| Intraday.UntilIsPrefix | backend/app/modules/market_data/intraday_validation.py:66-110 | Validation up to a bar accepts what full validation accepts and returns its matching prefix. |
| Intraday.SessionGrid | backend/app/modules/market_data/trading_calendar.py:103-114 | A session has 78 bars, 42 on an early close, in order within its day. |
| Intraday.HourlyWindowsForSession | backend/app/modules/market_data/hourly_bars.py:21-34 | The chunking loop yields the consecutive full hours. |
| Intraday.DueSlotIsComplete | backend/app/modules/market_data/hourly_bars.py:37-49 | A due slot is the last window all of whose five-minute bars have ended; none is due exactly when no window has ended. |
| Intraday.FoldedRange | backend/app/modules/market_data/hourly_bars.py:52-111 | The aggregate high and low bound every bar and both occur. |
| Intraday.AggregateValidated | backend/app/modules/market_data/hourly_bars.py:52-111 | Over validated bars aggregation never fails and uses exactly the twelve bars of the hour. |
| Intraday.HourIs | backend/app/modules/market_data/hourly_bars.py:52-111 | The hour's bar opens with the first of its twelve bars, closes with the last, and has their extreme high and low and summed volume. |
| Intraday.AggregateRefuses | backend/app/modules/market_data/hourly_bars.py:52-111 | Aggregation refuses exactly a start at which no full hour of the session begins, and an hour without twelve bars. |
| Intraday.VolumeConserved | backend/app/modules/market_data/hourly_bars.py:52-111 | The hourly volumes sum to the volume of the bars in full hours, each counted once. |
| Intraday.WindowSpan | backend/app/modules/market_data/hourly_bars.py:21-34 | A window of a calendar session ends 55 minutes after it starts. |
| Intraday.DueSlotAggregates | backend/app/modules/execution/paper_step_runner.py:1010-1033 | A due slot's bars, loaded through 55 minutes after it, always aggregate. |

## Left out

- Frontend, API routes, schemas, migrations, pagination: no state of their own.
- HTTP clients, prompts and JSON decoding: broker answers, provider answers and parsers are arbitrary inputs; a parser is a partial function whose numbers are on the 1/10000 grid in [0, 1]. A completion may raise; only a repair may decline.
- Timezones and wall clocks: stamps are local minutes, dates are day ordinals, `now` is arbitrary.
- Postgres: an advisory lock excludes other holders until the commit is visible. A full run's insert that the unique number rejects, because a worker's row with it is flushed, changes nothing and is no act of `StepProtocol`. Outside `StepProtocol` transactions are serial, so lost updates between concurrent portfolio transactions are not modelled.
- Order values and market values (`Worth`): the product is exact. The code rounds it to 28 digits first, which changes nothing for at most 28 digits (`Sizing.WorthUnrounded`, and so for whole shares), but may for fractional holdings worth more than 10^12 dollars. The sum of prices under a moving average is exact, as it is in the code below 10^9 bars.
- Rounding of broker quantities and prices when stored in their columns. `Ledger.ResyncIsNoOp` and `Ledger.SyncConverges` turn on it: a filled quantity with a ninth decimal is stored without it, so where it is rounded down the same answer leaves a positive difference at the next poll.
- Audit JSON, log rows, reason strings and row timestamps: nothing reads them back. Snapshots are read in insertion order.
- The trigger type of historical step rows: nothing modelled here reads it.
- Historical agentic stepping: rejected before it is reached.
- The smoke-test strategy, the other indicators, and the paper runner's moving average (the same mean, kept at four places).
- The scheduler's trigger loops and the daily due slot: they call the step runners and collect results; the hourly and ORB due slots are modelled.
- The paper runner's round-trip query: `Orb.StatesAgree` takes the flag as given.
- The lifecycle table and experiment deletion: `StepProtocol.SetStatus` lets the status change at any time to anything; the rows of an experiment in use are never missing.
- The snapshot and metric rows of paper steps: the historical ones are modelled, by the same calculator.
- Ledger.Account.ExecuteOrder: starts where the provider has passed its guard and its lookup, which `PaperStep.PaperRunner.ExecuteIfApplicable` models.
- Ledger.Account.SyncOpenOrders: the orders of one account; those of other experiments are polled between them and change other rows only.
- Ledger.OpenOrders: mode, broker and broker order id are not columns, because the provider gives every paper order the same two and a broker id.
- Ledger.PositionOfOneOrder: for one order at a time; `Reports.PositionFromReports` has any number.
- Sizing.TargetSizing: for the default exposure cap of 100%, the only one the callers use.
- Sizing.WholeAccountsAreSized: for a position value and a portfolio value that fit their columns; beyond them `TargetSizing` and `TargetRefusals` give the exact conditions.
- Calendar.SessionsBetween: asks for dates whose neighbouring years exist in Python's calendar; outside it the source raises.
- Historical.ManualRefinesFull: Moving Average needs distinct bar dates, exactly as `PrefixByDate` says; Buy-and-Hold needs nothing.
- Simulation.Experiment.RunStep: a transaction fails only when a cash, value, price, quantity or return does not fit its column; any other failure would be rolled back and recorded in the same way.
