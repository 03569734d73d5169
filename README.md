# Labelled-transition state machine

A model of a small event-driven state machine engine written in Go. A machine holds:
- a current state (`PresentState`);
- a directed multigraph of states joined by rule-guarded links;
- two id counters, one for states and one for links.

A rule maps a comparison operator to an event. Only the operator `"eq"` is understood.

Firing an event looks at the links leaving the current state:
- An `"eq"` rule whose event equals the fired one moves the machine to that link's target.
- A rule with any other operator aborts with `UNSUPPORTED_COMPARISON_OPERATOR`, whatever its event.
- When no rule decides, the call is a successful no-op.

`Compute` fires a list of events in order and stops at the first error.

The project is four modules:
- `Graph` (`graph.dfy`): the `State` and `Link` records, `NewRule`, and the link store's invariant.
- `Engine` (`engine.dfy`): the `StateMachine` class and the specification of one firing (`StepPossible`) and of a run of `Compute` (`IsRun`).
- `EngineProperties` (`properties.dfy`): lemmas about firing and about runs.
- `Turnstile` (`turnstile.dfy`): the two-state turnstile that the demo program builds, as written and as intended.

How the model handles unspecified order:
- The source iterates the successors of the current state, the links to each successor, and each rule map in an order it does not fix. The graph library and Go's map iteration decide that order.
- `FireEvent` makes each of these choices with `:|`. So its contract holds for every order.
- `StepPossible` admits every outcome that some order can produce. Any rule that decides can be the first one reached.
- For each successor the source consults one link (the `[0]` of the links to it). Which of several parallel links that is, is also left open: any one of them may be consulted on any call.
- `Unambiguous` names a class of link stores in which the behaviour does not depend on the order: only `"eq"` rules, identical rules on parallel links, and one target per event from each state. It is a sufficient condition, not a necessary one. For those stores, `StepUnique` and `RunDeterministic` prove that firing and `Compute` are deterministic.

The state and link ids are per machine. States get ids 0, 1, 2, … in creation order, and links get 1, 2, 3, …. `Valid` ties the counters to these facts.

Two facts about the code shape the model:
- `FireEvent` visits the distinct successors of the current state in an order the code leaves unspecified (main.go:107-110). For each successor it consults only the first line the graph returns, `[0]` (main.go:111).
- The demo builds `coinRule` with the operator `"eqs"` (main.go:150) and puts it on both coin links (main.go:153, 157). `"eq"` is the only operator `FireEvent` handles; every other operator reaches the error branch (main.go:115-123). So `"coin"` fails in `locked` (see Findings).

## Model

| member | source | states |
|---|---|---|
| `Graph.NewRule` | main.go:100-102 | the rule has exactly one entry, the given operator mapped to the given event |
| `Engine.StateMachine.constructor` | main.go:75-79 | a new machine has no states and no links, the zero State as current state, node counter 0 and line counter 1 |
| `Engine.StateMachine.Init` | main.go:81-86 | appends a state with the old node counter as id and the given value; makes it the current state; counter goes up by one; the id is larger than every earlier state's; links unchanged |
| `Engine.StateMachine.NewState` | main.go:88-93 | same as Init, except the current state is unchanged |
| `Engine.StateMachine.LinkStates` | main.go:95-98 | appends one link from s1 to s2 with the given rules and the old line counter as id; line counter goes up by one; the id is larger than every earlier link's; states and current state unchanged |
| `Engine.StateMachine.FireEvent` | main.go:104-129 | the outcome is one that some iteration order allows; the current state becomes the target only on a matching "eq" rule; the error is returned exactly for an unsupported operator, and then the state is unchanged |
| `Engine.StateMachine.Compute` | main.go:131-142 | the steps taken are a run: FireEvent applied to each event in order from the old current state, stopping after the first failure; returns the final current state, or the zero State with the error |
| `Engine.RunExtend` | main.go:132-136 | a clean run followed by one more firing is a run of the longer event list; a failing firing ends the run whatever events remain |
| `EngineProperties.StepExists` | main.go:104-129 | firing an event always has some outcome |
| `EngineProperties.NoMatchIsNoOp` | main.go:109-128 | when no rule on a link leaving the current state decides the event, the only outcome is success with the state unchanged |
| `EngineProperties.EqMatchCanMove` | main.go:116-119 | a matching "eq" rule on a leaving link can decide the event; FireEvent then succeeds and moves to that link's target |
| `EngineProperties.MatchForcesMove` | main.go:107-120 | with only "eq" rules leaving the state and every link to one successor matching, every outcome is a move to the target of a matching link |
| `EngineProperties.NoMatchExcluded` | main.go:107-126 | if every link to some successor has a deciding rule, the event cannot be ignored |
| `EngineProperties.OnlyEqCannotFail` | main.go:113-124 | with only "eq" rules leaving the state, firing never fails |
| `EngineProperties.SelfLoopKeepsState` | main.go:116-119 | a matching self-loop can decide the event; FireEvent then succeeds and the same state stays current |
| `EngineProperties.UnsupportedOperatorCanFail` | main.go:121-123 | a non-"eq" operator on a leaving link can decide any event, whatever its comparison value; FireEvent then fails and the state stays |
| `EngineProperties.UnsupportedForcesFailure` | main.go:107-125 | with no matching "eq" rule and every link to some successor holding a non-"eq" operator, every outcome is the error |
| `EngineProperties.StepUnique` | main.go:107-125 | in an unambiguous store, firing an event has exactly one outcome |
| `EngineProperties.MoveExcludesNoMatch` | main.go:107-128 | in an unambiguous store, an event that can move the machine cannot be ignored |
| `EngineProperties.RunDeterministic` | main.go:131-142 | in an unambiguous store, the run of Compute over an event list is unique |
| `EngineProperties.RunStopsAtFirstError` | main.go:132-141 | a run has at most one step per event and only its last step can fail; Compute succeeds exactly when every event was processed without failure, and returns the zero State on failure |
| `EngineProperties.RunConcat` | main.go:132-141 | running a without error and then b from the state reached is a run of a + b that ends in the same state |
| `Turnstile.Build` | main.go:145-157 | building the demo through the engine yields states locked (current) and unlocked and the four demo links in order |
| `Turnstile.AsWrittenLockedAlwaysCanFail` | main.go:150-157 | with the "eqs" coin rule, any event fired in locked can fail and none can be ignored |
| `Turnstile.AsWrittenCoinFails` | main.go:150-153 | with the "eqs" coin rule, "coin" in locked always fails |
| `Turnstile.AsWrittenPushDependsOnOrder` | main.go:150-156 | with the "eqs" coin rule, "push" in locked can fail or take the self-loop, depending on order |
| `Turnstile.DemoAsWritten` | main.go:145-162 | the demo as written: Compute(["coin", "push"]) returns the zero State and the error, and locked stays current |
| `Turnstile.IntendedIsUnambiguous` | main.go:150-157 | the turnstile with an "eq" coin rule is unambiguous |
| `Turnstile.IntendedCoinPush` | main.go:161-162 | with an "eq" coin rule, every run over ["coin", "push"] moves to unlocked and then to locked |
| `Turnstile.IntendedPushAndJump` | main.go:151-156 | with an "eq" coin rule, "push" in locked takes the self-loop and "jump" is ignored |
| `Turnstile.DemoIntended` | main.go:145-162 | with an "eq" coin rule, Compute(["coin", "push"]) succeeds, ends in locked, and passes through unlocked |

## Left out

- Console output is not modelled: the demo's `main` printing, `State.String` with its float formatting, and the `Printf` diagnostics in `FireEvent` and `Compute`. `Compute` keeps its `printState` parameter, which has no effect on state.
- The accessor methods `ID`, `From` and `To` are not modelled separately. They are the fields of the `State` and `Link` datatypes.
- `ReversedLine` (main.go:49-51) is not modelled. Only the graph library calls it: it builds a new `Link` with the endpoints swapped, a zero id and no rules.
- The graph library (gonum's multigraph) is not part of this model. It is replaced by two insertion-ordered sequences, one of states and one of links.
- `Value` is a closed datatype of the payloads that `State.String` recognises, plus `Nil`, the zero value. The source accepts any Go value; the engine never reads it.
- The id counters are per machine, not process-wide. The source's sharing of counters across machines is a concurrency hazard, outside a sequential model.
- The counters are unbounded integers. The model does not capture wrap-around of the `int` counter or of its `int64` conversion.
- The model does not fix any particular iteration order. It covers every order the source may use, but not the Go runtime's randomisation as such.
- Engine.StateMachine.LinkStates: requires both endpoints to be states this machine created. The graph library adds an endpoint it does not know, and it replaces the stored node when the ids match. That library code is not part of this model, and the demo only links states the machine returned.

## Findings

| source | as written | input that shows it | evidently intended | confidence | as-written member | corrected member |
|---|---|---|---|---|---|---|
| main.go:150 | the demo's coin rule uses the operator `"eqs"`, which the engine rejects | Compute(["coin", "push"]) from locked | operator `"eq"`, the only one the engine handles (main.go:115-123), so the coin links go from locked to unlocked and then push goes back to locked | high; not executed | `Turnstile.DemoAsWritten` | `Turnstile.DemoIntended` |
