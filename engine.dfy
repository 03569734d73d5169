/**
 * The state-machine engine: a current state plus a graph store, driven by
 * events.
 *
 * Firing an event visits the distinct successors of the current state in an
 * unspecified order, consults one (unspecified) link to each successor, and
 * walks that link's rules in an unspecified order. The first rule that
 * decides ends the call: an "eq" rule whose event equals the fired one moves
 * the machine to the link's target; a rule with any other operator fails with
 * UnsupportedComparisonOperator. When nothing decides, the call is a
 * successful no-op. StepPossible describes every outcome that some order of
 * iteration can produce; FireEvent is proved to produce one of them.
 */
module Engine {
  import opened Graph

  datatype Option<T> = None | Some(value: T)

  datatype Error = UnsupportedComparisonOperator

  /** The outcome of firing one event. */
  datatype Step = NoMatch | Moved(target: State) | Unsupported(op: Operator)

  /** Rule `k` of `rules` ends the evaluation of event `e`: a matching "eq", or any other operator. */
  predicate Decides(rules: map<Operator, Event>, k: Operator, e: Event) {
    k in rules && (k != Eq || rules[k] == e)
  }

  ghost predicate Undecided(rules: map<Operator, Event>, e: Event) {
    forall k :: !Decides(rules, k, e)
  }

  /**
   * `s` is an outcome of firing `e` in state `cur` for some order of the
   * successors, some choice of the consulted link to each successor and some
   * order of each consulted link's rules.
   */
  ghost predicate StepPossible(links: seq<Link>, cur: State, e: Event, s: Step) {
    match s
    case NoMatch =>
      forall t :: t in Successors(links, cur.id) ==>
        exists l :: l in links && Connects(l, cur.id, t) && Undecided(l.rules, e)
    case Moved(target) =>
      exists l :: l in links && l.from.id == cur.id && Decides(l.rules, Eq, e) && l.to == target
    case Unsupported(op) =>
      op != Eq && exists l :: l in links && l.from.id == cur.id && op in l.rules
  }

  /** The current state after step `s`. */
  function Next(cur: State, s: Step): (next: State) {
    if s.Moved? then s.target else cur
  }

  /** The error FireEvent reports for step `s`. */
  function ErrorOf(s: Step): (err: Option<Error>) {
    if s.Unsupported? then Some(UnsupportedComparisonOperator) else None
  }

  /** No step of `steps` failed. */
  predicate Clean(steps: seq<Step>) {
    forall i :: 0 <= i < |steps| ==> !steps[i].Unsupported?
  }

  /**
   * `steps` is a run of Compute over `events` from `start`: each event in
   * order is fired in the state the previous steps reached, and the run ends
   * after the first failing step.
   */
  ghost predicate IsRun(links: seq<Link>, start: State, events: seq<Event>, steps: seq<Step>)
    decreases events
  {
    if events == [] then steps == []
    else
      steps != [] && StepPossible(links, start, events[0], steps[0]) &&
      if steps[0].Unsupported? then steps == [steps[0]]
      else IsRun(links, Next(start, steps[0]), events[1..], steps[1..])
  }

  /** The current state after `steps`, starting from `start`. */
  function Replay(start: State, steps: seq<Step>): (final: State)
    decreases steps
  {
    if steps == [] then start else Replay(Next(start, steps[0]), steps[1..])
  }

  /** What Compute returns after the run `steps` from `start`. */
  function RunResult(start: State, steps: seq<Step>): (result: (State, Option<Error>)) {
    if steps != [] && steps[|steps| - 1].Unsupported? then (ZeroState, Some(UnsupportedComparisonOperator))
    else (Replay(start, steps), None)
  }

  lemma {:induction false} ReplaySnoc(start: State, steps: seq<Step>, s: Step)
    ensures Replay(start, steps + [s]) == Next(Replay(start, steps), s)
    decreases steps
  {
    if steps != [] {
      assert (steps + [s])[1..] == steps[1..] + [s];
      ReplaySnoc(Next(start, steps[0]), steps[1..], s);
    }
  }

  /**
   * Extending a clean run over `done` by one more step: a failing step ends
   * the run whatever events remain, any other step continues it.
   */
  lemma {:induction false} RunExtend(links: seq<Link>, start: State, done: seq<Event>, e: Event, rest: seq<Event>,
                                     steps: seq<Step>, s: Step)
    requires IsRun(links, start, done, steps) && Clean(steps)
    requires StepPossible(links, Replay(start, steps), e, s)
    ensures s.Unsupported? ==> IsRun(links, start, done + [e] + rest, steps + [s])
    ensures !s.Unsupported? ==> IsRun(links, start, done + [e], steps + [s])
    decreases done
  {
    if done != [] {
      assert (done + [e] + rest)[1..] == done[1..] + [e] + rest;
      assert (done + [e])[1..] == done[1..] + [e];
      assert (steps + [s])[1..] == steps[1..] + [s];
      RunExtend(links, Next(start, steps[0]), done[1..], e, rest, steps[1..], s);
    }
  }

  /**
   * A state machine: the current state, the graph store, and the two id
   * counters. The source keeps the counters in process-wide variables; here
   * each machine owns its own.
   */
  class StateMachine {
    var presentState: State
    var states: seq<State>
    var links: seq<Link>
    var nodeIdCounter: int
    var lineIdCounter: int

    ghost predicate Valid()
      reads this
    {
      WellFormed(states, links) &&
      nodeIdCounter == |states| &&
      lineIdCounter == |links| + 1 &&
      (presentState == ZeroState || presentState in states)
    }

    /** An empty machine, whose current state is the zero State. */
    constructor ()
      ensures Valid()
      ensures presentState == ZeroState && states == [] && links == []
      ensures nodeIdCounter == 0 && lineIdCounter == 1
    {
      presentState := ZeroState;
      states := [];
      links := [];
      nodeIdCounter := 0;
      lineIdCounter := 1;
    }

    /** Registers a new state with the next node id and makes it the current state. */
    method Init(v: Value) returns (s: State)
      requires Valid()
      modifies this`presentState, this`states, this`nodeIdCounter
      ensures Valid()
      ensures s == State(old(nodeIdCounter), v)
      ensures forall x :: x in old(states) ==> x.id < s.id
      ensures states == old(states) + [s] && presentState == s
      ensures nodeIdCounter == old(nodeIdCounter) + 1
    {
      presentState := State(nodeIdCounter, v);
      states := states + [presentState];
      nodeIdCounter := nodeIdCounter + 1;
      s := presentState;
    }

    /** Registers a new state with the next node id; the current state is unchanged. */
    method NewState(v: Value) returns (s: State)
      requires Valid()
      modifies this`states, this`nodeIdCounter
      ensures Valid()
      ensures s == State(old(nodeIdCounter), v)
      ensures forall x :: x in old(states) ==> x.id < s.id
      ensures states == old(states) + [s]
      ensures nodeIdCounter == old(nodeIdCounter) + 1
    {
      s := State(nodeIdCounter, v);
      states := states + [s];
      nodeIdCounter := nodeIdCounter + 1;
    }

    /** Adds a link from `s1` to `s2` guarded by `rule`, with the next line id; no state changes. */
    method LinkStates(s1: State, s2: State, rule: map<Operator, Event>)
      requires Valid()
      requires s1 in states && s2 in states
      modifies this`links, this`lineIdCounter
      ensures Valid()
      ensures links == old(links) + [Link(old(lineIdCounter), s1, s2, rule)]
      ensures forall l :: l in old(links) ==> l.id < old(lineIdCounter)
      ensures lineIdCounter == old(lineIdCounter) + 1
    {
      links := links + [Link(lineIdCounter, s1, s2, rule)];
      lineIdCounter := lineIdCounter + 1;
    }

    /** Fires event `e`; `step` is the (ghost) outcome that happened. */
    method FireEvent(e: Event) returns (err: Option<Error>, ghost step: Step)
      requires Valid()
      modifies this`presentState
      ensures Valid()
      ensures StepPossible(links, old(presentState), e, step)
      ensures presentState == Next(old(presentState), step)
      ensures err == ErrorOf(step)
    {
      var present := presentState;
      var pending := Successors(links, present.id);
      while pending != {}
        invariant pending <= Successors(links, present.id)
        invariant presentState == present
        invariant forall t :: t in Successors(links, present.id) && t !in pending ==>
          exists l :: l in links && Connects(l, present.id, t) && Undecided(l.rules, e)
        decreases pending
      {
        var n :| n in pending;
        var line :| line in links && Connects(line, present.id, n);
        assert Connects(line, present.id, n);
        var keys := line.rules.Keys;
        while keys != {}
          invariant keys <= line.rules.Keys
          invariant presentState == present
          invariant forall k :: k !in keys ==> !Decides(line.rules, k, e)
          decreases keys
        {
          var k :| k in keys;
          if k == Eq {
            if line.rules[k] == e {
              assert line in links && line.from.id == present.id && Decides(line.rules, Eq, e);
              presentState := line.to;
              return None, Moved(line.to);
            }
          } else {
            assert line in links && line.from.id == present.id && k in line.rules;
            return Some(UnsupportedComparisonOperator), Unsupported(k);
          }
          keys := keys - {k};
        }
        pending := pending - {n};
      }
      return None, NoMatch;
    }

    /**
     * Fires `events` in order, stopping at the first error. Returns the final
     * current state, or the zero State together with the error. `printState`
     * only controls console output, which is not modelled.
     */
    method Compute(events: seq<Event>, printState: bool) returns (r: State, err: Option<Error>, ghost steps: seq<Step>)
      requires Valid()
      modifies this`presentState
      ensures Valid()
      ensures IsRun(links, old(presentState), events, steps)
      ensures presentState == Replay(old(presentState), steps)
      ensures (r, err) == RunResult(old(presentState), steps)
    {
      ghost var start := presentState;
      steps := [];
      var i := 0;
      while i < |events|
        invariant 0 <= i <= |events|
        invariant Valid()
        invariant |steps| == i && Clean(steps)
        invariant IsRun(links, start, events[..i], steps)
        invariant presentState == Replay(start, steps)
      {
        var failure: Option<Error>;
        ghost var step: Step;
        failure, step := FireEvent(events[i]);
        RunExtend(links, start, events[..i], events[i], events[i + 1..], steps, step);
        ReplaySnoc(start, steps, step);
        assert events[..i] + [events[i]] + events[i + 1..] == events;
        assert events[..i] + [events[i]] == events[..i + 1];
        steps := steps + [step];
        if failure.Some? {
          r, err := ZeroState, failure;
          return;
        }
        i := i + 1;
      }
      assert events[..i] == events;
      r, err := presentState, None;
    }
  }
}
