/**
 * Properties of firing one event (StepPossible) and of Compute's runs
 * (IsRun): what happens when nothing matches, when an "eq" rule matches,
 * when an unsupported operator is reached, when the outcome is determined
 * whatever the iteration order, and how runs compose.
 */
module EngineProperties {
  import opened Graph
  import opened Engine

  /** Some outcome is always possible: firing an event never gets stuck. */
  lemma StepExists(links: seq<Link>, cur: State, e: Event)
    ensures exists s :: StepPossible(links, cur, e, s)
  {
    if !StepPossible(links, cur, e, NoMatch) {
      var t :| t in Successors(links, cur.id) &&
        !exists l :: l in links && Connects(l, cur.id, t) && Undecided(l.rules, e);
      var l :| l in links && l.from.id == cur.id && l.to.id == t;
      assert !Undecided(l.rules, e);
      var k :| Decides(l.rules, k, e);
      if k == Eq {
        assert StepPossible(links, cur, e, Moved(l.to));
      } else {
        assert StepPossible(links, cur, e, Unsupported(k));
      }
    }
  }

  /**
   * When no link leaving `cur` has a rule that decides `e`, the only outcome
   * is the no-op, which FireEvent reports as success with the current state
   * unchanged.
   */
  lemma NoMatchIsNoOp(links: seq<Link>, cur: State, e: Event)
    requires forall l :: l in links && l.from.id == cur.id ==> Undecided(l.rules, e)
    ensures StepPossible(links, cur, e, NoMatch)
    ensures forall s :: StepPossible(links, cur, e, s) ==> s == NoMatch
  {
    forall t | t in Successors(links, cur.id)
      ensures exists l :: l in links && Connects(l, cur.id, t) && Undecided(l.rules, e)
    {
      var l :| l in links && l.from.id == cur.id && l.to.id == t;
      assert Connects(l, cur.id, t);
    }
    forall l | l in links && l.from.id == cur.id
      ensures !Decides(l.rules, Eq, e) && forall op :: op != Eq ==> op !in l.rules
    {
      assert Undecided(l.rules, e);
      forall op | op != Eq
        ensures op !in l.rules
      {
        assert !Decides(l.rules, op, e);
      }
    }
  }

  /**
   * A matching "eq" rule on a link leaving `cur` can decide the event; by
   * FireEvent's postcondition it then succeeds and moves to that link's target.
   */
  lemma EqMatchCanMove(links: seq<Link>, cur: State, e: Event, l: Link)
    requires l in links && l.from.id == cur.id
    requires Eq in l.rules && l.rules[Eq] == e
    ensures StepPossible(links, cur, e, Moved(l.to))
  {
  }

  /**
   * When every link leaving `cur` carries only "eq" rules and every link from
   * `cur` to the target of `l` matches `e`, every outcome is a move to the
   * target of some matching link: the event cannot be ignored and cannot fail.
   */
  lemma MatchForcesMove(links: seq<Link>, cur: State, e: Event, l: Link)
    requires forall l' :: l' in links && l'.from.id == cur.id ==> l'.rules.Keys <= {Eq}
    requires l in links && l.from.id == cur.id
    requires forall l' :: l' in links && Connects(l', cur.id, l.to.id) ==> Decides(l'.rules, Eq, e)
    ensures StepPossible(links, cur, e, Moved(l.to))
    ensures forall s :: StepPossible(links, cur, e, s) ==>
      s.Moved? && exists l' :: l' in links && l'.from.id == cur.id && Decides(l'.rules, Eq, e) && l'.to == s.target
  {
    assert Connects(l, cur.id, l.to.id);
    assert Decides(l.rules, Eq, e);
    NoMatchExcluded(links, cur, e, l.to.id);
    forall op ensures !StepPossible(links, cur, e, Unsupported(op)) {
      OnlyEqCannotFail(links, cur, e, op);
    }
  }

  /**
   * If every link from `cur` to successor `t` has a rule that decides `e`,
   * the event cannot be ignored.
   */
  lemma NoMatchExcluded(links: seq<Link>, cur: State, e: Event, t: int)
    requires t in Successors(links, cur.id)
    requires forall l :: l in links && Connects(l, cur.id, t) ==> !Undecided(l.rules, e)
    ensures !StepPossible(links, cur, e, NoMatch)
  {
  }

  /** If the links leaving `cur` carry only "eq" rules, firing an event cannot fail. */
  lemma OnlyEqCannotFail(links: seq<Link>, cur: State, e: Event, op: Operator)
    requires forall l :: l in links && l.from.id == cur.id ==> l.rules.Keys <= {Eq}
    ensures !StepPossible(links, cur, e, Unsupported(op))
  {
  }

  /**
   * A matching self-loop can decide the event, and its target is the current
   * state itself; by FireEvent's postcondition it then succeeds and the same
   * state stays current. Other links leaving `cur` may still let another
   * outcome be reached first.
   */
  lemma SelfLoopKeepsState(states: seq<State>, links: seq<Link>, cur: State, e: Event, l: Link)
    requires WellFormed(states, links) && cur in states
    requires l in links && Connects(l, cur.id, cur.id) && Decides(l.rules, Eq, e)
    ensures StepPossible(links, cur, e, Moved(cur))
  {
  }

  /**
   * A link leaving `cur` with an operator other than "eq" can decide any
   * event, whatever its comparison value; by FireEvent's postcondition it then
   * fails and the current state stays.
   */
  lemma UnsupportedOperatorCanFail(links: seq<Link>, cur: State, e: Event, l: Link, op: Operator)
    requires l in links && l.from.id == cur.id
    requires op in l.rules && op != Eq
    ensures StepPossible(links, cur, e, Unsupported(op))
  {
  }

  /** `rules` holds an operator other than "eq". */
  ghost predicate HasUnsupported(rules: map<Operator, Event>) {
    exists op :: op in rules && op != Eq
  }

  /**
   * When no "eq" rule leaving `cur` matches `e`, and every link to some
   * successor `t` carries an unsupported operator, FireEvent always fails.
   */
  lemma UnsupportedForcesFailure(links: seq<Link>, cur: State, e: Event, t: int)
    requires forall l :: l in links && l.from.id == cur.id ==> !Decides(l.rules, Eq, e)
    requires t in Successors(links, cur.id)
    requires forall l :: l in links && Connects(l, cur.id, t) ==> HasUnsupported(l.rules)
    ensures exists op :: StepPossible(links, cur, e, Unsupported(op))
    ensures forall s :: StepPossible(links, cur, e, s) ==> s.Unsupported?
  {
    var l :| l in links && l.from.id == cur.id && l.to.id == t;
    assert Connects(l, cur.id, t);
    var op :| op in l.rules && op != Eq;
    assert StepPossible(links, cur, e, Unsupported(op));
    forall s | StepPossible(links, cur, e, s)
      ensures s.Unsupported?
    {
      if s.NoMatch? {
        var l' :| l' in links && Connects(l', cur.id, t) && Undecided(l'.rules, e);
        var op' :| op' in l'.rules && op' != Eq;
        assert Decides(l'.rules, op', e);
        assert false;
      }
    }
  }

  /**
   * A sufficient condition for the outcome of an event never to depend on the
   * iteration order: only "eq" rules, parallel links carry the same rules,
   * and links leaving one state with the same event go to the same target.
   * Some stores outside this class are order-independent too, such as a
   * single link whose only rule has an unsupported operator.
   */
  ghost predicate Unambiguous(links: seq<Link>) {
    (forall l :: l in links ==> l.rules.Keys <= {Eq}) &&
    (forall l1, l2 :: l1 in links && l2 in links && Connects(l2, l1.from.id, l1.to.id) ==> l1.rules == l2.rules) &&
    (forall l1, l2 ::
       l1 in links && l2 in links && l1.from.id == l2.from.id && Eq in l2.rules && Decides(l1.rules, Eq, l2.rules[Eq])
       ==> l1.to == l2.to)
  }

  /** In an unambiguous store, firing an event has exactly one outcome. */
  lemma StepUnique(links: seq<Link>, cur: State, e: Event, s1: Step, s2: Step)
    requires Unambiguous(links)
    requires StepPossible(links, cur, e, s1) && StepPossible(links, cur, e, s2)
    ensures s1 == s2
  {
    forall op ensures !StepPossible(links, cur, e, Unsupported(op)) {
      OnlyEqCannotFail(links, cur, e, op);
    }
    if s1.Moved? {
      MoveExcludesNoMatch(links, cur, e, s1.target);
    }
    if s2.Moved? {
      MoveExcludesNoMatch(links, cur, e, s2.target);
    }
    if s1.Moved? && s2.Moved? {
      var l1 :| l1 in links && l1.from.id == cur.id && Decides(l1.rules, Eq, e) && l1.to == s1.target;
      var l2 :| l2 in links && l2.from.id == cur.id && Decides(l2.rules, Eq, e) && l2.to == s2.target;
      assert Decides(l1.rules, Eq, l2.rules[Eq]);
    }
  }

  /** In an unambiguous store, an event that can move the machine cannot be ignored. */
  lemma MoveExcludesNoMatch(links: seq<Link>, cur: State, e: Event, target: State)
    requires Unambiguous(links)
    requires StepPossible(links, cur, e, Moved(target))
    ensures !StepPossible(links, cur, e, NoMatch)
  {
    var l :| l in links && l.from.id == cur.id && Decides(l.rules, Eq, e) && l.to == target;
    forall l' | l' in links && Connects(l', cur.id, l.to.id)
      ensures !Undecided(l'.rules, e)
    {
      assert l'.rules == l.rules;
      assert Decides(l'.rules, Eq, e);
    }
    NoMatchExcluded(links, cur, e, l.to.id);
  }

  /** In an unambiguous store, Compute's run over an event sequence is unique. */
  lemma {:induction false} RunDeterministic(links: seq<Link>, start: State, events: seq<Event>,
                                            steps1: seq<Step>, steps2: seq<Step>)
    requires Unambiguous(links)
    requires IsRun(links, start, events, steps1) && IsRun(links, start, events, steps2)
    ensures steps1 == steps2
    decreases events
  {
    if events != [] {
      StepUnique(links, start, events[0], steps1[0], steps2[0]);
      if !steps1[0].Unsupported? {
        RunDeterministic(links, Next(start, steps1[0]), events[1..], steps1[1..], steps2[1..]);
        assert steps1 == [steps1[0]] + steps1[1..];
        assert steps2 == [steps2[0]] + steps2[1..];
      }
    }
  }

  /**
   * Compute stops at the first error: a run has at most one step per event,
   * only its last step can fail, and it reports success exactly when it
   * processed every event without failing.
   */
  lemma {:induction false} RunStopsAtFirstError(links: seq<Link>, start: State, events: seq<Event>, steps: seq<Step>)
    requires IsRun(links, start, events, steps)
    ensures |steps| <= |events|
    ensures steps != [] ==> Clean(steps[..|steps| - 1])
    ensures RunResult(start, steps).1 == None <==> |steps| == |events| && Clean(steps)
    ensures RunResult(start, steps).1 != None ==> RunResult(start, steps).0 == ZeroState
    decreases events
  {
    if events != [] && !steps[0].Unsupported? {
      var rest := steps[1..];
      RunStopsAtFirstError(links, Next(start, steps[0]), events[1..], rest);
      assert steps == [steps[0]] + rest;
      if rest != [] {
        assert steps[..|steps| - 1] == [steps[0]] + rest[..|rest| - 1];
        assert steps[|steps| - 1] == rest[|rest| - 1];
      }
    }
  }

  /**
   * Running `a` without error and then `b` from the state reached is a run
   * of `a + b`, and it ends in the same state.
   */
  lemma {:induction false} RunConcat(links: seq<Link>, start: State, a: seq<Event>, b: seq<Event>,
                                     steps1: seq<Step>, steps2: seq<Step>)
    requires IsRun(links, start, a, steps1) && Clean(steps1)
    requires IsRun(links, Replay(start, steps1), b, steps2)
    ensures IsRun(links, start, a + b, steps1 + steps2)
    ensures Replay(start, steps1 + steps2) == Replay(Replay(start, steps1), steps2)
    decreases a
  {
    if a == [] {
      assert a + b == b;
      assert steps1 + steps2 == steps2;
    } else {
      assert (a + b)[1..] == a[1..] + b;
      assert (steps1 + steps2)[1..] == steps1[1..] + steps2;
      RunConcat(links, Next(start, steps1[0]), a[1..], b, steps1[1..], steps2);
    }
  }
}
