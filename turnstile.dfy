/**
 * The two-state turnstile the demo program wires up: states "locked" (the
 * initial one) and "unlocked", a coin link from locked to unlocked, a push
 * link back, and two self-loops. The demo builds the coin rule with the
 * operator "eqs"; with that operator the machine cannot process "coin" from
 * locked. The intended machine, with "eq", runs coin then push to locked.
 */
module Turnstile {
  import opened Graph
  import opened Engine
  import opened EngineProperties

  const Locked := State(0, TextValue("locked"))
  const Unlocked := State(1, TextValue("unlocked"))

  /** The four links of the demo, with `coinOp` as the coin rule's operator. */
  function DemoLinks(coinOp: Operator): (links: seq<Link>) {
    [Link(1, Locked, Unlocked, NewRule(coinOp, "coin")),
     Link(2, Unlocked, Locked, NewRule(Eq, "push")),
     Link(3, Locked, Locked, NewRule(Eq, "push")),
     Link(4, Unlocked, Unlocked, NewRule(coinOp, "coin"))]
  }

  /** Builds the demo machine through the engine's operations, in the demo's order. */
  method Build(coinOp: Operator) returns (m: StateMachine)
    ensures fresh(m) && m.Valid()
    ensures m.presentState == Locked && m.states == [Locked, Unlocked]
    ensures m.links == DemoLinks(coinOp)
  {
    m := new StateMachine();
    var initState := m.Init(TextValue("locked"));
    var unlockedState := m.NewState(TextValue("unlocked"));
    var coinRule := NewRule(coinOp, "coin");
    var pushRule := NewRule(Eq, "push");
    m.LinkStates(initState, unlockedState, coinRule);
    m.LinkStates(unlockedState, initState, pushRule);
    m.LinkStates(initState, initState, pushRule);
    m.LinkStates(unlockedState, unlockedState, coinRule);
  }

  /** With "eqs" on the coin rule, every event fired in locked can fail, and none can be ignored. */
  lemma AsWrittenLockedAlwaysCanFail(e: Event)
    ensures StepPossible(DemoLinks("eqs"), Locked, e, Unsupported("eqs"))
    ensures !StepPossible(DemoLinks("eqs"), Locked, e, NoMatch)
  {
    var links := DemoLinks("eqs");
    assert links[0] in links && "eqs" in links[0].rules;
    assert Connects(links[0], 0, 1) && links[0] in links;
    forall l | l in links && Connects(l, 0, 1)
      ensures !Undecided(l.rules, e)
    {
      assert l == links[0];
      assert Decides(l.rules, "eqs", e);
    }
    NoMatchExcluded(links, Locked, e, 1);
  }

  /** With "eqs" on the coin rule, "coin" in locked always fails. */
  lemma AsWrittenCoinFails()
    ensures forall s :: StepPossible(DemoLinks("eqs"), Locked, "coin", s) ==> s == Unsupported("eqs")
  {
    var links := DemoLinks("eqs");
    AsWrittenLockedAlwaysCanFail("coin");
    forall target ensures !StepPossible(links, Locked, "coin", Moved(target)) {
      forall l | l in links && l.from.id == 0
        ensures !Decides(l.rules, Eq, "coin")
      {
        assert l == links[0] || l == links[2];
      }
    }
    forall op | op != "eqs" && op != Eq ensures !StepPossible(links, Locked, "coin", Unsupported(op)) {
      forall l | l in links && l.from.id == 0
        ensures op !in l.rules
      {
        assert l == links[0] || l == links[2];
      }
    }
  }

  /**
   * With "eqs" on the coin rule, "push" in locked either fails or takes the
   * self-loop, depending on the order in which the successors are visited.
   */
  lemma AsWrittenPushDependsOnOrder()
    ensures StepPossible(DemoLinks("eqs"), Locked, "push", Unsupported("eqs"))
    ensures StepPossible(DemoLinks("eqs"), Locked, "push", Moved(Locked))
  {
  }

  /** The demo as written: Compute(["coin", "push"]) fails on "coin" and the machine stays locked. */
  method DemoAsWritten() returns (r: State, err: Option<Error>, final: State)
    ensures err == Some(UnsupportedComparisonOperator) && r == ZeroState
    ensures final == Locked
  {
    var m := Build("eqs");
    ghost var steps;
    r, err, steps := m.Compute(["coin", "push"], true);
    AsWrittenCoinFails();
    final := m.presentState;
  }

  lemma IntendedIsUnambiguous()
    ensures Unambiguous(DemoLinks(Eq))
  {
  }

  /** The intended turnstile runs "coin", "push" from locked through unlocked back to locked. */
  lemma IntendedCoinPush()
    ensures forall steps :: IsRun(DemoLinks(Eq), Locked, ["coin", "push"], steps) ==>
      steps == [Moved(Unlocked), Moved(Locked)]
  {
    var links := DemoLinks(Eq);
    var events: seq<Event> := ["coin", "push"];
    var expected := [Moved(Unlocked), Moved(Locked)];
    assert Decides(links[0].rules, Eq, "coin") && links[0] in links;
    assert Decides(links[1].rules, Eq, "push") && links[1] in links;
    assert events[1..] == ["push"] && expected[1..] == [Moved(Locked)];
    assert IsRun(links, Unlocked, ["push"], [Moved(Locked)]);
    assert IsRun(links, Locked, events, expected);
    IntendedIsUnambiguous();
    forall steps | IsRun(links, Locked, events, steps)
      ensures steps == expected
    {
      RunDeterministic(links, Locked, events, steps, expected);
    }
  }

  /** The intended turnstile: "push" in locked takes the self-loop; "jump" is ignored. */
  lemma IntendedPushAndJump()
    ensures forall steps :: IsRun(DemoLinks(Eq), Locked, ["push"], steps) ==> steps == [Moved(Locked)]
    ensures forall steps :: IsRun(DemoLinks(Eq), Locked, ["jump"], steps) ==> steps == [NoMatch]
  {
    var links := DemoLinks(Eq);
    assert links[2] in links && Decides(links[2].rules, Eq, "push");
    assert IsRun(links, Locked, ["push"], [Moved(Locked)]);
    forall l | l in links && l.from.id == 0
      ensures Undecided(l.rules, "jump")
    {
      assert l == links[0] || l == links[2];
    }
    NoMatchIsNoOp(links, Locked, "jump");
    assert IsRun(links, Locked, ["jump"], [NoMatch]);
    IntendedIsUnambiguous();
    forall steps | IsRun(links, Locked, ["push"], steps)
      ensures steps == [Moved(Locked)]
    {
      RunDeterministic(links, Locked, ["push"], steps, [Moved(Locked)]);
    }
    forall steps | IsRun(links, Locked, ["jump"], steps)
      ensures steps == [NoMatch]
    {
      RunDeterministic(links, Locked, ["jump"], steps, [NoMatch]);
    }
  }

  /** The intended demo: Compute(["coin", "push"]) succeeds and ends in locked. */
  method DemoIntended() returns (r: State, err: Option<Error>, ghost steps: seq<Step>)
    ensures err == None && r == Locked
    ensures steps == [Moved(Unlocked), Moved(Locked)]
  {
    var m := Build(Eq);
    r, err, steps := m.Compute(["coin", "push"], true);
    IntendedCoinPush();
    assert Replay(Locked, steps) == Replay(Unlocked, [Moved(Locked)]) == Locked;
  }
}
