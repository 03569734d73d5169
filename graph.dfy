/**
 * The records of the state machine and its graph store: states, rule-guarded
 * links, and the queries the engine makes of the store. The store is an
 * insertion-ordered sequence of states and an insertion-ordered sequence of
 * links; several links may join the same ordered pair of states.
 */
module Graph {

  /** A comparison operator tag; only "eq" is understood by the engine. */
  type Operator = string

  /** An event token supplied by the driver. */
  type Event = string

  const Eq: Operator := "eq"

  /**
   * The payload of a state. The engine never looks at it; the variants are
   * the dynamic kinds the source knows how to display, plus Nil, the payload
   * of the zero State record.
   */
  datatype Value = Nil | IntValue(i: int) | FloatValue(f: real) | BoolValue(b: bool) | TextValue(s: string)

  datatype State = State(id: int, value: Value)

  /** The zero State record: what an engine holds before Init, and what Compute returns on failure. */
  const ZeroState := State(0, Nil)

  /** A directed, rule-guarded link; `rules` maps an operator to its comparison event. */
  datatype Link = Link(id: int, from: State, to: State, rules: map<Operator, Event>)

  /** A rule with exactly one entry, `op` mapped to `v`. */
  function NewRule(op: Operator, v: Event): (r: map<Operator, Event>)
    ensures |r| == 1 && op in r && r[op] == v
    ensures forall k :: k in r ==> k == op
  {
    map[op := v]
  }

  predicate Connects(l: Link, from: int, to: int) {
    l.from.id == from && l.to.id == to
  }

  /** The ids of the distinct targets of the links leaving state `from`. */
  function Successors(links: seq<Link>, from: int): (targets: set<int>) {
    set l | l in links && l.from.id == from :: l.to.id
  }

  /**
   * The store's invariant: state ids are the insertion positions (the node
   * counter starts at 0), link ids are the insertion positions plus one (the
   * line counter starts at 1), and every link joins two stored states.
   */
  ghost predicate WellFormed(states: seq<State>, links: seq<Link>) {
    (forall i :: 0 <= i < |states| ==> states[i].id == i) &&
    (forall i :: 0 <= i < |links| ==> links[i].id == i + 1) &&
    (forall l :: l in links ==> l.from in states && l.to in states)
  }
}
