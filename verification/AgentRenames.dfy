/**
 The process's rename record (cmd/foci-gw/agent_rename_live.go, agentRenames): a path-compressed map from an
 agent's old id to its new one, and the lineage of agents it stands for.
*/
module AgentRenames {
  import opened AgentRegistry

  type Renames = map<Id, Id>

  function Resolve(m: Renames, id: Id): Id {
    if id in m then m[id] else id
  }

  /** Every rename that led to `from` now leads to `to`; `to` is a live id, so nothing is recorded under it. */
  function AddRename(m: Renames, from: Id, to: Id): Renames {
    map k | k in m.Keys + {from} && (k == from || k != to) ::
      if k == from || m[k] == from then to else m[k]
  }

  function Forget(m: Renames, id: Id): Renames {
    m - {id}
  }

  lemma RepointedThenRecorded(was: Renames, mid: Renames, from: Id, to: Id)
    requires mid.Keys == was.Keys
    requires forall k :: k in mid ==> mid[k] == if was[k] == from then to else was[k]
    ensures (mid - {to})[from := to] == AddRename(was, from, to)
  {
  }

  class RenameRecord {
    var m: Renames

    constructor ()
      ensures m == map[]
    {
      m := map[];
    }

    method Add(from: Id, to: Id)
      modifies this
      ensures m == AddRename(old(m), from, to)
    {
      ghost var was := m;
      var todo := m.Keys;
      while todo != {}
        invariant todo <= m.Keys == was.Keys
        invariant forall k :: k in todo ==> m[k] == was[k]
        invariant forall k :: k in m && k !in todo ==> m[k] == if was[k] == from then to else was[k]
        decreases |todo|
      {
        var k :| k in todo;
        if m[k] == from {
          m := m[k := to];
        }
        todo := todo - {k};
      }
      RepointedThenRecorded(was, m, from, to);
      m := m - {to};
      m := m[from := to];
    }

    method Drop(id: Id)
      modifies this
      ensures m == Forget(old(m), id)
    {
      m := m - {id};
    }
  }

  // ---- No chains ----

  predicate NoChains(m: Renames) {
    forall k :: k in m ==> m[k] !in m
  }

  /** One look-up is enough, exactly when no id leads to an id that leads on. */
  lemma ResolveIsIdempotent(m: Renames)
    ensures (forall id :: Resolve(m, Resolve(m, id)) == Resolve(m, id)) <== NoChains(m)
    ensures
      (forall k :: k in m ==> m[k] != k) && (forall id :: Resolve(m, Resolve(m, id)) == Resolve(m, id)) ==>
      NoChains(m)
  {
    if (forall k :: k in m ==> m[k] != k) && (forall id :: Resolve(m, Resolve(m, id)) == Resolve(m, id)) {
      forall k | k in m ensures m[k] !in m {
        assert Resolve(m, Resolve(m, k)) == Resolve(m, k);
      }
    }
  }

  /** A rename keeps the record free of chains exactly when it is to another id. The disk rename refuses one to
      the same id (internal/agentrename/rename.go). */
  lemma AddKeepsNoChains(m: Renames, from: Id, to: Id)
    requires NoChains(m)
    ensures NoChains(AddRename(m, from, to)) <==> from != to
  {
    var m' := AddRename(m, from, to);
    assert m'[from] == to;
  }

  lemma ForgetKeepsNoChains(m: Renames, id: Id)
    requires NoChains(m)
    ensures NoChains(Forget(m, id))
  {
  }

  /** Renaming an agent and renaming it back restores what an id resolves to, exactly unless the id already led to the
      borrowed one. The borrowed id itself leads to the agent then. */
  lemma RenameBackRestores(m: Renames, a: Id, b: Id, id: Id)
    requires NoChains(m) && a != b
    requires a !in m                                        // a is the agent's own id
    ensures
      var back := AddRename(AddRename(m, a, b), b, a);
      (Resolve(back, id) == if id == b then a else Resolve(m, id)) <==> !(id != b && id in m && m[id] == b)
  {
  }

  // ---- The lineage ----

  type Agent = nat

  /** `bearer`: the agent that last bore an id. `current`: the id an agent has now. */
  datatype Lineage = Lineage(bearer: map<Id, Agent>, current: map<Agent, Id>)

  const NOBODY := Lineage(map[], map[])

  /** What the record promises: an id resolves to the present id of the agent that last bore it. */
  ghost predicate Refines(m: Renames, l: Lineage) {
    && (forall id :: id in l.bearer ==> l.bearer[id] in l.current && Resolve(m, id) == l.current[l.bearer[id]])
    && (forall id :: id in m ==> id in l.bearer)
  }

  /** `agent` bears `id`, or was not known before. */
  ghost predicate BearsOrNew(l: Lineage, id: Id, agent: Agent) {
    agent in l.current ==> l.current[agent] == id && id in l.bearer && l.bearer[id] == agent
  }

  ghost function StartedAs(l: Lineage, id: Id, agent: Agent): Lineage {
    Lineage(l.bearer[id := agent], l.current[agent := id])
  }

  ghost function RenamedTo(l: Lineage, from: Id, to: Id, agent: Agent): Lineage {
    Lineage(l.bearer[from := agent][to := agent], l.current[agent := to])
  }

  /** Starting an agent under an id always keeps the promise. The record moves at `Forget`, before the start can
      still fail, so the id's last bearer moves there too. */
  lemma ForgetRefines(m: Renames, l: Lineage, id: Id, agent: Agent)
    requires Refines(m, l) && BearsOrNew(l, id, agent)
    ensures Refines(Forget(m, id), StartedAs(l, id, agent))
  {
  }

  /** Another agent than `agent` still counts as having the id `from`. */
  ghost predicate StrayBearer(l: Lineage, from: Id, to: Id, agent: Agent) {
    exists id :: id in l.bearer && id != from && id != to && l.bearer[id] != agent
      && l.bearer[id] in l.current && l.current[l.bearer[id]] == from
  }

  /** A rename keeps the promise exactly when no other agent counts as having the old id: the record repoints by
      id, and would carry that agent's former ids along. */
  lemma AddRefines(m: Renames, l: Lineage, from: Id, to: Id, agent: Agent)
    requires Refines(m, l) && BearsOrNew(l, from, agent) && from != to
    ensures Refines(AddRename(m, from, to), RenamedTo(l, from, to, agent)) <==> !StrayBearer(l, from, to, agent)
  {
    var m', l' := AddRename(m, from, to), RenamedTo(l, from, to, agent);
    if StrayBearer(l, from, to, agent) {
      var id :| id in l.bearer && id != from && id != to && l.bearer[id] != agent
        && l.bearer[id] in l.current && l.current[l.bearer[id]] == from;
      assert Resolve(m, id) == from && id in m;
      assert Resolve(m', id) == to != l'.current[l'.bearer[id]];
    } else {
      forall id | id in l'.bearer ensures l'.bearer[id] in l'.current && Resolve(m', id) == l'.current[l'.bearer[id]] {
        if id != from && id != to {
          assert Resolve(m, id) == l.current[l.bearer[id]];
          if l.bearer[id] == agent {
            assert id in m && m[id] == from;
          }
        }
      }
    }
  }

  // ---- Runs of renames and starts ----

  datatype Event = Started(id: Id, agent: Agent) | Renamed(from: Id, to: Id, agent: Agent)

  ghost function Recorded(m: Renames, e: Event): Renames {
    match e
    case Started(id, _) => Forget(m, id)
    case Renamed(from, to, _) => AddRename(m, from, to)
  }

  ghost function Lived(l: Lineage, e: Event): Lineage {
    match e
    case Started(id, agent) => StartedAs(l, id, agent)
    case Renamed(from, to, agent) => RenamedTo(l, from, to, agent)
  }

  /** The agent started or renamed bears the id, or was not known; and a rename is to another id, which the disk
      rename makes sure of. */
  ghost predicate Allowed(l: Lineage, e: Event) {
    match e
    case Started(id, agent) => BearsOrNew(l, id, agent)
    case Renamed(from, to, agent) => BearsOrNew(l, from, agent) && from != to
  }

  ghost function LineageOf(events: seq<Event>): Lineage {
    if events == [] then NOBODY else Lived(LineageOf(events[..|events| - 1]), events[|events| - 1])
  }

  ghost function RecordOf(events: seq<Event>): Renames {
    if events == [] then map[] else Recorded(RecordOf(events[..|events| - 1]), events[|events| - 1])
  }

  ghost predicate AllAllowed(events: seq<Event>) {
    events == [] ||
    (AllAllowed(events[..|events| - 1]) && Allowed(LineageOf(events[..|events| - 1]), events[|events| - 1]))
  }

  /** No rename of the run met another agent that counts as having the old id. */
  ghost predicate NoStray(events: seq<Event>) {
    events == [] ||
    (NoStray(events[..|events| - 1]) &&
     match events[|events| - 1]
     case Started(_, _) => true
     case Renamed(from, to, agent) => !StrayBearer(LineageOf(events[..|events| - 1]), from, to, agent))
  }

  /** The record keeps its promise after every prefix of the run. */
  ghost predicate AlwaysRefines(events: seq<Event>) {
    && Refines(RecordOf(events), LineageOf(events))
    && (events == [] || AlwaysRefines(events[..|events| - 1]))
  }

  /** Over every run, the record resolves each id to the present id of the agent that last bore it, all along, exactly
      when no rename meets another agent that counts as having the old id. Starts never break it. */
  lemma {:induction false} RecordFollowsLineage(events: seq<Event>)
    requires AllAllowed(events)
    ensures AlwaysRefines(events) <==> NoStray(events)
  {
    if events != [] {
      var before, e := events[..|events| - 1], events[|events| - 1];
      RecordFollowsLineage(before);
      if NoStray(before) {
        var m, l := RecordOf(before), LineageOf(before);
        assert AlwaysRefines(before) ==> Refines(m, l);
        match e
        case Started(id, agent) => ForgetRefines(m, l, id, agent);
        case Renamed(from, to, agent) => AddRefines(m, l, from, to, agent);
      }
    } else {
      assert LineageOf(events) == NOBODY && RecordOf(events) == map[];
    }
  }

  /** ... and it takes one look-up, whatever happens. */
  lemma {:induction false} RecordHasNoChains(events: seq<Event>)
    requires AllAllowed(events)
    ensures NoChains(RecordOf(events))
  {
    if events != [] {
      var before := events[..|events| - 1];
      RecordHasNoChains(before);
      match events[|events| - 1]
      case Started(id, _) => ForgetKeepsNoChains(RecordOf(before), id);
      case Renamed(from, to, _) => AddKeepsNoChains(RecordOf(before), from, to);
    }
  }

  lemma Append(events: seq<Event>, e: Event)
    ensures LineageOf(events + [e]) == Lived(LineageOf(events), e)
    ensures RecordOf(events + [e]) == Recorded(RecordOf(events), e)
    ensures AllAllowed(events + [e]) <==> AllAllowed(events) && Allowed(LineageOf(events), e)
  {
    assert (events + [e])[..|events + [e]| - 1] == events;
  }

  const TAKEN := [Started("a", 0), Renamed("a", "b", 0), Started("b", 1)]
  const TAKEN_OVER := TAKEN + [Renamed("b", "c", 1)]

  lemma TakenState()
    ensures AllAllowed(TAKEN) && RecordOf(TAKEN) == map["a" := "b"]
    ensures LineageOf(TAKEN) == Lineage(map["a" := 0, "b" := 1], map[0 := "b", 1 := "b"])
  {
    var one := [] + [Started("a", 0)];
    var two := one + [Renamed("a", "b", 0)];
    Append([], Started("a", 0));
    assert RecordOf(one) == map[] && LineageOf(one) == Lineage(map["a" := 0], map[0 := "a"]);
    Append(one, Renamed("a", "b", 0));
    assert RecordOf(two) == map["a" := "b"];
    assert LineageOf(two) == Lineage(map["a" := 0, "b" := 0], map[0 := "b"]);
    Append(two, Started("b", 1));
    assert TAKEN == two + [Started("b", 1)];
  }

  /** Where the condition fails: agent 0 is renamed from a to b, agent 1 takes over the id b, and renaming it to
      c makes a resolve to c, an id agent 0 never had. */
  lemma ReusedIdMisleads()
    ensures AllAllowed(TAKEN_OVER) && !NoStray(TAKEN_OVER)
    ensures
      var l := LineageOf(TAKEN_OVER);
      "a" in l.bearer && l.bearer["a"] == 0 && 0 in l.current && l.current[0] == "b"
    ensures Resolve(RecordOf(TAKEN_OVER), "a") == "c"
  {
    TakenState();
    Append(TAKEN, Renamed("b", "c", 1));
    assert "a" in LineageOf(TAKEN).bearer;
    assert StrayBearer(LineageOf(TAKEN), "b", "c", 1);
    assert TAKEN_OVER[..|TAKEN_OVER| - 1] == TAKEN;
  }
}
