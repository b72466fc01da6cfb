/** What the memory system keeps over every run of adds, removes and a cleanup. */
module MemoryGuarantees {
  import opened Wrappers
  import opened MemoryClosers
  import opened MemoryProtocol

  ghost predicate Reaches(events: seq<Event>, s: State) {
    exists perAgent :: Run(Initial(perAgent), events) == Some(s)
  }

  lemma ReachedInv(events: seq<Event>, s: State)
    requires Reaches(events, s)
    ensures Inv(s)
  {
    var perAgent :| Run(Initial(perAgent), events) == Some(s);
    RunKeepsInv(Initial(perAgent), events);
  }

  /** Every store or index ever opened is in one list once, or is closed; nothing is closed twice. */
  lemma ClosedAtMostOnce(events: seq<Event>, s: State, id: nat)
    requires Reaches(events, s) && id < s.bins.next
    ensures id in s.bins.places && !s.bins.places[id].ClosedTwice?
    ensures
      forall b | b in s.bins.lists ::
        (id in s.bins.lists[b] <==> s.bins.places[id] == In(b)) && Distinct(s.bins.lists[b])
  {
    ReachedInv(events, s);
    forall b | b in s.bins.lists ensures id in s.bins.lists[b] <==> s.bins.places[id] == In(b) {
    }
  }

  ghost predicate AtRest(s: State) {
    forall o | o in s.ops :: s.ops[o].pc.Done?
  }

  /** Once cleanup is through and no call is at work, everything ever opened is closed, exactly once, except for
      indices that an add registered after cleanup had taken the closers: those are still open. */
  lemma AllClosedAtRest(events: seq<Event>, s: State, id: nat)
    requires Reaches(events, s) && s.taken && AtRest(s) && id < s.bins.next
    ensures id in s.bins.places
    ensures s.bins.places[id].Closed? || (id in s.late && s.bins.places[id].In? && s.bins.places[id].bin.Registered?)
  {
    ReachedInv(events, s);
    if s.bins.places[id].In? {
      var b := s.bins.places[id].bin;
      var i :| 0 <= i < |At(s.bins, b)| && At(s.bins, b)[i] == id;
      assert b in s.bins.lists && s.bins.lists[b] != [];
    }
  }

  /** An admitted add that has yet to register its index. */
  predicate InFlight(pc: Pc) {
    pc.Building? || pc.Starting?
  }

  ghost predicate NoneInFlight(s: State) {
    forall o | o in s.ops :: !InFlight(s.ops[o].pc)
  }

  lemma NoneTakesOff(s: State, e: Event)
    requires s.closed && NoneInFlight(s) && Apply(s, e).Some?
    ensures
      var z := Apply(s, e).value;
      z.closed && NoneInFlight(z) && z.late == s.late && (s.taken ==> z.taken)
  {
    match e
    case Act(o, Take) =>
    case Act(o, CloseOne(_)) =>
    case Act(o, Finish) =>
    case Act(o, a) => NoAddTakesOff(s, o, a);
    case _ =>
  }

  lemma NoAddTakesOff(s: State, o: OpId, a: Action)
    requires s.closed && NoneInFlight(s) && o in s.ops && AddStep(s, o, a).Some?
    ensures
      var z := AddStep(s, o, a).value;
      z.closed && NoneInFlight(z) && z.late == s.late && z.taken == s.taken
  {
  }

  lemma {:induction false} NoneComesToFly(s: State, events: seq<Event>)
    requires s.closed && NoneInFlight(s) && Run(s, events).Some?
    ensures
      var z := Run(s, events).value;
      z.closed && NoneInFlight(z) && z.late == s.late && (s.taken ==> z.taken)
    decreases |events|
  {
    if events != [] {
      NoneComesToFly(s, events[..|events| - 1]);
      NoneTakesOff(Run(s, events[..|events| - 1]).value, events[|events| - 1]);
    }
  }

  lemma {:induction false} RunConcat(s: State, a: seq<Event>, b: seq<Event>)
    requires Run(s, a).Some?
    ensures Run(s, a + b) == Run(Run(s, a).value, b)
    decreases |b|
  {
    if b == [] {
      assert a + b == a;
    } else {
      RunConcat(s, a, b[..|b| - 1]);
      assert (a + b)[..|a + b| - 1] == a + b[..|b| - 1];
    }
  }

  lemma ReachesOn(before: seq<Event>, v: State, after: seq<Event>, w: State)
    requires Reaches(before, v) && Run(v, after) == Some(w)
    ensures Reaches(before + after, w)
  {
    var perAgent :| Run(Initial(perAgent), before) == Some(v);
    RunConcat(Initial(perAgent), before, after);
  }

  /** So with no add in flight when cleanup takes the closers, everything is closed exactly once at rest. */
  lemma CleanupClosesAll(before: seq<Event>, v: State, after: seq<Event>, w: State, id: nat)
    requires Reaches(before, v) && v.taken && v.late == {} && NoneInFlight(v)
    requires Run(v, after) == Some(w) && AtRest(w) && id < w.bins.next
    ensures id in w.bins.places && w.bins.places[id].Closed?
  {
    ReachedInv(before, v);
    NoneComesToFly(v, after);
    ReachesOn(before, v, after, w);
    AllClosedAtRest(before + after, w, id);
  }

  /** `s` can go on to register an index that the cleanup does not see. */
  ghost predicate CanRegisterLate(s: State) {
    exists more :: LateAfter(s, more)
  }

  ghost predicate LateAfter(s: State, more: seq<Event>) {
    Run(s, more).Some? && Run(s, more).value.late != {}
  }

  /** ... and with one in flight, that is not sure: an index can be registered late exactly then. */
  lemma LateExactly(before: seq<Event>, v: State)
    requires Reaches(before, v) && v.taken && v.late == {}
    ensures CanRegisterLate(v) <==> !NoneInFlight(v)
  {
    ReachedInv(before, v);
    if CanRegisterLate(v) && NoneInFlight(v) {
      var more :| LateAfter(v, more);
      NoneComesToFly(v, more);
    }
    if o :| o in v.ops && InFlight(v.ops[o].pc) {
      InFlightRegisters(v, o);
    }
  }

  lemma Extend(s0: State, events: seq<Event>, s: State, e: Event) returns (events': seq<Event>, s': State)
    requires Run(s0, events) == Some(s) && Apply(s, e).Some?
    ensures events' == events + [e] && Run(s0, events') == Some(s') && Apply(s, e) == Some(s')
  {
    events' := events + [e];
    s' := Apply(s, e).value;
    assert events'[..|events'| - 1] == events;
  }

  lemma InFlightRegisters(v: State, o: OpId)
    requires Inv(v) && v.taken && o in v.ops && InFlight(v.ops[o].pc)
    ensures CanRegisterLate(v)
  {
    var events, s := [], v;
    if v.ops[o].pc.Building? {
      events, s := Extend(v, events, s, Act(o, BuildIndex(Built)));
      ApplyKeepsInv(v, Act(o, BuildIndex(Built)));
    }
    var id := At(s.bins, Mine(s, o))[0];
    events, s := Extend(v, events, s, Act(o, Start));
    assert id in s.late;
    assert LateAfter(v, events);
  }

  // ---- Adds and the wait group ----

  predicate Unadmitted(pc: Pc) {
    pc.Opening? || pc.Admitting? || pc.Closing? || pc.Done?
  }

  lemma AddNotAdmitted(s: State, u: OpId, a: Action, o: OpId)
    requires s.closed && o in s.ops && Unadmitted(s.ops[o].pc) && u in s.ops && AddStep(s, u, a).Some?
    ensures
      var z := AddStep(s, u, a).value;
      z.closed && o in z.ops && Unadmitted(z.ops[o].pc)
  {
  }

  lemma NotAdmittedNow(s: State, e: Event, o: OpId)
    requires s.closed && o in s.ops && Unadmitted(s.ops[o].pc) && Apply(s, e).Some?
    ensures
      var z := Apply(s, e).value;
      z.closed && o in z.ops && Unadmitted(z.ops[o].pc)
  {
    match e
    case Act(u, Take) =>
    case Act(u, CloseOne(_)) =>
    case Act(u, Finish) =>
    case Act(u, a) => AddNotAdmitted(s, u, a, o);
    case _ =>
  }

  /** An add that is not admitted when the system is closed never will be: it closes what it has opened. */
  lemma {:induction false} NeverAdmitted(s: State, events: seq<Event>, o: OpId)
    requires s.closed && o in s.ops && Unadmitted(s.ops[o].pc) && Run(s, events).Some?
    ensures
      var z := Run(s, events).value;
      z.closed && o in z.ops && Unadmitted(z.ops[o].pc)
    decreases |events|
  {
    if events != [] {
      NeverAdmitted(s, events[..|events| - 1], o);
      NotAdmittedNow(Run(s, events[..|events| - 1]).value, events[|events| - 1], o);
    }
  }

  /** No step of such an add registers anything. */
  lemma RegistersNothing(s: State, o: OpId, a: Action)
    requires s.closed && o in s.ops && Unadmitted(s.ops[o].pc) && Step(s, o, a).Some?
    ensures
      var z := Step(s, o, a).value;
      z.agents == s.agents && forall w :: At(z.bins, Registered(w)) == At(s.bins, Registered(w))
  {
  }

  /** No backfill begins once the system is closed, and none runs once cleanup has waited for them. */
  lemma WaitGroupIsSafe(events: seq<Event>, s: State, e: Event)
    requires Reaches(events, s) && Apply(s, e).Some?
    ensures s.closed ==> Apply(s, e).value.backfills <= s.backfills
    ensures s.taken || (exists o :: o in s.ops && s.ops[o].pc.TakingAll?) ==> s.backfills == {}
  {
    ReachedInv(events, s);
  }

  /** A removal takes the agent and all that is registered for it, so that the agent can be added again; nothing else of
      anybody's. */
  lemma RemovalExactly(s: State, o: OpId)
    requires o in s.ops && s.ops[o].pc.TakingAgent?
    ensures
      var z, w := Step(s, o, Take).value, s.ops[o].owner;
      && z.agents == s.agents - {w} && z.ops[o].pc.Closing? && z.closed == s.closed
      && At(z.bins, Registered(w)) == []
      && At(z.bins, Held(o, w)) == At(s.bins, Held(o, w)) + At(s.bins, Registered(w))
      && forall v :: v != w ==> At(z.bins, Registered(v)) == At(s.bins, Registered(v))
  {
  }

  /** An add that has its index registers its agent, also if the agent was removed in the meantime. */
  lemma PublishRegisters(s: State, o: OpId)
    requires o in s.ops && s.ops[o].pc.Publishing?
    ensures
      var z := Step(s, o, Publish);
      && z.Some? && z.value.agents == s.agents + {s.ops[o].owner}
      && z.value.bins == s.bins && z.value.ops[o].pc.Backfilling?
  {
  }

  // ---- What an add leaves ----

  /** An add that goes through has its agent registered, with its stores and then its index at the end of what the
      agent owns, and nothing left in its hands. */
  lemma SuccessfulAdd(s: State, o: OpId) returns (events: seq<Event>, z: State)
    requires o in s.ops && s.ops[o].pc.Admitting? && s.perAgent && !s.closed && s.ops[o].owner !in s.agents
    ensures Run(s, events) == Some(z) && o in z.ops && z.ops[o].pc.Done?
    ensures z.agents == s.agents + {s.ops[o].owner} && z.backfills == s.backfills + {o}
    ensures
      At(z.bins, Registered(s.ops[o].owner)) ==
      At(s.bins, Registered(s.ops[o].owner)) + At(s.bins, Mine(s, o)) + [s.bins.next]
    ensures At(z.bins, Mine(s, o)) == []
  {
    events, z := Admitted(s, o);
    events, z := Extend(s, events, z, Act(o, BuildIndex(Built)));
    assert At(z.bins, Mine(s, o)) == [s.bins.next];
    events, z := Extend(s, events, z, Act(o, Start));
    events, z := Extend(s, events, z, Act(o, Publish));
    events, z := Extend(s, events, z, Act(o, Backfill));
  }

  lemma Admitted(s: State, o: OpId) returns (events: seq<Event>, z: State)
    requires o in s.ops && s.ops[o].pc.Admitting? && s.perAgent && !s.closed && s.ops[o].owner !in s.agents
    ensures Run(s, events) == Some(z) && z.ops == s.ops[o := s.ops[o].(pc := Building)] && !z.closed && z.perAgent
    ensures z.agents == s.agents + {s.ops[o].owner} && z.backfills == s.backfills && z.bins.next == s.bins.next
    ensures z.late == s.late && z.taken == s.taken
    ensures
      At(z.bins, Registered(s.ops[o].owner)) ==
      At(s.bins, Registered(s.ops[o].owner)) + At(s.bins, Mine(s, o))
    ensures At(z.bins, Mine(s, o)) == []
  {
    events, z := Extend(s, [], s, Act(o, Admit));
  }

  /** An add whose index fails leaves its stores open and registered, though the agent is gone; so a retry opens
      them a second time. All of them are for cleanup, or a removal of the agent, to close. */
  lemma FailedAddLeavesStoresOpen(s: State, o: OpId) returns (events: seq<Event>, z: State)
    requires o in s.ops && s.ops[o].pc.Admitting? && s.perAgent && !s.closed && s.ops[o].owner !in s.agents
    ensures Run(s, events) == Some(z) && z.ops == s.ops[o := s.ops[o].(pc := Done)]
    ensures z.agents == s.agents && !z.closed
    ensures
      At(z.bins, Registered(s.ops[o].owner)) ==
      At(s.bins, Registered(s.ops[o].owner)) + At(s.bins, Mine(s, o))
  {
    events, z := Admitted(s, o);
    events, z := Extend(s, events, z, Act(o, BuildIndex(Failed)));
    events, z := Extend(s, events, z, Act(o, Unregister));
  }

  /** Of the steps of an add, only its admission and the registration of its index change what is registered. */
  lemma RegisteredByAdmission(s: State, o: OpId, a: Action)
    requires o in s.ops && AddStep(s, o, a).Some? && !a.Start? && (a.Admit? ==> At(s.bins, Mine(s, o)) != [])
    ensures
      var z := AddStep(s, o, a).value;
      (exists w :: At(z.bins, Registered(w)) != At(s.bins, Registered(w))) <==>
      a.Admit? && !s.closed && s.ops[o].owner !in s.agents
  {
    var z := AddStep(s, o, a).value;
    if a.Admit? && !s.closed && s.ops[o].owner !in s.agents {
      var w := s.ops[o].owner;
      assert |At(z.bins, Registered(w))| == |At(s.bins, Registered(w))| + |At(s.bins, Mine(s, o))|;
    }
  }

  // ---- Runs that show what can happen ----

  /** A fresh system with one call: an add of agent a that has yet to open `left` of its four stores. */
  ghost predicate AddingA(s: State, left: nat) {
    && left <= 4 && s == Initial(true).(bins := s.bins, ops := s.ops)
    && s.ops == map[1 := Op(Add, "a", if left == 0 then Admitting else Opening(left))]
    && s.bins.lists.Keys <= {Held(1, "a")}
    && |At(s.bins, Held(1, "a"))| == 4 - left
  }

  lemma StoresOpened() returns (events: seq<Event>, s: State)
    ensures Run(Initial(true), events) == Some(s) && AddingA(s, 0)
  {
    events, s := Extend(Initial(true), [], Initial(true), Begin(1, Add, "a"));
    for left := 4 downto 0
      invariant Run(Initial(true), events) == Some(s) && AddingA(s, left)
    {
      events, s := OneStore(events, s, left + 1);
    }
  }

  lemma OneStore(events: seq<Event>, s: State, left: nat) returns (events': seq<Event>, s': State)
    requires Run(Initial(true), events) == Some(s) && left > 0 && AddingA(s, left)
    ensures Run(Initial(true), events') == Some(s') && AddingA(s', left - 1)
  {
    events', s' := Extend(Initial(true), events, s, Act(1, OpenStore(true)));
  }

  /** A run in which cleanup takes the closers with an add in flight; its index can then be registered late. */
  lemma CleanupOvertakesAdd() returns (events: seq<Event>, s: State)
    ensures Reaches(events, s) && s.taken && s.late == {} && 1 in s.ops && s.ops[1].pc.Building?
    ensures CanRegisterLate(s)
  {
    var more, z;
    events, z := StoresOpened();
    more, z := Admitted(z, 1);
    RunConcat(Initial(true), events, more);
    events := events + more;
    events, s := Extend(Initial(true), events, z, Begin(2, Cleanup, "b"));
    events, s := CleanupStep(events, s, Shutting);
    events, s := CleanupStep(events, s, Waiting);
    events, s := CleanupStep(events, s, TakingAll);
    LateExactly(events, s);
  }

  /** One step of cleanup 2 with add 1 about to build its index. */
  lemma CleanupStep(events: seq<Event>, s: State, pc: Pc) returns (events': seq<Event>, s': State)
    requires Run(Initial(true), events) == Some(s) && s.backfills == {} && s.late == {}
    requires s.ops == map[1 := Op(Add, "a", Building), 2 := Op(Cleanup, "b", pc)]
    requires pc.Shutting? || pc.Waiting? || pc.TakingAll?
    ensures Run(Initial(true), events') == Some(s') && s'.backfills == {} && s'.late == {}
    ensures
      var after := if pc.Shutting? then Waiting else if pc.Waiting? then TakingAll else Closing;
      s'.ops == map[1 := Op(Add, "a", Building), 2 := Op(Cleanup, "b", after)]
    ensures pc.TakingAll? ==> s'.taken
  {
    events', s' := Extend(Initial(true), events, s, Act(2, Take));
  }

  /** A run in which a failed add leaves its four stores open: agent a is gone, they are registered. */
  lemma FailedAddRun() returns (events: seq<Event>, s: State)
    ensures Reaches(events, s) && AtRest(s) && s.agents == {} && |At(s.bins, Registered("a"))| == 4
  {
    var more, z;
    events, z := StoresOpened();
    assert At(z.bins, Registered("a")) == [];
    more, s := FailedAddLeavesStoresOpen(z, 1);
    RunConcat(Initial(true), events, more);
    events := events + more;
  }
}
