/**
 What an add leaves behind, over every run (cmd/foci-gw/memory_init.go, addAgent). Other calls act at any point; only
 the ones that would take the closers of the added agent are set aside.
*/
module MemoryAdds {
  import opened Wrappers
  import opened MemoryClosers
  import opened MemoryProtocol
  import opened MemoryGuarantees

  /** `e` takes what is registered for `w`: a removal of that agent, or cleanup. */
  predicate TakesFrom(s: State, e: Event, w: Owner) {
    && e.Act? && e.a.Take? && e.o in s.ops
    && (s.ops[e.o].pc.TakingAll? || (s.ops[e.o].pc.TakingAgent? && s.ops[e.o].owner == w))
  }

  /** No event of the run takes what is registered for `w`. */
  ghost predicate Spares(s: State, events: seq<Event>, w: Owner)
    decreases |events|
  {
    events == [] ||
    var init := events[..|events| - 1];
    && Spares(s, init, w)
    && (Run(s, init).Some? ==> !TakesFrom(Run(s, init).value, events[|events| - 1], w))
  }

  // ---- What is registered stays ----

  predicate Stays(s: State, id: nat, w: Owner) {
    id in s.bins.places && s.bins.places[id] == In(Registered(w))
  }

  lemma AddKeepsRegistered(s: State, o: OpId, a: Action, id: nat, w: Owner)
    requires Inv(s) && o in s.ops && AddStep(s, o, a).Some? && Stays(s, id, w)
    ensures Stays(AddStep(s, o, a).value, id, w)
  {
  }

  lemma CloseKeepsRegistered(s: State, o: OpId, a: Action, id: nat, w: Owner)
    requires Inv(s) && o in s.ops && CloseStep(s, o, a).Some? && Stays(s, id, w)
    ensures Stays(CloseStep(s, o, a).value, id, w)
  {
  }

  lemma TakeKeepsRegistered(s: State, o: OpId, id: nat, w: Owner)
    requires o in s.ops && TakeStep(s, o).Some? && Stays(s, id, w) && !TakesFrom(s, Act(o, Take), w)
    ensures Stays(TakeStep(s, o).value, id, w)
  {
  }

  lemma ApplyKeepsRegistered(s: State, e: Event, id: nat, w: Owner)
    requires Inv(s) && Apply(s, e).Some? && Stays(s, id, w) && !TakesFrom(s, e, w)
    ensures Stays(Apply(s, e).value, id, w)
  {
    match e
    case Act(o, Take) => TakeKeepsRegistered(s, o, id, w);
    case Act(o, CloseOne(_)) => CloseKeepsRegistered(s, o, e.a, id, w);
    case Act(o, Finish) => CloseKeepsRegistered(s, o, e.a, id, w);
    case Act(o, a) => AddKeepsRegistered(s, o, a, id, w);
    case _ =>
  }

  /** A store or index that is registered for an agent leaves that list by a removal of the agent, or by cleanup, and by
      nothing else. */
  lemma LeavesRegisteredExactly(s: State, e: Event, id: nat, w: Owner)
    requires Inv(s) && Apply(s, e).Some? && id in s.bins.places && s.bins.places[id] == In(Registered(w))
    ensures
      var bins := Apply(s, e).value.bins;
      (id in bins.places && bins.places[id] == In(Registered(w))) <==>
      !(e.Act? && e.a == Take
        && (s.ops[e.o].pc.TakingAll? || (s.ops[e.o].pc.TakingAgent? && s.ops[e.o].owner == w)))
  {
    if !TakesFrom(s, e, w) {
      ApplyKeepsRegistered(s, e, id, w);
    } else {
      TakeMoves(s, e.o, id, w);
    }
  }

  lemma TakeMoves(s: State, o: OpId, id: nat, w: Owner)
    requires Inv(s) && Stays(s, id, w) && TakesFrom(s, Act(o, Take), w) && TakeStep(s, o).Some?
    ensures !Stays(TakeStep(s, o).value, id, w)
  {
  }

  /** Nothing but a take shrinks what an owner has registered. */
  lemma {:induction false} RegisteredStays(v: State, events: seq<Event>, id: nat, w: Owner)
    requires Inv(v) && Run(v, events).Some? && Spares(v, events, w) && Stays(v, id, w)
    ensures
      var bins := Run(v, events).value.bins;
      id in bins.places && bins.places[id] == In(Registered(w))
    decreases |events|
  {
    if events != [] {
      var init := events[..|events| - 1];
      RegisteredStays(v, init, id, w);
      RunKeepsInv(v, init);
      ApplyKeepsRegistered(Run(v, init).value, events[|events| - 1], id, w);
    }
  }

  // ---- The stores of one add ----

  /** The add has come to its index, which it does only once admitted. */
  ghost predicate CameToIndex(events: seq<Event>, o: OpId) {
    exists index :: Act(o, BuildIndex(index)) in events
  }

  /** The add has returned an error. */
  predicate Failed(events: seq<Event>, o: OpId) {
    Act(o, Finish) in events || Act(o, Unregister) in events
  }

  /** Where store `id` of the add is, given its point. */
  predicate StoreIs(pc: Pc, place: Place, o: OpId, w: Owner, came: bool) {
    match pc
    case Admitting => place == In(Held(o, w)) && !came
    case Closing => (place == In(Held(o, w)) || place == Closed) && !came
    case Building => place == In(Registered(w)) && !came
    case Starting | Publishing | Unregistering | Backfilling => place == In(Registered(w)) && came
    case Done => place == if came then In(Registered(w)) else Closed
    case _ => false
  }

  /** What the add's point tells of the actions taken by it. */
  ghost predicate AddTells(events: seq<Event>, o: OpId, pc: Pc) {
    && (Act(o, Finish) in events ==> pc.Done? && !CameToIndex(events, o))
    && (Act(o, Unregister) in events ==> pc.Done? && Act(o, BuildIndex(Index.Failed)) in events)
    && (pc.Unregistering? ==> Act(o, BuildIndex(Index.Failed)) in events)
    && (Act(o, BuildIndex(Index.Failed)) in events ==> pc.Unregistering? || Act(o, Unregister) in events)
    && (Act(o, BuildIndex(Index.Failed)) in events ==> CameToIndex(events, o))
  }

  ghost predicate Follows(events: seq<Event>, o: OpId, w: Owner, id: nat, s: State) {
    && AddPlaces(s, o, w, id, CameToIndex(events, o))
    && AddTells(events, o, s.ops[o].pc)
  }

  lemma CameToIndexGrows(init: seq<Event>, e: Event, o: OpId)
    ensures CameToIndex(init + [e], o) <==> CameToIndex(init, o) || (e.Act? && e.o == o && e.a.BuildIndex?)
    ensures forall x :: x in init + [e] <==> x in init || x == e
  {
    if e.Act? && e.o == o && e.a.BuildIndex? {
      assert Act(o, BuildIndex(e.a.index)) in init + [e];
    }
    if CameToIndex(init, o) {
      var index :| Act(o, BuildIndex(index)) in init;
      assert Act(o, BuildIndex(index)) in init + [e];
    }
  }

  lemma OwnAddTells(init: seq<Event>, o: OpId, s: State, a: Action)
    requires o in s.ops && AddTells(init, o, s.ops[o].pc) && AddStep(s, o, a).Some?
    ensures AddTells(init + [Act(o, a)], o, AddStep(s, o, a).value.ops[o].pc)
  {
    CameToIndexGrows(init, Act(o, a), o);
  }

  predicate AddPlaces(s: State, o: OpId, w: Owner, id: nat, came: bool) {
    && s.perAgent && o in s.ops && s.ops[o].kind == Add && s.ops[o].owner == w && id in s.bins.places
    && StoreIs(s.ops[o].pc, s.bins.places[id], o, w, came)
  }

  lemma OwnMovePlaces(o: OpId, w: Owner, id: nat, s: State, a: Action, came: bool)
    requires AddPlaces(s, o, w, id, came) && (a.Admit? || a.Start?) && AddStep(s, o, a).Some?
    ensures AddPlaces(AddStep(s, o, a).value, o, w, id, came)
  {
    MovedPlace(s.bins, Held(o, w), Registered(w), id);
  }

  lemma OwnIndexPlaces(o: OpId, w: Owner, id: nat, s: State, index: Index, came: bool)
    requires Conserved(s.bins) && AddPlaces(s, o, w, id, came) && AddStep(s, o, BuildIndex(index)).Some?
    ensures AddPlaces(AddStep(s, o, BuildIndex(index)).value, o, w, id, true)
  {
    assert id < s.bins.next;
  }

  lemma OwnAddPlaces(o: OpId, w: Owner, id: nat, s: State, a: Action, came: bool)
    requires Conserved(s.bins) && AddPlaces(s, o, w, id, came) && AddStep(s, o, a).Some?
    ensures AddPlaces(AddStep(s, o, a).value, o, w, id, came || a.BuildIndex?)
  {
    match a
    case Admit => OwnMovePlaces(o, w, id, s, a, came);
    case Start => OwnMovePlaces(o, w, id, s, a, came);
    case BuildIndex(index) => OwnIndexPlaces(o, w, id, s, index, came);
    case _ =>
  }

  lemma MovedPlace(c: Bins, from: Bin, to: Bin, id: nat)
    requires id in c.places
    ensures id in Move(c, from, to).places
    ensures Move(c, from, to).places[id] == if c.places[id] == In(from) then In(to) else c.places[id]
  {
  }

  lemma OwnAddStep(init: seq<Event>, o: OpId, w: Owner, id: nat, s: State, a: Action)
    requires Conserved(s.bins) && Follows(init, o, w, id, s)
    ensures AddStep(s, o, a).Some? ==> Follows(init + [Act(o, a)], o, w, id, AddStep(s, o, a).value)
  {
    if AddStep(s, o, a).Some? {
      CameToIndexGrows(init, Act(o, a), o);
      OwnAddTells(init, o, s, a);
      OwnAddPlaces(o, w, id, s, a, CameToIndex(init, o));
    }
  }

  lemma OwnCloseStep(init: seq<Event>, o: OpId, w: Owner, id: nat, s: State, a: Action)
    requires Inv(s) && Follows(init, o, w, id, s) && CloseStep(s, o, a).Some?
    ensures Follows(init + [Act(o, a)], o, w, id, CloseStep(s, o, a).value)
  {
    CameToIndexGrows(init, Act(o, a), o);
  }

  /** A step of another call leaves the place of the store, if it does not take from the owner. */
  predicate Leaves(s: State, z: State, o: OpId, id: nat) {
    && z.perAgent == s.perAgent && o in s.ops && o in z.ops && z.ops[o] == s.ops[o]
    && id in s.bins.places && id in z.bins.places && z.bins.places[id] == s.bins.places[id]
  }

  predicate StorePlace(place: Place, o: OpId, w: Owner) {
    place == In(Held(o, w)) || place == In(Registered(w)) || place == Closed
  }

  lemma OtherAddLeaves(s: State, u: OpId, a: Action, o: OpId, w: Owner, id: nat)
    requires Inv(s) && u in s.ops && AddStep(s, u, a).Some? && o in s.ops && u != o
    requires id in s.bins.places && StorePlace(s.bins.places[id], o, w)
    ensures Leaves(s, AddStep(s, u, a).value, o, id)
  {
  }

  lemma OtherCloseLeaves(s: State, u: OpId, a: Action, o: OpId, w: Owner, id: nat)
    requires Inv(s) && u in s.ops && CloseStep(s, u, a).Some? && o in s.ops && u != o
    requires id in s.bins.places && StorePlace(s.bins.places[id], o, w)
    ensures Leaves(s, CloseStep(s, u, a).value, o, id)
  {
  }

  lemma OtherTakeLeaves(s: State, u: OpId, o: OpId, w: Owner, id: nat)
    requires u in s.ops && TakeStep(s, u).Some? && o in s.ops && u != o && !TakesFrom(s, Act(u, Take), w)
    requires id in s.bins.places && StorePlace(s.bins.places[id], o, w)
    ensures Leaves(s, TakeStep(s, u).value, o, id)
  {
  }

  lemma OtherLeaves(s: State, e: Event, o: OpId, w: Owner, id: nat)
    requires Inv(s) && Apply(s, e).Some? && o in s.ops && !(e.Act? && e.o == o) && !TakesFrom(s, e, w)
    requires id in s.bins.places && StorePlace(s.bins.places[id], o, w)
    ensures Leaves(s, Apply(s, e).value, o, id)
  {
    match e
    case Act(u, Take) => OtherTakeLeaves(s, u, o, w, id);
    case Act(u, CloseOne(_)) => OtherCloseLeaves(s, u, e.a, o, w, id);
    case Act(u, Finish) => OtherCloseLeaves(s, u, e.a, o, w, id);
    case Act(u, a) => OtherAddLeaves(s, u, a, o, w, id);
    case _ =>
  }

  lemma OneMoreFollows(init: seq<Event>, e: Event, o: OpId, w: Owner, id: nat, s: State)
    requires Inv(s) && Follows(init, o, w, id, s) && Apply(s, e).Some? && !TakesFrom(s, e, w)
    ensures Follows(init + [e], o, w, id, Apply(s, e).value)
  {
    if e.Act? && e.o == o {
      match e.a
      case Take =>
      case CloseOne(_) => OwnCloseStep(init, o, w, id, s, e.a);
      case Finish => OwnCloseStep(init, o, w, id, s, e.a);
      case _ => OwnAddStep(init, o, w, id, s, e.a);
    } else {
      OtherLeaves(s, e, o, w, id);
      CameToIndexGrows(init, e, o);
    }
  }

  lemma {:induction false} RunFollows(v: State, events: seq<Event>, o: OpId, w: Owner, id: nat)
    requires Inv(v) && Run(v, events).Some? && Spares(v, events, w) && Follows([], o, w, id, v)
    ensures Follows(events, o, w, id, Run(v, events).value)
    decreases |events|
  {
    if events != [] {
      var init := events[..|events| - 1];
      RunFollows(v, init, o, w, id);
      RunKeepsInv(v, init);
      OneMoreFollows(init, events[|events| - 1], o, w, id, Run(v, init).value);
      assert events == init + [events[|events| - 1]];
    }
  }

  /** An add that has its stores open, run to its end with anything else going on: each store is registered, and open,
      exactly if the add came to building its index, and else closed. So an add that returns an error leaves its stores
      open exactly if it was its index that failed. */
  lemma AddLeavesExactly(before: seq<Event>, v: State, o: OpId, w: Owner, events: seq<Event>, z: State, id: nat)
    requires Reaches(before, v) && v.perAgent && o in v.ops && v.ops[o] == Op(Add, w, Admitting)
    requires Run(v, events) == Some(z) && Spares(v, events, w) && o in z.ops && z.ops[o].pc.Done?
    requires id in At(v.bins, Held(o, w))
    ensures id in z.bins.places
    ensures z.bins.places[id] == if CameToIndex(events, o) then In(Registered(w)) else Closed
    ensures
      Failed(events, o) ==>
      (z.bins.places[id] == In(Registered(w)) <==> Act(o, BuildIndex(Index.Failed)) in events)
  {
    ReachedInv(before, v);
    RunFollows(v, events, o, w, id);
  }

  /** The index of an add is registered by its next step, and stays. */
  lemma IndexStays(before: seq<Event>, v: State, o: OpId, w: Owner, events: seq<Event>, z: State, id: nat)
    requires Reaches(before, v) && o in v.ops && v.ops[o].pc.Starting? && v.ops[o].owner == w
    requires id in At(v.bins, Held(o, w))
    requires Run(v, [Act(o, Start)] + events) == Some(z) && Spares(AddStep(v, o, Start).value, events, w)
    ensures id in z.bins.places && z.bins.places[id] == In(Registered(w))
  {
    var started := AddStep(v, o, Start).value;
    ReachedInv(before, v);
    ApplyKeepsInv(v, Act(o, Start));
    assert [Act(o, Start)][..0] == [];
    RunConcat(v, [Act(o, Start)], events);
    RegisteredStays(started, events, id, w);
  }

  // ---- All four stores ----

  /** The stores that an add has opened so far. */
  ghost predicate CountHolds(s: State, o: OpId) {
    o in s.ops ==>
      && (s.ops[o].pc.Opening? ==> s.ops[o].pc.left <= 4 && |At(s.bins, Mine(s, o))| == 4 - s.ops[o].pc.left)
      && (s.ops[o].pc.Admitting? ==> |At(s.bins, Mine(s, o))| == 4)
  }

  lemma OwnAddCounts(s: State, o: OpId, a: Action)
    requires CountHolds(s, o) && o in s.ops && AddStep(s, o, a).Some?
    ensures CountHolds(AddStep(s, o, a).value, o)
  {
  }

  /** A step of another call leaves what `o` has in its hands. */
  ghost predicate KeepsHand(s: State, z: State, o: OpId)
    requires o in s.ops
  {
    o in z.ops && z.ops[o] == s.ops[o] && At(z.bins, Mine(s, o)) == At(s.bins, Mine(s, o))
  }

  lemma OtherAddKeepsHand(s: State, u: OpId, a: Action, o: OpId)
    requires u in s.ops && o in s.ops && u != o && AddStep(s, u, a).Some?
    ensures KeepsHand(s, AddStep(s, u, a).value, o)
  {
  }

  lemma OtherCloseKeepsHand(s: State, u: OpId, a: Action, o: OpId)
    requires u in s.ops && o in s.ops && u != o && CloseStep(s, u, a).Some?
    ensures KeepsHand(s, CloseStep(s, u, a).value, o)
  {
  }

  lemma OtherTakeKeepsHand(s: State, u: OpId, o: OpId)
    requires u in s.ops && o in s.ops && u != o && TakeStep(s, u).Some?
    ensures KeepsHand(s, TakeStep(s, u).value, o)
  {
  }

  lemma OwnActCounts(s: State, o: OpId, a: Action)
    requires CountHolds(s, o) && o in s.ops && Step(s, o, a).Some?
    ensures CountHolds(Step(s, o, a).value, o)
  {
    match a
    case Take =>
    case CloseOne(_) =>
    case Finish =>
    case _ => OwnAddCounts(s, o, a);
  }

  lemma OtherActCounts(s: State, u: OpId, a: Action, o: OpId)
    requires CountHolds(s, o) && o in s.ops && u in s.ops && u != o && Step(s, u, a).Some?
    ensures CountHolds(Step(s, u, a).value, o)
  {
    match a
    case Take => OtherTakeKeepsHand(s, u, o);
    case CloseOne(_) => OtherCloseKeepsHand(s, u, a, o);
    case Finish => OtherCloseKeepsHand(s, u, a, o);
    case _ => OtherAddKeepsHand(s, u, a, o);
  }

  lemma ApplyCounts(s: State, e: Event, o: OpId)
    requires HandsHold(s) && CountHolds(s, o) && Apply(s, e).Some?
    ensures CountHolds(Apply(s, e).value, o)
  {
    match e
    case Act(u, a) =>
      if o in s.ops {
        if u == o {
          OwnActCounts(s, o, a);
        } else {
          OtherActCounts(s, u, a, o);
        }
      }
    case Begin(u, _, w) => assert At(s.bins, Held(u, w)) == [];
    case _ =>
  }

  lemma {:induction false} RunCounts(perAgent: bool, events: seq<Event>, o: OpId)
    requires Run(Initial(perAgent), events).Some?
    ensures CountHolds(Run(Initial(perAgent), events).value, o)
    decreases |events|
  {
    if events != [] {
      RunCounts(perAgent, events[..|events| - 1], o);
      RunKeepsInv(Initial(perAgent), events[..|events| - 1]);
      ApplyCounts(Run(Initial(perAgent), events[..|events| - 1]).value, events[|events| - 1], o);
    }
  }

  /** An add that comes to its admission has all four stores open; one that could open only some never does. */
  lemma AdmitsWithAllStores(events: seq<Event>, s: State, o: OpId)
    requires Reaches(events, s) && o in s.ops && s.ops[o].pc.Admitting?
    ensures |At(s.bins, Mine(s, o))| == 4
  {
    var perAgent :| Run(Initial(perAgent), events) == Some(s);
    RunCounts(perAgent, events, o);
  }
}
