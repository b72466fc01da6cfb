/**
 Adding agents to the running memory system, taking them out, and closing it down
 (cmd/foci-gw/memory_init.go:108-147, 237-346, 429-490), as a step system. A step is one critical section under the
 system's lock, one store or index opened, or one closed.
*/
module MemoryProtocol {
  import opened Wrappers
  import opened MemoryClosers

  datatype Kind = Add | Remove | Cleanup

  datatype Pc =
    // addAgent
    | Opening(left: nat)   // of its four stores
    | Admitting
    | Building             // admitted: about to build its own index
    | Starting             // the index is open
    | Publishing
    | Unregistering        // the index failed
    | Backfilling
    // removeAgent
    | TakingAgent
    // cleanup
    | Shutting
    | Waiting
    | TakingAll
    // all
    | Closing
    | Done

  datatype Op = Op(kind: Kind, owner: Owner, pc: Pc)

  /** `taken` and `late` are history: cleanup has taken the closers, and the indices registered after that. */
  datatype State = State(perAgent: bool, agents: set<Owner>, closed: bool, backfills: set<OpId>,
                         bins: Bins, ops: map<OpId, Op>, taken: bool, late: set<nat>)

  /** `perAgent`: memory search is on, with an index for each agent; fixed at boot. */
  function Initial(perAgent: bool): State {
    State(perAgent, {}, false, {}, EMPTY, map[], false, {})
  }

  datatype Index = NoSources | NoBackend | Failed | Built

  datatype Action =
    | OpenStore(ok: bool)
    | Admit
    | BuildIndex(index: Index)
    | Start
    | Publish
    | Unregister
    | Backfill
    | Take
    | CloseOne(owner: Owner)
    | Finish

  function First(kind: Kind): Pc {
    match kind
    case Add => Opening(4)
    case Remove => TakingAgent
    case Cleanup => Shutting
  }

  function Put(s: State, o: OpId, pc: Pc): State
    requires o in s.ops
  {
    s.(ops := s.ops[o := s.ops[o].(pc := pc)])
  }

  /** The list in the hands of call `o`. */
  function Mine(s: State, o: OpId): Bin
    requires o in s.ops
  {
    Held(o, s.ops[o].owner)
  }

  /** addAgent. Its stores are registered, or closed again once the system is closed or has the agent. An index that
      fails takes the agent's entry with it, but not its registered stores. */
  function AddStep(s: State, o: OpId, a: Action): Option<State>
    requires o in s.ops
  {
    var op := s.ops[o];
    match a
    case OpenStore(ok) =>
      if !op.pc.Opening? || op.pc.left == 0 then None
      else if !ok then Some(Put(s, o, Closing))
      else
        var next := if op.pc.left == 1 then Admitting else Opening(op.pc.left - 1);
        Some(Put(s, o, next).(bins := Open(s.bins, Mine(s, o))))
    case Admit =>
      if !op.pc.Admitting? then None
      else if s.closed || op.owner in s.agents then Some(Put(s, o, Closing))
      else
        Some(Put(s, o, if s.perAgent then Building else Done).(agents := s.agents + {op.owner},
             bins := Move(s.bins, Mine(s, o), Registered(op.owner))))
    case BuildIndex(index) =>
      if !op.pc.Building? then None
      else if index.Built? then Some(Put(s, o, Starting).(bins := Open(s.bins, Mine(s, o))))
      else
        Some(Put(s, o, match index case NoSources => Backfilling case NoBackend => Publishing case _ => Unregistering))
    case Start =>
      if !op.pc.Starting? then None
      else
        var list := At(s.bins, Mine(s, o));
        Some(Put(s, o, Publishing).(bins := Move(s.bins, Mine(s, o), Registered(op.owner)),
             late := if s.taken then s.late + (set id | id in list) else s.late))
    case Publish => if op.pc.Publishing? then Some(Put(s, o, Backfilling).(agents := s.agents + {op.owner})) else None
    case Unregister => if op.pc.Unregistering? then Some(Put(s, o, Done).(agents := s.agents - {op.owner})) else None
    case Backfill =>
      if !op.pc.Backfilling? then None
      else Some(Put(s, o, Done).(backfills := if s.closed then s.backfills else s.backfills + {o}))
    case _ => None
  }

  /** removeAgent and cleanup take what they are to close. Cleanup first shuts the system, then waits for the
      backfills. */
  function TakeStep(s: State, o: OpId): Option<State>
    requires o in s.ops
  {
    var op := s.ops[o];
    match op.pc
    case TakingAgent =>
      Some(Put(s, o, Closing).(agents := s.agents - {op.owner}, bins := Move(s.bins, Registered(op.owner), Mine(s, o))))
    case Shutting => Some(Put(s, o, Waiting).(closed := true))
    case Waiting => if s.backfills == {} then Some(Put(s, o, TakingAll)) else None
    case TakingAll => Some(Put(s, o, Closing).(bins := MoveAll(s.bins, o), taken := true))
    case _ => None
  }

  /** closeAll, from the last opened to the first. */
  function CloseStep(s: State, o: OpId, a: Action): Option<State>
    requires o in s.ops
  {
    if !s.ops[o].pc.Closing? then None
    else
      match a
      case CloseOne(w) => if At(s.bins, Held(o, w)) == [] then None else Some(s.(bins := CloseLast(s.bins, Held(o, w))))
      case Finish => if HasNone(s, o) then Some(Put(s, o, Done)) else None
      case _ => None
  }

  /** Whether everything that `o` took is closed. */
  predicate HasNone(s: State, o: OpId) {
    forall b | b in s.bins.lists :: b.Held? && b.op == o ==> s.bins.lists[b] == []
  }

  function Step(s: State, o: OpId, a: Action): Option<State>
    requires o in s.ops
  {
    match a
    case Take => TakeStep(s, o)
    case CloseOne(_) | Finish => CloseStep(s, o, a)
    case _ => AddStep(s, o, a)
  }

  datatype Event =
    | Begin(o: OpId, kind: Kind, owner: Owner)
    | Act(o: OpId, a: Action)
    | OpenShared           // boot opens and registers a shared index
    | BackfillEnds(o: OpId)

  function Apply(s: State, e: Event): Option<State> {
    match e
    case Begin(o, kind, owner) =>
      if o in s.ops || owner == SHARED then None else Some(s.(ops := s.ops[o := Op(kind, owner, First(kind))]))
    case Act(o, a) => if o in s.ops then Step(s, o, a) else None
    case OpenShared => if s.closed then None else Some(s.(bins := Open(s.bins, Registered(SHARED))))
    case BackfillEnds(o) => Some(s.(backfills := s.backfills - {o}))
  }

  function Run(s: State, events: seq<Event>): Option<State>
    decreases |events|
  {
    if events == [] then Some(s)
    else
      var before := Run(s, events[..|events| - 1]);
      if before.None? then None else Apply(before.value, events[|events| - 1])
  }

  // ---- The invariant ----

  predicate MayHold(op: Op, w: Owner) {
    op.pc.Closing? || ((op.pc.Opening? || op.pc.Admitting? || op.pc.Starting?) && w == op.owner)
  }

  /** Only a call at work has closers in its hands. */
  ghost predicate HandsHold(s: State) {
    && (forall b | b in s.bins.lists && b.Held? && s.bins.lists[b] != [] ::
          b.op in s.ops && MayHold(s.ops[b.op], b.owner))
    && (forall o | o in s.ops && s.ops[o].pc.Starting? :: At(s.bins, Mine(s, o)) != [])
  }

  ghost predicate ShutHolds(s: State) {
    && (forall o | o in s.ops && (s.ops[o].pc.Waiting? || s.ops[o].pc.TakingAll?) :: s.closed)
    && (forall o | o in s.ops && s.ops[o].pc.TakingAll? :: s.backfills == {})
    && (s.taken ==> s.closed && s.backfills == {})
  }

  /** After cleanup has taken the closers, only late ones are registered. */
  ghost predicate LateHolds(s: State) {
    s.taken ==>
      forall b, i :: b in s.bins.lists && b.Registered? && 0 <= i < |s.bins.lists[b]| ==> s.bins.lists[b][i] in s.late
  }

  ghost predicate Inv(s: State) {
    Conserved(s.bins) && HandsHold(s) && ShutHolds(s) && LateHolds(s)
  }

  lemma AddConserves(s: State, o: OpId, a: Action)
    requires Conserved(s.bins) && o in s.ops && AddStep(s, o, a).Some?
    ensures Conserved(AddStep(s, o, a).value.bins)
  {
    match a
    case OpenStore(_) | BuildIndex(_) => OpenConserves(s.bins, Mine(s, o));
    case Admit | Start => MoveConserves(s.bins, Mine(s, o), Registered(s.ops[o].owner));
    case _ =>
  }

  lemma OpenStoreKeepsHands(s: State, o: OpId, ok: bool)
    requires HandsHold(s) && o in s.ops && AddStep(s, o, OpenStore(ok)).Some?
    ensures HandsHold(AddStep(s, o, OpenStore(ok)).value)
  {
  }

  lemma BuildIndexKeepsHands(s: State, o: OpId, index: Index)
    requires HandsHold(s) && o in s.ops && AddStep(s, o, BuildIndex(index)).Some?
    ensures HandsHold(AddStep(s, o, BuildIndex(index)).value)
  {
  }

  lemma AdmitKeepsHands(s: State, o: OpId)
    requires HandsHold(s) && o in s.ops && AddStep(s, o, Admit).Some?
    ensures HandsHold(AddStep(s, o, Admit).value)
  {
  }

  lemma StartKeepsHands(s: State, o: OpId)
    requires HandsHold(s) && o in s.ops && AddStep(s, o, Start).Some?
    ensures HandsHold(AddStep(s, o, Start).value)
  {
  }

  lemma AddKeepsHands(s: State, o: OpId, a: Action)
    requires HandsHold(s) && o in s.ops && AddStep(s, o, a).Some?
    ensures HandsHold(AddStep(s, o, a).value)
  {
    match a
    case OpenStore(ok) => OpenStoreKeepsHands(s, o, ok);
    case BuildIndex(index) => BuildIndexKeepsHands(s, o, index);
    case Admit => AdmitKeepsHands(s, o);
    case Start => StartKeepsHands(s, o);
    case _ =>
  }

  lemma AddKeepsShut(s: State, o: OpId, a: Action)
    requires ShutHolds(s) && o in s.ops && AddStep(s, o, a).Some?
    ensures ShutHolds(AddStep(s, o, a).value)
  {
  }

  lemma AddKeepsLate(s: State, o: OpId, a: Action)
    requires ShutHolds(s) && LateHolds(s) && o in s.ops && AddStep(s, o, a).Some?
    ensures LateHolds(AddStep(s, o, a).value)
  {
  }

  lemma TakeAgentKeepsInv(s: State, o: OpId)
    requires Inv(s) && o in s.ops && s.ops[o].pc.TakingAgent?
    ensures Inv(TakeStep(s, o).value)
  {
    MoveConserves(s.bins, Registered(s.ops[o].owner), Mine(s, o));
  }

  lemma TakeAllKeepsInv(s: State, o: OpId)
    requires Inv(s) && o in s.ops && s.ops[o].pc.TakingAll?
    ensures Inv(TakeStep(s, o).value)
  {
    MoveAllConserves(s.bins, o);
  }

  lemma TakeKeepsInv(s: State, o: OpId)
    requires Inv(s) && o in s.ops && TakeStep(s, o).Some?
    ensures Inv(TakeStep(s, o).value)
  {
    match s.ops[o].pc
    case TakingAgent => TakeAgentKeepsInv(s, o);
    case TakingAll => TakeAllKeepsInv(s, o);
    case _ =>
  }

  lemma CloseKeepsInv(s: State, o: OpId, a: Action)
    requires Inv(s) && o in s.ops && CloseStep(s, o, a).Some?
    ensures Inv(CloseStep(s, o, a).value)
  {
    match a
    case CloseOne(w) => CloseConserves(s.bins, Held(o, w));
    case _ =>
  }

  lemma ApplyKeepsInv(s: State, e: Event)
    requires Inv(s) && Apply(s, e).Some?
    ensures Inv(Apply(s, e).value)
  {
    match e
    case Act(o, Take) => TakeKeepsInv(s, o);
    case Act(o, CloseOne(_)) => CloseKeepsInv(s, o, e.a);
    case Act(o, Finish) => CloseKeepsInv(s, o, e.a);
    case Act(o, a) =>
      AddConserves(s, o, a);
      AddKeepsHands(s, o, a);
      AddKeepsShut(s, o, a);
      AddKeepsLate(s, o, a);
    case OpenShared => OpenConserves(s.bins, Registered(SHARED));
    case _ =>
  }

  lemma {:induction false} RunKeepsInv(s: State, events: seq<Event>)
    requires Inv(s) && Run(s, events).Some?
    ensures Inv(Run(s, events).value)
    decreases |events|
  {
    if events != [] {
      RunKeepsInv(s, events[..|events| - 1]);
      ApplyKeepsInv(Run(s, events[..|events| - 1]).value, events[|events| - 1]);
    }
  }
}
