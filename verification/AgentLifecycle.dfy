/**
 Starting an agent in the running process, and renaming a running one (cmd/foci-gw/agent_lifecycle.go and
 agent_rename_live.go, liveAgentStarter). What the outside world answers - the config file as read at each
 point, the bot conflict check, the build, the disk rename - is a parameter, so a lemma covers every failure
 path. One mutex serialises all of it.
*/
module AgentLifecycle {
  import opened Wrappers
  import opened AgentRegistry
  import opened AgentRenames

  /** What the gateway's agent state is to this component. */
  datatype World = World(reg: Reg, renames: Renames)

  /** config: the agent ids of the config file, None when it cannot be read. built: the new instance, None when
      the build fails. */
  datatype StartEnv = StartEnv(config: Option<set<Id>>, conflict: bool, built: Option<nat>)

  datatype StartError = ShuttingDown | AlreadyRunning | Unreadable | NoBlock | BotConflict | BuildFailed

  datatype StartResult = StartResult(world: World, outcome: Result<Instance, StartError>)

  predicate StartSucceeds(w: World, id: Id, env: StartEnv) {
    CanReserve(w.reg, id) && env.config.Some? && id in env.config.value && !env.conflict && env.built.Some?
  }

  /** A start with the agent placed at `slot`, -1 for the end (startAt). */
  function StartAt(w: World, id: Id, slot: int, env: StartEnv): StartResult {
    if !CanReserve(w.reg, id) then StartResult(w, Err(AlreadyRunning))
    else
      var reserved := World(Reserve(w.reg, id), Forget(w.renames, id));
      var released := reserved.(reg := Release(reserved.reg, id));
      if env.config.None? then StartResult(released, Err(Unreadable))
      else if id !in env.config.value then StartResult(released, Err(NoBlock))
      else if env.conflict then StartResult(released, Err(BotConflict))
      else if env.built.None? then StartResult(released, Err(BuildFailed))
      else
        var inst := Instance(id, env.built.value);
        StartResult(reserved.(reg := CommitAt(reserved.reg, inst, slot)), Ok(inst))
  }

  /** What readers see of the registry after a start of `id` at `slot` that ended in `outcome`. */
  ghost predicate AllOrNothing(before: Reg, after: Reg, id: Id, slot: int, outcome: Result<Instance, StartError>) {
    && Wf(after)
    && after.reserved == before.reserved
    && (outcome.Err? ==> after == before)
    && (outcome.Ok? ==>
          && id !in before.byID && outcome.value.id == id
          && after.byID == before.byID[id := outcome.value]
          && after.order == InsertAt(before.order, Clamp(before, slot), id))
  }

  /** A hot-add is all or nothing: it leaves the reservations as they were on every path, a failure leaves what
      readers see as it was, and a success adds exactly its own agent, in its slot, disturbing no other. The
      record of renames moves exactly when the id was free to start, even if the start then fails. */
  lemma HotAddIsAtomic(w: World, id: Id, slot: int, env: StartEnv)
    requires Wf(w.reg)
    ensures AllOrNothing(w.reg, StartAt(w, id, slot, env).world.reg, id, slot, StartAt(w, id, slot, env).outcome)
    ensures StartAt(w, id, slot, env).outcome.Ok? <==> StartSucceeds(w, id, env)
    ensures
      var o := StartAt(w, id, slot, env).outcome;
      o.Ok? ==> env.built.Some? && o.value == Instance(id, env.built.value)
    ensures
      StartAt(w, id, slot, env).world.renames ==
      if CanReserve(w.reg, id) then Forget(w.renames, id) else w.renames
  {
    if CanReserve(w.reg, id) {
      assert Release(Reserve(w.reg, id), id) == w.reg;
      if StartSucceeds(w, id, env) {
        CommitAtKeepsWf(Reserve(w.reg, id), Instance(id, env.built.value), slot);
      }
    }
  }

  /** What each refusal of a start means, the first of its checks that fails. */
  lemma StartErrorExactly(w: World, id: Id, slot: int, env: StartEnv)
    ensures
      var o := StartAt(w, id, slot, env).outcome;
      var free := id !in w.reg.byID && id !in w.reg.reserved;
      && (o == Err(AlreadyRunning) <==> !free)
      && (o == Err(Unreadable) <==> free && env.config.None?)
      && (o == Err(NoBlock) <==> free && env.config.Some? && id !in env.config.value)
      && (o == Err(BotConflict) <==> free && env.config.Some? && id in env.config.value && env.conflict)
      && (o == Err(BuildFailed) <==>
          free && env.config.Some? && id in env.config.value && !env.conflict && env.built.None?)
      && (o.Ok? <==> free && env.config.Some? && id in env.config.value && !env.conflict && env.built.Some?)
      && o != Err(ShuttingDown)
  {
  }

  /** Where a start puts its agent: in the slot, or at the end for a slot outside the order. */
  lemma PlacedExactly(w: World, id: Id, slot: int, env: StartEnv)
    requires Wf(w.reg) && StartAt(w, id, slot, env).outcome.Ok?
    ensures
      var before, after := w.reg.order, StartAt(w, id, slot, env).world.reg.order;
      if 0 <= slot <= |before| then after == before[..slot] + [id] + before[slot..] else after == before + [id]
  {
    HotAddIsAtomic(w, id, slot, env);
  }

  /** A hot-add at the end never changes the default agent of a registry that has one. */
  lemma HotAddKeepsDefault(w: World, id: Id, env: StartEnv)
    requires Wf(w.reg) && w.reg.order != []
    ensures StartAt(w, id, -1, env).world.reg.order[..|w.reg.order|] == w.reg.order
  {
    HotAddIsAtomic(w, id, -1, env);
  }

  // ---- The live rename ----

  datatype Request = Request(from: Id, to: Id)

  /** Answers of one rename: the dry run, the disk rename, the start of the new id, the config as the recovery
      reads it, and the restart of the old id. */
  datatype RenameEnv = RenameEnv(planOk: bool, diskOk: bool, startNew: StartEnv,
                                 recovered: Option<set<Id>>, startOld: StartEnv)

  datatype RenameOutcome =
    | RenameShuttingDown
    | NewIdRunning
    | PlanRefused
    | RenamedAs(inst: Instance)
    | NewNotStarted(why: StartError)
    | ConfigUnreadable
    | NeitherRuns
    | OldRunsOn
    | OldNotRestarted(why: StartError)
    | OldRestarted(inst: Instance)

  /** Refused before anything stops. */
  predicate Untouched(o: RenameOutcome) {
    o.RenameShuttingDown? || o.NewIdRunning? || o.PlanRefused?
  }

  datatype RenameResult = RenameResult(world: World, outcome: RenameOutcome)

  /** The recovery after a failed disk rename (recoverFailedRename). */
  function Recover(w: World, req: Request, slot: int, env: RenameEnv): RenameResult {
    if env.recovered.None? then RenameResult(w, ConfigUnreadable)
    else if req.from !in env.recovered.value then RenameResult(w, NeitherRuns)
    else if req.from in w.reg.byID then RenameResult(w, OldRunsOn)
    else
      var s := StartAt(w, req.from, slot, env.startOld);
      RenameResult(s.world, match s.outcome case Ok(inst) => OldRestarted(inst) case Err(e) => OldNotRestarted(e))
  }

  function Rename(w: World, req: Request, env: RenameEnv): RenameResult
    requires Wf(w.reg)
  {
    if req.to in w.reg.byID then RenameResult(w, NewIdRunning)
    else
      var running := req.from in w.reg.byID;
      if running && !env.planOk then RenameResult(w, PlanRefused)
      else
        var slot := if running then IndexOf(w.reg.order, req.from) else -1;
        var stopped := w.(reg := Remove(w.reg, req.from));
        if !env.diskOk then Recover(stopped, req, slot, env)
        else
          var s := StartAt(stopped.(renames := AddRename(w.renames, req.from, req.to)), req.to, slot, env.startNew);
          RenameResult(s.world, match s.outcome case Ok(inst) => RenamedAs(inst) case Err(e) => NewNotStarted(e))
  }

  /** Every agent but the two named by the request is as it was. */
  ghost predicate OthersKept(before: Reg, after: Reg, req: Request) {
    forall id :: id != req.from && id != req.to ==>
      (id in before.byID <==> id in after.byID) && (id in before.byID ==> before.byID[id] == after.byID[id])
  }

  /** An id started in the slot another was taken out of: the order has it there, or has the slot closed up. */
  lemma StartedInSlot(w: Reg, from: Id, id: Id, after: Reg, outcome: Result<Instance, StartError>)
    requires Wf(w) && from in w.byID && (id == from || id !in w.byID)
    requires AllOrNothing(Remove(w, from), after, id, IndexOf(w.order, from), outcome)
    ensures after.order ==
            if outcome.Ok? then w.order[IndexOf(w.order, from) := id] else RemoveAt(w.order, IndexOf(w.order, from))
    ensures OthersKept(w, after, Request(from, id))
  {
    RemoveThenInsert(w.order, IndexOf(w.order, from), id);
    OthersKeptInSlot(w, from, id, after, outcome);
  }

  lemma OthersKeptInSlot(w: Reg, from: Id, id: Id, after: Reg, outcome: Result<Instance, StartError>)
    requires Wf(w) && from in w.byID
    requires AllOrNothing(Remove(w, from), after, id, IndexOf(w.order, from), outcome)
    ensures OthersKept(w, after, Request(from, id))
  {
    assert Remove(w, from).byID == w.byID - {from};
    assert after.byID == if outcome.Ok? then (w.byID - {from})[id := outcome.value] else w.byID - {from};
  }

  /** What the registry may look like after the rename of a running agent: the order is the old one, or the old one
      with the new id in the old slot - exactly when the rename succeeds - or the old one without the slot. */
  ghost predicate RunningOutcome(before: Reg, after: Reg, req: Request, o: RenameOutcome)
    requires Wf(before) && req.from in before.byID
  {
    var order, slot := before.order, IndexOf(before.order, req.from);
    && Wf(after) && after.reserved == before.reserved && OthersKept(before, after, req)
    && (Untouched(o) ==> after == before)
    && (o.RenamedAs? ==>
          && req.to !in before.byID && after.order == order[slot := req.to]
          && req.to in after.byID && after.byID[req.to] == o.inst)
    && (o.OldRestarted? ==> after.order == order && req.from in after.byID && after.byID[req.from] == o.inst)
    && (Untouched(o) || o.RenamedAs? || o.OldRestarted? || after.order == RemoveAt(order, slot))
  }

  lemma ClosedUp(r: Reg, req: Request, o: RenameOutcome)
    requires Wf(r) && req.from in r.byID && !Untouched(o) && !o.RenamedAs? && !o.OldRestarted?
    ensures RunningOutcome(r, Remove(r, req.from), req, o)
  {
    RemoveKeepsWf(r, req.from);
  }

  lemma DiskRenamed(w: World, req: Request, env: RenameEnv)
    requires Wf(w.reg) && req.from in w.reg.byID && req.to !in w.reg.byID && env.planOk && env.diskOk
    ensures RunningOutcome(w.reg, Rename(w, req, env).world.reg, req, Rename(w, req, env).outcome)
  {
    var slot := IndexOf(w.reg.order, req.from);
    var stopped := World(Remove(w.reg, req.from), AddRename(w.renames, req.from, req.to));
    RemoveKeepsWf(w.reg, req.from);
    var s := StartAt(stopped, req.to, slot, env.startNew);
    HotAddIsAtomic(stopped, req.to, slot, env.startNew);
    StartedNew(w.reg, req, s.world.reg, s.outcome, Rename(w, req, env).outcome);
  }

  /** The new id started in the old one's slot, or not. */
  lemma StartedNew(r: Reg, req: Request, after: Reg, outcome: Result<Instance, StartError>, o: RenameOutcome)
    requires Wf(r) && req.from in r.byID && req.to !in r.byID
    requires AllOrNothing(Remove(r, req.from), after, req.to, IndexOf(r.order, req.from), outcome)
    requires o == match outcome case Ok(inst) => RenamedAs(inst) case Err(e) => NewNotStarted(e)
    ensures RunningOutcome(r, after, req, o)
  {
    StartedInSlot(r, req.from, req.to, after, outcome);
  }

  /** The old id started again in its own slot leaves the order as it was. */
  lemma PutBack(r: Reg, req: Request, after: Reg, outcome: Result<Instance, StartError>)
    requires Wf(r) && req.from in r.byID
    requires AllOrNothing(Remove(r, req.from), after, req.from, IndexOf(r.order, req.from), outcome) && outcome.Ok?
    ensures RunningOutcome(r, after, req, OldRestarted(outcome.value))
  {
    StartedInSlot(r, req.from, req.from, after, outcome);
    assert r.order[IndexOf(r.order, req.from) := req.from] == r.order;
  }

  lemma RecoveredInSlot(w: World, req: Request, env: RenameEnv)
    requires Wf(w.reg) && req.from in w.reg.byID && req.to !in w.reg.byID && env.planOk && !env.diskOk
    ensures RunningOutcome(w.reg, Rename(w, req, env).world.reg, req, Rename(w, req, env).outcome)
  {
    var stopped := w.(reg := Remove(w.reg, req.from));
    RemoveKeepsWf(w.reg, req.from);
    RecoveryIsAtomic(stopped, req, IndexOf(w.reg.order, req.from), env);
    RecoveredOutcome(w.reg, Rename(w, req, env).world.reg, req, Rename(w, req, env).outcome);
  }

  /** The recovery has started the old id in its slot, or nothing. */
  ghost predicate Recovers(stopped: Reg, after: Reg, req: Request, slot: int, o: RenameOutcome) {
    if o.OldRestarted? then AllOrNothing(stopped, after, req.from, slot, Ok(o.inst))
    else after == stopped && !Untouched(o) && !o.RenamedAs?
  }

  lemma RecoveryIsAtomic(stopped: World, req: Request, slot: int, env: RenameEnv)
    requires Wf(stopped.reg)
    ensures
      var r := Recover(stopped, req, slot, env);
      Recovers(stopped.reg, r.world.reg, req, slot, r.outcome)
  {
    HotAddIsAtomic(stopped, req.from, slot, env.startOld);
  }

  lemma RecoveredOutcome(r: Reg, after: Reg, req: Request, o: RenameOutcome)
    requires Wf(r) && req.from in r.byID && Recovers(Remove(r, req.from), after, req, IndexOf(r.order, req.from), o)
    ensures RunningOutcome(r, after, req, o)
  {
    if o.OldRestarted? {
      PutBack(r, req, after, Ok(o.inst));
    } else {
      ClosedUp(r, req, o);
    }
  }

  lemma RenameOfRunningAgent(w: World, req: Request, env: RenameEnv)
    requires Wf(w.reg) && req.from in w.reg.byID
    ensures RunningOutcome(w.reg, Rename(w, req, env).world.reg, req, Rename(w, req, env).outcome)
  {
    if req.to !in w.reg.byID && env.planOk {
      if env.diskOk {
        DiskRenamed(w, req, env);
      } else {
        RecoveredInSlot(w, req, env);
      }
    }
  }

  /** Renaming the first agent makes the new id the default one. */
  lemma RenameKeepsDefault(w: World, req: Request, env: RenameEnv)
    requires Wf(w.reg) && req.from in w.reg.byID && w.reg.order[0] == req.from
    ensures
      Rename(w, req, env).outcome.RenamedAs? ==>
      Rename(w, req, env).world.reg.order == [req.to] + w.reg.order[1..]
  {
    RenameOfRunningAgent(w, req, env);
    if Rename(w, req, env).outcome.RenamedAs? {
      FirstReplaced(w.reg, Rename(w, req, env).world.reg, req, Rename(w, req, env).outcome);
    }
  }

  lemma FirstReplaced(before: Reg, after: Reg, req: Request, o: RenameOutcome)
    requires Wf(before) && req.from in before.byID && before.order[0] == req.from
    requires RunningOutcome(before, after, req, o) && o.RenamedAs?
    ensures after.order == [req.to] + before.order[1..]
  {
    assert IndexOf(before.order, req.from) == 0;
    assert before.order[0 := req.to] == [req.to] + before.order[1..];
  }

  /** A rename resumed while the old agent does not run can only append: the new id when it succeeds, the old one
      when the recovery restarts it, else nothing. */
  lemma RenameResumed(w: World, req: Request, env: RenameEnv)
    requires Wf(w.reg) && req.from !in w.reg.byID
    ensures
      var o, after := Rename(w, req, env).outcome, Rename(w, req, env).world.reg;
      && Wf(after) && after.reserved == w.reg.reserved
      && (o.RenamedAs? ==> after.order == w.reg.order + [req.to] && after.byID == w.reg.byID[req.to := o.inst])
      && (o.OldRestarted? ==> after.order == w.reg.order + [req.from] && after.byID == w.reg.byID[req.from := o.inst])
      && (o.RenamedAs? || o.OldRestarted? || after == w.reg)
  {
    if req.to !in w.reg.byID {
      assert Remove(w.reg, req.from) == w.reg;
      if env.diskOk {
        HotAddIsAtomic(w.(renames := AddRename(w.renames, req.from, req.to)), req.to, -1, env.startNew);
        assert InsertAt(w.reg.order, |w.reg.order|, req.to) == w.reg.order + [req.to];
      } else {
        HotAddIsAtomic(w, req.from, -1, env.startOld);
        assert InsertAt(w.reg.order, |w.reg.order|, req.from) == w.reg.order + [req.from];
      }
    }
  }

  /** What a rename's answer means. Its plan, when the agent runs, and the new id's being free are checked before
      anything stops; after that only the disk, the starts and the config decide. */
  lemma RenameAnswersExactly(w: World, req: Request, env: RenameEnv)
    requires Wf(w.reg)
    ensures
      var o := Rename(w, req, env).outcome;
      var stops := req.to !in w.reg.byID && (req.from in w.reg.byID ==> env.planOk);
      && o != RenameShuttingDown
      && (o.NewIdRunning? <==> req.to in w.reg.byID)
      && (o.PlanRefused? <==> req.to !in w.reg.byID && req.from in w.reg.byID && !env.planOk)
      && (o.RenamedAs? || o.NewNotStarted? <==> stops && env.diskOk)
      && (o.ConfigUnreadable? <==> stops && !env.diskOk && env.recovered.None?)
      && (o.NeitherRuns? <==> stops && !env.diskOk && env.recovered.Some? && req.from !in env.recovered.value)
      && (o.OldRestarted? || o.OldNotRestarted? <==>
          stops && !env.diskOk && env.recovered.Some? && req.from in env.recovered.value)
  {
    RemoveKeepsWf(w.reg, req.from);
  }

  /** The instance that a rename publishes is the one just built: for the new id, or for the old one restarted. */
  lemma RenamePublishesBuilt(w: World, req: Request, env: RenameEnv)
    requires Wf(w.reg)
    ensures
      match Rename(w, req, env).outcome
      case RenamedAs(inst) => env.startNew.built == Some(inst.build) && inst.id == req.to
      case OldRestarted(inst) => env.startOld.built == Some(inst.build) && inst.id == req.from
      case _ => true
  {
    RemoveKeepsWf(w.reg, req.from);
    var slot := if req.from in w.reg.byID then IndexOf(w.reg.order, req.from) else -1;
    var stopped := w.(reg := Remove(w.reg, req.from));
    HotAddIsAtomic(stopped.(renames := AddRename(w.renames, req.from, req.to)), req.to, slot, env.startNew);
    HotAddIsAtomic(stopped, req.from, slot, env.startOld);
  }

  /** The recovery's "nothing was stopped" answer is never given: with the id running, the rename stopped it. */
  lemma OldNeverRunsOn(w: World, req: Request, env: RenameEnv)
    requires Wf(w.reg)
    ensures !Rename(w, req, env).outcome.OldRunsOn?
  {
    RemoveKeepsWf(w.reg, req.from);
  }

  /** What a rename does to the record of renames once its disk part is done: the new pair, less anything recorded
      under the new id, which is started again. */
  lemma RenameRecords(w: World, req: Request, env: RenameEnv)
    requires Wf(w.reg) && req.to !in w.reg.reserved
    requires Rename(w, req, env).outcome.RenamedAs? || Rename(w, req, env).outcome.NewNotStarted?
    ensures Rename(w, req, env).world.renames == Forget(AddRename(w.renames, req.from, req.to), req.to)
  {
    var running := req.from in w.reg.byID;
    var slot := if running then IndexOf(w.reg.order, req.from) else -1;
    var stopped := World(Remove(w.reg, req.from), AddRename(w.renames, req.from, req.to));
    assert Rename(w, req, env).world == StartAt(stopped, req.to, slot, env.startNew).world;
    assert CanReserve(stopped.reg, req.to);
  }

  /** Until then it records nothing; a recovery drops what was recorded under the old id. */
  lemma FailedRenameRecords(w: World, req: Request, env: RenameEnv)
    requires Wf(w.reg) && req.to !in w.reg.byID && !env.diskOk
    ensures Rename(w, req, env).world.renames in {w.renames, Forget(w.renames, req.from)}
    ensures
      Rename(w, req, env).outcome.OldRestarted? ==>
      Rename(w, req, env).world.renames == Forget(w.renames, req.from)
  {
    if req.from in w.reg.byID && !env.planOk {
      assert Rename(w, req, env).world == w;
    } else {
      var slot := if req.from in w.reg.byID then IndexOf(w.reg.order, req.from) else -1;
      var stopped := w.(reg := Remove(w.reg, req.from));
      assert Rename(w, req, env) == Recover(stopped, req, slot, env);
      RecoverRecords(stopped, req, slot, env);
    }
  }

  lemma RecoverRecords(w: World, req: Request, slot: int, env: RenameEnv)
    ensures Recover(w, req, slot, env).world.renames in {w.renames, Forget(w.renames, req.from)}
    ensures Recover(w, req, slot, env).outcome.OldRestarted? ==>
              Recover(w, req, slot, env).world.renames == Forget(w.renames, req.from)
  {
  }

  /** Whether the rename of a running agent stops it and starts nothing in its slot. */
  predicate SlotLost(w: World, req: Request, env: RenameEnv)
    requires Wf(w.reg)
  {
    var stopped := Remove(w.reg, req.from);
    && req.to !in w.reg.byID && env.planOk
    && (if env.diskOk then !StartSucceeds(w.(reg := stopped), req.to, env.startNew)
        else
          || env.recovered.None? || req.from !in env.recovered.value
          || !StartSucceeds(w.(reg := stopped), req.from, env.startOld))
  }

  /** The rename of the first agent, with others running, hands the default place to another agent exactly when it has
      stopped the agent and can start neither id. */
  lemma DefaultLostExactly(w: World, req: Request, env: RenameEnv)
    requires Wf(w.reg) && req.from in w.reg.byID && |w.reg.order| > 1 && w.reg.order[0] == req.from
    ensures
      var after := Rename(w, req, env).world.reg.order;
      && after != []
      && (after[0] !in {req.from, req.to} <==> SlotLost(w, req, env))
      && (SlotLost(w, req, env) ==> after == w.reg.order[1..])
  {
    RenameOfRunningAgent(w, req, env);
    var slot := IndexOf(w.reg.order, req.from);
    assert slot == 0;
    assert RemoveAt(w.reg.order, 0) == w.reg.order[1..];
    OutcomeOfRunning(w, req, env);
    assert w.reg.order[1] in w.reg.order;
    assert w.reg.order[1] in w.reg.byID;
  }

  lemma OutcomeOfRunning(w: World, req: Request, env: RenameEnv)
    requires Wf(w.reg) && req.from in w.reg.byID
    ensures
      var o := Rename(w, req, env).outcome;
      !(Untouched(o) || o.RenamedAs? || o.OldRestarted?) <==> SlotLost(w, req, env)
  {
    RemoveKeepsWf(w.reg, req.from);
    var slot := IndexOf(w.reg.order, req.from);
    var stopped := w.(reg := Remove(w.reg, req.from));
    if req.to !in w.reg.byID && env.planOk {
      if env.diskOk {
        var recorded := stopped.(renames := AddRename(w.renames, req.from, req.to));
        HotAddIsAtomic(recorded, req.to, slot, env.startNew);
        SameStart(recorded, stopped, req.to, env.startNew);
      } else {
        RecoverOutcome(stopped, req, slot, env);
      }
    }
  }

  lemma SameStart(v: World, w: World, id: Id, env: StartEnv)
    requires v.reg == w.reg
    ensures StartSucceeds(v, id, env) == StartSucceeds(w, id, env)
  {
  }

  lemma RecoverOutcome(w: World, req: Request, slot: int, env: RenameEnv)
    requires Wf(w.reg) && req.from !in w.reg.byID
    ensures
      Recover(w, req, slot, env).outcome.OldRestarted? <==>
      env.recovered.Some? && req.from in env.recovered.value && StartSucceeds(w, req.from, env.startOld)
    ensures !Untouched(Recover(w, req, slot, env).outcome) && !Recover(w, req, slot, env).outcome.RenamedAs?
  {
    HotAddIsAtomic(w, req.from, slot, env.startOld);
  }

  /** A rename of the first agent whose new id does not start loses the first place for good: resumed, it comes
      back at the end. */
  lemma FailedRenameLosesDefault(w: World, req: Request, env: RenameEnv, again: RenameEnv)
    requires Wf(w.reg) && req.from in w.reg.byID && |w.reg.order| > 1 && w.reg.order[0] == req.from
    requires Rename(w, req, env).outcome.NewNotStarted?
    requires Wf(Rename(w, req, env).world.reg) && Rename(Rename(w, req, env).world, req, again).outcome.RenamedAs?
    ensures Rename(Rename(w, req, env).world, req, again).world.reg.order == w.reg.order[1..] + [req.to]
  {
    RenameOfRunningAgent(w, req, env);
    var slot := IndexOf(w.reg.order, req.from);
    assert slot == 0;
    var v := Rename(w, req, env).world;
    assert v.reg.order == w.reg.order[1..];
    assert req.from !in v.reg.byID by {
      RemoveAtMembers(w.reg.order, 0, req.from);
    }
    RenameResumed(v, req, again);
  }

  // ---- Runs ----

  /** Boot registers the configured agents; after it every change goes through a start or a rename. */
  datatype Command = Boot(inst: Instance) | Start(id: Id, env: StartEnv) | DoRename(req: Request, renv: RenameEnv)

  function Perform(w: World, c: Command): World
    requires Wf(w.reg)
  {
    match c
    case Boot(inst) => w.(reg := CommitAt(w.reg, inst, -1))
    case Start(id, env) => StartAt(w, id, -1, env).world
    case DoRename(req, renv) => Rename(w, req, renv).world
  }

  lemma PerformKeepsWf(w: World, c: Command)
    requires Wf(w.reg) && w.reg.reserved == {}
    ensures Wf(Perform(w, c).reg) && Perform(w, c).reg.reserved == {}
  {
    match c
    case Boot(inst) => CommitAtKeepsWf(w.reg, inst, -1);
    case Start(id, env) => HotAddIsAtomic(w, id, -1, env);
    case DoRename(req, renv) =>
      if req.from in w.reg.byID { RenameOfRunningAgent(w, req, renv); } else { RenameResumed(w, req, renv); }
  }

  /** The state after a run of commands from an empty process. In every such state the registry is consistent
      and no id is left reserved. */
  function After(commands: seq<Command>): (w: World)
    ensures Wf(w.reg) && w.reg.reserved == {}
    decreases |commands|
  {
    if commands == [] then World(EMPTY, map[])
    else
      var before := After(commands[..|commands| - 1]);
      var last := commands[|commands| - 1];
      PerformKeepsWf(before, last);
      Perform(before, last)
  }

  /** A process whose first agent loses the default place: a is renamed on disk, but b cannot be built. */
  lemma DefaultLostRun() returns (commands: seq<Command>)
    ensures After(commands).reg.order == ["c"] && After(commands[..|commands| - 1]).reg.order == ["a", "c"]
  {
    var env := StartEnv(Some({"b"}), false, None);
    var rename := DoRename(Request("a", "b"), RenameEnv(true, true, env, None, env));
    var boot := [Boot(Instance("a", 0)), Boot(Instance("c", 0))];
    BootTwo(boot);
    commands := boot + [rename];
    assert commands[..|commands| - 1] == boot;
    LosesFirst(After(boot), rename.req, rename.renv);
  }

  lemma LosesFirst(w: World, req: Request, env: RenameEnv)
    requires Wf(w.reg) && w.reg.order == ["a", "c"] && w.reg.byID.Keys == {"a", "c"} && req == Request("a", "b")
    requires env.planOk && env.diskOk && env.startNew.built.None?
    ensures Rename(w, req, env).world.reg.order == ["c"]
  {
    assert SlotLost(w, req, env);
    DefaultLostExactly(w, req, env);
  }

  lemma BootTwo(boot: seq<Command>)
    requires boot == [Boot(Instance("a", 0)), Boot(Instance("c", 0))]
    ensures After(boot).reg.order == ["a", "c"] && After(boot).reg.byID.Keys == {"a", "c"}
  {
    assert boot[..1] == [boot[0]] && boot[..1][..0] == [];
    assert After(boot[..1]).reg == CommitAt(EMPTY, Instance("a", 0), -1);
    assert After(boot[..1]).reg.order == ["a"];
  }

  // ---- The record over those runs ----

  /** Agents are numbered in the order in which they come up. */
  ghost predicate Numbered(events: seq<Event>) {
    AllAllowed(events) && forall a | a in LineageOf(events).current :: a < |events|
  }

  /** Who an id names: the agent that bears it, else one not seen before. */
  ghost function Named(events: seq<Event>, id: Id): Agent {
    var l := LineageOf(events);
    if id in l.bearer && l.bearer[id] in l.current && l.current[l.bearer[id]] == id then l.bearer[id] else |events|
  }

  ghost function WithStart(events: seq<Event>, r: Reg, id: Id): seq<Event> {
    if CanReserve(r, id) then events + [Started(id, Named(events, id))] else events
  }

  /** The rename gets as far as the disk. */
  predicate ReachesDisk(w: World, req: Request, env: RenameEnv) {
    req.to !in w.reg.byID && (req.from in w.reg.byID ==> env.planOk)
  }

  /** The recovery tries to start the old id again. */
  predicate TriesOld(w: World, req: Request, env: RenameEnv) {
    ReachesDisk(w, req, env) && !env.diskOk && env.recovered.Some? && req.from in env.recovered.value
  }

  /** What a command adds to the life of the agents: a start of an id that was free, a rename that the disk took, and
      the starts that follow it. Boot's agents come up under ids with no past. */
  ghost function WithCommand(events: seq<Event>, w: World, c: Command): seq<Event>
    requires Wf(w.reg)
  {
    match c
    case Boot(_) => events
    case Start(id, _) => WithStart(events, w.reg, id)
    case DoRename(req, env) =>
      if ReachesDisk(w, req, env) && env.diskOk then
        var renamed := events + [Renamed(req.from, req.to, Named(events, req.from))];
        WithStart(renamed, Remove(w.reg, req.from), req.to)
      else if TriesOld(w, req, env) then WithStart(events, Remove(w.reg, req.from), req.from)
      else events
  }

  ghost function EventsOf(commands: seq<Command>): seq<Event>
    decreases |commands|
  {
    if commands == [] then []
    else
      var before := commands[..|commands| - 1];
      WithCommand(EventsOf(before), After(before), commands[|commands| - 1])
  }

  /** The event is numbered as the next one after `events`. */
  ghost predicate Follows(events: seq<Event>, e: Event) {
    && Numbered(events)
    && e.agent == Named(events, if e.Started? then e.id else e.from) && (e.Renamed? ==> e.from != e.to)
  }

  lemma OneMoreEvent(events: seq<Event>, e: Event)
    requires Follows(events, e)
    ensures Numbered(events + [e]) && RecordOf(events + [e]) == Recorded(RecordOf(events), e)
    ensures
      NoStray(events + [e]) <==>
      NoStray(events) && (e.Renamed? ==> !StrayBearer(LineageOf(events), e.from, e.to, e.agent))
  {
    Append(events, e);
    assert (events + [e])[..|events + [e]| - 1] == events;
  }

  lemma StartRecorded(events: seq<Event>, r: Reg, id: Id)
    requires Numbered(events)
    ensures
      var longer := WithStart(events, r, id);
      && Numbered(longer)
      && RecordOf(longer) == (if CanReserve(r, id) then Forget(RecordOf(events), id) else RecordOf(events))
      && (NoStray(longer) <==> NoStray(events))
  {
    if CanReserve(r, id) {
      OneMoreEvent(events, Started(id, Named(events, id)));
    }
  }

  /** A disk rename to the same id is refused (internal/agentrename/rename.go). */
  predicate DiskRefusesSameId(c: Command) {
    c.DoRename? && c.renv.diskOk ==> c.req.from != c.req.to
  }

  /** The command is a rename that the disk takes, of an id that another agent still counts as having. */
  ghost predicate MeetsStray(events: seq<Event>, w: World, c: Command) {
    && c.DoRename? && ReachesDisk(w, c.req, c.renv) && c.renv.diskOk
    && StrayBearer(LineageOf(events), c.req.from, c.req.to, Named(events, c.req.from))
  }

  lemma DiskRenameMoves(w: World, req: Request, env: RenameEnv)
    requires Wf(w.reg) && ReachesDisk(w, req, env) && env.diskOk
    ensures
      Rename(w, req, env).world.renames ==
      var m := AddRename(w.renames, req.from, req.to);
      if CanReserve(Remove(w.reg, req.from), req.to) then Forget(m, req.to) else m
  {
  }

  lemma OtherRenameMoves(w: World, req: Request, env: RenameEnv)
    requires Wf(w.reg) && !(ReachesDisk(w, req, env) && env.diskOk)
    ensures
      Rename(w, req, env).world.renames ==
      if TriesOld(w, req, env) && CanReserve(Remove(w.reg, req.from), req.from) then Forget(w.renames, req.from)
      else w.renames
  {
    RemoveKeepsWf(w.reg, req.from);
  }

  lemma CommandRecorded(events: seq<Event>, w: World, c: Command)
    requires Numbered(events) && RecordOf(events) == w.renames && Wf(w.reg) && DiskRefusesSameId(c)
    ensures
      var longer := WithCommand(events, w, c);
      && Numbered(longer) && RecordOf(longer) == Perform(w, c).renames
      && (NoStray(longer) <==> NoStray(events) && !MeetsStray(events, w, c))
  {
    match c
    case Boot(_) =>
    case Start(id, _) => StartRecorded(events, w.reg, id);
    case DoRename(req, env) => RenameRecorded(events, w, req, env);
  }

  lemma RenameRecorded(events: seq<Event>, w: World, req: Request, env: RenameEnv)
    requires Numbered(events) && RecordOf(events) == w.renames && Wf(w.reg) && (env.diskOk ==> req.from != req.to)
    ensures
      var c := DoRename(req, env);
      var longer := WithCommand(events, w, c);
      && Numbered(longer) && RecordOf(longer) == Rename(w, req, env).world.renames
      && (NoStray(longer) <==> NoStray(events) && !MeetsStray(events, w, c))
  {
    if ReachesDisk(w, req, env) && env.diskOk {
      var e := Renamed(req.from, req.to, Named(events, req.from));
      OneMoreEvent(events, e);
      StartRecorded(events + [e], Remove(w.reg, req.from), req.to);
      DiskRenameMoves(w, req, env);
    } else {
      StartRecorded(events, Remove(w.reg, req.from), req.from);
      OtherRenameMoves(w, req, env);
    }
  }

  /** Some command of the list meets a stray bearer. */
  ghost predicate SomeMeetsStray(commands: seq<Command>)
    decreases |commands|
  {
    commands != [] &&
    var before := commands[..|commands| - 1];
    || SomeMeetsStray(before)
    || MeetsStray(EventsOf(before), After(before), commands[|commands| - 1])
  }

  lemma {:induction false} CommandsRecorded(commands: seq<Command>)
    requires forall c | c in commands :: DiskRefusesSameId(c)
    ensures Numbered(EventsOf(commands)) && RecordOf(EventsOf(commands)) == After(commands).renames
    ensures NoStray(EventsOf(commands)) <==> !SomeMeetsStray(commands)
    decreases |commands|
  {
    if commands != [] {
      var n := |commands| - 1;
      CommandsRecorded(commands[..n]);
      CommandRecorded(EventsOf(commands[..n]), After(commands[..n]), commands[n]);
    }
  }

  /** Over every list of commands, the gateway's record of renames is that of the starts and disk renames it performed,
      and it resolves each id to the present id of the agent that last bore it, all along, exactly when no rename that
      the disk takes is of an id that another agent still counts as having. */
  lemma RecordOfCommands(commands: seq<Command>)
    requires forall c | c in commands :: DiskRefusesSameId(c)
    ensures RecordOf(EventsOf(commands)) == After(commands).renames
    ensures AlwaysRefines(EventsOf(commands)) <==> !SomeMeetsStray(commands)
  {
    CommandsRecorded(commands);
    RecordFollowsLineage(EventsOf(commands));
  }

  // ---- The starter as the gateway holds it ----

  class LiveAgentStarter {
    const agents: Registry
    const renames: RenameRecord
    var closed: bool

    constructor (agents: Registry, renames: RenameRecord)
      ensures this.agents == agents && this.renames == renames && !closed
    {
      this.agents, this.renames, closed := agents, renames, false;
    }

    ghost function TheWorld(): World
      reads this, agents, renames
    {
      World(agents.Value(), renames.m)
    }

    method Close()
      modifies this
      ensures closed
    {
      closed := true;
    }

    method StartAgent(id: Id, env: StartEnv) returns (r: Result<Instance, StartError>)
      requires agents.Valid()
      modifies agents, renames
      ensures agents.Valid()
      ensures closed ==> r == Err(ShuttingDown) && TheWorld() == old(TheWorld())
      ensures !closed ==> StartResult(TheWorld(), r) == StartAt(old(TheWorld()), id, -1, env)
    {
      if closed {
        return Err(ShuttingDown);
      }
      r := StartInSlot(id, -1, env);
    }

    /** The reservation is released on every way out but the one that publishes. */
    method StartInSlot(id: Id, slot: int, env: StartEnv) returns (r: Result<Instance, StartError>)
      requires agents.Valid()
      modifies agents, renames
      ensures agents.Valid()
      ensures StartResult(TheWorld(), r) == StartAt(old(TheWorld()), id, slot, env)
    {
      var free := agents.ReserveId(id);
      if !free {
        return Err(AlreadyRunning);
      }
      renames.Drop(id);
      var published := false;
      if env.config.None? {
        r := Err(Unreadable);
      } else if id !in env.config.value {
        r := Err(NoBlock);
      } else if env.conflict {
        r := Err(BotConflict);
      } else if env.built.None? {
        r := Err(BuildFailed);
      } else {
        var inst := Instance(id, env.built.value);
        published := agents.CommitInSlot(inst, slot);
        r := if published then Ok(inst) else Err(AlreadyRunning);
      }
      if !published {
        agents.ReleaseId(id);
      }
    }

    method RenameAgent(req: Request, env: RenameEnv) returns (o: RenameOutcome)
      requires agents.Valid()
      modifies agents, renames
      ensures agents.Valid()
      ensures closed ==> o == RenameShuttingDown && TheWorld() == old(TheWorld())
      ensures !closed ==> RenameResult(TheWorld(), o) == Rename(old(TheWorld()), req, env)
    {
      if closed {
        return RenameShuttingDown;
      }
      var taken := agents.Get(req.to);
      if taken.Some? {
        return NewIdRunning;
      }
      var running := agents.Get(req.from);
      if running.Some? && !env.planOk {
        return PlanRefused;
      }
      var slot := -1;
      if running.Some? {
        var inst;
        inst, slot := agents.RemoveId(req.from);
      }
      if !env.diskOk {
        o := RecoverFailedRename(req, slot, env);
        return;
      }
      renames.Add(req.from, req.to);
      var s := StartInSlot(req.to, slot, env.startNew);
      o := match s case Ok(inst) => RenamedAs(inst) case Err(e) => NewNotStarted(e);
    }

    method RecoverFailedRename(req: Request, slot: int, env: RenameEnv) returns (o: RenameOutcome)
      requires agents.Valid()
      modifies agents, renames
      ensures agents.Valid()
      ensures RenameResult(TheWorld(), o) == Recover(old(TheWorld()), req, slot, env)
    {
      if env.recovered.None? {
        return ConfigUnreadable;
      }
      if req.from !in env.recovered.value {
        return NeitherRuns;
      }
      var running := agents.Get(req.from);
      if running.Some? {
        return OldRunsOn;
      }
      var s := StartInSlot(req.from, slot, env.startOld);
      o := match s case Ok(inst) => OldRestarted(inst) case Err(e) => OldNotRestarted(e);
    }
  }
}
