/**
 How a wake ended, and where it fired, told from the actions of its run (cmd/foci-gw/agents_notify.go,
 buildWakeScheduler, wakeDelivery and wakeTurnDone).
*/
module WakeEnds {
  import opened Wrappers
  import opened WakeProtocol
  import opened WakeGuarantees

  /** The wake has ended in `end`, or is about to. */
  predicate EndsIn(pc: Pc, end: End) {
    || pc == Clearing(end) || pc == Ended(end)
    || (end.Dismissed? && (pc == Dismissing(end.why) || pc == DeletingRow(end.why)))
  }

  /** What a turn that ended in `result` owes: its row goes, unless it was refused for a shutdown. */
  function Owed(result: TurnResult): End {
    match result
    case ShuttingDown => LeftForRestart
    case Completed => Dismissed(TurnRan(Completed))
    case Failed => Dismissed(TurnRan(Failed))
    case Panicked => Dismissed(TurnRan(Panicked))
  }

  ghost predicate EndTells(events: seq<Event>, id: Id, pc: Pc) {
    && (forall r :: Act(id, TurnEnds(r)) in events <==> EndsIn(pc, Owed(r)))
    && (Act(id, Enqueue(false)) in events || Act(id, RefuseLater) in events <==> EndsIn(pc, Refused))
    && (Act(id, SeeCancel) in events <==> EndsIn(pc, Dismissed(CancelSeen)))
    && (Act(id, OwnerWaitCancelled) in events <==> EndsIn(pc, Dismissed(CancelHeld)))
  }

  /** The wake was resolved to a session, and its target is that session's owner, or the session where it has none. */
  ghost predicate FiresFor(events: seq<Event>, id: Id, target: Session) {
    exists sk, owner ::
      && Act(id, ResolveSession(sk)) in events && Act(id, OwnerKnown(owner)) in events
      && sk != "" && target == if owner == "" then sk else owner
  }

  ghost predicate TargetTells(events: seq<Event>, id: Id, pc: Pc) {
    && (pc.Awaiting? ==> pc.sk != "" && Act(id, ResolveSession(pc.sk)) in events)
    && (pc.Resolved? || pc.Firing? || pc.Queued? || pc.Running? ==> FiresFor(events, id, pc.target))
  }

  lemma FiresForGrows(init: seq<Event>, e: Event, id: Id, target: Session)
    requires FiresFor(init, id, target)
    ensures FiresFor(init + [e], id, target)
  {
    var sk, owner :|
      && Act(id, ResolveSession(sk)) in init && Act(id, OwnerKnown(owner)) in init
      && sk != "" && target == if owner == "" then sk else owner;
    assert Act(id, ResolveSession(sk)) in init + [e] && Act(id, OwnerKnown(owner)) in init + [e];
  }

  lemma StepTellsTarget(init: seq<Event>, id: Id, v: Wake, stopped: bool, a: Action)
    requires TargetTells(init, id, v.pc) && Step(v, stopped, a).Some?
    ensures TargetTells(init + [Act(id, a)], id, Step(v, stopped, a).value.pc)
  {
    var events := init + [Act(id, a)];
    if v.pc.Resolved? || v.pc.Firing? || v.pc.Queued? || v.pc.Running? {
      FiresForGrows(init, Act(id, a), id, v.pc.target);
    }
    if v.pc.Awaiting? && a.OwnerKnown? {
      assert Act(id, ResolveSession(v.pc.sk)) in events && Act(id, OwnerKnown(a.owner)) in events;
      assert FiresFor(events, id, Target(v.pc.sk, a.owner));
    }
  }

  /** One more action on the wake is among the events. */
  ghost predicate WithAct(init: seq<Event>, events: seq<Event>, id: Id, a: Action) {
    forall b :: Act(id, b) in events <==> Act(id, b) in init || b == a
  }

  lemma AddsAct(init: seq<Event>, id: Id, a: Action)
    ensures WithAct(init, init + [Act(id, a)], id, a)
  {
  }

  lemma SelectTellsEnd(init: seq<Event>, events: seq<Event>, id: Id, v: Wake, stopped: bool, a: Action)
    requires Inv(v) && EndTells(init, id, v.pc) && SelectStep(v, stopped, a).Some? && WithAct(init, events, id, a)
    ensures EndTells(events, id, SelectStep(v, stopped, a).value.pc)
  {
  }

  lemma TimerTellsEnd(init: seq<Event>, events: seq<Event>, id: Id, v: Wake, a: Action)
    requires Inv(v) && EndTells(init, id, v.pc) && TimerStep(v, a).Some? && WithAct(init, events, id, a)
    ensures EndTells(events, id, TimerStep(v, a).value.pc)
  {
  }

  lemma InboxTellsEnd(init: seq<Event>, events: seq<Event>, id: Id, v: Wake, a: Action)
    requires Inv(v) && EndTells(init, id, v.pc) && InboxStep(v, a).Some? && WithAct(init, events, id, a)
    ensures EndTells(events, id, InboxStep(v, a).value.pc)
  {
  }

  lemma StoreTellsEnd(init: seq<Event>, events: seq<Event>, id: Id, v: Wake, a: Action)
    requires Inv(v) && EndTells(init, id, v.pc) && StoreStep(v, a).Some? && WithAct(init, events, id, a)
    ensures EndTells(events, id, StoreStep(v, a).value.pc)
  {
  }

  lemma CancelTellsEnd(init: seq<Event>, events: seq<Event>, id: Id, v: Wake, a: Action)
    requires Inv(v) && EndTells(init, id, v.pc) && CancelStep(v, a).Some? && WithAct(init, events, id, a)
    ensures EndTells(events, id, CancelStep(v, a).value.pc)
  {
  }

  lemma StepTellsEnd(init: seq<Event>, id: Id, v: Wake, stopped: bool, a: Action)
    requires Inv(v) && EndTells(init, id, v.pc) && Step(v, stopped, a).Some?
    ensures EndTells(init + [Act(id, a)], id, Step(v, stopped, a).value.pc)
  {
    var events := init + [Act(id, a)];
    AddsAct(init, id, a);
    match a
    case TimerFires | SeeCancel | SeeStop | StopTake => SelectTellsEnd(init, events, id, v, stopped, a);
    case ResolveSession(_) | OwnerKnown(_) | OwnerWaitCancelled | Claim => TimerTellsEnd(init, events, id, v, a);
    case Enqueue(_) | RunTurn | RefuseLater | TurnEnds(_) => InboxTellsEnd(init, events, id, v, a);
    case ClearOverlay | DeleteTheRow(_) => StoreTellsEnd(init, events, id, v, a);
    case CancelTake | CancelContext => CancelTellsEnd(init, events, id, v, a);
  }

  lemma OtherTellsBoth(init: seq<Event>, e: Event, id: Id, pc: Pc)
    requires EndTells(init, id, pc) && TargetTells(init, id, pc) && !(e.Act? && e.id == id)
    ensures EndTells(init + [e], id, pc) && TargetTells(init + [e], id, pc)
  {
    assert forall b :: Act(id, b) in init + [e] <==> Act(id, b) in init;
    if pc.Resolved? || pc.Firing? || pc.Queued? || pc.Running? {
      FiresForGrows(init, e, id, pc.target);
    }
  }

  lemma NothingTold(events: seq<Event>, id: Id)
    requires NoActsOn(events, id)
    ensures EndTells(events, id, Waiting) && TargetTells(events, id, Waiting)
  {
  }

  lemma {:induction false} RunTellsBoth(events: seq<Event>, id: Id)
    requires Run(INITIAL, events).Some? && id in Run(INITIAL, events).value.wakes
    ensures
      var pc := Run(INITIAL, events).value.wakes[id].pc;
      EndTells(events, id, pc) && TargetTells(events, id, pc)
    decreases |events|
  {
    var init, e := events[..|events| - 1], events[|events| - 1];
    var before := Run(INITIAL, init).value;
    assert events == init + [e];
    RunKeepsInv(INITIAL, init);
    if id !in before.wakes {
      RunTells(events, id);
      RunTells(init, id);
      NothingTold(events, id);
    } else {
      RunTellsBoth(init, id);
      if e.Act? && e.id == id {
        StepTellsEnd(init, id, before.wakes[id], before.stopped, e.action);
        StepTellsTarget(init, id, before.wakes[id], before.stopped, e.action);
      } else {
        OtherTellsBoth(init, e, id, before.wakes[id].pc);
      }
    }
  }

  /** A settled wake's end is told by what happened to it: the end of its turn, a refusal by the inbox at once or later,
      or the cancel that it saw. */
  lemma EndsAsTold(events: seq<Event>, id: Id, w: Wake)
    requires Reaches(events, id, w) && w.pc.Ended?
    ensures forall r :: Act(id, TurnEnds(r)) in events <==> w.pc.end == Owed(r)
    ensures Act(id, Enqueue(false)) in events || Act(id, RefuseLater) in events <==> w.pc.end == Refused
    ensures Act(id, SeeCancel) in events <==> w.pc.end == Dismissed(CancelSeen)
    ensures Act(id, OwnerWaitCancelled) in events <==> w.pc.end == Dismissed(CancelHeld)
  {
    RunTellsBoth(events, id);
  }

  /** A wake fires in the owner of the session it was resolved to, or in that session where it has no owner; and is
      marked with it. */
  lemma FiresWhereOwned(events: seq<Event>, id: Id, w: Wake)
    requires Reaches(events, id, w) && (w.pc.Firing? || w.pc.Queued? || w.pc.Running?)
    ensures FiresFor(events, id, w.pc.target) && w.sh.fired == Some(w.pc.target)
  {
    RunTellsBoth(events, id);
    ReachedInv(events, id, w);
  }

  // ---- The stop arm ----

  ghost predicate StopTells(events: seq<Event>, id: Id, s: State) {
    && (s.stopped <==> Stop in events)
    && (id in s.wakes && InStopArm(s.wakes[id].pc) ==> s.stopped)
  }

  lemma OneMoreTellsStop(init: seq<Event>, e: Event, id: Id, s: State)
    requires InvAll(s) && StopTells(init, id, s) && Apply(s, e).Some?
    ensures StopTells(init + [e], id, Apply(s, e).value)
  {
    if e.Act? && e.id == id {
      StopArmStays(s.wakes[id], s.stopped, e.action);
    }
  }

  lemma StopArmStays(w: Wake, stopped: bool, a: Action)
    requires Inv(w) && Step(w, stopped, a).Some? && (InStopArm(w.pc) ==> stopped)
    ensures InStopArm(Step(w, stopped, a).value.pc) ==> stopped
  {
  }

  lemma {:induction false} RunTellsStop(events: seq<Event>, id: Id)
    requires Run(INITIAL, events).Some?
    ensures StopTells(events, id, Run(INITIAL, events).value)
    decreases |events|
  {
    if events != [] {
      var init, e := events[..|events| - 1], events[|events| - 1];
      RunTellsStop(init, id);
      RunKeepsInv(INITIAL, init);
      OneMoreTellsStop(init, e, id, Run(INITIAL, init).value);
      assert events == init + [e];
    }
  }

  predicate InStopArm(pc: Pc) {
    pc.StopArm? || (pc.Ended? && pc.end.Stopped?)
  }

  /** A goroutine takes the stop arm only when its agent has stopped. */
  lemma StopsOnlyWhenStopped(events: seq<Event>, id: Id, w: Wake)
    requires Reaches(events, id, w) && InStopArm(w.pc)
    ensures Stop in events
  {
    RunTellsStop(events, id);
  }
}
