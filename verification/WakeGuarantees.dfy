/**
 What the claim protocol guarantees over every run: who may take a wake's entry, what a cancel that
 returned true has really stopped, and what becomes of the wake's row and of its fired mark.
*/
module WakeGuarantees {
  import opened Wrappers
  import opened WakeProtocol

  /** Wake `id` as it stands after the run `events` of a fresh scheduler. */
  ghost predicate Reaches(events: seq<Event>, id: Id, w: Wake) {
    Run(INITIAL, events).Some? && id in Run(INITIAL, events).value.wakes && Run(INITIAL, events).value.wakes[id] == w
  }

  lemma ReachedInv(events: seq<Event>, id: Id, w: Wake)
    requires Reaches(events, id, w)
    ensures Inv(w)
  {
    RunKeepsInv(INITIAL, events);
  }

  /** At most one of a cancel, the firing and a stop ever takes the entry, each at most once, and the entry is
      gone exactly when one of them has; the wake is handed to the inbox, and its turn begun, at most once. */
  lemma ClaimIsExclusive(events: seq<Event>, id: Id, w: Wake)
    requires Reaches(events, id, w)
    ensures !w.takesCancel.More? && !w.takesFire.More? && !w.takesStop.More?
    ensures !(w.takesCancel.Once? && w.takesFire.Once?)
    ensures !(w.takesCancel.Once? && w.takesStop.Once?)
    ensures !(w.takesFire.Once? && w.takesStop.Once?)
    ensures w.sh.entry <==> w.takesCancel.Never? && w.takesFire.Never? && w.takesStop.Never?
    ensures !w.enqueues.More? && !w.turns.More?
    ensures w.enqueues.Once? ==> w.takesFire.Once?
  {
    ReachedInv(events, id, w);
  }

  // ---- What stays true for the rest of a run ----

  /** History is never taken back. */
  ghost predicate Later(v: Wake, w: Wake) {
    && (v.takesCancel.Once? ==> !w.takesCancel.Never?)
    && (v.takesFire.Once? ==> !w.takesFire.Never?)
    && (v.enqueues.Once? ==> !w.enqueues.Never?)
    && (!v.sh.entry ==> !w.sh.entry)
  }

  lemma StepIsLater(v: Wake, stopped: bool, a: Action)
    requires Inv(v) && Step(v, stopped, a).Some?
    ensures Later(v, Step(v, stopped, a).value)
  {
  }

  lemma {:induction false} RunIsLater(s: State, events: seq<Event>, id: Id)
    requires InvAll(s) && Run(s, events).Some? && id in s.wakes
    ensures id in Run(s, events).value.wakes && Later(s.wakes[id], Run(s, events).value.wakes[id])
    decreases |events|
  {
    if events != [] {
      var init := events[..|events| - 1];
      RunIsLater(s, init, id);
      RunKeepsInv(s, init);
      OneMoreIsLater(Run(s, init).value, events[|events| - 1], id, s.wakes[id]);
    }
  }

  lemma OneMoreIsLater(s: State, e: Event, id: Id, v: Wake)
    requires InvAll(s) && Apply(s, e).Some? && id in s.wakes && Later(v, s.wakes[id])
    ensures id in Apply(s, e).value.wakes && Later(v, Apply(s, e).value.wakes[id])
  {
    if e.Act? && e.id == id {
      StepIsLater(s.wakes[id], s.stopped, e.action);
      StepKeepsInv(s.wakes[id], s.stopped, e.action);
    }
  }

  lemma {:induction false} RunConcat(s: State, e1: seq<Event>, e2: seq<Event>)
    requires Run(s, e1).Some?
    ensures Run(s, e1 + e2) == Run(Run(s, e1).value, e2)
    decreases |e2|
  {
    if e2 == [] {
      assert e1 + e2 == e1;
    } else {
      var init := e2[..|e2| - 1];
      RunConcat(s, e1, init);
      assert (e1 + e2)[..|e1 + e2| - 1] == e1 + init;
    }
  }

  /** Whatever happens after `before` to a wake that is then `v`. */
  lemma Continues(before: seq<Event>, after: seq<Event>, id: Id, v: Wake, w: Wake)
    requires Reaches(before, id, v) && Reaches(before + after, id, w)
    ensures Later(v, w) && Inv(v) && Inv(w)
  {
    RunKeepsInv(INITIAL, before);
    RunConcat(INITIAL, before, after);
    RunIsLater(Run(INITIAL, before).value, after, id);
    ReachedInv(before + after, id, w);
  }

  /** A cancel that took the entry (whether or not it has returned yet) has stopped the wake for good: no
      continuation of the run queues it, begins its turn, or lets a second cancel return true. */
  lemma CancelledNeverFires(before: seq<Event>, after: seq<Event>, id: Id, v: Wake, w: Wake)
    requires Reaches(before, id, v) && !v.cancel.NoCancel?
    requires Reaches(before + after, id, w)
    ensures w.enqueues.Never? && w.turns.Never? && w.takesFire.Never?
    ensures Step(w, Run(INITIAL, before + after).value.stopped, CancelTake) == Some(w)
    ensures w.sh.fired.None?
  {
    Continues(before, after, id, v, w);
  }

  /** Once the firing has claimed the entry, every cancel returns false. */
  lemma FiredIsNotCancellable(before: seq<Event>, after: seq<Event>, id: Id, v: Wake, w: Wake)
    requires Reaches(before, id, v) && v.takesFire.Once?
    requires Reaches(before + after, id, w)
    ensures w.cancel.NoCancel?
    ensures Step(w, Run(INITIAL, before + after).value.stopped, CancelTake) == Some(w)
  {
    Continues(before, after, id, v, w);
  }

  /** There is no gap between "no live timer" and "fired": the overlay is marked in exactly the states in
      which the firing has the entry and the wake is not yet settled. */
  lemma OverlayCoversTheGap(events: seq<Event>, id: Id, w: Wake)
    requires Reaches(events, id, w)
    ensures w.sh.fired.Some? <==> w.takesFire.Once? && !w.pc.DeletingRow? && !w.pc.Ended?
    ensures (w.pc.Firing? || w.pc.Queued? || w.pc.Running?) ==> w.sh.fired == Some(w.pc.target)
    ensures !w.sh.entry && w.sh.fired.None? && !w.pc.DeletingRow? && !w.pc.Ended?
            ==> w.takesCancel.Once?
  {
    ReachedInv(events, id, w);
  }

  // ---- What becomes of the row ----

  /** A row is deleted only after the wake's turn ran to an end other than a shutdown refusal, or a cancel
      won, or the wake was claimed with nowhere to fire. */
  lemma RowGoneOnlyWhenDue(events: seq<Event>, id: Id, w: Wake)
    requires Reaches(events, id, w) && !w.sh.row
    ensures w.pc.Ended? && w.pc.end.Dismissed? && w.sh.fired.None?
    ensures
      var why := w.pc.end.why;
      || (why.TurnRan? && !why.result.ShuttingDown? && w.takesFire.Once? && w.enqueues.Once? && w.turns.Once?)
      || (ForCancel(why) && w.takesCancel.Once? && w.enqueues.Never?)
      || (why.NoSession? && w.takesFire.Once? && w.enqueues.Never?)
  {
    ReachedInv(events, id, w);
  }

  /** Every settled wake is accounted for in exactly one way. Refusal by the inbox, a shutdown and a stop leave
      the row pending, and so do two ways to settle a cancelled wake; else it is gone unless the delete failed. */
  lemma SettledIsAccounted(events: seq<Event>, id: Id, w: Wake)
    requires Reaches(events, id, w) && w.pc.Ended?
    ensures w.sh.fired.None? && !w.sh.entry
    ensures w.turns.Once? <==>
            w.pc.end.LeftForRestart? || (w.pc.end.Dismissed? && w.pc.end.why.TurnRan?)
    ensures w.takesStop.Once? <==> w.pc.end == Stopped(true)
    ensures w.takesCancel.Once? <==>
            || (w.pc.end.Dismissed? && ForCancel(w.pc.end.why))
            || w.pc.end.NoSessionClaimLost? || w.pc.end == Stopped(false)
    ensures w.sh.row <==> !w.pc.end.Dismissed? || Act(id, DeleteTheRow(false)) in events
  {
    ReachedInv(events, id, w);
    RunTells(events, id);
  }

  // ---- Exactly when a cancelled wake's row survives ----

  /** What a wake's point says about the actions taken on it so far. */
  ghost predicate PcTells(events: seq<Event>, id: Id, w: Wake) {
    && (Act(id, ResolveSession("")) in events <==> NoSessionSeen(w.pc))
    && (Act(id, SeeStop) in events <==> w.pc.StopArm? || (w.pc.Ended? && w.pc.end.Stopped?))
    && (w.pc.Ended? && w.pc.end.Dismissed? ==> (w.sh.row <==> Act(id, DeleteTheRow(false)) in events))
    && (!(w.pc.Ended? && w.pc.end.Dismissed?) ==> w.sh.row && Act(id, DeleteTheRow(false)) !in events)
  }

  predicate NoSessionSeen(pc: Pc) {
    || (pc.Dismissing? && pc.why.NoSession?) || (pc.DeletingRow? && pc.why.NoSession?)
    || (pc.Ended? && (pc.end.NoSessionClaimLost? || (pc.end.Dismissed? && pc.end.why.NoSession?)))
  }

  ghost predicate NoActsOn(events: seq<Event>, id: Id) {
    forall e | e in events :: !(e.Act? && e.id == id)
  }

  lemma StepTells(init: seq<Event>, id: Id, v: Wake, stopped: bool, a: Action)
    requires Inv(v) && PcTells(init, id, v) && Step(v, stopped, a).Some?
    ensures PcTells(init + [Act(id, a)], id, Step(v, stopped, a).value)
  {
    TailTells(init, id, v, a);
    match a
    case TimerFires | SeeCancel | SeeStop | StopTake => SelectTells(init, id, v, stopped, a);
    case ResolveSession(_) | OwnerKnown(_) | OwnerWaitCancelled | Claim => TimerTells(init, id, v, a);
    case _ =>
  }

  /** One more action on the wake is among the events. */
  ghost predicate OneMore(init: seq<Event>, events: seq<Event>, e: Event) {
    forall x :: x in events <==> x in init || x == e
  }

  lemma TailTells(init: seq<Event>, id: Id, v: Wake, a: Action)
    ensures OneMore(init, init + [Act(id, a)], Act(id, a))
  {
  }

  lemma SelectTells(init: seq<Event>, id: Id, v: Wake, stopped: bool, a: Action)
    requires Inv(v) && PcTells(init, id, v) && SelectStep(v, stopped, a).Some?
    ensures PcTells(init + [Act(id, a)], id, SelectStep(v, stopped, a).value)
  {
    TailTells(init, id, v, a);
  }

  lemma TimerTells(init: seq<Event>, id: Id, v: Wake, a: Action)
    requires Inv(v) && PcTells(init, id, v) && TimerStep(v, a).Some?
    ensures PcTells(init + [Act(id, a)], id, TimerStep(v, a).value)
  {
    TailTells(init, id, v, a);
  }

  lemma OtherTells(init: seq<Event>, e: Event, id: Id, w: Wake)
    requires PcTells(init, id, w) && !(e.Act? && e.id == id)
    ensures PcTells(init + [e], id, w)
  {
  }

  lemma NothingYet(events: seq<Event>, id: Id)
    requires NoActsOn(events, id)
    ensures PcTells(events, id, SCHEDULED)
  {
  }

  lemma {:induction false} RunTells(events: seq<Event>, id: Id)
    requires Run(INITIAL, events).Some?
    ensures
      var wakes := Run(INITIAL, events).value.wakes;
      if id in wakes then PcTells(events, id, wakes[id]) else NoActsOn(events, id)
    decreases |events|
  {
    if events != [] {
      var init, e := events[..|events| - 1], events[|events| - 1];
      RunTells(init, id);
      RunKeepsInv(INITIAL, init);
      var before := Run(INITIAL, init).value;
      assert events == init + [e];
      if e.Act? && e.id == id {
        StepTells(init, id, before.wakes[id], before.stopped, e.action);
      } else if id in before.wakes {
        OtherTells(init, e, id, before.wakes[id]);
      } else {
        NothingYet(events, id);
      }
    }
  }

  /** Once a cancelled wake is settled its row is gone, except exactly when its timer found no session, or its goroutine
      took the stop arm, or the database refused the delete. */
  lemma CancelledRowSurvivesExactly(events: seq<Event>, id: Id, w: Wake)
    requires Reaches(events, id, w) && w.pc.Ended? && w.takesCancel.Once?
    ensures
      w.sh.row <==>
      || Act(id, ResolveSession("")) in events
      || Act(id, SeeStop) in events
      || Act(id, DeleteTheRow(false)) in events
  {
    ReachedInv(events, id, w);
    RunTells(events, id);
  }

  // ---- Exactly when a wake can still be queued ----

  /** `id` is queued in some continuation of `s`. */
  ghost predicate CanBeQueued(s: State, id: Id) {
    exists more :: QueuedAfter(Run(s, more), id)
  }

  ghost predicate QueuedAfter(s: Option<State>, id: Id) {
    s.Some? && id in s.value.wakes && !s.value.wakes[id].enqueues.Never?
  }

  /** Claimed and about to be queued, or with its entry still there and its goroutine not in the stop arm. */
  predicate StillOn(w: Wake) {
    w.pc.Firing? || (w.sh.entry && Unclaimed(w.pc) && !w.pc.StopArm?)
  }

  lemma StepStaysOff(w: Wake, stopped: bool, a: Action)
    requires w.enqueues.Never? && !StillOn(w) && Step(w, stopped, a).Some?
    ensures Step(w, stopped, a).value.enqueues.Never? && !StillOn(Step(w, stopped, a).value)
  {
  }

  lemma {:induction false} RunStaysOff(s: State, events: seq<Event>, id: Id)
    requires id in s.wakes && s.wakes[id].enqueues.Never? && !StillOn(s.wakes[id]) && Run(s, events).Some?
    ensures
      var z := Run(s, events).value;
      id in z.wakes && z.wakes[id].enqueues.Never? && !StillOn(z.wakes[id])
    decreases |events|
  {
    if events != [] {
      RunStaysOff(s, events[..|events| - 1], id);
      var before := Run(s, events[..|events| - 1]).value;
      match events[|events| - 1]
      case Act(i, a) => if i == id { StepStaysOff(before.wakes[id], before.stopped, a); }
      case _ =>
    }
  }

  /** One more action on wake `id`, whose state it turns into `w'`. */
  lemma ActOn(s0: State, events: seq<Event>, s: State, id: Id, a: Action, w': Wake)
    returns (events': seq<Event>, s': State)
    requires Run(s0, events) == Some(s) && id in s.wakes && Step(s.wakes[id], s.stopped, a) == Some(w')
    ensures Run(s0, events') == Some(s') && id in s'.wakes && s'.wakes[id] == w' && s'.stopped == s.stopped
  {
    events' := events + [Act(id, a)];
    s' := s.(wakes := s.wakes[id := w']);
    assert events'[..|events'| - 1] == events;
  }

  /** From anywhere it is still on, the timer fires, the owner is known, the claim is taken, the inbox accepts. */
  lemma StillOnIsQueued(s: State, id: Id)
    requires id in s.wakes && StillOn(s.wakes[id]) && s.wakes[id].enqueues.Never?
    ensures CanBeQueued(s, id)
  {
    var events, z, w := [], s, s.wakes[id];
    if w.pc.Waiting? {
      w := w.(pc := TimerArm);
      events, z := ActOn(s, events, z, id, TimerFires, w);
    }
    if w.pc.TimerArm? {
      w := w.(pc := Awaiting("a/c1"));
      events, z := ActOn(s, events, z, id, ResolveSession("a/c1"), w);
    }
    if w.pc.Awaiting? {
      w := w.(pc := Resolved(w.pc.sk));
      events, z := ActOn(s, events, z, id, OwnerKnown(""), w);
    }
    if w.pc.Resolved? {
      w := Step(w, z.stopped, Claim).value;
      events, z := ActOn(s, events, z, id, Claim, w);
    }
    w := w.(enqueues := w.enqueues.Inc(), pc := Queued(w.pc.target));
    events, z := ActOn(s, events, z, id, Enqueue(true), w);
    assert QueuedAfter(Run(s, events), id);
  }

  /** A wake not yet queued can still be, the agent stopped or not, exactly as long as it is claimed for firing, or has
      its entry and its goroutine has not taken the stop arm. So a stop alone keeps no wake from being queued: one in
      its select may take the timer arm, and past the select the stop is not watched. */
  lemma QueuedAfterStopExactly(events: seq<Event>, s: State, id: Id)
    requires Run(INITIAL, events) == Some(s) && id in s.wakes && s.wakes[id].enqueues.Never?
    ensures CanBeQueued(s, id) <==> StillOn(s.wakes[id])
  {
    if StillOn(s.wakes[id]) {
      StillOnIsQueued(s, id);
    } else if CanBeQueued(s, id) {
      var more :| QueuedAfter(Run(s, more), id);
      RunStaysOff(s, more, id);
    }
  }

  // ---- Runs that show what the code does not do ----

  /** One more event of a run that has reached `s`. */
  lemma Extend(events: seq<Event>, s: State, e: Event) returns (events': seq<Event>, s': State)
    requires Run(INITIAL, events) == Some(s) && Apply(s, e).Some?
    ensures events' == events + [e] && Run(INITIAL, events') == Some(s') && Apply(s, e) == Some(s')
  {
    events' := events + [e];
    s' := Apply(s, e).value;
    assert events'[..|events'| - 1] == events;
  }

  /** A run in which wake 1 has been scheduled. */
  lemma Scheduled() returns (events: seq<Event>, s: State)
    ensures Run(INITIAL, events) == Some(s) && events == [Schedule(1)]
    ensures s == State(map[1 := SCHEDULED], false)
  {
    events, s := Extend([], INITIAL, Schedule(1));
  }

  const CANCELLED := SCHEDULED.(sh := CancelCtx(Take(FRESH)), takesCancel := Once, cancel := CancelReturned)

  /** A cancel call on wake 1, whose goroutine is at `pc`. */
  lemma Cancelled(events: seq<Event>, s: State, pc: Pc) returns (events': seq<Event>, s': State)
    requires Run(INITIAL, events) == Some(s) && 1 in s.wakes && s.wakes[1] == SCHEDULED.(pc := pc)
    ensures Run(INITIAL, events') == Some(s') && s'.stopped == s.stopped
    ensures 1 in s'.wakes && s'.wakes[1] == CANCELLED.(pc := pc)
  {
    var took := CANCELLED.(sh := Take(FRESH), cancel := CancelTook, pc := pc);
    events', s' := ActOn(INITIAL, events, s, 1, CancelTake, took);
    events', s' := ActOn(INITIAL, events', s', 1, CancelContext, CANCELLED.(pc := pc));
  }

  /** The row of a cancelled wake can stay pending: with nowhere to fire, the goroutine that loses the claim
      returns without dismissing. A restart would arm the cancelled wake again. */
  lemma CancelledRowSurvivesNoSession() returns (events: seq<Event>, w: Wake)
    ensures Reaches(events, 1, w) && w.cancel.CancelReturned? && w.pc == Ended(NoSessionClaimLost) && w.sh.row
  {
    var s;
    events, s := Scheduled();
    events, s := ActOn(INITIAL, events, s, 1, TimerFires, SCHEDULED.(pc := TimerArm));
    events, s := Cancelled(events, s, TimerArm);
    w := CANCELLED.(pc := Ended(NoSessionClaimLost));
    events, s := ActOn(INITIAL, events, s, 1, ResolveSession(""), w);
  }

  /** The other way: the agent stops after the cancel, and the select picks the stop arm, which finds no entry
      and dismisses nothing. */
  lemma CancelledRowSurvivesStop() returns (events: seq<Event>, w: Wake)
    ensures Reaches(events, 1, w) && w.cancel.CancelReturned? && w.pc == Ended(Stopped(false)) && w.sh.row
  {
    var s;
    events, s := Scheduled();
    events, s := Cancelled(events, s, Waiting);
    events, s := Extend(events, s, Stop);
    events, s := ActOn(INITIAL, events, s, 1, SeeStop, CANCELLED.(pc := StopArm));
    w := CANCELLED.(pc := Ended(Stopped(false)));
    events, s := ActOn(INITIAL, events, s, 1, StopTake, w);
  }

  /** A wake whose agent has stopped, still waiting in its select, can be queued; and so can one that waits for its
      owner. */
  lemma StopDoesNotReachWake(pc: Pc) returns (events: seq<Event>, s: State)
    requires pc == Waiting || pc == Awaiting("a/c1")
    ensures Run(INITIAL, events) == Some(s) && s.stopped && 1 in s.wakes && s.wakes[1] == SCHEDULED.(pc := pc)
    ensures CanBeQueued(s, 1)
  {
    events, s := Scheduled();
    if pc.Awaiting? {
      events, s := ActOn(INITIAL, events, s, 1, TimerFires, SCHEDULED.(pc := TimerArm));
      events, s := ActOn(INITIAL, events, s, 1, ResolveSession("a/c1"), SCHEDULED.(pc := pc));
    }
    events, s := Extend(events, s, Stop);
    QueuedAfterStopExactly(events, s, 1);
  }
}
