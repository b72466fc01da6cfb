/**
 The claim protocol of scheduled wakes (cmd/foci-gw/agents_notify.go, buildWakeScheduler) as a step system.

 One wake is run by its own goroutine; cancel calls, a stop of the agent and the session's inbox race
 with it. A step is one indivisible action of one of them: a critical section under wakesMu, a `select`
 that picks one of its ready arms, one store call, one inbox decision. A run is any sequence of steps of
 any number of wakes.
*/
module WakeProtocol {
  import opened Wrappers

  type Id = int
  type Session = string

  // ---- The memory one wake shares with cancels and with readers of the reminder store ----

  /** `entry`: the wake is in the wakes map. `ctxDone`: its wakeCtx is cancelled. `row`: its database row
      exists. `fired`: its mark in the fired overlay. */
  datatype Shared = Shared(entry: bool, ctxDone: bool, row: bool, fired: Option<Session>)

  const FRESH := Shared(true, false, true, None)

  /** Both take and claimForFire succeed exactly when the entry is there. */
  function Take(s: Shared): Shared {
    s.(entry := false)
  }

  function ClaimForFire(s: Shared, sk: Session): Shared {
    if s.entry then s.(entry := false, fired := Some(sk)) else s
  }

  function CancelCtx(s: Shared): Shared {
    s.(ctxDone := true)
  }

  function ClearFired(s: Shared): Shared {
    s.(fired := None)
  }

  /** The second half of Dismiss; the delete may fail, and the failure is ignored. */
  function DeleteRow(s: Shared, dbOk: bool): Shared {
    s.(row := s.row && !dbOk)
  }

  // ---- One wake ----

  datatype TurnResult = Completed | Failed | Panicked | ShuttingDown

  /** Why a row is dismissed. */
  datatype Why =
    | CancelSeen               // the select saw wakeCtx done
    | CancelHeld               // cancelled while it waited for its owner
    | ClaimLost                // a cancel took the entry after the timer fired
    | NoSession                // claimed, with nowhere to fire
    | TurnRan(result: TurnResult)

  datatype End =
    | Dismissed(why: Why)
    | NoSessionClaimLost       // nowhere to fire, and a cancel had won: nobody dismisses
    | Stopped(took: bool)      // the agent's ctx ended; took: this arm removed the entry
    | Refused                  // the inbox did not run the injection
    | LeftForRestart           // the turn was refused because foci is shutting down

  datatype Pc =
    | Waiting                  // in the select
    | TimerArm
    | Awaiting(sk: Session)    // in awaitWakeOwner
    | Resolved(target: Session)
    | Firing(target: Session)  // claimed, not yet queued
    | Queued(target: Session)
    | Running(target: Session)
    | Clearing(end: End)       // about to clear the overlay
    | Dismissing(why: Why)     // about to clear the overlay, then delete the row
    | DeletingRow(why: Why)
    | StopArm                  // about to take the entry
    | Ended(end: End)

  datatype CancelPhase = NoCancel | CancelTook | CancelReturned

  /** `takes*` count who removed the map entry, `enqueues` and `turns` the hand-overs to the inbox and the
      turns begun. They record history; no step reads them. */
  datatype Wake = Wake(sh: Shared, pc: Pc, cancel: CancelPhase,
                       takesCancel: Times, takesFire: Times, takesStop: Times, enqueues: Times, turns: Times)

  const SCHEDULED := Wake(FRESH, Waiting, NoCancel, Never, Never, Never, Never, Never)

  /** Where a wake set from `sk` fires, given its resolved owner (wakeDelivery). */
  function Target(sk: Session, owner: Session): Session {
    if owner == "" || owner == sk then sk else owner
  }

  datatype Action =
    | TimerFires
    | SeeCancel
    | SeeStop
    | ResolveSession(sk: Session)
    | OwnerKnown(owner: Session)
    | OwnerWaitCancelled
    | Claim
    | Enqueue(accepted: bool)
    | RunTurn
    | RefuseLater
    | TurnEnds(result: TurnResult)
    | ClearOverlay
    | DeleteTheRow(dbOk: bool)
    | StopTake
    | CancelTake
    | CancelContext

  /** Steps of the wake's goroutine in its select: which arm it takes, and the stop arm's take. */
  function SelectStep(w: Wake, stopped: bool, a: Action): Option<Wake> {
    match a
    case TimerFires => if w.pc.Waiting? then Some(w.(pc := TimerArm)) else None
    case SeeCancel => if w.pc.Waiting? && w.sh.ctxDone then Some(w.(pc := Dismissing(CancelSeen))) else None
    case SeeStop => if w.pc.Waiting? && stopped then Some(w.(pc := StopArm)) else None
    case StopTake =>
      if !w.pc.StopArm? then None
      else if w.sh.entry then
        Some(w.(sh := CancelCtx(Take(w.sh)), takesStop := w.takesStop.Inc(), pc := Ended(Stopped(true))))
      else Some(w.(pc := Ended(Stopped(false))))
    case _ => None
  }

  /** Steps of the wake's goroutine in its timer arm. The agent's ctx is not watched from here on. */
  function TimerStep(w: Wake, a: Action): Option<Wake> {
    match a
    case ResolveSession(sk) =>
      if !w.pc.TimerArm? then None
      else if sk != "" then Some(w.(pc := Awaiting(sk)))
      else if w.sh.entry then
        Some(w.(sh := ClaimForFire(w.sh, ""), takesFire := w.takesFire.Inc(), pc := Dismissing(NoSession)))
      else Some(w.(pc := Ended(NoSessionClaimLost)))
    case OwnerKnown(owner) => if w.pc.Awaiting? then Some(w.(pc := Resolved(Target(w.pc.sk, owner)))) else None
    case OwnerWaitCancelled =>
      if w.pc.Awaiting? && w.sh.ctxDone then Some(w.(pc := Dismissing(CancelHeld))) else None
    case Claim =>
      if !w.pc.Resolved? then None
      else if w.sh.entry then
        Some(w.(sh := CancelCtx(ClaimForFire(w.sh, w.pc.target)), takesFire := w.takesFire.Inc(),
                pc := Firing(w.pc.target)))
      else Some(w.(pc := Dismissing(ClaimLost)))
    case _ => None
  }

  /** Steps of the session's inbox, and of the completion and refusal hooks. */
  function InboxStep(w: Wake, a: Action): Option<Wake> {
    match a
    case Enqueue(accepted) =>
      if !w.pc.Firing? then None
      else if accepted then Some(w.(enqueues := w.enqueues.Inc(), pc := Queued(w.pc.target)))
      else Some(w.(pc := Clearing(Refused)))
    case RunTurn => if w.pc.Queued? then Some(w.(turns := w.turns.Inc(), pc := Running(w.pc.target))) else None
    case RefuseLater => if w.pc.Queued? then Some(w.(pc := Clearing(Refused))) else None
    case TurnEnds(result) =>
      if !w.pc.Running? then None
      else if result.ShuttingDown? then Some(w.(pc := Clearing(LeftForRestart)))
      else Some(w.(pc := Dismissing(TurnRan(result))))
    case _ => None
  }

  /** Steps of the reminder store. Dismiss clears the overlay first and deletes the row after. */
  function StoreStep(w: Wake, a: Action): Option<Wake> {
    match a
    case ClearOverlay =>
      if w.pc.Clearing? then Some(w.(sh := ClearFired(w.sh), pc := Ended(w.pc.end)))
      else if w.pc.Dismissing? then Some(w.(sh := ClearFired(w.sh), pc := DeletingRow(w.pc.why)))
      else None
    case DeleteTheRow(dbOk) =>
      if w.pc.DeletingRow? then Some(w.(sh := DeleteRow(w.sh, dbOk), pc := Ended(Dismissed(w.pc.why)))) else None
    case _ => None
  }

  /** Steps of a cancel call, at any point of the wake's life. One that finds no entry returns false and
      changes nothing. */
  function CancelStep(w: Wake, a: Action): Option<Wake> {
    match a
    case CancelTake =>
      Some(if w.sh.entry then w.(sh := Take(w.sh), takesCancel := w.takesCancel.Inc(), cancel := CancelTook) else w)
    case CancelContext =>
      if w.cancel.CancelTook? then Some(w.(sh := CancelCtx(w.sh), cancel := CancelReturned)) else None
    case _ => None
  }

  /** One step of wake `w`; None when the action is not enabled. `stopped`: the agent's ctx is done. */
  function Step(w: Wake, stopped: bool, a: Action): Option<Wake> {
    match a
    case TimerFires | SeeCancel | SeeStop | StopTake => SelectStep(w, stopped, a)
    case ResolveSession(_) | OwnerKnown(_) | OwnerWaitCancelled | Claim => TimerStep(w, a)
    case Enqueue(_) | RunTurn | RefuseLater | TurnEnds(_) => InboxStep(w, a)
    case ClearOverlay | DeleteTheRow(_) => StoreStep(w, a)
    case CancelTake | CancelContext => CancelStep(w, a)
  }

  // ---- Runs ----

  datatype State = State(wakes: map<Id, Wake>, stopped: bool)

  const INITIAL := State(map[], false)

  /** A wake's id is its database row id, so one scheduler schedules it once. */
  datatype Event = Schedule(id: Id) | Act(id: Id, action: Action) | Stop

  function Apply(s: State, e: Event): Option<State> {
    match e
    case Schedule(id) => if id in s.wakes then None else Some(s.(wakes := s.wakes[id := SCHEDULED]))
    case Stop => Some(s.(stopped := true))
    case Act(id, a) =>
      if id !in s.wakes then None
      else
        var w := Step(s.wakes[id], s.stopped, a);
        if w.None? then None else Some(s.(wakes := s.wakes[id := w.value]))
  }

  /** The state after a run from `s`; None when some event of it was not enabled. */
  function Run(s: State, events: seq<Event>): Option<State>
    decreases |events|
  {
    if events == [] then Some(s)
    else
      var before := Run(s, events[..|events| - 1]);
      if before.None? then None else Apply(before.value, events[|events| - 1])
  }

  // ---- The invariant of one wake ----

  /** The wake's turn is still owed: claimed for firing and neither run, refused nor dismissed. */
  predicate Pending(pc: Pc) {
    pc.Firing? || pc.Queued? || pc.Running? || pc.Clearing?
    || (pc.Dismissing? && (pc.why.TurnRan? || pc.why.NoSession?))
  }

  /** The wake's own goroutine has not yet tried to take the entry. */
  predicate Unclaimed(pc: Pc) {
    pc.Waiting? || pc.TimerArm? || pc.Awaiting? || pc.Resolved? || pc.StopArm?
  }

  predicate ForCancel(why: Why) {
    why.CancelSeen? || why.CancelHeld? || why.ClaimLost?
  }

  ghost predicate CancelWon(w: Wake) {
    w.takesCancel.Once? && w.enqueues.Never? && w.turns.Never?
  }

  ghost predicate FireWon(w: Wake) {
    w.takesFire.Once? && !w.enqueues.More? && (w.turns.Never? || (w.turns.Once? && w.enqueues.Once?))
  }

  ghost predicate TurnBegan(w: Wake) {
    w.takesFire.Once? && w.enqueues.Once? && w.turns.Once?
  }

  ghost predicate WhyHolds(w: Wake, why: Why) {
    && (ForCancel(why) ==> CancelWon(w))
    && (why.NoSession? ==> w.takesFire.Once? && w.enqueues.Never? && w.turns.Never?)
    && (why.TurnRan? ==> TurnBegan(w) && !why.result.ShuttingDown?)
  }

  ghost predicate EndHolds(w: Wake, end: End) {
    && (end.Dismissed? ==> WhyHolds(w, end.why))
    && (end.NoSessionClaimLost? ==> CancelWon(w))
    && (end.Stopped? && !end.took ==> CancelWon(w))
    && (end.Stopped? && end.took ==> w.takesStop.Once? && w.enqueues.Never? && w.turns.Never?)
    && (end.Refused? ==> FireWon(w) && w.turns.Never?)
    && (end.LeftForRestart? ==> TurnBegan(w))
  }

  ghost predicate PcHolds(w: Wake) {
    && (!(w.pc.Ended? && w.pc.end.Dismissed?) ==> w.sh.row)
    && (Unclaimed(w.pc) ==> w.takesFire.Never? && w.takesStop.Never? && w.enqueues.Never? && w.turns.Never?)
    && (w.pc.Firing? ==> w.takesFire.Once? && w.enqueues.Never? && w.turns.Never? && w.sh.fired == Some(w.pc.target))
    && (w.pc.Queued? ==> w.takesFire.Once? && w.enqueues.Once? && w.turns.Never? && w.sh.fired == Some(w.pc.target))
    && (w.pc.Running? ==> TurnBegan(w) && w.sh.fired == Some(w.pc.target))
    && (w.pc.Clearing? ==> (w.pc.end.Refused? || w.pc.end.LeftForRestart?) && EndHolds(w, w.pc.end))
    && (w.pc.Dismissing? ==> WhyHolds(w, w.pc.why))
    && (w.pc.DeletingRow? ==> WhyHolds(w, w.pc.why))
    && (w.pc.Ended? ==> EndHolds(w, w.pc.end))
  }

  ghost predicate TakenOnce(w: Wake) {
    if w.sh.entry then w.takesCancel.Never? && w.takesFire.Never? && w.takesStop.Never?
    else
      || (w.takesCancel.Once? && w.takesFire.Never? && w.takesStop.Never?)
      || (w.takesCancel.Never? && w.takesFire.Once? && w.takesStop.Never?)
      || (w.takesCancel.Never? && w.takesFire.Never? && w.takesStop.Once?)
  }

  ghost predicate Inv(w: Wake) {
    // The entry has been taken at most once in all, and it is gone exactly when somebody took it.
    && TakenOnce(w)
    && (w.cancel.NoCancel? <==> w.takesCancel.Never?)
    && (w.sh.ctxDone ==> !w.sh.entry)
    && (w.sh.fired.Some? <==> Pending(w.pc))
    && PcHolds(w)
  }

  lemma SelectStepKeepsInv(w: Wake, stopped: bool, a: Action)
    requires Inv(w) && SelectStep(w, stopped, a).Some?
    ensures Inv(SelectStep(w, stopped, a).value)
  {
  }

  lemma TimerStepKeepsInv(w: Wake, a: Action)
    requires Inv(w) && TimerStep(w, a).Some?
    ensures Inv(TimerStep(w, a).value)
  {
  }

  lemma InboxStepKeepsInv(w: Wake, a: Action)
    requires Inv(w) && InboxStep(w, a).Some?
    ensures Inv(InboxStep(w, a).value)
  {
  }

  lemma StoreStepKeepsInv(w: Wake, a: Action)
    requires Inv(w) && StoreStep(w, a).Some?
    ensures Inv(StoreStep(w, a).value)
  {
  }

  lemma CancelStepKeepsInv(w: Wake, a: Action)
    requires Inv(w) && CancelStep(w, a).Some?
    ensures Inv(CancelStep(w, a).value)
  {
  }

  lemma StepKeepsInv(w: Wake, stopped: bool, a: Action)
    requires Inv(w) && Step(w, stopped, a).Some?
    ensures Inv(Step(w, stopped, a).value)
  {
    match a
    case TimerFires | SeeCancel | SeeStop | StopTake => SelectStepKeepsInv(w, stopped, a);
    case ResolveSession(_) | OwnerKnown(_) | OwnerWaitCancelled | Claim => TimerStepKeepsInv(w, a);
    case Enqueue(_) | RunTurn | RefuseLater | TurnEnds(_) => InboxStepKeepsInv(w, a);
    case ClearOverlay | DeleteTheRow(_) => StoreStepKeepsInv(w, a);
    case CancelTake | CancelContext => CancelStepKeepsInv(w, a);
  }

  ghost predicate InvAll(s: State) {
    forall id | id in s.wakes :: Inv(s.wakes[id])
  }

  lemma {:induction false} RunKeepsInv(s: State, events: seq<Event>)
    requires InvAll(s) && Run(s, events).Some?
    ensures InvAll(Run(s, events).value)
    decreases |events|
  {
    if events != [] {
      RunKeepsInv(s, events[..|events| - 1]);
      var before := Run(s, events[..|events| - 1]).value;
      match events[|events| - 1]
      case Act(id, a) => StepKeepsInv(before.wakes[id], before.stopped, a);
      case _ =>
    }
  }
}
