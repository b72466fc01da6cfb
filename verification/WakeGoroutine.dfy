/**
 The goroutine of one wake and the hooks of its injection (cmd/foci-gw/agents_notify.go:715-783, 644-653) on the
 scheduler's own objects. A wake runs to its end in one call, which is a run of the claim protocol; between any two
 of its steps cancel calls and a stop of the agent do whatever they like.
*/
module WakeGoroutine {
  import opened Wrappers
  import P = WakeProtocol
  import opened WakeScheduler
  import G = WakeGuarantees

  /** The arm that the select would take; one that is not ready leaves it to the timer. */
  datatype Arm = Timer | Cancelled | AgentStopped

  /** What the world answers: the session that the wake has, "" for none; the owner of it, and whether the wait for the
      owner would rather end by a cancel; whether the inbox accepts the injection and runs it; how the turn ends; and
      whether the database takes the delete. */
  datatype Answers = Answers(arm: Arm, session: P.Session, owner: P.Session, cancelFirst: bool,
                             accepted: bool, runs: bool, result: P.TurnResult, dbOk: bool)

  /** Two halves of a cancel call, and a stop of the agent. */
  datatype Outside = CancelTakes | CancelCancels | AgentStops

  /** What happens before each step of the goroutine. */
  datatype Others = Others(select: seq<Outside>, resolve: seq<Outside>, owner: seq<Outside>, claim: seq<Outside>,
                           enqueue: seq<Outside>, run: seq<Outside>, end: seq<Outside>, settle: seq<Outside>,
                           delete: seq<Outside>)

  /** An action of the goroutine or of its injection that carries the answer it was given. */
  predicate Fits(ans: Answers, a: P.Action) {
    match a
    case SeeCancel => ans.arm.Cancelled?
    case SeeStop => ans.arm.AgentStopped?
    case ResolveSession(sk) => sk == ans.session
    case OwnerKnown(owner) => owner == ans.owner
    case OwnerWaitCancelled => ans.cancelFirst
    case Enqueue(accepted) => accepted == ans.accepted
    case RunTurn => ans.runs
    case RefuseLater => !ans.runs
    case TurnEnds(result) => result == ans.result
    case DeleteTheRow(dbOk) => dbOk == ans.dbOk
    case _ => true
  }

  /** Every event of the run is an outsider's, or carries the answers. */
  ghost predicate AllFit(ans: Answers, id: P.Id, events: seq<P.Event>) {
    forall e | e in events && e.Act? :: e.id == id && Fits(ans, e.action)
  }

  const NOBODY := Others([], [], [], [], [], [], [], [], [])

  // ---- What the others do to the wake ----

  /** A cancel call that finds the entry takes it, and later makes the context done; nothing else of the wake moves. */
  function Disturb(w: P.Wake, o: Outside): P.Wake {
    match o
    case CancelTakes =>
      if w.sh.entry then
        w.(sh := w.sh.(entry := false), takesCancel := w.takesCancel.Inc(), cancel := P.CancelTook)
      else w
    case CancelCancels =>
      if w.cancel.CancelTook? then w.(sh := w.sh.(ctxDone := true), cancel := P.CancelReturned) else w
    case AgentStops => w
  }

  function Amid(w: P.Wake, others: seq<Outside>): P.Wake
    decreases |others|
  {
    if others == [] then w else Disturb(Amid(w, others[..|others| - 1]), others[|others| - 1])
  }

  // ---- What each step makes of it ----

  function Stopped(w: P.Wake): P.Wake {
    if w.sh.entry then
      w.(sh := w.sh.(entry := false, ctxDone := true), takesStop := w.takesStop.Inc(), pc := P.Ended(P.Stopped(true)))
    else w.(pc := P.Ended(P.Stopped(false)))
  }

  function Takes(arm: Arm, ctxDone: bool, stopped: bool): Arm {
    if (arm.Cancelled? && ctxDone) || (arm.AgentStopped? && stopped) then arm else Timer
  }

  function Taken(taken: Arm): P.Pc {
    match taken
    case Timer => P.TimerArm
    case Cancelled => P.Dismissing(P.CancelSeen)
    case AgentStopped => P.StopArm
  }

  function AfterResolve(session: P.Session, claimed: bool): P.Pc {
    if session != "" then P.Awaiting(session)
    else if claimed then P.Dismissing(P.NoSession)
    else P.Ended(P.NoSessionClaimLost)
  }

  function ResolvedTo(w: P.Wake, session: P.Session): P.Wake {
    var claims := session == "" && w.sh.entry;
    var v := if claims then w.(sh := P.ClaimForFire(w.sh, ""), takesFire := w.takesFire.Inc()) else w;
    v.(pc := AfterResolve(session, claims))
  }

  function AfterOwner(ans: Answers, ok: bool): P.Pc {
    if ok then P.Resolved(P.Target(ans.session, ans.owner)) else P.Dismissing(P.CancelHeld)
  }

  function ClaimedBy(w: P.Wake, target: P.Session): P.Wake {
    if w.sh.entry then
      w.(sh := P.CancelCtx(P.ClaimForFire(w.sh, target)), takesFire := w.takesFire.Inc(), pc := P.Firing(target))
    else w.(pc := P.Dismissing(P.ClaimLost))
  }

  function Enqueued(w: P.Wake, accepted: bool, target: P.Session): P.Wake {
    if accepted then w.(enqueues := w.enqueues.Inc(), pc := P.Queued(target)) else w.(pc := P.Clearing(P.Refused))
  }

  function Begun(w: P.Wake, runs: bool, target: P.Session): P.Wake {
    if runs then w.(turns := w.turns.Inc(), pc := P.Running(target)) else w.(pc := P.Clearing(P.Refused))
  }

  function AfterTurn(result: P.TurnResult): P.Pc {
    if result.ShuttingDown? then P.Clearing(P.LeftForRestart) else P.Dismissing(P.TurnRan(result))
  }

  function MarkCleared(w: P.Wake, pc: P.Pc): P.Wake {
    w.(sh := w.sh.(fired := None), pc := pc)
  }

  function RowDeleted(w: P.Wake, why: P.Why, dbOk: bool): P.Wake {
    w.(sh := w.sh.(row := w.sh.row && !dbOk), pc := P.Ended(P.Dismissed(why)))
  }

  // ---- The wake at its end ----

  function Clear(w: P.Wake, end: P.End, others: Others): P.Wake {
    MarkCleared(Amid(w, others.settle), P.Ended(end))
  }

  function Dismiss(w: P.Wake, why: P.Why, ans: Answers, others: Others): P.Wake {
    var v := MarkCleared(Amid(w, others.settle), P.DeletingRow(why));
    RowDeleted(Amid(v, others.delete), why, ans.dbOk)
  }

  function TurnEnded(w: P.Wake, ans: Answers, others: Others): P.Wake {
    var v := Amid(w, others.end).(pc := AfterTurn(ans.result));
    if ans.result.ShuttingDown? then Clear(v, P.LeftForRestart, others)
    else Dismiss(v, P.TurnRan(ans.result), ans, others)
  }

  function Worked(w: P.Wake, ans: Answers, others: Others, target: P.Session): P.Wake {
    var v := Begun(Amid(w, others.run), ans.runs, target);
    if ans.runs then TurnEnded(v, ans, others) else Clear(v, P.Refused, others)
  }

  function Delivered(w: P.Wake, ans: Answers, others: Others, target: P.Session): P.Wake {
    var v := Enqueued(Amid(w, others.enqueue), ans.accepted, target);
    if ans.accepted then Worked(v, ans, others, target) else Clear(v, P.Refused, others)
  }

  function Claimed(w: P.Wake, ans: Answers, others: Others, target: P.Session): P.Wake {
    var v := ClaimedBy(Amid(w, others.claim), target);
    if v.pc.Firing? then Delivered(v, ans, others, target) else Dismiss(v, P.ClaimLost, ans, others)
  }

  function Owned(w: P.Wake, ans: Answers, others: Others): P.Wake {
    var u := Amid(w, others.owner);
    var ok := !(ans.cancelFirst && u.sh.ctxDone);
    var v := u.(pc := AfterOwner(ans, ok));
    if ok then Claimed(v, ans, others, P.Target(ans.session, ans.owner)) else Dismiss(v, P.CancelHeld, ans, others)
  }

  function Fired(w: P.Wake, ans: Answers, others: Others): P.Wake {
    var v := ResolvedTo(Amid(w, others.resolve), ans.session);
    if ans.session != "" then Owned(v, ans, others)
    else if v.pc.Dismissing? then Dismiss(v, P.NoSession, ans, others)
    else v
  }

  /** From its select on, whatever the others do. */
  function Outcome(w: P.Wake, stopped: bool, ans: Answers, others: Others): P.Wake {
    var u := Amid(w, others.select);
    var taken := Takes(ans.arm, u.sh.ctxDone, stopped || AgentStops in others.select);
    var v := u.(pc := Taken(taken));
    match taken
    case Timer => Fired(v, ans, others)
    case Cancelled => Dismiss(v, P.CancelSeen, ans, others)
    case AgentStopped => Stopped(Amid(v, others.settle))
  }

  /** A fresh wake that nobody disturbs, its agent running, ends as its answers say: with no session it is dismissed;
      one that the inbox does not take or does not run is refused and its row stays; a turn refused for a shutdown
      leaves the row for the restart; and any other turn has begun once, and its row is gone exactly if the database
      took the delete. Its entry is gone and its mark too. */
  lemma UndisturbedExactly(ans: Answers)
    ensures
      var w := Outcome(P.SCHEDULED, false, ans, NOBODY);
      var fires, turn := ans.session != "", ans.session != "" && ans.accepted && ans.runs;
      && !w.sh.entry && w.sh.fired.None? && w.takesFire.Once? && w.takesCancel.Never? && w.takesStop.Never?
      && (w.enqueues.Once? <==> fires && ans.accepted)
      && (w.turns.Once? <==> turn)
      && (w.pc == P.Ended(P.Dismissed(P.NoSession)) <==> !fires)
      && (w.pc == P.Ended(P.Refused) <==> fires && !(ans.accepted && ans.runs))
      && (w.pc == P.Ended(P.LeftForRestart) <==> turn && ans.result == P.TurnResult.ShuttingDown)
      && (turn && ans.result != P.TurnResult.ShuttingDown ==> w.pc == P.Ended(P.Dismissed(P.TurnRan(ans.result))))
      && (w.sh.row <==> w.pc == P.Ended(P.Refused) || w.pc == P.Ended(P.LeftForRestart) || !ans.dbOk)
  {
  }

  /** One whose cancel has returned fires in no branch, and its row is gone exactly if the database took the delete,
      except without a session. */
  lemma CancelledUndisturbed(ans: Answers, stopped: bool)
    ensures
      var w := Outcome(G.CANCELLED, stopped, ans, NOBODY);
      && w.enqueues.Never? && w.turns.Never? && w.takesFire.Never? && w.sh.fired.None?
      && (ans.arm.Cancelled? ==> w.pc == P.Ended(P.Dismissed(P.CancelSeen)))
      && (ans.arm.AgentStopped? && stopped ==> w.pc == P.Ended(P.Stopped(false)))
      && (ans.arm.Timer? && ans.session == "" ==> w.pc == P.Ended(P.NoSessionClaimLost))
      && (ans.arm.Timer? && ans.session != "" && ans.cancelFirst ==> w.pc == P.Ended(P.Dismissed(P.CancelHeld)))
      && (ans.arm.Timer? && ans.session != "" && !ans.cancelFirst ==> w.pc == P.Ended(P.Dismissed(P.ClaimLost)))
      && (w.sh.row <==> !(w.pc.end.Dismissed? && ans.dbOk))
  {
  }

  lemma Stepped(s0: P.State, events: seq<P.Event>, s: P.State, e: P.Event, s': P.State) returns (longer: seq<P.Event>)
    requires P.Run(s0, events) == Some(s) && P.Apply(s, e) == Some(s')
    ensures P.Run(s0, longer) == Some(s') && longer == events + [e]
  {
    longer := events + [e];
    assert longer[..|longer| - 1] == events;
  }

  lemma {:induction false} Joined(s0: P.State, events: seq<P.Event>, s: P.State, more: seq<P.Event>)
    requires P.Run(s0, events) == Some(s)
    ensures P.Run(s0, events + more) == P.Run(s, more)
    decreases |more|
  {
    if more == [] {
      assert events + more == events;
    } else {
      Joined(s0, events, s, more[..|more| - 1]);
      assert (events + more)[..|events + more| - 1] == events + more[..|more| - 1];
    }
  }

  /** A run in which every event is an outsider's or carries the answers. */
  ghost predicate Course(ans: Answers, id: P.Id, s0: P.State, events: seq<P.Event>, s: P.State) {
    P.Run(s0, events) == Some(s) && AllFit(ans, id, events)
  }

  lemma Adds(ans: Answers, id: P.Id, s0: P.State, events: seq<P.Event>, s: P.State, a: P.Action, s': P.State)
    returns (longer: seq<P.Event>)
    requires Course(ans, id, s0, events, s) && P.Apply(s, P.Act(id, a)) == Some(s') && Fits(ans, a)
    ensures Course(ans, id, s0, longer, s')
  {
    longer := Stepped(s0, events, s, P.Act(id, a), s');
  }

  lemma GoesOn(ans: Answers, id: P.Id, s0: P.State, events: seq<P.Event>, s: P.State, more: seq<P.Event>, s': P.State)
    returns (longer: seq<P.Event>)
    requires Course(ans, id, s0, events, s) && Course(ans, id, s, more, s')
    ensures Course(ans, id, s0, longer, s')
  {
    Joined(s0, events, s, more);
    longer := events + more;
  }

  lemma StandsStill(ans: Answers, id: P.Id, s: P.State)
    ensures Course(ans, id, s, [], s)
  {
  }

  class Goroutine {
    const id: P.Id
    const sch: Scheduler
    const ctx: WakeContext
    var stopped: bool     // the agent's ctx
    var cancelling: bool  // a cancel call has taken the entry, and is about to cancel wakeCtx
    ghost var s: P.State  // the protocol's view

    ghost predicate Valid()
      reads this, sch, sch.store, ctx
    {
      && sch.Valid() && (id in sch.wakes ==> sch.wakes[id] == ctx)
      && id in s.wakes && s.wakes[id].sh == sch.View(id, ctx)
      && s.stopped == stopped && s.wakes[id].cancel.CancelTook? == cancelling
    }

    ghost predicate At(pc: P.Pc)
      reads this
    {
      id in s.wakes && s.wakes[id].pc == pc
    }

    /** A wake just scheduled. */
    constructor (id: P.Id, sch: Scheduler, ctx: WakeContext)
      requires sch.Valid() && id in sch.wakes && sch.wakes[id] == ctx && sch.View(id, ctx) == P.FRESH
      ensures Valid() && At(P.Waiting) && s == P.State(map[id := P.SCHEDULED], false)
      ensures this.id == id && this.sch == sch && this.ctx == ctx
    {
      this.id, this.sch, this.ctx := id, sch, ctx;
      stopped, cancelling := false, false;
      s := P.State(map[id := P.SCHEDULED], false);
    }

    /** The next state of the protocol for an action on this wake. */
    ghost function Next(a: P.Action): Option<P.State>
      reads this
    {
      P.Apply(s, P.Act(id, a))
    }

    /** Steps of cancel calls on this wake, and stops. */
    ghost predicate ByOthers(events: seq<P.Event>) {
      forall e | e in events :: e.Stop? || (e.Act? && e.id == id && (e.action.CancelTake? || e.action.CancelContext?))
    }

    // ---- The others ----

    method TakenByCancel()
      requires Valid()
      modifies this, sch
      ensures Valid() && old(Next(P.CancelTake)) == Some(s)
    {
      ghost var next := Next(P.CancelTake).value;
      var c := sch.TakeEntry(id);
      if c != null {
        cancelling := true;
      }
      s := next;
    }

    method Outsider(o: Outside) returns (ghost events: seq<P.Event>)
      requires Valid()
      modifies this, sch, ctx
      ensures Valid() && P.Run(old(s), events) == Some(s) && s.wakes[id].pc == old(s.wakes[id].pc)
      ensures ByOthers(events)
      ensures s.wakes[id] == Disturb(old(s.wakes[id]), o) && (s.stopped <==> old(s.stopped) || o.AgentStops?)
      ensures
        events == match o
                  case CancelTakes => [P.Act(id, P.CancelTake)]
                  case CancelCancels => if old(cancelling) then [P.Act(id, P.CancelContext)] else []
                  case AgentStops => [P.Stop]
    {
      match o
      case CancelTakes =>
        TakenByCancel();
        events := Stepped(old(s), [], old(s), P.Act(id, P.CancelTake), s);
      case CancelCancels =>
        events := [];
        if cancelling {
          ctx.Cancel();
          cancelling := false;
          s := Next(P.CancelContext).value;
          events := Stepped(old(s), [], old(s), P.Act(id, P.CancelContext), s);
        }
      case AgentStops =>
        stopped := true;
        s := s.(stopped := true);
        events := Stepped(old(s), [], old(s), P.Stop, s);
    }

    method Meanwhile(others: seq<Outside>) returns (ghost events: seq<P.Event>)
      requires Valid()
      modifies this, sch, ctx
      ensures Valid() && P.Run(old(s), events) == Some(s) && s.wakes[id].pc == old(s.wakes[id].pc)
      ensures ByOthers(events)
      ensures s.wakes[id] == Amid(old(s.wakes[id]), others) && (s.stopped <==> old(s.stopped) || AgentStops in others)
      ensures others == [] ==> s == old(s)
    {
      events := [];
      for i := 0 to |others|
        invariant Valid() && P.Run(old(s), events) == Some(s) && s.wakes[id].pc == old(s.wakes[id].pc)
        invariant ByOthers(events) && (i == 0 ==> s == old(s))
        invariant s.wakes[id] == Amid(old(s.wakes[id]), others[..i])
        invariant s.stopped <==> old(s.stopped) || AgentStops in others[..i]
      {
        assert others[..i + 1][..i] == others[..i];
        ghost var before := s;
        ghost var more := Outsider(others[i]);
        Joined(old(s), events, before, more);
        events := events + more;
      }
      assert others[..|others|] == others;
    }

    // ---- The goroutine's steps ----

    method Select(arm: Arm) returns (taken: Arm, ghost a: P.Action)
      requires Valid() && At(P.Waiting)
      modifies this
      ensures Valid() && old(Next(a)) == Some(s)
      ensures
        At(match taken
           case Timer => P.TimerArm
           case Cancelled => P.Dismissing(P.CancelSeen)
           case AgentStopped => P.StopArm)
      ensures taken == Takes(arm, old(s.wakes[id].sh.ctxDone), old(s.stopped))
      ensures a == match taken case Timer => P.TimerFires case Cancelled => P.SeeCancel case AgentStopped => P.SeeStop
    {
      taken := if (arm.Cancelled? && ctx.done) || (arm.AgentStopped? && stopped) then arm else Timer;
      a := match taken case Timer => P.TimerFires case Cancelled => P.SeeCancel case AgentStopped => P.SeeStop;
      s := Next(a).value;
    }

    method TakeWhenStopped()
      requires Valid() && At(P.StopArm)
      modifies this, sch, ctx
      ensures Valid() && old(Next(P.StopTake)) == Some(s) && s.wakes[id].pc.Ended?
    {
      ghost var next := Next(P.StopTake).value;
      sch.StopWake(id, ctx);
      s := next;
    }

    /** Nowhere to fire: the claim is taken all the same. */
    method Resolve(session: P.Session) returns (claimed: bool)
      requires Valid() && At(P.TimerArm)
      modifies this, sch, sch.store
      ensures Valid() && old(Next(P.ResolveSession(session))) == Some(s)
      ensures
        if session != "" then At(P.Awaiting(session))
        else At(if claimed then P.Dismissing(P.NoSession) else P.Ended(P.NoSessionClaimLost))
    {
      ghost var next := Next(P.ResolveSession(session)).value;
      claimed := false;
      if session == "" {
        claimed := sch.ClaimForFire(id, "", ctx);
      }
      s := next;
    }

    method AwaitOwner(session: P.Session, owner: P.Session, cancelFirst: bool) returns (ok: bool, ghost a: P.Action)
      requires Valid() && At(P.Awaiting(session))
      modifies this
      ensures Valid() && old(Next(a)) == Some(s)
      ensures At(if ok then P.Resolved(P.Target(session, owner)) else P.Dismissing(P.CancelHeld))
      ensures ok == !(cancelFirst && old(s.wakes[id].sh.ctxDone))
      ensures a == if ok then P.OwnerKnown(owner) else P.OwnerWaitCancelled
    {
      ok := !(cancelFirst && ctx.done);
      a := if ok then P.OwnerKnown(owner) else P.OwnerWaitCancelled;
      s := Next(a).value;
    }

    method ClaimTimer(target: P.Session) returns (ok: bool)
      requires Valid() && At(P.Resolved(target))
      modifies this, sch, sch.store, ctx
      ensures Valid() && old(Next(P.Claim)) == Some(s) && At(if ok then P.Firing(target) else P.Dismissing(P.ClaimLost))
    {
      ghost var next := Next(P.Claim).value;
      ok := sch.ClaimForFire(id, target, ctx);
      if ok {
        ctx.Cancel();
      }
      s := next;
    }

    /** A step of the inbox, which touches nothing of the scheduler's. */
    method Inbox(ghost a: P.Action)
      requires Valid() && (a.Enqueue? || a.RunTurn? || a.RefuseLater? || a.TurnEnds?) && Next(a).Some?
      modifies this
      ensures Valid() && old(Next(a)) == Some(s)
    {
      s := Next(a).value;
    }

    /** The refusal hook, and the shutdown arm of the completion hook. */
    method ClearMark(ghost end: P.End)
      requires Valid() && At(P.Clearing(end))
      modifies this, sch.store
      ensures Valid() && old(Next(P.ClearOverlay)) == Some(s) && At(P.Ended(end))
    {
      ghost var next := Next(P.ClearOverlay).value;
      sch.store.ClearWakeFired(id);
      s := next;
    }

    /** The two halves of Dismiss: it clears the mark under its own lock, and then deletes the row. */
    method DismissMark(ghost why: P.Why)
      requires Valid() && At(P.Dismissing(why))
      modifies this, sch.store
      ensures Valid() && old(Next(P.ClearOverlay)) == Some(s) && At(P.DeletingRow(why))
    {
      ghost var next := Next(P.ClearOverlay).value;
      sch.store.ClearWakeFired(id);
      s := next;
    }

    method DismissRow(ghost why: P.Why, dbOk: bool)
      requires Valid() && At(P.DeletingRow(why))
      modifies this, sch.store
      ensures Valid() && old(Next(P.DeleteTheRow(dbOk))) == Some(s) && At(P.Ended(P.Dismissed(why)))
    {
      ghost var next := Next(P.DeleteTheRow(dbOk)).value;
      sch.store.DeleteRow(id, dbOk);
      s := next;
    }

    // ---- One step with what the others do before it ----

    method Wait(ans: Answers, others: seq<Outside>) returns (ghost events: seq<P.Event>)
      requires Valid()
      modifies this, sch, ctx
      ensures Valid() && Course(ans, id, old(s), events, s)
      ensures s.wakes[id].pc == old(s.wakes[id].pc)
      ensures s.wakes[id] == Amid(old(s.wakes[id]), others) && (s.stopped <==> old(s.stopped) || AgentStops in others)
    {
      events := Meanwhile(others);
    }

    method ThenSelect(ans: Answers, others: Others) returns (taken: Arm, ghost events: seq<P.Event>)
      requires Valid() && At(P.Waiting)
      modifies this, sch, ctx
      ensures Valid() && Course(ans, id, old(s), events, s)
      ensures At(Taken(taken))
      ensures s.stopped <==> old(s.stopped) || AgentStops in others.select
      ensures
        var w := Amid(old(s.wakes[id]), others.select);
        s.wakes[id] == w.(pc := Taken(taken)) && taken == Takes(ans.arm, w.sh.ctxDone, s.stopped)
    {
      events := Wait(ans, others.select);
      ghost var before, a := s, P.Claim;
      taken, a := Select(ans.arm);
      events := Adds(ans, id, old(s), events, before, a, s);
    }

    method ThenStopTake(ans: Answers, others: Others)
      returns (ghost events: seq<P.Event>)
      requires Valid() && At(P.StopArm)
      modifies this, sch, ctx
      ensures Valid() && Course(ans, id, old(s), events, s)
      ensures s.wakes[id].pc.Ended?
      ensures s.stopped <==> old(s.stopped) || AgentStops in others.settle
      ensures
        var w := Amid(old(s.wakes[id]), others.settle);
        s.wakes[id] == Stopped(w)
    {
      events := Wait(ans, others.settle);
      ghost var before := s;
      TakeWhenStopped();
      events := Adds(ans, id, old(s), events, before, P.StopTake, s);
    }

    method ThenResolve(ans: Answers, others: Others)
      returns (claimed: bool, ghost events: seq<P.Event>)
      requires Valid() && At(P.TimerArm)
      modifies this, sch, sch.store, ctx
      ensures Valid() && Course(ans, id, old(s), events, s)
      ensures At(AfterResolve(ans.session, claimed))
      ensures s.stopped <==> old(s.stopped) || AgentStops in others.resolve
      ensures
        var w := Amid(old(s.wakes[id]), others.resolve);
        s.wakes[id] == ResolvedTo(w, ans.session)
    {
      events := Wait(ans, others.resolve);
      ghost var before := s;
      claimed := Resolve(ans.session);
      events := Adds(ans, id, old(s), events, before, P.ResolveSession(ans.session), s);
    }

    method ThenOwner(ans: Answers, others: Others)
      returns (ok: bool, ghost events: seq<P.Event>)
      requires Valid() && At(P.Awaiting(ans.session))
      modifies this, sch, ctx
      ensures Valid() && Course(ans, id, old(s), events, s)
      ensures At(AfterOwner(ans, ok))
      ensures s.stopped <==> old(s.stopped) || AgentStops in others.owner
      ensures
        var w := Amid(old(s.wakes[id]), others.owner);
        s.wakes[id] == w.(pc := AfterOwner(ans, !(ans.cancelFirst && w.sh.ctxDone)))
    {
      events := Wait(ans, others.owner);
      ghost var before := s;
      ghost var a := P.Claim;
      ok, a := AwaitOwner(ans.session, ans.owner, ans.cancelFirst);
      events := Adds(ans, id, old(s), events, before, a, s);
    }

    method ThenClaim(ans: Answers, others: Others, target: P.Session)
      returns (ok: bool, ghost events: seq<P.Event>)
      requires Valid() && At(P.Resolved(target))
      modifies this, sch, sch.store, ctx
      ensures Valid() && Course(ans, id, old(s), events, s)
      ensures At(if ok then P.Firing(target) else P.Dismissing(P.ClaimLost))
      ensures s.stopped <==> old(s.stopped) || AgentStops in others.claim
      ensures
        var w := Amid(old(s.wakes[id]), others.claim);
        s.wakes[id] == ClaimedBy(w, target)
    {
      events := Wait(ans, others.claim);
      ghost var before := s;
      ok := ClaimTimer(target);
      events := Adds(ans, id, old(s), events, before, P.Claim, s);
    }

    method ThenEnqueue(ans: Answers, others: Others, ghost target: P.Session)
      returns (ghost events: seq<P.Event>)
      requires Valid() && At(P.Firing(target))
      modifies this, sch, ctx
      ensures Valid() && Course(ans, id, old(s), events, s)
      ensures At(if ans.accepted then P.Queued(target) else P.Clearing(P.Refused))
      ensures s.stopped <==> old(s.stopped) || AgentStops in others.enqueue
      ensures
        var w := Amid(old(s.wakes[id]), others.enqueue);
        s.wakes[id] == Enqueued(w, ans.accepted, target)
    {
      events := Wait(ans, others.enqueue);
      ghost var before := s;
      Inbox(P.Enqueue(ans.accepted));
      events := Adds(ans, id, old(s), events, before, P.Enqueue(ans.accepted), s);
    }

    method ThenRun(ans: Answers, others: Others, ghost target: P.Session)
      returns (ghost events: seq<P.Event>)
      requires Valid() && At(P.Queued(target))
      modifies this, sch, ctx
      ensures Valid() && Course(ans, id, old(s), events, s)
      ensures At(if ans.runs then P.Running(target) else P.Clearing(P.Refused))
      ensures s.stopped <==> old(s.stopped) || AgentStops in others.run
      ensures
        var w := Amid(old(s.wakes[id]), others.run);
        s.wakes[id] == Begun(w, ans.runs, target)
    {
      events := Wait(ans, others.run);
      ghost var before := s;
      ghost var a := if ans.runs then P.RunTurn else P.RefuseLater;
      Inbox(a);
      events := Adds(ans, id, old(s), events, before, a, s);
    }

    method ThenEnd(ans: Answers, others: Others, ghost target: P.Session)
      returns (ghost events: seq<P.Event>)
      requires Valid() && At(P.Running(target))
      modifies this, sch, ctx
      ensures Valid() && Course(ans, id, old(s), events, s)
      ensures At(AfterTurn(ans.result))
      ensures s.stopped <==> old(s.stopped) || AgentStops in others.end
      ensures
        var w := Amid(old(s.wakes[id]), others.end);
        s.wakes[id] == w.(pc := AfterTurn(ans.result))
    {
      events := Wait(ans, others.end);
      ghost var before := s;
      Inbox(P.TurnEnds(ans.result));
      events := Adds(ans, id, old(s), events, before, P.TurnEnds(ans.result), s);
    }

    method ThenClearMark(ans: Answers, others: Others, ghost end: P.End)
      returns (ghost events: seq<P.Event>)
      requires Valid() && At(P.Clearing(end))
      modifies this, sch, sch.store, ctx
      ensures Valid() && Course(ans, id, old(s), events, s)
      ensures At(P.Ended(end))
      ensures s.stopped <==> old(s.stopped) || AgentStops in others.settle
      ensures s.wakes[id] == Clear(old(s.wakes[id]), end, others)
    {
      events := Wait(ans, others.settle);
      ghost var before := s;
      ClearMark(end);
      events := Adds(ans, id, old(s), events, before, P.ClearOverlay, s);
    }

    method ThenDismissMark(ans: Answers, others: Others, ghost why: P.Why)
      returns (ghost events: seq<P.Event>)
      requires Valid() && At(P.Dismissing(why))
      modifies this, sch, sch.store, ctx
      ensures Valid() && Course(ans, id, old(s), events, s)
      ensures At(P.DeletingRow(why))
      ensures s.stopped <==> old(s.stopped) || AgentStops in others.settle
      ensures
        var w := Amid(old(s.wakes[id]), others.settle);
        s.wakes[id] == MarkCleared(w, P.DeletingRow(why))
    {
      events := Wait(ans, others.settle);
      ghost var before := s;
      DismissMark(why);
      events := Adds(ans, id, old(s), events, before, P.ClearOverlay, s);
    }

    method ThenDismissRow(ans: Answers, others: Others, ghost why: P.Why)
      returns (ghost events: seq<P.Event>)
      requires Valid() && At(P.DeletingRow(why))
      modifies this, sch, sch.store, ctx
      ensures Valid() && Course(ans, id, old(s), events, s)
      ensures At(P.Ended(P.Dismissed(why)))
      ensures s.stopped <==> old(s.stopped) || AgentStops in others.delete
      ensures
        var w := Amid(old(s.wakes[id]), others.delete);
        s.wakes[id] == RowDeleted(w, why, ans.dbOk)
    {
      events := Wait(ans, others.delete);
      ghost var before := s;
      DismissRow(why, ans.dbOk);
      events := Adds(ans, id, old(s), events, before, P.DeleteTheRow(ans.dbOk), s);
    }

    // ---- The whole of it ----

    method Run(ans: Answers, others: Others) returns (ghost events: seq<P.Event>)
      requires Valid() && At(P.Waiting)
      modifies this, sch, sch.store, ctx
      ensures Valid() && Course(ans, id, old(s), events, s)
      ensures s.wakes[id].pc.Ended?
      ensures s.wakes[id] == Outcome(old(s.wakes[id]), old(s.stopped), ans, others)
    {
      var taken;
      taken, events := ThenSelect(ans, others);
      ghost var before, more := s, [];
      StandsStill(ans, id, s);
      match taken {
        case Timer => more := FireTimer(ans, others);
        case Cancelled => more := SettleDismissed(ans, others, P.CancelSeen);
        case AgentStopped => more := ThenStopTake(ans, others);
      }
      events := GoesOn(ans, id, old(s), events, before, more, s);
    }

    method SettleDismissed(ans: Answers, others: Others, ghost why: P.Why) returns (ghost events: seq<P.Event>)
      requires Valid() && At(P.Dismissing(why))
      modifies this, sch, sch.store, ctx
      ensures Valid() && Course(ans, id, old(s), events, s)
      ensures At(P.Ended(P.Dismissed(why)))
      ensures s.wakes[id] == Dismiss(old(s.wakes[id]), why, ans, others)
    {
      events := ThenDismissMark(ans, others, why);
      ghost var before, more := s, [];
      StandsStill(ans, id, s);
      more := ThenDismissRow(ans, others, why);
      events := GoesOn(ans, id, old(s), events, before, more, s);
    }

    /** The timer arm. */
    method FireTimer(ans: Answers, others: Others) returns (ghost events: seq<P.Event>)
      requires Valid() && At(P.TimerArm)
      modifies this, sch, sch.store, ctx
      ensures Valid() && Course(ans, id, old(s), events, s)
      ensures s.wakes[id].pc.Ended?
      ensures s.wakes[id] == Fired(old(s.wakes[id]), ans, others)
    {
      var claimed;
      claimed, events := ThenResolve(ans, others);
      ghost var before, more := s, [];
      StandsStill(ans, id, s);
      if ans.session != "" {
        more := FireFor(ans, others);
      } else if claimed {
        more := SettleDismissed(ans, others, P.NoSession);
      }
      events := GoesOn(ans, id, old(s), events, before, more, s);
    }

    /** With a session: its owner, and the claim. */
    method FireFor(ans: Answers, others: Others) returns (ghost events: seq<P.Event>)
      requires Valid() && At(P.Awaiting(ans.session))
      modifies this, sch, sch.store, ctx
      ensures Valid() && Course(ans, id, old(s), events, s)
      ensures s.wakes[id].pc.Ended?
      ensures s.wakes[id] == Owned(old(s.wakes[id]), ans, others)
    {
      var ok;
      ok, events := ThenOwner(ans, others);
      ghost var before, more := s, [];
      StandsStill(ans, id, s);
      if ok {
        more := ClaimAndDeliver(ans, others, P.Target(ans.session, ans.owner));
      } else {
        more := SettleDismissed(ans, others, P.CancelHeld);
      }
      events := GoesOn(ans, id, old(s), events, before, more, s);
    }

    method ClaimAndDeliver(ans: Answers, others: Others, target: P.Session) returns (ghost events: seq<P.Event>)
      requires Valid() && At(P.Resolved(target))
      modifies this, sch, sch.store, ctx
      ensures Valid() && Course(ans, id, old(s), events, s)
      ensures s.wakes[id].pc.Ended?
      ensures s.wakes[id] == Claimed(old(s.wakes[id]), ans, others, target)
    {
      var ok;
      ok, events := ThenClaim(ans, others, target);
      ghost var before, more := s, [];
      StandsStill(ans, id, s);
      if ok {
        more := Deliver(ans, others, target);
      } else {
        more := SettleDismissed(ans, others, P.ClaimLost);
      }
      events := GoesOn(ans, id, old(s), events, before, more, s);
    }

    /** To the inbox, which may refuse it at once or later. */
    method Deliver(ans: Answers, others: Others, ghost target: P.Session) returns (ghost events: seq<P.Event>)
      requires Valid() && At(P.Firing(target))
      modifies this, sch, sch.store, ctx
      ensures Valid() && Course(ans, id, old(s), events, s)
      ensures s.wakes[id].pc.Ended?
      ensures s.wakes[id] == Delivered(old(s.wakes[id]), ans, others, target)
    {
      events := ThenEnqueue(ans, others, target);
      ghost var before, more := s, [];
      StandsStill(ans, id, s);
      if ans.accepted {
        more := Work(ans, others, target);
      } else {
        more := ThenClearMark(ans, others, P.Refused);
      }
      events := GoesOn(ans, id, old(s), events, before, more, s);
    }

    method Work(ans: Answers, others: Others, ghost target: P.Session) returns (ghost events: seq<P.Event>)
      requires Valid() && At(P.Queued(target))
      modifies this, sch, sch.store, ctx
      ensures Valid() && Course(ans, id, old(s), events, s)
      ensures s.wakes[id].pc.Ended?
      ensures s.wakes[id] == Worked(old(s.wakes[id]), ans, others, target)
    {
      events := ThenRun(ans, others, target);
      ghost var before, more := s, [];
      StandsStill(ans, id, s);
      if ans.runs {
        more := EndTurn(ans, others, target);
      } else {
        more := ThenClearMark(ans, others, P.Refused);
      }
      events := GoesOn(ans, id, old(s), events, before, more, s);
    }

    method EndTurn(ans: Answers, others: Others, ghost target: P.Session) returns (ghost events: seq<P.Event>)
      requires Valid() && At(P.Running(target))
      modifies this, sch, sch.store, ctx
      ensures Valid() && Course(ans, id, old(s), events, s)
      ensures s.wakes[id].pc.Ended?
      ensures s.wakes[id] == TurnEnded(old(s.wakes[id]), ans, others)
    {
      events := ThenEnd(ans, others, target);
      ghost var before, more := s, [];
      StandsStill(ans, id, s);
      if ans.result.ShuttingDown? {
        more := ThenClearMark(ans, others, P.LeftForRestart);
      } else {
        more := SettleDismissed(ans, others, P.TurnRan(ans.result));
      }
      events := GoesOn(ans, id, old(s), events, before, more, s);
    }
  }
}
