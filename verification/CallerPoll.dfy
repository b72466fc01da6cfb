/**
 The polling loop's own fields (cmd/foci-gw/agents_unavailable.go:96-139) as the object that updates them: each
 round of it is a run of the step system of CallerWatch.
*/
module CallerPoll {
  import opened Wrappers
  import opened CallerWatch

  datatype Notice = HeldNotice | StallNotice

  class Poller {
    const stall: int
    var quietSince: int
    var heldTold: bool
    ghost var w: Watch  // the step system's view

    ghost predicate Valid()
      reads this
    {
      w.stall == stall && w.loop.quietSince == quietSince && w.loop.heldTold == heldTold
    }

    constructor (startedAt: int, stall: int, told: bool)
      ensures Valid() && this.stall == stall && w == New(startedAt, stall, told, true)
    {
      this.stall, quietSince, heldTold, w := stall, startedAt, told, New(startedAt, stall, told, true);
    }

    /** A tick at `now`, and the reads that follow it: whether the target is unavailable, whether the turn has started,
        whether the caller is held too, and the target's last activity. */
    method Round(now: int, held: bool, started: bool, callerHeld: bool, last: Option<int>)
      returns (notice: Option<Notice>, goOn: bool, ghost actions: seq<Action>)
      requires Valid() && w.loop.pc.Selecting? && w.turn.started == started && w.clock == now
      requires CanRead(last, now, w.turn.emitted)
      modifies this
      ensures Valid() && Run(old(w), actions) == Some(w)
      ensures w.loop.pc == if goOn then Selecting else Gone
      ensures Noted(old(w.loop), w.loop, notice)
      ensures held ==> goOn && quietSince == now && heldTold == (old(heldTold) || !started)
      ensures held ==> (notice == Some(HeldNotice) <==> !old(heldTold) && !started && !callerHeld)
      ensures held ==> notice != Some(StallNotice)
      ensures !held ==> heldTold == old(heldTold) && notice != Some(HeldNotice)
      ensures !held && started && last.None? ==> goOn && notice.None? && quietSince == old(quietSince)
      ensures
        !held && !(started && last.None?) ==>
        && quietSince == (if last.Some? && last.value > old(quietSince) then last.value else old(quietSince))
        && goOn == (now - quietSince < stall)
        && (notice == Some(StallNotice) <==> !goOn)
    {
      actions := LookAtTarget(now, held);
      ghost var more;
      if held {
        notice, more := TellHeld(started, callerHeld);
        goOn := true;
      } else {
        notice, goOn, more := CheckStall(now, started, last);
      }
      RunConcat(old(w), actions, more);
      actions := actions + more;
    }

    method LookAtTarget(now: int, held: bool) returns (ghost actions: seq<Action>)
      requires Valid() && w.loop.pc.Selecting? && w.clock == now
      modifies this
      ensures Valid() && Run(old(w), actions) == Some(w)
      ensures w.loop.pc == (if held then SawHold else Available(now)) && w.turn == old(w.turn) && w.clock == now
      ensures heldTold == old(heldTold) && quietSince == if held then now else old(quietSince)
      ensures Noted(old(w.loop), w.loop, None)
    {
      actions, w := Extend(w, [], w, OfLoop(Tick));
      actions, w := Extend(old(w), actions, w, OfLoop(ReadTarget(held)));
      if held {
        quietSince := now;
      }
    }

    method TellHeld(started: bool, callerHeld: bool) returns (notice: Option<Notice>, ghost actions: seq<Action>)
      requires Valid() && w.loop.pc.SawHold? && w.turn.started == started
      modifies this
      ensures Valid() && Run(old(w), actions) == Some(w) && w.loop.pc.Selecting?
      ensures Noted(old(w.loop), w.loop, notice)
      ensures quietSince == old(quietSince) && heldTold == (old(heldTold) || !started) && notice != Some(StallNotice)
      ensures notice == Some(HeldNotice) <==> !old(heldTold) && !started && !callerHeld
    {
      notice := None;
      actions, w := Extend(w, [], w, OfLoop(LookStarted));
      if !heldTold && !started {
        heldTold := true;
        if !callerHeld {
          notice := Some(HeldNotice);
        }
        actions, w := Extend(old(w), actions, w, OfLoop(ReadCaller(callerHeld)));
      }
    }

    method CheckStall(now: int, started: bool, last: Option<int>)
      returns (notice: Option<Notice>, goOn: bool, ghost actions: seq<Action>)
      requires Valid() && w.loop.pc == Available(now) && w.turn.started == started
      requires CanRead(last, w.clock, w.turn.emitted)
      modifies this
      ensures Valid() && Run(old(w), actions) == Some(w)
      ensures w.loop.pc == if goOn then Selecting else Gone
      ensures Noted(old(w.loop), w.loop, notice)
      ensures heldTold == old(heldTold) && notice != Some(HeldNotice)
      ensures started && last.None? ==> goOn && notice.None? && quietSince == old(quietSince)
      ensures
        !(started && last.None?) ==>
        && quietSince == (if last.Some? && last.value > old(quietSince) then last.value else old(quietSince))
        && goOn == (now - quietSince < stall)
        && (notice == Some(StallNotice) <==> !goOn)
    {
      actions, w := Extend(w, [], w, OfLoop(ReadActivity(last)));
      actions, w := Extend(old(w), actions, w, OfLoop(Compare));
      if started && last.None? {
        return None, true, actions;
      }
      if last.Some? && last.value > quietSince {
        quietSince := last.value;
      }
      if now - quietSince >= stall {
        return Some(StallNotice), false, actions;
      }
      return None, true, actions;
    }
  }

  /** The notices sent are those counted. */
  ghost predicate Noted(before: Loop, after: Loop, notice: Option<Notice>) {
    && after.heldNote == (if notice == Some(HeldNotice) then before.heldNote.Inc() else before.heldNote)
    && after.stallNote == (if notice == Some(StallNotice) then before.stallNote.Inc() else before.stallNote)
  }
}
