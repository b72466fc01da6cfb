/**
 The watch over one message between sessions (cmd/foci-gw/agents_unavailable.go): its polling loop, the target's
 inbox and turn, and the clock, as a step system. A step reads or writes one thing that another party can see.
*/
module CallerWatch {
  import opened Wrappers

  // ---- The state ----

  /** Where the polling loop is. `now` is the time that the round read first. */
  datatype LoopPc =
    | Selecting
    | Ticked(now: int)
    | SawHold                                 // unavailable: about to look whether the caller is to be told
    | AskingCaller                            // marked as told: about to look at the caller's own hold
    | Available(now: int)
    // Has read the target's last activity, None when there was none to read. `seen` is history: the turn's last
    // stream event at that moment.
    | Measured(now: int, last: Option<int>, seen: Option<int>)
    | Gone

  datatype TurnEnd = Replied | NoReply | Failed | Limited | ShutDown

  /** Where the message is. */
  datatype TurnPc =
    | Queued
    | Running
    | Refusing                   // the inbox declined it
    | Ending(end: TurnEnd)       // about to finish the watch
    | Judging(end: TurnEnd)      // has finished it
    | JudgingRefusal
    | Over

  /** What a poll has seen of the target. */
  datatype Sign = WasHeld(at: int) | WasActive(at: int)

  /** The polling loop's own state. `signs`, `sawStart` and the notes sent are history; no step reads them. */
  datatype Loop = Loop(pc: LoopPc, quietSince: int, heldTold: bool,
                       signs: seq<Sign>, sawStart: bool, heldNote: Times, stallNote: Times)

  /** `started` and `done` are the two channels that the turn closes. `emitted`: when it last emitted a stream event.
      `replied` and the note sent are history. */
  datatype Turn = Turn(pc: TurnPc, started: bool, done: bool, emitted: Option<int>, replied: bool, endNote: Times)

  datatype Watch = Watch(startedAt: int, stall: int, clock: int, ctxDone: bool, loop: Loop, turn: Turn)

  /** A new watch. `told`: the caller was told when it sent the message. `live`: its loop runs; a message restored after
      a restart goes without. */
  function New(startedAt: int, stall: int, told: bool, live: bool): Watch {
    Watch(startedAt, stall, startedAt, false,
          Loop(if live then Selecting else Gone, startedAt, told, [], false, Never, Never),
          Turn(Queued, false, false, None, false, Never))
  }

  // ---- The steps ----

  datatype LoopAction =
    | SeeCtx
    | SeeDone
    | Tick
    | ReadTarget(held: bool)
    | LookStarted
    | ReadCaller(held: bool)
    | ReadActivity(last: Option<int>)
    | Compare

  datatype TurnAction = Start | Refuse | Emit | EndTurn(end: TurnEnd) | Finish | Judge(held: bool)

  datatype Action = Advance(to: int) | StopAll | OfLoop(l: LoopAction) | OfTurn(t: TurnAction)

  /** The loop's select, which may take any ready arm: a tick can still be taken when the watch is finished. */
  function SelectStep(l: Loop, clock: int, ctxDone: bool, done: bool, a: LoopAction): Option<Loop> {
    if !l.pc.Selecting? then None
    else
      match a
      case SeeCtx => if ctxDone then Some(l.(pc := Gone)) else None
      case SeeDone => if done then Some(l.(pc := Gone)) else None
      case Tick => Some(l.(pc := Ticked(clock)))
      case _ => None
  }

  /** A target that is unavailable: tell the caller, once, unless the turn has started or the caller is held too. */
  function HoldStep(l: Loop, started: bool, a: LoopAction): Option<Loop> {
    match a
    case ReadTarget(held) =>
      if !l.pc.Ticked? then None
      else if held then Some(l.(quietSince := l.pc.now, signs := l.signs + [WasHeld(l.pc.now)], pc := SawHold))
      else Some(l.(pc := Available(l.pc.now)))
    case LookStarted =>
      if !l.pc.SawHold? then None
      else if l.heldTold then Some(l.(pc := Selecting))
      else if started then Some(l.(sawStart := true, pc := Selecting))
      else Some(l.(heldTold := true, pc := AskingCaller))
    case ReadCaller(held) =>
      if !l.pc.AskingCaller? then None
      else Some(l.(pc := Selecting, heldNote := if held then l.heldNote else l.heldNote.Inc()))
    case _ => None
  }

  /** What a read of the activity can give: the session's last stream event, which is never later than the read and
      never earlier than an event of this turn; or none, when nothing tracks it. */
  predicate CanRead(last: Option<int>, clock: int, emitted: Option<int>) {
    last.Some? ==> last.value <= clock && (emitted.Some? ==> emitted.value <= last.value)
  }

  /** One that is available: has it shown activity? */
  function StallStep(l: Loop, clock: int, stall: int, turn: Turn, a: LoopAction): Option<Loop> {
    match a
    case ReadActivity(last) =>
      if !l.pc.Available? || !CanRead(last, clock, turn.emitted) then None
      else Some(l.(pc := Measured(l.pc.now, last, turn.emitted)))
    case Compare =>
      if !l.pc.Measured? then None
      else if turn.started && l.pc.last.None? then Some(l.(sawStart := true, pc := Selecting))
      else Some(Compared(l.(sawStart := l.sawStart || turn.started), stall, l.pc.now, l.pc.last))
    case _ => None
  }

  function Compared(l: Loop, stall: int, now: int, last: Option<int>): Loop {
    var quiet := if last.Some? && last.value > l.quietSince then last.value else l.quietSince;
    var m := l.(quietSince := quiet, signs := if last.Some? then l.signs + [WasActive(last.value)] else l.signs);
    if now - quiet >= stall then m.(pc := Gone, stallNote := l.stallNote.Inc()) else m.(pc := Selecting)
  }

  function LoopStep(w: Watch, a: LoopAction): Option<Loop> {
    match a
    case SeeCtx | SeeDone | Tick => SelectStep(w.loop, w.clock, w.ctxDone, w.turn.done, a)
    case ReadTarget(_) | LookStarted | ReadCaller(_) => HoldStep(w.loop, w.turn.started, a)
    case ReadActivity(_) | Compare => StallStep(w.loop, w.clock, w.stall, w.turn, a)
  }

  /** The target. An injection runs at most once or is refused, and its turn ends once; one that replies has emitted
      events. `held` in Judge: for a refusal, whether a usage hold keeps the message across the shutdown; else whether
      the target is unavailable. */
  function TurnStep(t: Turn, clock: int, a: TurnAction): Option<Turn> {
    match a
    case Start => if t.pc.Queued? then Some(t.(pc := Running, started := true)) else None
    case Refuse => if t.pc.Queued? then Some(t.(pc := Refusing)) else None
    case Emit => if t.pc.Running? then Some(t.(emitted := Some(clock))) else None
    case EndTurn(end) =>
      if !t.pc.Running? || (end.Replied? && t.emitted.None?) then None
      else Some(t.(pc := Ending(end), replied := end.Replied?))
    case Finish =>
      if t.pc.Refusing? || t.pc == Ending(ShutDown) then Some(t.(done := true, pc := JudgingRefusal))
      else if t.pc.Ending? then Some(t.(done := true, pc := if t.pc.end.Replied? then Over else Judging(t.pc.end)))
      else None
    case Judge(held) =>
      if t.pc.JudgingRefusal? then Some(t.(pc := Over, endNote := if held then t.endNote else t.endNote.Inc()))
      else if t.pc.Judging? then
        Some(t.(pc := Over,
                endNote := if t.pc.end.Limited? || t.pc.end.Failed? || held then t.endNote.Inc() else t.endNote))
      else None
  }

  /** The clock does not run backwards. */
  function Step(w: Watch, a: Action): Option<Watch> {
    match a
    case Advance(to) => if to >= w.clock then Some(w.(clock := to)) else None
    case StopAll => Some(w.(ctxDone := true))
    case OfLoop(la) => var l := LoopStep(w, la); if l.None? then None else Some(w.(loop := l.value))
    case OfTurn(ta) => var t := TurnStep(w.turn, w.clock, ta); if t.None? then None else Some(w.(turn := t.value))
  }

  function Run(w: Watch, actions: seq<Action>): Option<Watch>
    decreases |actions|
  {
    if actions == [] then Some(w)
    else
      var before := Run(w, actions[..|actions| - 1]);
      if before.None? then None else Step(before.value, actions[|actions| - 1])
  }

  // ---- The invariant ----

  /** The latest sign of life, or the start of the watch. */
  function Latest(startedAt: int, signs: seq<Sign>): int {
    if signs == [] then startedAt
    else
      var q, last := Latest(startedAt, signs[..|signs| - 1]), signs[|signs| - 1].at;
      if last > q then last else q
  }

  lemma {:induction false} LatestIsLatest(startedAt: int, signs: seq<Sign>, due: int)
    ensures Latest(startedAt, signs) <= due <==>
            startedAt <= due && forall i :: 0 <= i < |signs| ==> signs[i].at <= due
  {
    if signs != [] {
      LatestIsLatest(startedAt, signs[..|signs| - 1], due);
    }
  }

  lemma LatestGrows(startedAt: int, signs: seq<Sign>, sign: Sign)
    ensures
      var q := Latest(startedAt, signs);
      Latest(startedAt, signs + [sign]) == if sign.at > q then sign.at else q
  {
    assert (signs + [sign])[..|signs|] == signs;
  }

  ghost predicate TimesHold(l: Loop, startedAt: int, clock: int) {
    && startedAt <= l.quietSince <= clock
    && l.quietSince == Latest(startedAt, l.signs)
    && (l.pc.Ticked? || l.pc.Available? || l.pc.Measured? ==> l.quietSince <= l.pc.now <= clock)
    && (l.pc.Measured? && l.pc.last.Some? ==> l.pc.last.value <= clock)
  }

  ghost predicate LoopNotesHold(l: Loop, started: bool) {
    && (l.sawStart ==> started && !l.pc.AskingCaller?)
    && (l.pc.AskingCaller? ==> l.heldTold)
    && !l.heldNote.More? && (l.heldNote.Once? ==> l.heldTold && !l.pc.AskingCaller?)
    && !l.stallNote.More? && (l.stallNote.Once? ==> l.pc.Gone?)
  }

  ghost predicate TurnHolds(t: Turn) {
    && (t.pc.Running? ==> t.started && !t.replied)
    && (t.replied ==> t.started && t.emitted.Some? && !t.pc.Running? && !t.pc.Queued?)
    && (t.pc.Judging? || t.pc.JudgingRefusal? || t.pc.Over? ==> t.done)
    && !t.endNote.More? && (t.endNote.Once? ==> t.pc.Over?)
  }

  /** A round that reads after the turn's last event reads nothing older. */
  ghost predicate ReadHolds(l: Loop) {
    l.pc.Measured? && l.pc.seen.Some? && l.pc.last.Some? ==> l.pc.seen.value <= l.pc.last.value
  }

  ghost predicate Inv(w: Watch) {
    && TimesHold(w.loop, w.startedAt, w.clock) && ReadHolds(w.loop)
    && LoopNotesHold(w.loop, w.turn.started) && TurnHolds(w.turn)
    && (w.turn.emitted.Some? ==> w.turn.emitted.value <= w.clock)
  }

  lemma HoldKeepsTimes(l: Loop, startedAt: int, clock: int, started: bool, a: LoopAction)
    requires TimesHold(l, startedAt, clock) && HoldStep(l, started, a).Some?
    ensures TimesHold(HoldStep(l, started, a).value, startedAt, clock)
  {
    if a.ReadTarget? {
      LatestGrows(startedAt, l.signs, WasHeld(l.pc.now));
    }
  }

  lemma StallKeepsTimes(l: Loop, startedAt: int, clock: int, stall: int, turn: Turn, a: LoopAction)
    requires TimesHold(l, startedAt, clock) && StallStep(l, clock, stall, turn, a).Some?
    ensures TimesHold(StallStep(l, clock, stall, turn, a).value, startedAt, clock)
  {
    if a.Compare? {
      ComparedKeepsTimes(l.(sawStart := l.sawStart || turn.started), startedAt, clock, stall, l.pc.now, l.pc.last);
    }
  }

  lemma ComparedKeepsTimes(l: Loop, startedAt: int, clock: int, stall: int, now: int, last: Option<int>)
    requires startedAt <= l.quietSince <= clock && l.quietSince == Latest(startedAt, l.signs)
    requires last.Some? ==> last.value <= clock
    ensures TimesHold(Compared(l, stall, now, last), startedAt, clock)
  {
    if last.Some? {
      LatestGrows(startedAt, l.signs, WasActive(last.value));
    }
  }

  lemma LoopKeepsTimes(w: Watch, a: LoopAction)
    requires TimesHold(w.loop, w.startedAt, w.clock) && LoopStep(w, a).Some?
    ensures TimesHold(LoopStep(w, a).value, w.startedAt, w.clock)
  {
    match a
    case SeeCtx | SeeDone | Tick =>
    case ReadTarget(_) | LookStarted | ReadCaller(_) =>
      HoldKeepsTimes(w.loop, w.startedAt, w.clock, w.turn.started, a);
    case ReadActivity(_) | Compare =>
      StallKeepsTimes(w.loop, w.startedAt, w.clock, w.stall, w.turn, a);
  }

  lemma LoopKeepsNotes(w: Watch, a: LoopAction)
    requires LoopNotesHold(w.loop, w.turn.started) && LoopStep(w, a).Some?
    ensures LoopNotesHold(LoopStep(w, a).value, w.turn.started)
  {
  }

  lemma LoopKeepsRead(w: Watch, a: LoopAction)
    requires ReadHolds(w.loop) && LoopStep(w, a).Some?
    ensures ReadHolds(LoopStep(w, a).value)
  {
  }

  lemma TurnKeepsInv(t: Turn, l: Loop, clock: int, a: TurnAction)
    requires TurnHolds(t) && LoopNotesHold(l, t.started) && TurnStep(t, clock, a).Some?
    ensures TurnHolds(TurnStep(t, clock, a).value) && LoopNotesHold(l, TurnStep(t, clock, a).value.started)
  {
  }

  lemma StepKeepsInv(w: Watch, a: Action)
    requires Inv(w) && Step(w, a).Some?
    ensures Inv(Step(w, a).value)
  {
    match a
    case OfLoop(la) =>
      LoopKeepsTimes(w, la);
      LoopKeepsNotes(w, la);
      LoopKeepsRead(w, la);
    case OfTurn(ta) => TurnKeepsInv(w.turn, w.loop, w.clock, ta);
    case _ =>
  }

  lemma {:induction false} RunKeepsInv(w: Watch, actions: seq<Action>)
    requires Inv(w) && Run(w, actions).Some?
    ensures Inv(Run(w, actions).value)
    decreases |actions|
  {
    if actions != [] {
      RunKeepsInv(w, actions[..|actions| - 1]);
      StepKeepsInv(Run(w, actions[..|actions| - 1]).value, actions[|actions| - 1]);
    }
  }

  // ---- What it guarantees ----

  predicate IsNew(w: Watch) {
    w == New(w.startedAt, w.stall, w.loop.heldTold, w.loop.pc.Selecting?)
  }

  ghost predicate Reaches(w0: Watch, actions: seq<Action>, w: Watch) {
    IsNew(w0) && Run(w0, actions) == Some(w)
  }

  /** A send yields at most one notice of each kind, so at most three. */
  lemma AtMostThreeNotices(w0: Watch, actions: seq<Action>, w: Watch)
    requires Reaches(w0, actions, w)
    ensures !w.loop.heldNote.More? && !w.loop.stallNote.More? && !w.turn.endNote.More?
  {
    RunKeepsInv(w0, actions);
  }

  /** What a run never takes back, and what it cannot add any more. */
  ghost predicate LoopLater(l: Loop, m: Loop) {
    && l.quietSince <= m.quietSince
    && (l.heldTold ==> m.heldTold)
    && (l.heldTold && !l.pc.AskingCaller? ==> m.heldNote == l.heldNote && !m.pc.AskingCaller?)
    && (l.sawStart ==> m.sawStart && m.heldNote == l.heldNote)
  }

  ghost predicate TurnLater(t: Turn, u: Turn) {
    && (t.started ==> u.started) && (t.replied ==> u.replied && u.emitted == t.emitted)
    && (t.pc.Over? ==> u.pc.Over? && u.endNote == t.endNote)
    && (t.pc == Ending(Replied) ==> (u.pc == t.pc || u.pc.Over?) && u.endNote == t.endNote)
  }

  ghost predicate Later(v: Watch, w: Watch) {
    v.startedAt == w.startedAt && v.stall == w.stall && LoopLater(v.loop, w.loop) && TurnLater(v.turn, w.turn)
  }

  lemma LoopIsLater(w: Watch, a: LoopAction)
    requires Inv(w) && LoopStep(w, a).Some?
    ensures LoopLater(w.loop, LoopStep(w, a).value)
  {
  }

  lemma StepIsLater(w: Watch, a: Action)
    requires Inv(w) && Step(w, a).Some?
    ensures Later(w, Step(w, a).value)
  {
    if a.OfLoop? {
      LoopIsLater(w, a.l);
    }
  }

  lemma {:induction false} RunIsLater(w: Watch, actions: seq<Action>)
    requires Inv(w) && Run(w, actions).Some?
    ensures Later(w, Run(w, actions).value)
    decreases |actions|
  {
    if actions != [] {
      var init := actions[..|actions| - 1];
      RunIsLater(w, init);
      RunKeepsInv(w, init);
      StepIsLater(Run(w, init).value, actions[|actions| - 1]);
    }
  }

  /** A caller that was told at the send gets no held notice. */
  lemma ToldAtSend(w0: Watch, actions: seq<Action>, w: Watch)
    requires Reaches(w0, actions, w) && w0.loop.heldTold
    ensures w.loop.heldNote.Never?
  {
    RunIsLater(w0, actions);
  }

  lemma {:induction false} RunConcat(w: Watch, a: seq<Action>, b: seq<Action>)
    requires Run(w, a).Some?
    ensures Run(w, a + b) == Run(Run(w, a).value, b)
    decreases |b|
  {
    if b == [] {
      assert a + b == a;
    } else {
      RunConcat(w, a, b[..|b| - 1]);
      assert (a + b)[..|a + b| - 1] == a + b[..|b| - 1];
    }
  }

  lemma Continues(w0: Watch, before: seq<Action>, v: Watch, after: seq<Action>, w: Watch)
    requires Reaches(w0, before, v) && Reaches(w0, before + after, w)
    ensures Later(w0, v) && Later(v, w) && Inv(v) && Inv(w)
  {
    RunIsLater(w0, before);
    RunKeepsInv(w0, before);
    RunKeepsInv(w0, before + after);
    RunConcat(w0, before, after);
    RunIsLater(v, after);
  }

  /** Once the loop has seen the turn start, no held notice is sent any more. */
  lemma NoHeldNoticeAfterStart(w0: Watch, before: seq<Action>, v: Watch,
                               after: seq<Action>, w: Watch)
    requires Reaches(w0, before, v) && v.loop.sawStart
    requires Reaches(w0, before + after, w)
    ensures w.loop.heldNote == v.loop.heldNote
  {
    Continues(w0, before, v, after, w);
  }

  /** The quiet time only moves forward. */
  lemma QuietSinceIsMonotone(w0: Watch, before: seq<Action>, v: Watch,
                             after: seq<Action>, w: Watch)
    requires Reaches(w0, before, v) && Reaches(w0, before + after, w)
    ensures w0.startedAt <= v.loop.quietSince <= w.loop.quietSince <= w.clock
  {
    Continues(w0, before, v, after, w);
  }

  /** A turn that succeeded with a reply adds no notice of its own. */
  lemma SuccessAddsNone(w0: Watch, before: seq<Action>, v: Watch,
                        after: seq<Action>, w: Watch)
    requires Reaches(w0, before, v) && v.turn.pc == Ending(Replied)
    requires Reaches(w0, before + after, w)
    ensures w.turn.endNote.Never?
  {
    Continues(w0, before, v, after, w);
  }

  /** The stall notice is due exactly when, a whole stall period before the round, the watch had begun and every sign
      of life that any poll of the run has seen was over: an unavailable target, or activity. It is sent once, since
      the loop ends with it. */
  lemma StallExactly(w0: Watch, actions: seq<Action>, w: Watch)
    requires Reaches(w0, actions, w)
    requires w.loop.pc.Measured? && !(w.turn.started && w.loop.pc.last.None?)
    ensures
      var v, due := Step(w, OfLoop(Compare)).value, w.loop.pc.now - w0.stall;
      && (v.loop.stallNote.Once? <==>
          w0.startedAt <= due && (w.loop.pc.last.Some? ==> w.loop.pc.last.value <= due)
          && forall i :: 0 <= i < |w.loop.signs| ==> w.loop.signs[i].at <= due)
      && (v.loop.stallNote.Once? <==> v.loop.pc.Gone?)
  {
    RunKeepsInv(w0, actions);
    RunIsLater(w0, actions);
    LatestIsLatest(w0.startedAt, w.loop.signs, w.loop.pc.now - w0.stall);
  }

  /** The loop leaves exactly when it sees its context done, or the watch finished, or has sent the stall notice. */
  lemma LeavesExactly(w: Watch, a: Action)
    requires Inv(w) && Step(w, a).Some? && !w.loop.pc.Gone?
    ensures
      var v := Step(w, a).value;
      v.loop.pc.Gone? <==>
      || (a == OfLoop(SeeCtx) && w.ctxDone) || (a == OfLoop(SeeDone) && w.turn.done)
      || v.loop.stallNote != w.loop.stallNote
  {
    if a.OfLoop? {
      LeavesExactlyLoop(w, a.l);
    }
  }

  lemma LeavesExactlyLoop(w: Watch, a: LoopAction)
    requires LoopNotesHold(w.loop, w.turn.started) && LoopStep(w, a).Some? && !w.loop.pc.Gone?
    ensures
      var m := LoopStep(w, a).value;
      m.pc.Gone? <==>
      (a == SeeCtx && w.ctxDone) || (a == SeeDone && w.turn.done) || m.stallNote != w.loop.stallNote
  {
  }

  /** What a watch has seen is what its run did: its context is done exactly after a stop, the turn has started, replied
      and been finished exactly after it did, and a loop that was live has left exactly after it saw the one or the
      other end, or sent the stall notice. */
  ghost predicate Tells(live: bool, actions: seq<Action>, w: Watch) {
    && (w.ctxDone <==> StopAll in actions)
    && (w.turn.started <==> OfTurn(Start) in actions)
    && (w.turn.done <==> OfTurn(Finish) in actions)
    && (w.turn.replied <==> OfTurn(EndTurn(Replied)) in actions)
    && (live ==> (w.loop.pc.Gone? <==>
                  OfLoop(SeeCtx) in actions || OfLoop(SeeDone) in actions || w.loop.stallNote.Once?))
  }

  lemma LoopStepTells(live: bool, init: seq<Action>, v: Watch, a: LoopAction)
    requires Inv(v) && Tells(live, init, v) && LoopStep(v, a).Some?
    ensures Tells(live, init + [OfLoop(a)], Step(v, OfLoop(a)).value)
  {
    var l := LoopStep(v, a).value;
    assert l.pc.Gone? <==> v.loop.pc.Gone? || a.SeeCtx? || a.SeeDone? || l.stallNote.Once?;
  }

  lemma OtherStepTells(live: bool, init: seq<Action>, v: Watch, a: Action)
    requires Inv(v) && Tells(live, init, v) && Step(v, a).Some? && !a.OfLoop?
    ensures Tells(live, init + [a], Step(v, a).value)
  {
  }

  lemma {:induction false} RunTells(w0: Watch, actions: seq<Action>, w: Watch)
    requires Reaches(w0, actions, w)
    ensures Tells(w0.loop.pc.Selecting?, actions, w)
    decreases |actions|
  {
    if actions != [] {
      var init, a := actions[..|actions| - 1], actions[|actions| - 1];
      var v := Run(w0, init).value;
      RunTells(w0, init, v);
      RunKeepsInv(w0, init);
      assert actions == init + [a];
      if a.OfLoop? {
        LoopStepTells(w0.loop.pc.Selecting?, init, v, a.l);
      } else {
        OtherStepTells(w0.loop.pc.Selecting?, init, v, a);
      }
    }
  }

  /** A running turn with no activity to read cannot be told apart from a slow one: the round changes nothing. */
  lemma NothingToReadNoStall(w: Watch)
    requires w.loop.pc.Measured? && w.turn.started && w.loop.pc.last.None?
    ensures
      var v := Step(w, OfLoop(Compare));
      && v.Some? && v.value.turn == w.turn
      && v.value.loop == w.loop.(pc := Selecting, sawStart := true)
  {
  }

  /** ... and nothing else sends one. */
  lemma OnlyComparingStalls(w: Watch, a: Action)
    requires Inv(w) && Step(w, a).Some? && a != OfLoop(Compare)
    ensures Step(w, a).value.loop.stallNote == w.loop.stallNote
  {
    if a.OfLoop? {
      OnlyComparingStallsLoop(w, a.l);
    }
  }

  lemma OnlyComparingStallsLoop(w: Watch, a: LoopAction)
    requires LoopStep(w, a).Some? && !a.Compare?
    ensures LoopStep(w, a).value.stallNote == w.loop.stallNote
  {
  }

  /** When a caller is told of a hold, whatever else goes on: by the read that finds it not held itself, in a round that
      found the target unavailable, the caller not told, and the turn not started when it looked. Looking at an
      unstarted turn is what marks the caller as told. */
  lemma HeldExactly(w: Watch, a: Action)
    requires Inv(w) && Step(w, a).Some?
    ensures
      var v := Step(w, a).value;
      && (v.loop.heldNote != w.loop.heldNote <==> a == OfLoop(ReadCaller(false)))
      && (!w.loop.pc.AskingCaller? ==>
          (v.loop.pc.AskingCaller? <==> a == OfLoop(LookStarted) && !w.loop.heldTold && !w.turn.started))
      && (v.loop.heldTold != w.loop.heldTold <==> a == OfLoop(LookStarted) && !w.loop.heldTold && !w.turn.started)
      && (!w.loop.pc.SawHold? ==> (v.loop.pc.SawHold? <==> a == OfLoop(ReadTarget(true))))
  {
    if a.OfLoop? {
      HeldExactlyLoop(w, a.l);
    }
  }

  lemma HeldExactlyLoop(w: Watch, a: LoopAction)
    requires LoopNotesHold(w.loop, w.turn.started) && LoopStep(w, a).Some?
    ensures
      var l, m := w.loop, LoopStep(w, a).value;
      && (m.heldNote != l.heldNote <==> a == ReadCaller(false))
      && (!l.pc.AskingCaller? ==> (m.pc.AskingCaller? <==> a == LookStarted && !l.heldTold && !w.turn.started))
      && (m.heldTold != l.heldTold <==> a == LookStarted && !l.heldTold && !w.turn.started)
      && (!l.pc.SawHold? ==> (m.pc.SawHold? <==> a == ReadTarget(true)))
  {
  }

  /** When the end of the message is told: it was refused, or its turn was, and no hold keeps it; the turn met the
      rate limit, or failed; or it gave no reply and the target is unavailable. The watch is finished first. */
  lemma EndNoticeExactly(t: Turn, clock: int, held: bool) returns (u: Turn)
    requires TurnHolds(t) && (t.pc.Ending? || t.pc.Refusing?)
    ensures
      var mid := TurnStep(t, clock, Finish);
      && mid.Some? && mid.value.done && mid.value.endNote.Never?
      && (if mid.value.pc.Over? then u == mid.value else TurnStep(mid.value, clock, Judge(held)) == Some(u))
    ensures u.pc.Over?
    ensures
      u.endNote.Once? <==>
        if t.pc.Refusing? || t.pc.end.ShutDown? then !held
        else t.pc.end.Limited? || t.pc.end.Failed? || (t.pc.end.NoReply? && held)
  {
    u := TurnStep(t, clock, Finish).value;
    if !u.pc.Over? {
      u := TurnStep(u, clock, Judge(held)).value;
    }
  }

  // ---- A stall notice after the reply ----

  /** The round has read the activity before the turn's last event. */
  predicate ReadBefore(w: Watch) {
    w.loop.pc.Measured? && w.loop.pc.seen != w.turn.emitted
  }

  /** A caller whose message was answered is told that it was not only if a whole stall period has passed between the
      reply's last event and the round, or the round read the activity before that event. With nothing newer to see,
      and read after it, it is told exactly then. */
  lemma StallAfterReply(w0: Watch, actions: seq<Action>, w: Watch)
    requires Reaches(w0, actions, w) && w.turn.replied && w.loop.pc.Measured?
    ensures w.turn.emitted.Some? && Step(w, OfLoop(Compare)).Some?
    ensures
      var told, due := Step(w, OfLoop(Compare)).value.loop.stallNote.Once?, w.loop.pc.now - w0.stall;
      && (told ==> w.turn.emitted.value <= due || w.loop.pc.seen != w.turn.emitted)
      && (w.loop.pc.last == w.turn.emitted && !ReadBefore(w) && w.loop.quietSince <= w.turn.emitted.value ==>
          (told <==> w.turn.emitted.value <= due))
  {
    RunKeepsInv(w0, actions);
    RunIsLater(w0, actions);
  }

  /** From `w` on, a stall notice can still be sent, or has been. */
  ghost predicate CanBeStalled(w: Watch) {
    exists more :: StalledAfter(Run(w, more))
  }

  ghost predicate StalledAfter(w: Option<Watch>) {
    w.Some? && !w.value.loop.stallNote.Never?
  }

  /** A stall notice not yet sent can still be, the message answered or not, exactly as long as the loop has not left.
      So the end of the watch alone does not keep it away. */
  lemma StallNoticeStillDue(w0: Watch, actions: seq<Action>, w: Watch)
    requires Reaches(w0, actions, w) && w.loop.stallNote.Never?
    ensures CanBeStalled(w) <==> !w.loop.pc.Gone?
  {
    RunKeepsInv(w0, actions);
    if w.loop.pc.Gone? {
      if more :| StalledAfter(Run(w, more)) {
        GoneIsGone(w, more);
      }
    } else {
      var more, v := BackToSelect(w);
      RunKeepsInv(w, more);
      if v.loop.stallNote.Never? {
        more, v := WaitsAndTells(w, more, v);
      }
      assert StalledAfter(Run(w, more));
    }
  }

  lemma {:induction false} GoneIsGone(w: Watch, actions: seq<Action>)
    requires w.loop.pc.Gone? && Run(w, actions).Some?
    ensures Run(w, actions).value.loop == w.loop
    decreases |actions|
  {
    if actions != [] {
      GoneIsGone(w, actions[..|actions| - 1]);
    }
  }

  /** The round goes on to its end. */
  lemma BackToSelect(w: Watch) returns (actions: seq<Action>, v: Watch)
    requires !w.loop.pc.Gone? && w.loop.stallNote.Never?
    ensures Run(w, actions) == Some(v) && (v.loop.pc.Selecting? || !v.loop.stallNote.Never?)
  {
    actions, v := [], w;
    if v.loop.pc.Ticked? {
      actions, v := Extend(w, actions, v, OfLoop(ReadTarget(false)));
    }
    if v.loop.pc.SawHold? || v.loop.pc.AskingCaller? {
      actions, v := HoldEnds(w);
    } else if v.loop.pc.Available? || v.loop.pc.Measured? {
      actions, v := ComparisonEnds(w, actions, v);
    }
  }

  lemma HoldEnds(w: Watch) returns (actions: seq<Action>, v: Watch)
    requires w.loop.pc.SawHold? || w.loop.pc.AskingCaller?
    ensures Run(w, actions) == Some(v) && v.loop.pc.Selecting?
  {
    actions, v := [], w;
    if v.loop.pc.SawHold? {
      actions, v := Extend(w, actions, v, OfLoop(LookStarted));
    }
    if v.loop.pc.AskingCaller? {
      actions, v := Extend(w, actions, v, OfLoop(ReadCaller(true)));
    }
  }

  lemma ComparisonEnds(w: Watch, actions: seq<Action>, v: Watch) returns (actions': seq<Action>, v': Watch)
    requires Run(w, actions) == Some(v) && (v.loop.pc.Available? || v.loop.pc.Measured?)
    ensures Run(w, actions') == Some(v') && (v'.loop.pc.Selecting? || v'.loop.stallNote == v.loop.stallNote.Inc())
  {
    actions', v' := actions, v;
    if v'.loop.pc.Available? {
      actions', v' := Extend(w, actions', v', OfLoop(ReadActivity(None)));
    }
    ComparingEnds(v');
    actions', v' := Extend(w, actions', v', OfLoop(Compare));
  }

  lemma ComparingEnds(v: Watch)
    requires v.loop.pc.Measured?
    ensures
      var next := Step(v, OfLoop(Compare));
      next.Some? && (next.value.loop.pc.Selecting? || next.value.loop.stallNote == v.loop.stallNote.Inc())
  {
  }

  /** A round a whole stall period later, that sees nothing new. */
  lemma WaitsAndTells(w: Watch, actions: seq<Action>, v: Watch) returns (actions': seq<Action>, v': Watch)
    requires Run(w, actions) == Some(v) && Inv(v) && v.loop.pc.Selecting? && v.loop.stallNote.Never?
    ensures Run(w, actions') == Some(v') && v'.loop.stallNote.Once?
  {
    var last := if v.turn.emitted.Some? then v.turn.emitted.value else v.loop.quietSince;
    var now := v.clock + (if v.stall > 0 then v.stall else 0);
    actions', v' := Measures(w, actions, v, now, last);
    actions', v' := Extend(w, actions', v', OfLoop(Compare));
  }

  // ---- Runs that show what can happen ----

  lemma Extend(w0: Watch, actions: seq<Action>, w: Watch, a: Action) returns (actions': seq<Action>, w': Watch)
    requires Run(w0, actions) == Some(w) && Step(w, a).Some?
    ensures actions' == actions + [a] && Run(w0, actions') == Some(w') && Step(w, a) == Some(w')
  {
    actions' := actions + [a];
    w' := Step(w, a).value;
    assert actions'[..|actions'| - 1] == actions;
  }

  const LOOP_NEW := Loop(Selecting, 0, false, [], false, Never, Never)
  const LOOP_HELD := Loop(Selecting, 0, true, [WasHeld(0)], false, Once, Never)
  const TURN_QUEUED := Turn(Queued, false, false, None, false, Never)

  /** A loop whose first round tells the caller of a hold. */
  lemma HeldTold(w0: Watch) returns (actions: seq<Action>, w: Watch)
    requires w0 == New(0, 10, false, true)
    ensures Reaches(w0, actions, w) && w == Watch(0, 10, 0, false, LOOP_HELD, TURN_QUEUED)
  {
    actions, w := Extend(w0, [], w0, OfLoop(Tick));
    assert w == Watch(0, 10, 0, false, LOOP_NEW.(pc := Ticked(0)), TURN_QUEUED);
    actions, w := Extend(w0, actions, w, OfLoop(ReadTarget(true)));
    assert w.loop == LOOP_NEW.(pc := SawHold, signs := [WasHeld(0)]);
    actions, w := Extend(w0, actions, w, OfLoop(LookStarted));
    actions, w := Extend(w0, actions, w, OfLoop(ReadCaller(false)));
  }

  lemma HeldAndStalled(w0: Watch) returns (actions: seq<Action>, w: Watch)
    requires w0 == New(0, 10, false, true)
    ensures Reaches(w0, actions, w)
    ensures w == Watch(0, 10, 10, false, LOOP_HELD.(pc := Gone, stallNote := Once), TURN_QUEUED)
  {
    actions, w := HeldTold(w0);
    actions, w := Extend(w0, actions, w, Advance(10));
    actions, w := Extend(w0, actions, w, OfLoop(Tick));
    assert w.loop == LOOP_HELD.(pc := Ticked(10));
    actions, w := Extend(w0, actions, w, OfLoop(ReadTarget(false)));
    actions, w := Extend(w0, actions, w, OfLoop(ReadActivity(None)));
    assert w.loop == LOOP_HELD.(pc := Measured(10, None, None));
    actions, w := Extend(w0, actions, w, OfLoop(Compare));
  }

  /** All three notices do come about. */
  lemma ThreeNotices(w0: Watch) returns (actions: seq<Action>, w: Watch)
    requires w0 == New(0, 10, false, true)
    ensures Reaches(w0, actions, w) && w.loop.heldNote.Once? && w.loop.stallNote.Once? && w.turn.endNote.Once?
  {
    actions, w := HeldAndStalled(w0);
    actions, w := Extend(w0, actions, w, OfTurn(Start));
    actions, w := Extend(w0, actions, w, OfTurn(EndTurn(Failed)));
    actions, w := Extend(w0, actions, w, OfTurn(Finish));
    actions, w := Extend(w0, actions, w, OfTurn(Judge(false)));
  }

  /** A turn started at 0 that replies at 10. */
  lemma Replies(w0: Watch, actions: seq<Action>, w: Watch) returns (actions': seq<Action>, w': Watch)
    requires Run(w0, actions) == Some(w) && w.clock == 10 && w.turn == TURN_QUEUED.(pc := Running, started := true)
    ensures Run(w0, actions') == Some(w')
    ensures w' == w.(turn := Turn(Over, true, true, Some(10), true, Never))
  {
    actions', w' := Extend(w0, actions, w, OfTurn(Emit));
    actions', w' := Extend(w0, actions', w', OfTurn(EndTurn(Replied)));
    actions', w' := Extend(w0, actions', w', OfTurn(Finish));
  }

  lemma Started(w0: Watch) returns (actions: seq<Action>, w: Watch)
    requires w0 == New(0, 10, false, true)
    ensures Reaches(w0, actions, w)
    ensures w == Watch(0, 10, 10, false, LOOP_NEW, TURN_QUEUED.(pc := Running, started := true))
  {
    actions, w := Extend(w0, [], w0, OfTurn(Start));
    actions, w := Extend(w0, actions, w, Advance(10));
  }

  /** One round that reads the activity `last` at `now`. */
  lemma Measures(w0: Watch, actions: seq<Action>, w: Watch, now: int, last: int)
    returns (actions': seq<Action>, w': Watch)
    requires Run(w0, actions) == Some(w) && w.clock <= now && w.loop.pc.Selecting?
    requires CanRead(Some(last), now, w.turn.emitted)
    ensures Run(w0, actions') == Some(w')
    ensures w' == w.(clock := now, loop := w.loop.(pc := Measured(now, Some(last), w.turn.emitted)))
  {
    actions', w' := Extend(w0, actions, w, Advance(now));
    actions', w' := Extend(w0, actions', w', OfLoop(Tick));
    actions', w' := Extend(w0, actions', w', OfLoop(ReadTarget(false)));
    actions', w' := Extend(w0, actions', w', OfLoop(ReadActivity(Some(last))));
  }

  /** The notice after the reply, by time: the turn replies at 10, the loop takes a tick at 20 though the watch is
      finished, since its select may take any ready arm, and finds the reply a whole stall period old. */
  lemma StallNoticeAfterReply(w0: Watch) returns (before: seq<Action>, v: Watch, after: seq<Action>, w: Watch)
    requires w0 == New(0, 10, false, true)
    ensures Reaches(w0, before, v) && v.turn.replied && v.turn.done && v.loop.pc.Selecting? && v.loop.stallNote.Never?
    ensures Run(v, after) == Some(w) && w.loop.stallNote.Once?
  {
    before, v := Started(w0);
    before, v := Replies(w0, before, v);
    after, w := Measures(v, [], v, 20, 10);
    after, w := Extend(v, after, w, OfLoop(Compare));
  }

  /** ... and by a read that came too early: the round reads at 10, the turn replies, and the round compares. */
  lemma StallNoticeOverReply(w0: Watch) returns (before: seq<Action>, v: Watch, w: Watch)
    requires w0 == New(0, 10, false, true)
    ensures Reaches(w0, before, v) && v.turn.replied && v.turn.done && ReadBefore(v) && v.clock == 10
    ensures Step(v, OfLoop(Compare)) == Some(w) && w.loop.stallNote.Once? && v.turn.emitted == Some(10)
  {
    before, v := Started(w0);
    before, v := Measures(w0, before, v, 10, 0);
    before, v := Replies(w0, before, v);
    w := Step(v, OfLoop(Compare)).value;
  }
}
