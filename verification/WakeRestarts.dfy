/**
 One reminder row under several starts of its agent (cmd/foci-gw/agents_notify.go, buildWakeScheduler and
 restorePendingWakes). A stop leaves the row pending and the next start arms it again, while the goroutine of an
 earlier start may still be past its select. The starts share the row and nothing else.
*/
module WakeRestarts {
  import opened Wrappers
  import opened WakeProtocol
  import opened WakeGuarantees

  /** The row's wake in each start, the latest last; the agent's ctx of every earlier start has ended. */
  datatype Chain = Chain(wakes: seq<Wake>, stopped: bool)

  const FIRST_START := Chain([SCHEDULED], false)

  predicate StoppedAt(c: Chain, i: int) {
    i < |c.wakes| - 1 || c.stopped
  }

  /** The row is there until one of the starts has deleted it. */
  predicate RowThere(c: Chain) {
    forall w | w in c.wakes :: w.sh.row
  }

  datatype ChainEvent = ActAt(i: int, action: Action) | StopLatest | StartAgain

  function ApplyTo(c: Chain, e: ChainEvent): Option<Chain> {
    match e
    case StopLatest => Some(c.(stopped := true))
    case StartAgain => if c.stopped && RowThere(c) then Some(Chain(c.wakes + [SCHEDULED], false)) else None
    case ActAt(i, a) =>
      if !(0 <= i < |c.wakes|) then None
      else
        var w := Step(c.wakes[i], StoppedAt(c, i), a);
        if w.None? then None else Some(c.(wakes := c.wakes[i := w.value]))
  }

  /** A start arms the row afresh, and only once the last one has stopped and while the row is pending; the wakes of the
      earlier starts stay as they are. */
  lemma StartsAgainExactly(c: Chain, z: Chain)
    ensures
      ApplyTo(c, StartAgain) == Some(z) <==>
      && c.stopped && (forall w | w in c.wakes :: w.sh.row)
      && |z.wakes| == |c.wakes| + 1 && z.wakes[|c.wakes|] == SCHEDULED && !z.stopped
      && forall i | 0 <= i < |c.wakes| :: z.wakes[i] == c.wakes[i]
  {
    if |z.wakes| == |c.wakes| + 1 && z.wakes[|c.wakes|] == SCHEDULED {
      assert (forall i | 0 <= i < |c.wakes| :: z.wakes[i] == c.wakes[i]) ==> z.wakes == c.wakes + [SCHEDULED];
    }
  }

  function RunOn(c: Chain, events: seq<ChainEvent>): Option<Chain>
    decreases |events|
  {
    if events == [] then Some(c)
    else
      var before := RunOn(c, events[..|events| - 1]);
      if before.None? then None else ApplyTo(before.value, events[|events| - 1])
  }

  ghost predicate AllHold(c: Chain) {
    forall i | 0 <= i < |c.wakes| :: Inv(c.wakes[i])
  }

  lemma ApplyKeepsInv(c: Chain, e: ChainEvent)
    requires AllHold(c) && ApplyTo(c, e).Some?
    ensures AllHold(ApplyTo(c, e).value) && |ApplyTo(c, e).value.wakes| >= |c.wakes|
  {
    if e.ActAt? {
      StepKeepsInv(c.wakes[e.i], StoppedAt(c, e.i), e.action);
    }
  }

  lemma {:induction false} RunKeepsAll(c: Chain, events: seq<ChainEvent>)
    requires AllHold(c) && RunOn(c, events).Some?
    ensures AllHold(RunOn(c, events).value) && |RunOn(c, events).value.wakes| >= |c.wakes|
    decreases |events|
  {
    if events != [] {
      RunKeepsAll(c, events[..|events| - 1]);
      ApplyKeepsInv(RunOn(c, events[..|events| - 1]).value, events[|events| - 1]);
    }
  }

  ghost predicate Reached(events: seq<ChainEvent>, c: Chain) {
    RunOn(FIRST_START, events) == Some(c)
  }

  predicate IsQueued(w: Wake) {
    !w.enqueues.Never?
  }

  /** Each start queues the row at most once. */
  lemma OncePerStart(events: seq<ChainEvent>, c: Chain, i: nat)
    requires Reached(events, c) && i < |c.wakes|
    ensures !c.wakes[i].enqueues.More?
  {
    RunKeepsAll(FIRST_START, events);
  }

  // ---- Which starts can queue it ----

  /** It has queued the row, or can still: it has claimed it for firing, or has its entry and its goroutine has not
      taken the stop arm. */
  predicate CanQueue(w: Wake) {
    IsQueued(w) || StillOn(w)
  }

  lemma ApplyStaysOff(c: Chain, e: ChainEvent, i: nat)
    requires i < |c.wakes| && !CanQueue(c.wakes[i]) && ApplyTo(c, e).Some?
    ensures i < |ApplyTo(c, e).value.wakes| && !CanQueue(ApplyTo(c, e).value.wakes[i])
  {
    if e.ActAt? && e.i == i {
      StepStaysOff(c.wakes[i], StoppedAt(c, i), e.action);
    }
  }

  lemma {:induction false} RunStaysOffAt(c: Chain, events: seq<ChainEvent>, i: nat)
    requires i < |c.wakes| && !CanQueue(c.wakes[i]) && RunOn(c, events).Some?
    ensures i < |RunOn(c, events).value.wakes| && !CanQueue(RunOn(c, events).value.wakes[i])
    decreases |events|
  {
    if events != [] {
      RunStaysOffAt(c, events[..|events| - 1], i);
      ApplyStaysOff(RunOn(c, events[..|events| - 1]).value, events[|events| - 1], i);
    }
  }

  lemma OneMore(c0: Chain, events: seq<ChainEvent>, c: Chain, i: nat, a: Action, w: Wake)
    returns (events': seq<ChainEvent>, c': Chain)
    requires RunOn(c0, events) == Some(c) && i < |c.wakes| && Step(c.wakes[i], StoppedAt(c, i), a) == Some(w)
    ensures RunOn(c0, events') == Some(c') && c' == c.(wakes := c.wakes[i := w])
  {
    events' := events + [ActAt(i, a)];
    c' := c.(wakes := c.wakes[i := w]);
    assert events'[..|events'| - 1] == events;
  }

  /** From anywhere start `i` is still on, it can go on to queue the row, and nothing else moves. */
  lemma QueueAt(c0: Chain, events: seq<ChainEvent>, c: Chain, i: nat) returns (events': seq<ChainEvent>, c': Chain)
    requires RunOn(c0, events) == Some(c) && i < |c.wakes| && CanQueue(c.wakes[i])
    ensures RunOn(c0, events') == Some(c') && c'.stopped == c.stopped && |c'.wakes| == |c.wakes|
    ensures IsQueued(c'.wakes[i])
    ensures forall j | 0 <= j < |c.wakes| && j != i :: c'.wakes[j] == c.wakes[j]
  {
    events', c' := events, c;
    if IsQueued(c.wakes[i]) {
      return;
    }
    events', c' := ToClaim(c0, events, c, i);
    var w := c'.wakes[i];
    if w.pc.Resolved? {
      events', c' := OneMore(c0, events', c', i, Claim, Step(w, StoppedAt(c', i), Claim).value);
    }
    w := c'.wakes[i];
    w := w.(enqueues := w.enqueues.Inc(), pc := Queued(w.pc.target));
    events', c' := OneMore(c0, events', c', i, Enqueue(true), w);
  }

  lemma ToClaim(c0: Chain, events: seq<ChainEvent>, c: Chain, i: nat) returns (events': seq<ChainEvent>, c': Chain)
    requires RunOn(c0, events) == Some(c) && i < |c.wakes| && StillOn(c.wakes[i])
    ensures RunOn(c0, events') == Some(c') && c'.stopped == c.stopped && |c'.wakes| == |c.wakes|
    ensures StillOn(c'.wakes[i]) && (c'.wakes[i].pc.Resolved? || c'.wakes[i].pc.Firing?)
    ensures forall j | 0 <= j < |c.wakes| && j != i :: c'.wakes[j] == c.wakes[j]
  {
    events', c' := events, c;
    var w := c.wakes[i];
    if w.pc.Waiting? {
      w := w.(pc := TimerArm);
      events', c' := OneMore(c0, events', c', i, TimerFires, w);
    }
    if w.pc.TimerArm? {
      w := w.(pc := Awaiting("a/c1"));
      events', c' := OneMore(c0, events', c', i, ResolveSession("a/c1"), w);
    }
    if w.pc.Awaiting? {
      w := w.(pc := Resolved(w.pc.sk));
      events', c' := OneMore(c0, events', c', i, OwnerKnown(""), w);
    }
  }

  /** All of the first `n` starts that can, do. */
  lemma {:induction false} QueueFirst(c: Chain, n: nat) returns (events: seq<ChainEvent>, z: Chain)
    requires n <= |c.wakes|
    ensures RunOn(c, events) == Some(z) && |z.wakes| == |c.wakes|
    ensures forall i | 0 <= i < n && CanQueue(c.wakes[i]) :: IsQueued(z.wakes[i])
    ensures forall i | n <= i < |c.wakes| :: z.wakes[i] == c.wakes[i]
  {
    if n == 0 {
      return [], c;
    }
    events, z := QueueFirst(c, n - 1);
    if CanQueue(c.wakes[n - 1]) {
      events, z := QueueAt(c, events, z, n - 1);
    }
  }

  /** In some continuation of `c` exactly the starts of `which` have queued the row, among those so far. */
  ghost predicate CanEndWith(c: Chain, which: set<int>) {
    exists more :: EndsWith(RunOn(c, more), |c.wakes|, which)
  }

  ghost predicate EndsWith(z: Option<Chain>, n: nat, which: set<int>) {
    z.Some? && |z.value.wakes| >= n && forall i | 0 <= i < n :: IsQueued(z.value.wakes[i]) <==> i in which
  }

  function Able(c: Chain): set<int> {
    set i | 0 <= i < |c.wakes| && CanQueue(c.wakes[i])
  }

  /** How often the starts so far can queue one row: exactly as many times as there are starts that have queued it or
      are still on. All of those can, in one run, and no run has another do so. */
  lemma QueuedExactly(events: seq<ChainEvent>, c: Chain)
    requires Reached(events, c)
    ensures CanEndWith(c, Able(c))
    ensures forall which | CanEndWith(c, which) :: forall i | i in which && 0 <= i < |c.wakes| :: i in Able(c)
  {
    RunKeepsAll(FIRST_START, events);
    var more, z := QueueFirst(c, |c.wakes|);
    forall i | 0 <= i < |c.wakes| ensures IsQueued(z.wakes[i]) <==> i in Able(c) {
      if !CanQueue(c.wakes[i]) {
        RunStaysOffAt(c, more, i);
      }
    }
    assert EndsWith(RunOn(c, more), |c.wakes|, Able(c));
    forall which | CanEndWith(c, which) ensures forall i | i in which && 0 <= i < |c.wakes| :: i in Able(c) {
      OnlyTheAble(c, which);
    }
  }

  lemma OnlyTheAble(c: Chain, which: set<int>)
    requires CanEndWith(c, which)
    ensures forall i | i in which && 0 <= i < |c.wakes| :: i in Able(c)
  {
    var more :| EndsWith(RunOn(c, more), |c.wakes|, which);
    forall i | i in which && 0 <= i < |c.wakes| ensures i in Able(c) {
      if !CanQueue(c.wakes[i]) {
        RunStaysOffAt(c, more, i);
        assert false;
      }
    }
  }

  // ---- Twice ----

  /** Two of the starts so far queue the row in some continuation. */
  ghost predicate CanBeQueuedTwice(c: Chain) {
    exists which :: CanEndWith(c, which) && Two(which, |c.wakes|)
  }

  predicate Two(which: set<int>, n: nat) {
    exists i, j :: 0 <= i < j < n && i in which && j in which
  }

  /** A row armed again can be queued twice exactly when an earlier start has queued it or is still on. */
  lemma TwiceExactly(events: seq<ChainEvent>, c: Chain)
    requires Reached(events, c) && ApplyTo(c, StartAgain).Some?
    ensures CanBeQueuedTwice(ApplyTo(c, StartAgain).value) <==> Able(c) != {}
  {
    var z := ApplyTo(c, StartAgain).value;
    var n := |c.wakes|;
    var longer := events + [StartAgain];
    assert longer[..|longer| - 1] == events;
    QueuedExactly(longer, z);
    AbleGrows(c, z);
    if i :| i in Able(c) {
      assert i in Able(z) && n in Able(z);
      assert Two(Able(z), |z.wakes|);
    }
    if CanBeQueuedTwice(z) {
      TwiceNeedsEarlier(c, z);
    }
  }

  lemma TwiceNeedsEarlier(c: Chain, z: Chain)
    requires Able(z) == Able(c) + {|c.wakes|} && |z.wakes| == |c.wakes| + 1 && CanBeQueuedTwice(z)
    ensures Able(c) != {}
  {
    var which :| CanEndWith(z, which) && Two(which, |z.wakes|);
    var i, j :| 0 <= i < j < |z.wakes| && i in which && j in which;
    OnlyTheAble(z, which);
    assert i in Able(z);
  }

  lemma AbleGrows(c: Chain, z: Chain)
    requires z == Chain(c.wakes + [SCHEDULED], false)
    ensures Able(z) == Able(c) + {|c.wakes|}
  {
    assert forall i | 0 <= i < |c.wakes| :: z.wakes[i] == c.wakes[i];
  }

  /** ... which happens: the agent stops and starts again while the first goroutine waits for the wake's owner. */
  lemma QueuedTwice() returns (events: seq<ChainEvent>, c: Chain)
    ensures Reached(events, c) && c == Chain([SCHEDULED.(pc := Awaiting("a/c1")), SCHEDULED], false)
    ensures CanBeQueuedTwice(c)
  {
    events, c := OneMore(FIRST_START, [], FIRST_START, 0, TimerFires, SCHEDULED.(pc := TimerArm));
    events, c := OneMore(FIRST_START, events, c, 0, ResolveSession("a/c1"), SCHEDULED.(pc := Awaiting("a/c1")));
    var stopped := events + [StopLatest];
    assert stopped[..|stopped| - 1] == events;
    c := c.(stopped := true);
    assert 0 in Able(c);
    TwiceExactly(stopped, c);
    events := stopped + [StartAgain];
    assert events[..|events| - 1] == stopped;
    c := ApplyTo(c, StartAgain).value;
  }
}
