/**
 Offering a prompt to its chats (cmd/foci-gw/agents_delegated.go, postBackendPrompt; cmd/foci-gw/ask_setup.go,
 newAskPresentFn). What a chat's connection does is an oracle, and so is whether it is still the same connection
 when the send resolves it again.
*/
module PromptDelivery {
  import opened Wrappers
  import opened PromptTargets

  /** Approval prompts go to the owner's default chat, questions to the asking session's. */
  datatype Kind = Approval | Question

  /** refuses: its platform cannot show approval prompts to a human who may approve them. */
  datatype Conn = Conn(name: string, refuses: bool)

  /** One chat's behaviour: the connection the loop resolves, the one SendInteractiveMessageWithID resolves
      afterwards, and whether that one takes the message. */
  datatype Chat = Chat(first: Option<Conn>, again: Option<Conn>, takes: bool)

  datatype Effect =
    | AttachmentTried(target: Key)
    | SendTried(target: Key, conn: Conn)
    | RefusalNotice(target: Key)
    | Denied(ok: bool)
    | ListenerRegistered(target: Key)
    | FailedUndeliverable(tried: seq<Key>, ok: bool)
    | FailedUnattended(owner: Key, ok: bool)

  datatype Outcome = ShownIn(target: Key) | DeniedAt(target: Key) | Undeliverable | Unattended(owner: Key)

  /** What each chat does; one that is not listed has no connection. */
  type Chatting = map<Key, Chat>

  function At(chats: Chatting, k: Key): Chat {
    if k in chats then chats[k] else Chat(None, None, false)
  }

  /** A session with no chat of its own resolves to no connection. */
  lemma UnlistedHasNoConnection(chats: Chatting, k: Key)
    ensures k !in chats ==> At(chats, k).first.None? && At(chats, k).again.None?
    ensures k in chats ==> At(chats, k) == chats[k]
  {
  }

  predicate CanShow(c: Chat) {
    c.first.Some? && c.again.Some? && c.takes
  }

  predicate Refuses(kind: Kind, c: Chat) {
    kind.Approval? && c.first.Some? && c.first.value.refuses
  }

  /** The offer ends at this chat. */
  predicate Stops(kind: Kind, c: Chat) {
    Refuses(kind, c) || CanShow(c)
  }

  /** The first chat at which the offer ends, |targets| when it ends at none. */
  function FirstStop(kind: Kind, chats: Chatting, targets: seq<Key>): (i: nat)
    ensures i <= |targets|
    ensures i < |targets| ==> Stops(kind, At(chats, targets[i]))
    ensures forall j :: 0 <= j < i ==> !Stops(kind, At(chats, targets[j]))
  {
    if targets == [] then 0
    else if Stops(kind, At(chats, targets[0])) then 0
    else 1 + FirstStop(kind, chats, targets[1..])
  }

  /** What sending to one chat leaves behind, shown or not. */
  function SendEffects(c: Chat, target: Key, attachment: bool): seq<Effect> {
    if c.first.None? then []
    else (if attachment then [AttachmentTried(target)] else [])
         + (if c.again.Some? then [SendTried(target, c.again.value)] else [])
  }

  function OfferEffects(chats: Chatting, targets: seq<Key>, attachment: bool): seq<Effect> {
    if targets == [] then []
    else OfferEffects(chats, targets[..|targets| - 1], attachment)
         + SendEffects(At(chats, targets[|targets| - 1]), targets[|targets| - 1], attachment)
  }

  /** The answers that settle a prompt: one of them, and one only, must be given. */
  predicate Settles(e: Effect) {
    e.Denied? || e.ListenerRegistered? || e.FailedUndeliverable? || e.FailedUnattended?
  }

  /** The last effect settles the prompt and nothing before it does. */
  predicate SettledOnceAtTheEnd(es: seq<Effect>) {
    es != [] && Settles(es[|es| - 1]) && forall i :: 0 <= i < |es| - 1 ==> !Settles(es[i])
  }

  lemma {:induction false} OfferSettlesNothing(chats: Chatting, targets: seq<Key>, attachment: bool)
    ensures forall e :: e in OfferEffects(chats, targets, attachment) ==> !Settles(e)
  {
    if targets != [] {
      OfferSettlesNothing(chats, targets[..|targets| - 1], attachment);
    }
  }

  /** How far down the list the prompt is sent: up to the chat that shows it, and not to one that refuses it. */
  function Offered(kind: Kind, chats: Chatting, targets: seq<Key>): seq<Key> {
    var i := FirstStop(kind, chats, targets);
    if i == |targets| then targets
    else if Refuses(kind, At(chats, targets[i])) then targets[..i]
    else targets[..i + 1]
  }

  function Ending(kind: Kind, chats: Chatting, targets: seq<Key>, answers: bool): seq<Effect> {
    var i := FirstStop(kind, chats, targets);
    if i == |targets| then [FailedUndeliverable(targets, answers)]
    else if Refuses(kind, At(chats, targets[i])) then [RefusalNotice(targets[i]), Denied(answers)]
    else [ListenerRegistered(targets[i])]
  }

  function Ends(kind: Kind, chats: Chatting, targets: seq<Key>): Outcome {
    var i := FirstStop(kind, chats, targets);
    if i == |targets| then Undeliverable
    else if Refuses(kind, At(chats, targets[i])) then DeniedAt(targets[i])
    else ShownIn(targets[i])
  }

  /** Everything a backend prompt does, in order, and how it ends. `answers`: whether the call that denies or fails it
      works; the source logs one that errs, and gives up. */
  datatype Delivery = Delivery(effects: seq<Effect>, outcome: Outcome)

  function Deliver(d: Deps, kind: Kind, sessionKey: Key, chats: Chatting, attachment: bool, answers: bool): Delivery {
    var ts := PromptRoute(d, sessionKey).targets;
    if PromptGateCloses(d, sessionKey) then Delivery([FailedUnattended(ts[0], answers)], Unattended(ts[0]))
    else
      var sent := OfferEffects(chats, Offered(kind, chats, ts), attachment);
      Delivery(sent + Ending(kind, chats, ts, answers), Ends(kind, chats, ts))
  }

  /** The prompt has got its settlement: shown, or told to the backend. */
  predicate Lands(e: Effect) {
    e.ListenerRegistered? || ((e.Denied? || e.FailedUndeliverable? || e.FailedUnattended?) && e.ok)
  }

  /** Every prompt is settled exactly once, whatever the chats do: its cancel listener is registered in the one chat
      that shows it, or it is denied, or it fails. It stays unsettled exactly when no chat shows it and the call that
      would deny or fail it errs. */
  lemma SettledOnce(d: Deps, kind: Kind, sessionKey: Key, chats: Chatting, attachment: bool, answers: bool)
    ensures
      var r := Deliver(d, kind, sessionKey, chats, attachment, answers);
      && SettledOnceAtTheEnd(r.effects)
      && EndsAs(r.effects, r.outcome, PromptRoute(d, sessionKey).targets, answers)
      && ((exists e :: e in r.effects && Lands(e)) <==> r.outcome.ShownIn? || answers)
  {
    var ts := PromptRoute(d, sessionKey).targets;
    var r := Deliver(d, kind, sessionKey, chats, attachment, answers);
    if PromptGateCloses(d, sessionKey) {
      assert r.effects == [FailedUnattended(ts[0], answers)];
    } else {
      OfferSettlesNothing(chats, Offered(kind, chats, ts), attachment);
      SettledByEnding(OfferEffects(chats, Offered(kind, chats, ts), attachment), kind, chats, ts, answers);
    }
    LandsAtTheEnd(r.effects);
  }

  /** The last effects say how the prompt ended. */
  predicate EndsAs(es: seq<Effect>, o: Outcome, ts: seq<Key>, answers: bool) {
    match o
    case ShownIn(k) => [ListenerRegistered(k)] == Last(es, 1)
    case DeniedAt(k) => [RefusalNotice(k), Denied(answers)] == Last(es, 2)
    case Undeliverable => [FailedUndeliverable(ts, answers)] == Last(es, 1)
    case Unattended(k) => es == [FailedUnattended(k, answers)]
  }

  function Last(es: seq<Effect>, n: nat): seq<Effect> {
    if n <= |es| then es[|es| - n..] else es
  }

  lemma SettledByEnding(sent: seq<Effect>, kind: Kind, chats: Chatting, ts: seq<Key>, answers: bool)
    requires forall e :: e in sent ==> !Settles(e)
    ensures
      var es := sent + Ending(kind, chats, ts, answers);
      SettledOnceAtTheEnd(es) && EndsAs(es, Ends(kind, chats, ts), ts, answers)
  {
    var es := sent + Ending(kind, chats, ts, answers);
    forall i | 0 <= i < |es| - 1 ensures !Settles(es[i]) {
      if i < |sent| {
        assert es[i] in sent;
      }
    }
  }

  lemma LandsAtTheEnd(es: seq<Effect>)
    requires SettledOnceAtTheEnd(es)
    ensures (exists e :: e in es && Lands(e)) <==> Lands(es[|es| - 1])
  {
    assert es[|es| - 1] in es;
    if e :| e in es && Lands(e) {
      var i :| 0 <= i < |es| && es[i] == e;
      assert i == |es| - 1;
    }
  }

  /** Target `i` shows or refuses the prompt, and none before it does either. */
  ghost predicate FirstAt(kind: Kind, chats: Chatting, ts: seq<Key>, i: int) {
    && 0 <= i < |ts| && Stops(kind, At(chats, ts[i]))
    && forall j :: 0 <= j < i ==> !Refuses(kind, At(chats, ts[j])) && !CanShow(At(chats, ts[j]))
  }

  ghost predicate FirstIs(kind: Kind, chats: Chatting, ts: seq<Key>, o: Outcome) {
    match o
    case ShownIn(k) =>
      exists i ::
        FirstAt(kind, chats, ts, i) && ts[i] == k && CanShow(At(chats, k)) && !Refuses(kind, At(chats, k))
    case DeniedAt(k) => exists i :: FirstAt(kind, chats, ts, i) && ts[i] == k && Refuses(kind, At(chats, k))
    case Undeliverable => forall k :: k in ts ==> !Refuses(kind, At(chats, k)) && !CanShow(At(chats, k))
    case Unattended(_) => false
  }

  /** The chat that shows the prompt is the first of the list that can, and for an approval no chat before it
      refused; it is denied at the first chat that refuses, if none before it could show it; it fails exactly when
      no chat can show it and none refuses. */
  lemma OutcomeIsTheFirst(d: Deps, kind: Kind, sessionKey: Key, chats: Chatting, attachment: bool, answers: bool)
    requires !PromptGateCloses(d, sessionKey)
    ensures
      var o := Deliver(d, kind, sessionKey, chats, attachment, answers).outcome;
      FirstIs(kind, chats, PromptRoute(d, sessionKey).targets, o)
  {
    var ts := PromptRoute(d, sessionKey).targets;
    assert Deliver(d, kind, sessionKey, chats, attachment, answers).outcome == Ends(kind, chats, ts);
    EndsAtTheFirst(kind, chats, ts);
  }

  lemma EndsAtTheFirst(kind: Kind, chats: Chatting, ts: seq<Key>)
    ensures FirstIs(kind, chats, ts, Ends(kind, chats, ts))
  {
    var i := FirstStop(kind, chats, ts);
    if i < |ts| {
      assert ts[i] in ts && FirstAt(kind, chats, ts, i);
    }
  }

  /** The chat resolves to a connection, twice, and the second one takes the message. */
  predicate Shows(c: Chat) {
    c.first.Some? && c.again.Some? && c.takes
  }

  /** Its connection, as first resolved, refuses approvals. */
  predicate OnRefuser(c: Chat) {
    c.first.Some? && c.first.value.refuses
  }

  /** A question is never denied: it is shown in the first chat that can show it, whatever any platform says about
      approvals, and fails exactly when there is none. */
  lemma QuestionsExactly(d: Deps, sessionKey: Key, chats: Chatting, attachment: bool, answers: bool)
    requires !PromptGateCloses(d, sessionKey)
    ensures
      var ts := PromptRoute(d, sessionKey).targets;
      var o := Deliver(d, Question, sessionKey, chats, attachment, answers).outcome;
      && (o.ShownIn? || o.Undeliverable?)
      && (forall i | 0 <= i < |ts| && Shows(At(chats, ts[i])) && (forall j | 0 <= j < i :: !Shows(At(chats, ts[j]))) ::
            o == ShownIn(ts[i]))
      && (o.Undeliverable? <==> forall i | 0 <= i < |ts| :: !Shows(At(chats, ts[i])))
  {
    FirstStopIs(Question, chats, PromptRoute(d, sessionKey).targets);
  }

  /** An approval goes to the first chat that either refuses approvals or can show it: denied if it refuses, shown if
      not, and failed exactly when there is none. */
  lemma ApprovalsExactly(d: Deps, sessionKey: Key, chats: Chatting, attachment: bool, answers: bool)
    requires !PromptGateCloses(d, sessionKey)
    ensures
      var ts := PromptRoute(d, sessionKey).targets;
      var o := Deliver(d, Approval, sessionKey, chats, attachment, answers).outcome;
      && (forall i | 0 <= i < |ts| && (OnRefuser(At(chats, ts[i])) || Shows(At(chats, ts[i])))
            && (forall j | 0 <= j < i :: !OnRefuser(At(chats, ts[j])) && !Shows(At(chats, ts[j]))) ::
            o == if OnRefuser(At(chats, ts[i])) then DeniedAt(ts[i]) else ShownIn(ts[i]))
      && (o.Undeliverable? <==>
          forall i | 0 <= i < |ts| :: !OnRefuser(At(chats, ts[i])) && !Shows(At(chats, ts[i])))
      && !o.Unattended?
  {
    FirstStopIs(Approval, chats, PromptRoute(d, sessionKey).targets);
  }

  /** With the gate closed nothing is offered. */
  lemma GateClosedExactly(d: Deps, kind: Kind, sessionKey: Key, chats: Chatting, attachment: bool, answers: bool)
    ensures
      var r := Deliver(d, kind, sessionKey, chats, attachment, answers);
      r.outcome.Unattended? <==> PromptGateCloses(d, sessionKey)
    ensures
      PromptGateCloses(d, sessionKey) ==>
      var k := PromptRoute(d, sessionKey).targets[0];
      Deliver(d, kind, sessionKey, chats, attachment, answers) ==
      Delivery([FailedUnattended(k, answers)], Unattended(k))
  {
  }

  lemma FirstStopIs(kind: Kind, chats: Chatting, ts: seq<Key>)
    ensures
      forall i | 0 <= i < |ts| && Stops(kind, At(chats, ts[i]))
          && (forall j | 0 <= j < i :: !Stops(kind, At(chats, ts[j]))) ::
        i == FirstStop(kind, chats, ts)
  {
  }

  /** Which chats are offered the prompt: all up to the one that ends the offer, and that one too unless it refuses. */
  lemma OfferedExactly(kind: Kind, chats: Chatting, ts: seq<Key>, i: nat)
    requires i <= |ts| && forall j | 0 <= j < i :: !Ender(kind, At(chats, ts[j]))
    requires i < |ts| ==> Ender(kind, At(chats, ts[i]))
    ensures
      Offered(kind, chats, ts) ==
      if i == |ts| then ts else if kind.Approval? && OnRefuser(At(chats, ts[i])) then ts[..i] else ts[..i + 1]
  {
    var stop := FirstStop(kind, chats, ts);
    assert i < |ts| ==> Stops(kind, At(chats, ts[i]));
    assert stop < i ==> Ender(kind, At(chats, ts[stop]));
  }

  predicate Ender(kind: Kind, c: Chat) {
    Shows(c) || (kind.Approval? && OnRefuser(c))
  }

  /** What is sent to the chats that are offered the prompt: the prompt to each that resolves twice, on the second
      connection, with the attachment before it, and the attachment to each that resolves at all. */
  lemma {:induction false} SentExactly(chats: Chatting, targets: seq<Key>, attachment: bool)
    ensures
      var es := OfferEffects(chats, targets, attachment);
      && (forall k, conn :: SendTried(k, conn) in es <==>
            k in targets && At(chats, k).first.Some? && At(chats, k).again == Some(conn))
      && (forall k :: AttachmentTried(k) in es <==> attachment && k in targets && At(chats, k).first.Some?)
      && (attachment ==>
          forall i | 0 <= i < |es| && es[i].SendTried? :: i > 0 && es[i - 1] == AttachmentTried(es[i].target))
  {
    if targets != [] {
      var init, last := targets[..|targets| - 1], targets[|targets| - 1];
      SentExactly(chats, init, attachment);
      assert targets == init + [last];
      SentToOne(chats, init, last, attachment);
    }
  }

  lemma SentToOne(chats: Chatting, init: seq<Key>, last: Key, attachment: bool)
    ensures
      var c, es := At(chats, last), SendEffects(At(chats, last), last, attachment);
      && (forall k, conn :: SendTried(k, conn) in es <==> k == last && c.first.Some? && c.again == Some(conn))
      && (forall k :: AttachmentTried(k) in es <==> attachment && k == last && c.first.Some?)
      && (attachment ==>
          forall i | 0 <= i < |es| && es[i].SendTried? :: i > 0 && es[i - 1] == AttachmentTried(es[i].target))
  {
  }

  /** Target `i` of the list, and no chat before it ended the offer. */
  ghost predicate ReachedFirst(kind: Kind, chats: Chatting, targets: seq<Key>, k: Key) {
    exists i :: 0 <= i < |targets| && targets[i] == k && !Refuses(kind, At(chats, k))
      && forall j :: 0 <= j < i ==> !Stops(kind, At(chats, targets[j]))
  }

  lemma {:induction false} SendsAreOffers(chats: Chatting, targets: seq<Key>, attachment: bool, e: Effect)
    requires e in OfferEffects(chats, targets, attachment)
    ensures (e.SendTried? || e.AttachmentTried?) && e.target in targets
  {
    var init, last := targets[..|targets| - 1], targets[|targets| - 1];
    if e in OfferEffects(chats, init, attachment) {
      SendsAreOffers(chats, init, attachment, e);
    } else {
      assert e in SendEffects(At(chats, last), last, attachment);
    }
  }

  /** Nothing is sent to a chat that refuses the prompt, as first seen, nor to any chat after one that refuses it or
      shows it. */
  lemma NothingAfterTheStop(d: Deps, kind: Kind, sessionKey: Key, chats: Chatting, attachment: bool, answers: bool,
                            e: Effect)
    requires e in Deliver(d, kind, sessionKey, chats, attachment, answers).effects
    requires e.SendTried? || e.AttachmentTried?
    ensures ReachedFirst(kind, chats, PromptRoute(d, sessionKey).targets, e.target)
  {
    var ts := PromptRoute(d, sessionKey).targets;
    var offered := Offered(kind, chats, ts);
    SendsBeforeTheEnd(OfferEffects(chats, offered, attachment), Ending(kind, chats, ts, answers), e);
    SendsAreOffers(chats, offered, attachment, e);
    OfferedIsReachedFirst(kind, chats, ts, e.target);
  }

  lemma SendsBeforeTheEnd(sent: seq<Effect>, ending: seq<Effect>, e: Effect)
    requires e in sent + ending && forall x :: x in ending ==> !x.SendTried? && !x.AttachmentTried?
    requires e.SendTried? || e.AttachmentTried?
    ensures e in sent
  {
  }

  lemma OfferedIsReachedFirst(kind: Kind, chats: Chatting, ts: seq<Key>, k: Key)
    requires k in Offered(kind, chats, ts)
    ensures ReachedFirst(kind, chats, ts, k)
  {
    var stop := FirstStop(kind, chats, ts);
    var i :| 0 <= i < |Offered(kind, chats, ts)| && Offered(kind, chats, ts)[i] == k;
    assert ts[i] == k && i <= stop;
  }

  // ---- No approval on a platform that refuses them ----

  predicate SentToRefuser(es: seq<Effect>) {
    exists e :: e in es && e.SendTried? && e.conn.refuses
  }

  /** The chat's connection, seen not to refuse, is replaced by one that does before the send resolves it. */
  predicate TurnsRefuser(c: Chat) {
    c.first.Some? && !c.first.value.refuses && c.again.Some? && c.again.value.refuses
  }

  lemma {:induction false} OfferReachesRefuser(chats: Chatting, targets: seq<Key>, attachment: bool)
    requires forall k :: k in targets ==> !Refuses(Approval, At(chats, k))
    ensures
      SentToRefuser(OfferEffects(chats, targets, attachment)) <==>
      exists k :: k in targets && TurnsRefuser(At(chats, k))
  {
    if targets != [] {
      var init, last := targets[..|targets| - 1], targets[|targets| - 1];
      assert targets == init + [last];
      OfferReachesRefuser(chats, init, attachment);
      var before, now := OfferEffects(chats, init, attachment), SendEffects(At(chats, last), last, attachment);
      assert SentToRefuser(before + now) <==> SentToRefuser(before) || SentToRefuser(now);
      SendReachesRefuser(At(chats, last), last, attachment);
    }
  }

  lemma SendReachesRefuser(c: Chat, target: Key, attachment: bool)
    requires !Refuses(Approval, c)
    ensures SentToRefuser(SendEffects(c, target, attachment)) <==> TurnsRefuser(c)
  {
    if TurnsRefuser(c) {
      assert SendTried(target, c.again.value) in SendEffects(c, target, attachment);
    }
  }

  /** An approval is sent to a connection that refuses approvals exactly when, at a chat it is offered to, the
      connection was replaced by a refusing one between the check and the send: the send resolves it again. */
  lemma ApprovalReachesRefuserOnlyByRace(d: Deps, sessionKey: Key, chats: Chatting, attachment: bool, answers: bool)
    ensures
      var ts := PromptRoute(d, sessionKey).targets;
      SentToRefuser(Deliver(d, Approval, sessionKey, chats, attachment, answers).effects) <==>
      !PromptGateCloses(d, sessionKey) && exists k :: k in Offered(Approval, chats, ts) && TurnsRefuser(At(chats, k))
  {
    var ts := PromptRoute(d, sessionKey).targets;
    if !PromptGateCloses(d, sessionKey) {
      var offered := Offered(Approval, chats, ts);
      OfferedDoNotRefuse(chats, ts);
      OfferReachesRefuser(chats, offered, attachment);
      var sent, ending := OfferEffects(chats, offered, attachment), Ending(Approval, chats, ts, answers);
      assert forall e :: e in ending ==> !e.SendTried?;
      assert SentToRefuser(sent + ending) <==> SentToRefuser(sent);
    }
  }

  lemma OfferedDoNotRefuse(chats: Chatting, targets: seq<Key>)
    ensures forall k :: k in Offered(Approval, chats, targets) ==> !Refuses(Approval, At(chats, k))
  {
  }

  /** The race is there: an approval from session a/c1, resolved to a connection that shows approvals, is sent to a
      refusing one. */
  lemma ApprovalRace(d: Deps, chats: Chatting, answers: bool)
    requires d.owner.None? && d.parse("a/c1") == Some(KeyInfo("a/c1", true, false)) && d.defaultSession.None?
    requires At(chats, "a/c1") == Chat(Some(Conn("app", false)), Some(Conn("slack", true)), true)
    ensures SentToRefuser(Deliver(d, Approval, "a/c1", chats, false, answers).effects)
    ensures Deliver(d, Approval, "a/c1", chats, false, answers).outcome == ShownIn("a/c1")
  {
    assert PromptRoute(d, "a/c1").targets == ["a/c1"];
    assert "a/c1" in Offered(Approval, chats, ["a/c1"]);
    ApprovalReachesRefuserOnlyByRace(d, "a/c1", chats, false, answers);
  }

  // ---- The loops as the source runs them ----

  method PostBackendPrompt(d: Deps, kind: Kind, sessionKey: Key, chats: Chatting, attachment: bool, answers: bool)
    returns (r: Delivery)
    ensures r == Deliver(d, kind, sessionKey, chats, attachment, answers)
  {
    var route := PromptRoute(d, sessionKey);
    if route.spawned && |route.targets| > 0 && Closed(d, route.targets[0]) {
      return Delivery([FailedUnattended(route.targets[0], answers)], Unattended(route.targets[0]));
    }
    r := Offer(kind, route.targets, chats, attachment, answers);
  }

  /** To one chat, when it has a connection: the attachment, whose failure is not fatal, and then the prompt. */
  method SendTo(chat: Chat, target: Key, attachment: bool) returns (tried: seq<Effect>, shown: bool)
    ensures tried == SendEffects(chat, target, attachment) && shown == CanShow(chat)
  {
    tried := [];
    if chat.first.None? {
      return tried, false;
    }
    if attachment {
      tried := tried + [AttachmentTried(target)];
    }
    if chat.again.None? {
      return tried, false;
    }
    tried := tried + [SendTried(target, chat.again.value)];
    shown := chat.takes;
  }

  /** After the first `i` chats, none of which ended the offer. */
  ghost predicate OfferedTo(kind: Kind, targets: seq<Key>, chats: Chatting, attachment: bool, i: nat,
                            effects: seq<Effect>, failures: seq<Key>)
    requires i <= |targets|
  {
    && effects == OfferEffects(chats, targets[..i], attachment) && failures == targets[..i]
    && forall j :: 0 <= j < i ==> !Stops(kind, At(chats, targets[j]))
  }

  method Offer(kind: Kind, targets: seq<Key>, chats: Chatting, attachment: bool, answers: bool) returns (r: Delivery)
    ensures
      r.effects ==
      OfferEffects(chats, Offered(kind, chats, targets), attachment) + Ending(kind, chats, targets, answers)
    ensures r.outcome == Ends(kind, chats, targets)
  {
    var failures: seq<Key> := [];
    var effects: seq<Effect> := [];
    for i := 0 to |targets|
      invariant OfferedTo(kind, targets, chats, attachment, i, effects, failures)
    {
      var target, chat := targets[i], At(chats, targets[i]);
      ghost var before := effects;
      if Refuses(kind, chat) {
        r := Delivery(effects + [RefusalNotice(target), Denied(answers)], DeniedAt(target));
        StopsHere(kind, targets, chats, attachment, i, effects, failures);
        return;
      }
      var tried, shown := SendTo(chat, target, attachment);
      effects := effects + tried;
      if shown {
        r := Delivery(effects + [ListenerRegistered(target)], ShownIn(target));
        StopsHere(kind, targets, chats, attachment, i, before, failures);
        return;
      }
      OfferOneMore(kind, targets, chats, attachment, i, before, failures);
      failures := failures + [target];
    }
    r := Delivery(effects + [FailedUndeliverable(failures, answers)], Undeliverable);
    StopsNowhere(kind, targets, chats, attachment, effects, failures);
  }

  lemma OfferOneMore(kind: Kind, targets: seq<Key>, chats: Chatting, attachment: bool, i: nat,
                     effects: seq<Effect>, failures: seq<Key>)
    requires i < |targets| && OfferedTo(kind, targets, chats, attachment, i, effects, failures)
    requires !Stops(kind, At(chats, targets[i]))
    ensures OfferedTo(kind, targets, chats, attachment, i + 1,
                      effects + SendEffects(At(chats, targets[i]), targets[i], attachment), failures + [targets[i]])
  {
    assert targets[..i + 1][..i] == targets[..i];
  }

  lemma StopsHere(kind: Kind, targets: seq<Key>, chats: Chatting, attachment: bool, i: nat,
                  effects: seq<Effect>, failures: seq<Key>)
    requires i < |targets| && OfferedTo(kind, targets, chats, attachment, i, effects, failures)
    requires Stops(kind, At(chats, targets[i]))
    ensures FirstStop(kind, chats, targets) == i
    ensures OfferEffects(chats, Offered(kind, chats, targets), attachment) ==
            if Refuses(kind, At(chats, targets[i])) then effects
            else effects + SendEffects(At(chats, targets[i]), targets[i], attachment)
  {
    assert targets[..i + 1][..i] == targets[..i];
  }

  lemma StopsNowhere(kind: Kind, targets: seq<Key>, chats: Chatting, attachment: bool,
                     effects: seq<Effect>, failures: seq<Key>)
    requires OfferedTo(kind, targets, chats, attachment, |targets|, effects, failures)
    ensures FirstStop(kind, chats, targets) == |targets| && failures == targets
    ensures OfferEffects(chats, Offered(kind, chats, targets), attachment) == effects
  {
    assert targets[..|targets|] == targets;
  }

  /** The presenter of one ask question: the chat that shows it, or why nobody saw it. */
  datatype AskError = OwnerChatClosed | NoChatShowedIt(tried: seq<Key>)

  method PresentAsk(d: Deps, sessionKey: Key, chats: Chatting) returns (r: Result<Key, AskError>)
    ensures AskRoute(d, sessionKey).targets != []
    ensures r == Err(OwnerChatClosed) <==> AskGateCloses(d, sessionKey)
    ensures !AskGateCloses(d, sessionKey) ==> FirstToShow(chats, AskRoute(d, sessionKey).targets, r)
  {
    SpawnRoutesAgree(d, sessionKey);
    var targets := AskRoute(d, sessionKey).targets;
    if d.chatClosed.Some? && targets[0] != sessionKey && d.chatClosed.value(targets[0]) {
      return Err(OwnerChatClosed);
    }
    r := PresentIn(targets, chats);
  }

  /** `r` names the first chat whose connection takes the question, or every chat tried when none does. */
  ghost predicate FirstToShow(chats: Chatting, targets: seq<Key>, r: Result<Key, AskError>) {
    match r
    case Ok(k) =>
      exists i ::
        && 0 <= i < |targets| && k == targets[i] && Takes(At(chats, k))
        && forall j :: 0 <= j < i ==> !Takes(At(chats, targets[j]))
    case Err(e) => e == NoChatShowedIt(targets) && forall k :: k in targets ==> !Takes(At(chats, k))
  }

  predicate Takes(c: Chat) {
    c.again.Some? && c.takes
  }

  method PresentIn(targets: seq<Key>, chats: Chatting) returns (r: Result<Key, AskError>)
    ensures FirstToShow(chats, targets, r)
  {
    var failures := [];
    for i := 0 to |targets|
      invariant failures == targets[..i]
      invariant forall j :: 0 <= j < i ==> !Takes(At(chats, targets[j]))
    {
      var target := targets[i];
      if At(chats, target).again.None? || !At(chats, target).takes {
        failures := failures + [target];
        continue;
      }
      return Ok(target);
    }
    r := Err(NoChatShowedIt(failures));
  }
}
