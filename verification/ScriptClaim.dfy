/**
 The one-shot claim of a stub script (cmd/cc-stub/main.go, loadScript) as a step system over one shared path.

 Turns that load the script and writers that arm the next one interleave between any two file operations. A
 write puts a new version at the path in one step; a claim renames whatever is there to a name of the turn's
 own, so only the turn reaches it there.
*/
module ScriptClaim {
  import opened Wrappers

  type Turn = int

  /** `id` numbers the writes in order: a version with the greater id was written later. */
  datatype Version = Version(id: nat, bytes: string)

  /** What the bytes parse to, as far as loading looks: the text that a message must contain. */
  type Parser = string -> Option<string>

  predicate Contains(text: string, sub: string) {
    exists i :: 0 <= i <= |text| && sub <= text[i..]
  }

  predicate Matches(aim: string, text: string) {
    aim == "" || Contains(text, aim)
  }

  /** The text holds what the script aims at, somewhere. */
  lemma ContainsExactly(text: string, sub: string)
    ensures Contains(text, sub) <==> exists before, after :: text == before + sub + after
    ensures Matches("", text)
    ensures sub != "" ==> (Matches(sub, text) <==> exists before, after :: text == before + sub + after)
  {
    if Contains(text, sub) {
      var i :| 0 <= i <= |text| && sub <= text[i..];
      assert text == text[..i] + sub + text[i + |sub|..];
    }
    if before, after :| text == before + sub + after {
      assert sub <= text[|before|..];
    }
  }

  predicate AimedAt(parse: Parser, v: Version, text: string) {
    parse(v.bytes).Some? && Matches(parse(v.bytes).value, text)
  }

  /** A parseable version that another turn's message is meant for. */
  predicate AimedElsewhere(parse: Parser, v: Version, text: string) {
    parse(v.bytes).Some? && !Matches(parse(v.bytes).value, text)
  }

  datatype Why = Unread | Unparseable | LinkFailed

  /** How a turn that claimed a version ends; only Applied gives the caller a script. */
  datatype Result = Applied | Restored | Lost(why: Why)

  datatype Pc =
    | Peeking
    | Renaming             // the peeked script was aimed at this turn
    | Rereading            // holds the version it renamed
    | Linking              // holds a version aimed elsewhere
    | Removing(r: Result)  // about to remove its private name
    | Done(r: Result)
    | NoScript             // claimed nothing

  /** `claim`: the version it renamed. `since`: how many versions had been written by then. `others`: the
      versions that other turns held at that moment and meant to put back. The last two record history; no step reads
      them. */
  datatype Loader = Loader(text: string, pc: Pc, claim: Option<Version>, since: nat, others: set<nat>)

  /** Where a version is, or how it ended. */
  datatype Place = AtPath | With(t: Turn) | Overwritten

  /** `places` is history: where each version written so far is. */
  datatype State = State(path: Option<Version>, written: nat, loaders: map<Turn, Loader>, places: map<nat, Place>)

  const INITIAL := State(None, 0, map[], map[])

  datatype Action = Peek(ok: bool) | Rename(ok: bool) | Reread(ok: bool) | Link(ok: bool) | Remove

  datatype Event = Write(bytes: string) | Arrive(t: Turn, text: string) | Act(t: Turn, a: Action)

  /** It holds a version that it will try to put back. */
  predicate Holding(parse: Parser, l: Loader) {
    (l.pc.Rereading? || l.pc.Linking?) && l.claim.Some? && AimedElsewhere(parse, l.claim.value, l.text)
  }

  function HeldByOthers(parse: Parser, s: State, t: Turn): set<nat> {
    set u | u in s.loaders && u != t && Holding(parse, s.loaders[u]) :: s.loaders[u].claim.value.id
  }

  function Overwrite(s: State): map<nat, Place> {
    if s.path.Some? then s.places[s.path.value.id := Overwritten] else s.places
  }

  function Put(s: State, t: Turn, l: Loader): State {
    s.(loaders := s.loaders[t := l])
  }

  /** What a turn that holds `v` does once it has read it back. */
  function Judge(parse: Parser, v: Version, text: string): Pc {
    if parse(v.bytes).None? then Removing(Lost(Unparseable))
    else if Matches(parse(v.bytes).value, text) then Removing(Applied)
    else Linking
  }

  /** One file operation of turn `t`; None when it is not the next one. A rename without a file at the path fails,
      and so does a link with one. The removal of the private name may fail without anybody noticing. */
  function Step(parse: Parser, s: State, t: Turn, a: Action): Option<State>
    requires t in s.loaders
  {
    var l := s.loaders[t];
    match a
    case Peek(ok) =>
      if !l.pc.Peeking? then None
      else if ok && s.path.Some? && AimedAt(parse, s.path.value, l.text) then Some(Put(s, t, l.(pc := Renaming)))
      else Some(Put(s, t, l.(pc := NoScript)))
    case Rename(ok) =>
      if !l.pc.Renaming? then None
      else if !ok || s.path.None? then Some(Put(s, t, l.(pc := NoScript)))
      else
        var claimed := l.(pc := Rereading, claim := s.path, since := s.written, others := HeldByOthers(parse, s, t));
        Some(Put(s, t, claimed).(path := None, places := s.places[s.path.value.id := With(t)]))
    case Reread(ok) =>
      if !l.pc.Rereading? || l.claim.None? then None
      else Some(Put(s, t, l.(pc := if ok then Judge(parse, l.claim.value, l.text) else Removing(Lost(Unread)))))
    case Link(ok) =>
      if !l.pc.Linking? || l.claim.None? then None
      else if ok && s.path.None? then
        Some(Put(s, t, l.(pc := Removing(Restored))).(path := l.claim, places := s.places[l.claim.value.id := AtPath]))
      else Some(Put(s, t, l.(pc := Removing(Lost(LinkFailed)))))
    case Remove => if l.pc.Removing? then Some(Put(s, t, l.(pc := Done(l.pc.r)))) else None
  }

  function Apply(parse: Parser, s: State, e: Event): Option<State> {
    match e
    case Write(bytes) =>
      Some(s.(path := Some(Version(s.written, bytes)), written := s.written + 1,
              places := Overwrite(s)[s.written := AtPath]))
    case Arrive(t, text) => if t in s.loaders then None else Some(Put(s, t, Loader(text, Peeking, None, 0, {})))
    case Act(t, a) => if t in s.loaders then Step(parse, s, t, a) else None
  }

  function Run(parse: Parser, s: State, events: seq<Event>): Option<State>
    decreases |events|
  {
    if events == [] then Some(s)
    else
      var before := Run(parse, s, events[..|events| - 1]);
      if before.None? then None else Apply(parse, before.value, events[|events| - 1])
  }

  // ---- The invariant ----

  predicate Ends(pc: Pc, r: Result) {
    pc == Removing(r) || pc == Done(r)
  }

  /** The version it claimed is still its own: held, applied or lost, and not put back. */
  predicate Owning(l: Loader) {
    l.claim.Some? && !Ends(l.pc, Restored)
  }

  ghost predicate LoaderHolds(parse: Parser, s: State, l: Loader) {
    && ((l.pc.Peeking? || l.pc.Renaming? || l.pc.NoScript?) <==> l.claim.None?)
    && (l.claim.Some? ==>
      && l.claim.value.id < l.since <= s.written
      && (l.pc.Linking? || Ends(l.pc, Restored) || Ends(l.pc, Lost(LinkFailed)) ==>
          AimedElsewhere(parse, l.claim.value, l.text))
      && (Ends(l.pc, Applied) ==> AimedAt(parse, l.claim.value, l.text))
      && (Ends(l.pc, Lost(Unparseable)) ==> parse(l.claim.value.bytes).None?))
  }

  /** Every version has one place. */
  ghost predicate Placed(s: State) {
    && (forall id :: id in s.places <==> 0 <= id < s.written)
    && (s.path.Some? ==> s.path.value.id in s.places)
    && (forall id | id in s.places :: s.places[id].AtPath? <==> s.path.Some? && s.path.value.id == id)
    && (forall t | t in s.loaders && Owning(s.loaders[t]) ::
        s.loaders[t].claim.value.id in s.places && s.places[s.loaders[t].claim.value.id] == With(t))
    && (forall id | id in s.places && s.places[id].With? ::
        && s.places[id].t in s.loaders
        && Owning(s.loaders[s.places[id].t])
        && s.loaders[s.places[id].t].claim.value.id == id)
  }

  /** While `t` holds its claim, whatever is at the path or due to be put back by another turn was written after the
      claim or was due to be put back at the claim. */
  ghost predicate Ordered(parse: Parser, s: State, t: Turn)
    requires t in s.loaders
  {
    var l := s.loaders[t];
    Holding(parse, l) ==>
      && (s.path.Some? ==> s.path.value.id >= l.since || s.path.value.id in l.others)
      && (forall id | id in HeldByOthers(parse, s, t) :: id >= l.since || id in l.others)
  }

  ghost predicate Inv(parse: Parser, s: State) {
    && Placed(s)
    && (forall t | t in s.loaders :: LoaderHolds(parse, s, s.loaders[t]))
    && (forall t | t in s.loaders :: Ordered(parse, s, t))
  }

  lemma HeldIsHeld(parse: Parser, s: State, t: Turn, u: Turn)
    requires u in s.loaders && u != t && Holding(parse, s.loaders[u])
    ensures s.loaders[u].claim.value.id in HeldByOthers(parse, s, t)
  {
  }

  /** What others hold grows by `more` at most. */
  lemma HeldGrows(parse: Parser, s: State, s': State, t: Turn, more: set<nat>)
    requires
      forall u | u in s'.loaders && u != t && Holding(parse, s'.loaders[u]) ::
        || (u in s.loaders && Holding(parse, s.loaders[u]) && s.loaders[u].claim == s'.loaders[u].claim)
        || s'.loaders[u].claim.value.id in more
    ensures HeldByOthers(parse, s', t) <= HeldByOthers(parse, s, t) + more
  {
    forall id | id in HeldByOthers(parse, s', t) ensures id in HeldByOthers(parse, s, t) + more {
      var u :| u in s'.loaders && u != t && Holding(parse, s'.loaders[u]) && s'.loaders[u].claim.value.id == id;
      if id !in more {
        HeldIsHeld(parse, s, t, u);
      }
    }
  }

  lemma WriteKeepsInv(parse: Parser, s: State, bytes: string)
    requires Inv(parse, s)
    ensures Inv(parse, Apply(parse, s, Write(bytes)).value)
  {
    var s' := Apply(parse, s, Write(bytes)).value;
    forall t | t in s.loaders ensures Ordered(parse, s', t) {
      HeldGrows(parse, s, s', t, {});
    }
  }

  lemma ArriveKeepsInv(parse: Parser, s: State, t: Turn, text: string)
    requires Inv(parse, s) && t !in s.loaders
    ensures Inv(parse, Apply(parse, s, Arrive(t, text)).value)
  {
    var s' := Apply(parse, s, Arrive(t, text)).value;
    forall u | u in s.loaders ensures Ordered(parse, s', u) {
      HeldGrows(parse, s, s', u, {});
    }
  }

  lemma RenameKeepsOrder(parse: Parser, s: State, t: Turn, u: Turn)
    requires Inv(parse, s) && t in s.loaders && s.loaders[t].pc.Renaming? && s.path.Some? && u in s.loaders
    ensures Ordered(parse, Step(parse, s, t, Rename(true)).value, u)
  {
    HeldGrows(parse, s, Step(parse, s, t, Rename(true)).value, u, if u == t then {} else {s.path.value.id});
  }

  lemma LinkKeepsOrder(parse: Parser, s: State, t: Turn, u: Turn)
    requires Inv(parse, s) && t in s.loaders && s.loaders[t].pc.Linking? && s.path.None? && u in s.loaders && u != t
    ensures Ordered(parse, Step(parse, s, t, Link(true)).value, u)
  {
    HeldGrows(parse, s, Step(parse, s, t, Link(true)).value, u, {});
    HeldIsHeld(parse, s, u, t);
  }

  /** A step that moves no file. */
  lemma QuietStepKeepsInv(parse: Parser, s: State, t: Turn, l: Loader)
    requires Inv(parse, s) && t in s.loaders && LoaderHolds(parse, s, l)
    requires l == s.loaders[t].(pc := l.pc)
    requires Owning(l) == Owning(s.loaders[t]) && (Holding(parse, l) ==> Holding(parse, s.loaders[t]))
    ensures Inv(parse, Put(s, t, l))
  {
    forall u | u in s.loaders ensures Ordered(parse, Put(s, t, l), u) {
      HeldGrows(parse, s, Put(s, t, l), u, {});
    }
  }

  lemma ClaimKeepsInv(parse: Parser, s: State, t: Turn)
    requires Inv(parse, s) && t in s.loaders && s.loaders[t].pc.Renaming? && s.path.Some?
    ensures Inv(parse, Step(parse, s, t, Rename(true)).value)
  {
    forall u | u in s.loaders ensures Ordered(parse, Step(parse, s, t, Rename(true)).value, u) {
      RenameKeepsOrder(parse, s, t, u);
    }
  }

  lemma RestoreKeepsInv(parse: Parser, s: State, t: Turn)
    requires Inv(parse, s) && t in s.loaders && s.loaders[t].pc.Linking? && s.path.None?
    ensures Inv(parse, Step(parse, s, t, Link(true)).value)
  {
    forall u | u in s.loaders && u != t ensures Ordered(parse, Step(parse, s, t, Link(true)).value, u) {
      LinkKeepsOrder(parse, s, t, u);
    }
  }

  lemma StepKeepsInv(parse: Parser, s: State, t: Turn, a: Action)
    requires Inv(parse, s) && t in s.loaders && Step(parse, s, t, a).Some?
    ensures Inv(parse, Step(parse, s, t, a).value)
  {
    var l := s.loaders[t];
    if a.Rename? && a.ok && s.path.Some? {
      ClaimKeepsInv(parse, s, t);
    } else if a.Link? && a.ok && s.path.None? {
      RestoreKeepsInv(parse, s, t);
    } else {
      var l' := Step(parse, s, t, a).value.loaders[t];
      assert LoaderHolds(parse, s, l);
      assert LoaderHolds(parse, s, l');
      QuietStepKeepsInv(parse, s, t, l');
    }
  }

  lemma {:induction false} RunKeepsInv(parse: Parser, s: State, events: seq<Event>)
    requires Inv(parse, s) && Run(parse, s, events).Some?
    ensures Inv(parse, Run(parse, s, events).value)
    decreases |events|
  {
    if events != [] {
      RunKeepsInv(parse, s, events[..|events| - 1]);
      var before := Run(parse, s, events[..|events| - 1]).value;
      match events[|events| - 1]
      case Write(bytes) => WriteKeepsInv(parse, before, bytes);
      case Arrive(t, text) => ArriveKeepsInv(parse, before, t, text);
      case Act(t, a) => StepKeepsInv(parse, before, t, a);
    }
  }

  // ---- What it guarantees ----

  ghost predicate Reaches(parse: Parser, events: seq<Event>, s: State) {
    Run(parse, INITIAL, events) == Some(s)
  }

  /** A turn applies exactly the version it renamed, which parses and is aimed at its message, and no other turn
      applies that one; the bytes it peeked at may have been others. */
  lemma AppliedOnce(parse: Parser, events: seq<Event>, s: State, t: Turn)
    requires Reaches(parse, events, s) && t in s.loaders && Ends(s.loaders[t].pc, Applied)
    ensures s.loaders[t].claim.Some? && AimedAt(parse, s.loaders[t].claim.value, s.loaders[t].text)
    ensures s.path != s.loaders[t].claim
    ensures
      forall u | u in s.loaders && Ends(s.loaders[u].pc, Applied) && u != t ::
        s.loaders[u].claim.Some? && s.loaders[u].claim.value.id != s.loaders[t].claim.value.id
  {
    RunKeepsInv(parse, INITIAL, events);
  }

  /** A turn never touches a script that it finds not to be aimed at it: it is then through, with the path as it was. */
  lemma NotAimedNotTouched(parse: Parser, events: seq<Event>, s: State, t: Turn, ok: bool)
    requires Reaches(parse, events, s) && t in s.loaders && s.loaders[t].pc.Peeking?
    requires s.path.None? || !AimedAt(parse, s.path.value, s.loaders[t].text)
    ensures Step(parse, s, t, Peek(ok)).Some?
    ensures
      var s' := Step(parse, s, t, Peek(ok)).value;
      && s'.path == s.path && s'.places == s.places && s'.loaders[t].claim.None?
      && forall a :: Step(parse, s', t, a).None?
  {
    RunKeepsInv(parse, INITIAL, events);
  }

  /** Every version written is at the path, or overwritten there, or owned by exactly one turn. */
  lemma VersionsAreConserved(parse: Parser, events: seq<Event>, s: State, id: nat)
    requires Reaches(parse, events, s) && id < s.written
    ensures id in s.places
    ensures s.places[id].AtPath? <==> s.path.Some? && s.path.value.id == id
    ensures
      forall t :: s.places[id] == With(t) <==>
        t in s.loaders && Owning(s.loaders[t]) && s.loaders[t].claim.value.id == id
  {
    RunKeepsInv(parse, INITIAL, events);
    forall t ensures
      s.places[id] == With(t) <==>
      t in s.loaders && Owning(s.loaders[t]) && s.loaders[t].claim.value.id == id
    {
    }
  }

  /** The claimer never touches what was written after its claim: none of it is ever the claimer's, and no later
      step of the claimer changes a path that holds a file. */
  lemma ClaimerSparesLater(parse: Parser, events: seq<Event>, s: State, t: Turn, a: Action)
    requires Reaches(parse, events, s) && t in s.loaders && s.loaders[t].claim.Some?
    ensures forall id | s.loaders[t].since <= id < s.written :: id in s.places && s.places[id] != With(t)
    ensures
      Step(parse, s, t, a).Some? ==>
      (var s' := Step(parse, s, t, a).value;
       s.path.Some? ==> s'.path == s.path && s'.places == s.places)
  {
    RunKeepsInv(parse, INITIAL, events);
  }

  /** A version claimed by mistake is put back whole when the path is free and the link works. Otherwise it is lost,
      and what is at the path stays: a newer version, or an older one that another turn held at the claim. */
  lemma MistakenGoesBack(parse: Parser, events: seq<Event>, s: State, t: Turn, ok: bool)
    requires Reaches(parse, events, s) && t in s.loaders && s.loaders[t].pc.Linking?
    ensures Step(parse, s, t, Link(ok)).Some?
    ensures
      var l, s' := s.loaders[t], Step(parse, s, t, Link(ok)).value;
      && AimedElsewhere(parse, l.claim.value, l.text)
      && (s.path.None? && ok ==> s'.path == l.claim && s'.loaders[t].pc == Removing(Restored))
      && (s.path.Some? || !ok ==> s'.path == s.path && s'.loaders[t].pc == Removing(Lost(LinkFailed)))
      && (s.path.Some? ==> s.path.value.id > l.claim.value.id || s.path.value.id in l.others)
  {
    RunKeepsInv(parse, INITIAL, events);
  }

  /** Which read-back a loader's point tells of. */
  ghost predicate PcTells(events: seq<Event>, t: Turn, l: Loader) {
    && (Act(t, Reread(false)) in events <==> Ends(l.pc, Lost(Unread)))
    && (Act(t, Reread(true)) in events <==>
        l.pc.Linking? || ((l.pc.Removing? || l.pc.Done?) && l.pc.r != Lost(Unread)))
  }

  ghost predicate NoActsOf(events: seq<Event>, t: Turn) {
    forall a :: Act(t, a) !in events
  }

  lemma StepTells(parse: Parser, init: seq<Event>, s: State, t: Turn, a: Action)
    requires t in s.loaders && PcTells(init, t, s.loaders[t]) && Step(parse, s, t, a).Some?
    ensures PcTells(init + [Act(t, a)], t, Step(parse, s, t, a).value.loaders[t])
  {
    assert forall e :: e in init + [Act(t, a)] <==> e in init || e == Act(t, a);
  }

  lemma {:induction false} RunTells(parse: Parser, events: seq<Event>, t: Turn)
    requires Run(parse, INITIAL, events).Some?
    ensures
      var loaders := Run(parse, INITIAL, events).value.loaders;
      if t in loaders then PcTells(events, t, loaders[t]) else NoActsOf(events, t)
    decreases |events|
  {
    if events != [] {
      var init, e := events[..|events| - 1], events[|events| - 1];
      RunTells(parse, init, t);
      assert events == init + [e];
      if e.Act? && e.t == t {
        StepTells(parse, init, Run(parse, INITIAL, init).value, t, e.a);
      }
    }
  }

  /** At some event of the run the link of `t` did not work, or found a file at the path. */
  ghost predicate LinkRefused(parse: Parser, events: seq<Event>, t: Turn) {
    exists i :: 0 <= i < |events| && RefusedAt(parse, events, i, t)
  }

  ghost predicate RefusedAt(parse: Parser, events: seq<Event>, i: nat, t: Turn)
    requires i < |events|
  {
    && events[i].Act? && events[i].t == t && events[i].a.Link?
    && var before := Run(parse, INITIAL, events[..i]);
       !events[i].a.ok || (before.Some? && before.value.path.Some?)
  }

  lemma RefusedGrows(parse: Parser, init: seq<Event>, e: Event, t: Turn)
    requires Run(parse, INITIAL, init).Some?
    ensures
      LinkRefused(parse, init + [e], t) <==>
      || LinkRefused(parse, init, t)
      || (e.Act? && e.t == t && e.a.Link? && (!e.a.ok || Run(parse, INITIAL, init).value.path.Some?))
  {
    var events := init + [e];
    assert events[..|init|] == init;
    forall i | 0 <= i < |init| ensures RefusedAt(parse, events, i, t) <==> RefusedAt(parse, init, i, t) {
      assert events[..i] == init[..i];
    }
    if LinkRefused(parse, init, t) {
      var i :| 0 <= i < |init| && RefusedAt(parse, init, i, t);
      assert RefusedAt(parse, events, i, t);
    }
    if e.Act? && e.t == t && e.a.Link? && (!e.a.ok || Run(parse, INITIAL, init).value.path.Some?) {
      assert RefusedAt(parse, events, |init|, t);
    }
  }

  lemma {:induction false} RefusedTells(parse: Parser, events: seq<Event>, t: Turn)
    requires Run(parse, INITIAL, events).Some?
    ensures
      var loaders := Run(parse, INITIAL, events).value.loaders;
      LinkRefused(parse, events, t) <==> t in loaders && Ends(loaders[t].pc, Lost(LinkFailed))
    decreases |events|
  {
    if events != [] {
      var init, e := events[..|events| - 1], events[|events| - 1];
      RefusedTells(parse, init, t);
      RunKeepsInv(parse, INITIAL, init);
      RefusedGrows(parse, init, e, t);
      assert events == init + [e];
      var before := Run(parse, INITIAL, init).value;
      if e.Act? && e.t == t {
        StepRefuses(parse, before, t, e.a);
      } else {
        OthersKeepLoader(parse, before, e, t);
      }
    }
  }

  lemma StepRefuses(parse: Parser, s: State, t: Turn, a: Action)
    requires Inv(parse, s) && t in s.loaders && Step(parse, s, t, a).Some?
    ensures
      Ends(Step(parse, s, t, a).value.loaders[t].pc, Lost(LinkFailed)) <==>
      Ends(s.loaders[t].pc, Lost(LinkFailed)) || (a.Link? && (!a.ok || s.path.Some?))
  {
  }

  /** `e` is not a step of turn `t`. */
  predicate NotOf(e: Event, t: Turn) {
    !(e.Act? && e.t == t)
  }

  lemma OthersKeepLoader(parse: Parser, s: State, e: Event, t: Turn)
    requires NotOf(e, t) && Apply(parse, s, e).Some?
    ensures
      var s' := Apply(parse, s, e).value;
      && (t in s.loaders ==> t in s'.loaders && s'.loaders[t] == s.loaders[t])
      && (t !in s.loaders && t in s'.loaders ==> s'.loaders[t].pc.Peeking?)
  {
  }

  /** What becomes of a claim: its version is lost exactly when it cannot be read back, or does not parse, or is aimed
      elsewhere and its link does not work or finds a file at the path; it goes back exactly when it is aimed elsewhere
      and the link is not refused, and is applied exactly when it is read back and aimed at the message. */
  lemma EndsExactly(parse: Parser, events: seq<Event>, s: State, t: Turn)
    requires Reaches(parse, events, s) && t in s.loaders && s.loaders[t].pc.Done?
    ensures s.loaders[t].claim.Some?
    ensures
      var v, text, r := s.loaders[t].claim.value, s.loaders[t].text, s.loaders[t].pc.r;
      var readBack := Act(t, Reread(true)) in events;
      && (readBack <==> Act(t, Reread(false)) !in events)
      && (r == Lost(Unread) <==> !readBack)
      && (r == Lost(Unparseable) <==> readBack && parse(v.bytes).None?)
      && (r == Applied <==> readBack && AimedAt(parse, v, text))
      && (r == Lost(LinkFailed) <==> readBack && AimedElsewhere(parse, v, text) && LinkRefused(parse, events, t))
      && (r == Lost(LinkFailed) <==> LinkRefused(parse, events, t))
      && (r == Restored <==> readBack && AimedElsewhere(parse, v, text) && !LinkRefused(parse, events, t))
  {
    RunKeepsInv(parse, INITIAL, events);
    RunTells(parse, events, t);
    RefusedTells(parse, events, t);
    var l := s.loaders[t];
    assert LoaderHolds(parse, s, l) && PcTells(events, t, l);
    assert l.pc == Done(l.pc.r) && Ends(l.pc, l.pc.r);
    match l.pc.r
    case Applied => assert AimedAt(parse, l.claim.value, l.text);
    case Restored => assert AimedElsewhere(parse, l.claim.value, l.text);
    case Lost(Unread) => assert Act(t, Reread(true)) !in events;
    case Lost(Unparseable) => assert parse(l.claim.value.bytes).None?;
    case Lost(LinkFailed) => assert AimedElsewhere(parse, l.claim.value, l.text);
  }

  // ---- When an older version can end up at the path ----

  lemma {:induction false} ClaimStays(parse: Parser, s: State, events: seq<Event>, t: Turn)
    requires Run(parse, s, events).Some? && t in s.loaders && s.loaders[t].claim.Some? && !s.loaders[t].pc.Renaming?
    requires !s.loaders[t].pc.Peeking?
    ensures t in Run(parse, s, events).value.loaders
    ensures
      var l, l' := s.loaders[t], Run(parse, s, events).value.loaders[t];
      l' == l.(pc := l'.pc) && !l'.pc.Renaming? && !l'.pc.Peeking?
    decreases |events|
  {
    if events != [] {
      ClaimStays(parse, s, events[..|events| - 1], t);
    }
  }

  lemma Extend(parse: Parser, s0: State, events: seq<Event>, s: State, e: Event)
    returns (events': seq<Event>, s': State)
    requires Run(parse, s0, events) == Some(s) && Apply(parse, s, e).Some?
    ensures events' == events + [e] && Run(parse, s0, events') == Some(s') && Apply(parse, s, e) == Some(s')
  {
    events' := events + [e];
    s' := Apply(parse, s, e).value;
    assert events'[..|events'| - 1] == events;
  }

  lemma {:induction false} RunConcat(parse: Parser, s: State, e1: seq<Event>, e2: seq<Event>)
    requires Run(parse, s, e1).Some?
    ensures Run(parse, s, e1 + e2) == Run(parse, Run(parse, s, e1).value, e2)
    decreases |e2|
  {
    if e2 == [] {
      assert e1 + e2 == e1;
    } else {
      RunConcat(parse, s, e1, e2[..|e2| - 1]);
      assert (e1 + e2)[..|e1 + e2| - 1] == e1 + e2[..|e2| - 1];
    }
  }

  /** From `s` on, `t` can be about to restore its version with an older one already at the path. */
  ghost predicate OlderCanBlock(parse: Parser, s: State, t: Turn) {
    exists more :: Blocks(Run(parse, s, more), t)
  }

  ghost predicate Blocks(z: Option<State>, t: Turn) {
    && z.Some? && t in z.value.loaders && z.value.loaders[t].pc.Linking? && z.value.loaders[t].claim.Some?
    && z.value.path.Some? && z.value.path.value.id < z.value.loaders[t].claim.value.id
  }

  /** Just after `t` has claimed the version at the path, an older one can come to block its return exactly when it
      was claimed by mistake and another turn holds an older version that it, too, claimed by mistake. So turns that
      do not overlap never leave an older version in the way. */
  lemma OlderBlocksExactly(parse: Parser, events: seq<Event>, s: State, t: Turn)
    requires Reaches(parse, events, s) && t in s.loaders && s.loaders[t].pc.Renaming? && s.path.Some?
    ensures
      OlderCanBlock(parse, Step(parse, s, t, Rename(true)).value, t) <==>
      && AimedElsewhere(parse, s.path.value, s.loaders[t].text)
      && exists u :: HoldsOlder(parse, s, t, u)
  {
    RunKeepsInv(parse, INITIAL, events);
    StepKeepsInv(parse, s, t, Rename(true));
    if OlderCanBlock(parse, Step(parse, s, t, Rename(true)).value, t) {
      BlockedByHeld(parse, s, t);
    }
    if AimedElsewhere(parse, s.path.value, s.loaders[t].text) {
      if u :| HoldsOlder(parse, s, t, u) {
        HeldBlocks(parse, s, t, u);
      }
    }
  }

  ghost predicate HoldsOlder(parse: Parser, s: State, t: Turn, u: Turn) {
    && u in s.loaders && u != t && Holding(parse, s.loaders[u])
    && s.path.Some? && s.loaders[u].claim.value.id < s.path.value.id
  }

  lemma BlockedByHeld(parse: Parser, s: State, t: Turn)
    requires Inv(parse, s) && t in s.loaders && s.loaders[t].pc.Renaming? && s.path.Some?
    requires OlderCanBlock(parse, Step(parse, s, t, Rename(true)).value, t)
    ensures AimedElsewhere(parse, s.path.value, s.loaders[t].text)
    ensures exists u :: HoldsOlder(parse, s, t, u)
  {
    var s1 := Step(parse, s, t, Rename(true)).value;
    var more :| Blocks(Run(parse, s1, more), t);
    StepKeepsInv(parse, s, t, Rename(true));
    RunKeepsInv(parse, s1, more);
    ClaimStays(parse, s1, more, t);
    var z := Run(parse, s1, more).value;
    assert z.loaders[t].claim == s.path && z.loaders[t].others == HeldByOthers(parse, s, t);
    assert LoaderHolds(parse, z, z.loaders[t]) && Ordered(parse, z, t);
    assert z.path.value.id in HeldByOthers(parse, s, t);
    var u :| u in s.loaders && u != t && Holding(parse, s.loaders[u]) && s.loaders[u].claim.value.id == z.path.value.id;
    assert HoldsOlder(parse, s, t, u);
  }

  lemma HeldBlocks(parse: Parser, s: State, t: Turn, u: Turn)
    requires t in s.loaders && s.loaders[t].pc.Renaming? && s.path.Some?
    requires AimedElsewhere(parse, s.path.value, s.loaders[t].text) && HoldsOlder(parse, s, t, u)
    ensures OlderCanBlock(parse, Step(parse, s, t, Rename(true)).value, t)
  {
    var s1 := Step(parse, s, t, Rename(true)).value;
    var events, z := [], s1;
    if s1.loaders[u].pc.Rereading? {
      events, z := Extend(parse, s1, events, z, Act(u, Reread(true)));
    }
    events, z := Extend(parse, s1, events, z, Act(u, Link(true)));
    events, z := Extend(parse, s1, events, z, Act(t, Reread(true)));
    assert Blocks(Run(parse, s1, events), t);
  }

  /** Scripts of no bytes are for anybody; others only for a message that says so. */
  function ForXOnly(bytes: string): Option<string> {
    Some(if bytes == "" then "" else "x")
  }

  const AT_CLAIM := Loader("", Rereading, Some(Version(1, "c")), 2, {})

  /** Turn 1 peeks at its own script, and claims another that replaced it. */
  lemma ClaimedByMistake(parse: Parser) returns (events: seq<Event>, s: State)
    requires parse("") == Some("")
    ensures Reaches(parse, events, s) && s.path.None? && s.written == 2 && s.loaders == map[1 := AT_CLAIM]
  {
    events, s := Peeked(parse);
    events, s := Extend(parse, INITIAL, events, s, Write("c"));
    assert HeldByOthers(parse, s, 1) == {};
    events, s := Extend(parse, INITIAL, events, s, Act(1, Rename(true)));
  }

  lemma Peeked(parse: Parser) returns (events: seq<Event>, s: State)
    requires parse("") == Some("")
    ensures Reaches(parse, events, s) && s.path == Some(Version(0, "")) && s.written == 1
    ensures s.loaders == map[1 := Loader("", Renaming, None, 0, {})]
  {
    events, s := Extend(parse, INITIAL, [], INITIAL, Write(""));
    events, s := Extend(parse, INITIAL, events, s, Arrive(1, ""));
    events, s := Extend(parse, INITIAL, events, s, Act(1, Peek(true)));
  }

  /** A script that replaced the one peeked at is lost if it cannot be read back, or does not parse. */
  lemma ClaimedAndLost(parse: Parser, readable: bool) returns (events: seq<Event>, s: State)
    requires parse("") == Some("") && parse("c").None?
    ensures Reaches(parse, events, s) && s.path.None? && 1 in s.loaders && s.loaders[1].claim == Some(Version(1, "c"))
    ensures s.loaders[1].pc == Done(Lost(if readable then Unparseable else Unread))
  {
    events, s := ClaimedByMistake(parse);
    events, s := Extend(parse, INITIAL, events, s, Act(1, Reread(readable)));
    events, s := Extend(parse, INITIAL, events, s, Act(1, Remove));
  }

  /** A script claimed by mistake is lost if another was written in the meantime: that one stays at the path. */
  lemma ClaimedAndBlocked() returns (events: seq<Event>, s: State)
    ensures Reaches(ForXOnly, events, s) && 1 in s.loaders && s.loaders[1].pc == Done(Lost(LinkFailed))
    ensures s.path == Some(Version(2, "d")) && s.loaders[1].claim == Some(Version(1, "c"))
  {
    events, s := ClaimedByMistake(ForXOnly);
    events, s := Extend(ForXOnly, INITIAL, events, s, Write("d"));
    events, s := Extend(ForXOnly, INITIAL, events, s, Act(1, Reread(true)));
    assert s.loaders[1].pc == Linking;
    events, s := Extend(ForXOnly, INITIAL, events, s, Act(1, Link(true)));
    events, s := Extend(ForXOnly, INITIAL, events, s, Act(1, Remove));
  }

  /** ... and that does happen: with two overlapping turns an older script can keep the newer from its return. */
  lemma OlderBlocksNewer() returns (events: seq<Event>, s: State)
    ensures Reaches(ForXOnly, events, s) && 2 in s.loaders && s.loaders[2].pc.Renaming? && s.path.Some?
    ensures OlderCanBlock(ForXOnly, Step(ForXOnly, s, 2, Rename(true)).value, 2)
  {
    events, s := ClaimedByMistake(ForXOnly);
    events, s := Extend(ForXOnly, INITIAL, events, s, Write(""));
    events, s := Extend(ForXOnly, INITIAL, events, s, Arrive(2, ""));
    events, s := Extend(ForXOnly, INITIAL, events, s, Act(2, Peek(true)));
    events, s := Extend(ForXOnly, INITIAL, events, s, Write("c"));
    assert HoldsOlder(ForXOnly, s, 2, 1);
    HeldBlocks(ForXOnly, s, 2, 1);
  }
}
