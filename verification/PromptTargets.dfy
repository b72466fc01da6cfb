/**
 Which chats a prompt is offered to (cmd/foci-gw/agents_delegated.go, promptTargets and backendPromptTargets;
 cmd/foci-gw/ask_setup.go, newAskChats). The recorded parent relation is any finite map, cyclic ones included.
*/
module PromptTargets {
  import opened Wrappers
  import opened AgentRegistry

  type Key = string

  /** A parsed session key. */
  datatype KeyInfo = KeyInfo(root: Key, isRoot: bool, crossAgentSpawn: bool)

  /** What the walk reads. index: the recorded parent of each known session, "" for none. keyAgent: the agent a
      key names, "" when it names none. A None field is a nil one in the source. */
  datatype Deps = Deps(
    agentID: string,
    parse: Key -> Option<KeyInfo>,
    keyAgent: Key -> string,
    index: Option<map<Key, Key>>,
    live: Option<Key -> bool>,
    defaultSession: Option<Key>,
    owner: Option<Key -> Option<Key>>,
    chatClosed: Option<Key -> bool>)

  predicate Live(d: Deps, k: Key) {
    d.live.None? || d.live.value(k)
  }

  // ---- The walk up the parents ----

  predicate Extends(index: map<Key, Key>, root: Key, walk: seq<Key>)
    requires walk != []
  {
    var last := walk[|walk| - 1];
    last in index && index[last] != "" && index[last] != root && index[last] !in walk
  }

  /** `walk` follows the recorded parents from its first element, meeting neither the root nor itself. */
  predicate IsPartialWalk(index: map<Key, Key>, root: Key, walk: seq<Key>) {
    && walk != [] && NoDuplicates(walk)
    && (forall i :: 0 <= i < |walk| - 1 ==> walk[i] in index && index[walk[i]] == walk[i + 1])
    && (forall i :: 0 < i < |walk| ==> walk[i] != "" && walk[i] != root)
  }

  /** ... and cannot be continued: the next parent is missing, the root, or a repeat. */
  predicate IsWalk(index: map<Key, Key>, root: Key, walk: seq<Key>) {
    IsPartialWalk(index, root, walk) && !Extends(index, root, walk)
  }

  lemma {:induction false} DistinctAreFew<T>(s: seq<T>, of: set<T>)
    requires NoDuplicates(s) && forall x :: x in s ==> x in of
    ensures |s| <= |of|
  {
    if s != [] {
      var last := s[|s| - 1];
      forall x | x in s[..|s| - 1] ensures x in of - {last} {
        assert x in s;
      }
      DistinctAreFew(s[..|s| - 1], of - {last});
    }
  }

  /** The measure that ends the walk on a cyclic relation too. */
  lemma WalkIsShort(index: map<Key, Key>, root: Key, walk: seq<Key>)
    requires IsPartialWalk(index, root, walk)
    ensures |walk| <= |index| + 1
  {
    DistinctAreFew(walk[..|walk| - 1], index.Keys);
    assert |index.Keys| == |index|;
  }

  function Walk(index: map<Key, Key>, root: Key, sofar: seq<Key>): (walk: seq<Key>)
    requires IsPartialWalk(index, root, sofar)
    ensures IsWalk(index, root, walk) && sofar <= walk
    decreases |index| + 1 - |sofar|
  {
    WalkIsShort(index, root, sofar);
    if !Extends(index, root, sofar) then sofar
    else
      var longer := sofar + [index[sofar[|sofar| - 1]]];
      WalkIsShort(index, root, longer);
      Walk(index, root, longer)
  }

  lemma {:induction false} WalksAgree(index: map<Key, Key>, root: Key, a: seq<Key>, b: seq<Key>, n: nat)
    requires IsPartialWalk(index, root, a) && IsPartialWalk(index, root, b) && a[0] == b[0]
    requires n <= |a| && n <= |b|
    ensures a[..n] == b[..n]
  {
    if n > 0 {
      WalksAgree(index, root, a, b, n - 1);
      assert a[..n] == a[..n - 1] + [a[n - 1]] && b[..n] == b[..n - 1] + [b[n - 1]];
      assert n > 1 ==> a[n - 1] == index[a[..n - 1][n - 2]] && b[n - 1] == index[b[..n - 1][n - 2]];
    }
  }

  /** From one session there is only one walk, so "the ancestors met before the root, a missing entry or a repeat"
      names one list. */
  lemma WalkIsUnique(index: map<Key, Key>, root: Key, a: seq<Key>, b: seq<Key>)
    requires IsWalk(index, root, a) && IsWalk(index, root, b) && a[0] == b[0]
    ensures a == b
  {
    if |a| < |b| {
      WalkEndsFirst(index, root, a, b);
    } else if |b| < |a| {
      WalkEndsFirst(index, root, b, a);
    } else {
      WalksAgree(index, root, a, b, |a|);
      assert a[..|a|] == a && b[..|b|] == b;
    }
  }

  lemma WalkEndsFirst(index: map<Key, Key>, root: Key, a: seq<Key>, b: seq<Key>)
    requires IsPartialWalk(index, root, a) && IsPartialWalk(index, root, b) && a[0] == b[0] && |a| < |b|
    ensures Extends(index, root, a)
  {
    WalksAgree(index, root, a, b, |a|);
    assert a == a[..|a|] == b[..|a|];
    assert a[|a| - 1] == b[|a| - 1];
    assert index[a[|a| - 1]] == b[|a|];
    assert b[|a|] !in b[..|a|];
  }

  /** It ends nowhere else: at the last session of the walk no parent is recorded, or an empty one, or the root, or one
      already met. */
  lemma WalkGoesAllTheWay(index: map<Key, Key>, root: Key, k: Key)
    ensures
      var walk := Walk(index, root, [k]);
      var last := walk[|walk| - 1];
      && walk[0] == k
      && (last in index ==> index[last] == "" || index[last] == root || index[last] in walk)
  {
  }

  // ---- The list of targets ----

  function AddNew(targets: seq<Key>, k: Key): seq<Key> {
    if k == "" || k in targets then targets else targets + [k]
  }

  function LiveOf(d: Deps, ks: seq<Key>): seq<Key> {
    if ks == [] then []
    else LiveOf(d, ks[..|ks| - 1]) + (if Live(d, ks[|ks| - 1]) then [ks[|ks| - 1]] else [])
  }

  function ChatAgent(d: Deps, k: Key): string {
    if d.keyAgent(k) != "" then d.keyAgent(k) else d.agentID
  }

  predicate OtherAgent(d: Deps, k: Key) {
    d.agentID != "" && ChatAgent(d, k) != d.agentID
  }

  predicate CrossAgent(d: Deps, k: Key) {
    d.parse(k).Some? && d.parse(k).value.crossAgentSpawn
  }

  predicate IsBranch(d: Deps, k: Key) {
    d.parse(k).Some? && !d.parse(k).value.isRoot
  }

  /** The proper ancestors of a branch, in chain order. */
  function Ancestors(d: Deps, k: Key): seq<Key>
    requires IsBranch(d, k)
  {
    if d.index.None? then [] else Walk(d.index.value, d.parse(k).value.root, [k])[1..]
  }

  /** The session and its live proper ancestors, in chain order. */
  function Chain(d: Deps, k: Key): seq<Key>
    requires IsBranch(d, k)
  {
    [k] + LiveOf(d, Ancestors(d, k))
  }

  function Targets(d: Deps, k: Key): seq<Key> {
    if CrossAgent(d, k) then [k]
    else
      var up := if IsBranch(d, k) then AddNew(Chain(d, k), d.parse(k).value.root) else [k];
      if d.defaultSession.Some? && !OtherAgent(d, k) then AddNew(up, d.defaultSession.value) else up
  }

  lemma {:induction false} LiveOfExact(d: Deps, ks: seq<Key>)
    requires NoDuplicates(ks)
    ensures NoDuplicates(LiveOf(d, ks))
    ensures forall k :: k in LiveOf(d, ks) <==> k in ks && Live(d, k)
  {
    if ks != [] {
      LiveOfExact(d, ks[..|ks| - 1]);
      assert ks == ks[..|ks| - 1] + [ks[|ks| - 1]];
      assert ks[|ks| - 1] !in ks[..|ks| - 1];
    }
  }

  /** The order of the live ancestors is the order of the chain. */
  lemma {:induction false} LiveOfKeepsOrder(d: Deps, ks: seq<Key>, i: nat, j: nat)
    requires NoDuplicates(ks) && i < j < |LiveOf(d, ks)|
    ensures exists a, b :: 0 <= a < b < |ks| && ks[a] == LiveOf(d, ks)[i] && ks[b] == LiveOf(d, ks)[j]
  {
    var init := ks[..|ks| - 1];
    if j < |LiveOf(d, init)| {
      LiveOfKeepsOrder(d, init, i, j);
      var a, b :| 0 <= a < b < |init| && init[a] == LiveOf(d, init)[i] && init[b] == LiveOf(d, init)[j];
      assert ks[a] == init[a] && ks[b] == init[b];
    } else {
      LiveOfExact(d, init);
      assert LiveOf(d, init)[i] in init;
      var a :| 0 <= a < |init| && init[a] == LiveOf(d, init)[i];
      assert ks[a] == LiveOf(d, ks)[i] && ks[|ks| - 1] == LiveOf(d, ks)[j];
    }
  }

  lemma AddNewExact(ts: seq<Key>, k: Key)
    requires NoDuplicates(ts)
    ensures NoDuplicates(AddNew(ts, k)) && ts <= AddNew(ts, k)
    ensures forall x :: x in AddNew(ts, k) <==> x in ts || (x == k && k != "")
  {
  }

  lemma ChainExact(d: Deps, k: Key)
    requires IsBranch(d, k)
    ensures NoDuplicates(Chain(d, k))
    ensures forall x :: x in Chain(d, k) <==> x == k || (x in Ancestors(d, k) && Live(d, x))
  {
    var up := Ancestors(d, k);
    if d.index.Some? {
      var walk := Walk(d.index.value, d.parse(k).value.root, [k]);
      assert walk == [walk[0]] + up && walk[0] == k;
    }
    assert NoDuplicates(up) && k !in up;
    LiveOfExact(d, up);
  }

  /** The targets without repeats, exactly: the asking session first; for a branch its live proper ancestors, then
      the root; last the agent's own default session. A cross-agent spawn's session has only itself. */
  lemma TargetsExact(d: Deps, k: Key)
    ensures NoDuplicates(Targets(d, k)) && Targets(d, k) != [] && Targets(d, k)[0] == k
    ensures CrossAgent(d, k) ==> Targets(d, k) == [k]
    ensures !CrossAgent(d, k) ==>
              forall x :: x in Targets(d, k) <==>
                || x == k
                || (IsBranch(d, k) && x in Ancestors(d, k) && (d.live.Some? ==> d.live.value(x)))
                || (IsBranch(d, k) && x == d.parse(k).value.root && x != "")
                || (d.defaultSession == Some(x) && x != ""
                    && (d.agentID == "" || d.keyAgent(k) == "" || d.keyAgent(k) == d.agentID))
  {
    if !CrossAgent(d, k) {
      var up := [k];
      if IsBranch(d, k) {
        ChainExact(d, k);
        AddNewExact(Chain(d, k), d.parse(k).value.root);
        up := AddNew(Chain(d, k), d.parse(k).value.root);
      }
      if d.defaultSession.Some? {
        AddNewExact(up, d.defaultSession.value);
      }
    }
  }

  /** What the key says: a spawn for another agent, or a branch; and who its ancestors are. */
  lemma KeysExactly(d: Deps, k: Key)
    ensures CrossAgent(d, k) <==> d.parse(k).Some? && d.parse(k).value.crossAgentSpawn
    ensures IsBranch(d, k) <==> d.parse(k).Some? && !d.parse(k).value.isRoot
    ensures
      IsBranch(d, k) ==>
      if d.index.None? then Ancestors(d, k) == []
      else IsWalk(d.index.value, d.parse(k).value.root, [k] + Ancestors(d, k))
  {
    if IsBranch(d, k) && d.index.Some? {
      var walk := Walk(d.index.value, d.parse(k).value.root, [k]);
      assert walk == [k] + walk[1..];
    }
  }

  /** ... and in that order. */
  lemma TargetsInOrder(d: Deps, k: Key)
    requires !CrossAgent(d, k) && IsBranch(d, k)
    ensures Chain(d, k) <= Targets(d, k)
    ensures AddNew(Chain(d, k), d.parse(k).value.root) <= Targets(d, k)
    ensures |Targets(d, k)| <= |Chain(d, k)| + 2
  {
  }

  // ---- The loop as the source runs it ----

  lemma WalkGoesOn(index: map<Key, Key>, root: Key, walk: seq<Key>, sessionKey: Key)
    requires IsPartialWalk(index, root, walk) && Extends(index, root, walk)
    ensures
      var longer := walk + [index[walk[|walk| - 1]]];
      && IsPartialWalk(index, root, longer) && |longer| <= |index| + 1
      && Walk(index, root, longer) == Walk(index, root, walk)
  {
    WalkIsShort(index, root, walk + [index[walk[|walk| - 1]]]);
  }

  method Climb(d: Deps, index: map<Key, Key>, root: Key, sessionKey: Key) returns (targets: seq<Key>)
    ensures targets == [sessionKey] + LiveOf(d, Walk(index, root, [sessionKey])[1..])
  {
    targets := [sessionKey];
    var cur, seen := sessionKey, {sessionKey};
    ghost var walk := [sessionKey];
    while cur in index && index[cur] != "" && index[cur] !in seen && index[cur] != root
      invariant IsPartialWalk(index, root, walk) && walk[0] == sessionKey && walk[|walk| - 1] == cur
      invariant forall k :: k in seen <==> k in walk
      invariant targets == [sessionKey] + LiveOf(d, walk[1..])
      invariant Walk(index, root, walk) == Walk(index, root, [sessionKey])
      decreases |index| + 1 - |walk|
    {
      WalkGoesOn(index, root, walk, sessionKey);
      LiveOfGrows(d, walk, index[cur]);
      walk := walk + [index[cur]];
      cur := index[cur];
      seen := seen + {cur};
      if Live(d, cur) {
        targets := AddNew(targets, cur);
      }
    }
  }

  lemma LiveOfGrows(d: Deps, walk: seq<Key>, k: Key)
    requires walk != [] && NoDuplicates(walk) && k !in walk
    ensures LiveOf(d, (walk + [k])[1..]) == LiveOf(d, walk[1..]) + (if Live(d, k) then [k] else [])
    ensures k !in [walk[0]] + LiveOf(d, walk[1..])
  {
    LiveOfExact(d, walk[1..]);
    assert (walk + [k])[1..] == walk[1..] + [k];
    assert (walk[1..] + [k])[..|walk[1..]|] == walk[1..];
  }

  method PromptTargetsOf(d: Deps, sessionKey: Key) returns (targets: seq<Key>)
    ensures targets == Targets(d, sessionKey)
  {
    targets := [sessionKey];
    if CrossAgent(d, sessionKey) {
      return;
    }
    if IsBranch(d, sessionKey) {
      var root := d.parse(sessionKey).value.root;
      if d.index.Some? {
        targets := Climb(d, d.index.value, root, sessionKey);
      }
      targets := AddNew(targets, root);
    }
    if d.defaultSession.Some? && !OtherAgent(d, sessionKey) {
      targets := AddNew(targets, d.defaultSession.value);
    }
  }

  // ---- The owner chain of a spawn ----

  datatype Chats = Chats(targets: seq<Key>, spawned: bool)

  /** newAskChats: the chats of a spawn's ask, None for a session that is no spawn's branch. A dead owner is
      skipped unless its chat is the only one. */
  function AskChats(d: Deps, sessionKey: Key): Option<seq<Key>> {
    if d.owner.None? || d.owner.value(sessionKey).None? then None
    else
      var owner := d.owner.value(sessionKey).value;
      var ts := Targets(d, owner);
      Some(if !Live(d, owner) && |ts| > 1 then ts[1..] else ts)
  }

  /** askChats.route. */
  function AskRoute(d: Deps, sessionKey: Key): Chats {
    var ts := AskChats(d, sessionKey);
    if ts.Some? && |ts.value| > 0 then Chats(ts.value, true) else Chats([sessionKey], false)
  }

  /** backendPromptTargets. */
  function PromptRoute(d: Deps, sessionKey: Key): Chats {
    var ts := AskChats(d, sessionKey);
    if ts.Some? then Chats(ts.value, true) else Chats(Targets(d, sessionKey), false)
  }

  /** A spawn's chats are never none, and hold a dead owner only when no other chat is left. */
  lemma AskChatsExact(d: Deps, sessionKey: Key)
    requires d.owner.Some? && d.owner.value(sessionKey).Some?
    ensures
      var owner := d.owner.value(sessionKey).value;
      var ts := AskChats(d, sessionKey).value;
      && ts != [] && NoDuplicates(ts)
      && (owner in ts <==> Live(d, owner) || Targets(d, owner) == [owner])
      && (forall x :: x in ts ==> x in Targets(d, owner))
      && (forall x :: x in Targets(d, owner) && x != owner ==> x in ts)
      && ((d.live.Some? ==> d.live.value(owner)) || |Targets(d, owner)| == 1 ==> ts == Targets(d, owner))
      && (d.live.Some? && !d.live.value(owner) && |Targets(d, owner)| > 1 ==> ts == Targets(d, owner)[1..])
  {
    var owner := d.owner.value(sessionKey).value;
    TargetsExact(d, owner);
    var all := Targets(d, owner);
    assert all == [owner] + all[1..];
  }

  /** A spawn's session has the chats of its owner; any other session's prompt has its targets, and its ask only its own
      chat. */
  lemma RoutesExactly(d: Deps, sessionKey: Key)
    ensures
      var spawn := d.owner.Some? && d.owner.value(sessionKey).Some?;
      && PromptRoute(d, sessionKey).spawned == spawn && AskRoute(d, sessionKey).spawned == spawn
      && (spawn ==> Some(PromptRoute(d, sessionKey).targets) == AskChats(d, sessionKey))
      && (spawn ==> Some(AskRoute(d, sessionKey).targets) == AskChats(d, sessionKey))
      && (!spawn ==> PromptRoute(d, sessionKey).targets == Targets(d, sessionKey))
      && (!spawn ==> AskRoute(d, sessionKey).targets == [sessionKey])
  {
    if d.owner.Some? && d.owner.value(sessionKey).Some? {
      AskChatsExact(d, sessionKey);
    }
  }

  /** A prompt and an ask of one session take the same chats when it is a spawn's branch. */
  lemma SpawnRoutesAgree(d: Deps, sessionKey: Key)
    ensures AskRoute(d, sessionKey).spawned == PromptRoute(d, sessionKey).spawned
    ensures PromptRoute(d, sessionKey).spawned ==> AskRoute(d, sessionKey) == PromptRoute(d, sessionKey)
    ensures
      !PromptRoute(d, sessionKey).spawned ==>
      AskRoute(d, sessionKey).targets == PromptRoute(d, sessionKey).targets[..1]
    ensures |AskRoute(d, sessionKey).targets| > 0 && |PromptRoute(d, sessionKey).targets| > 0
  {
    TargetsExact(d, sessionKey);
    if d.owner.Some? && d.owner.value(sessionKey).Some? {
      AskChatsExact(d, sessionKey);
    }
  }

  // ---- The closed-chat gate ----

  predicate Closed(d: Deps, k: Key) {
    d.chatClosed.Some? && d.chatClosed.value(k)
  }

  /** The gate of postBackendPrompt. */
  predicate PromptGateCloses(d: Deps, sessionKey: Key) {
    var c := PromptRoute(d, sessionKey);
    c.spawned && |c.targets| > 0 && Closed(d, c.targets[0])
  }

  /** The gate of the ask presenters (askOwnerChatClosed), which tells a spawn by its first chat. */
  predicate AskGateCloses(d: Deps, sessionKey: Key)
    requires AskRoute(d, sessionKey).targets != []
  {
    var ts := AskRoute(d, sessionKey).targets;
    ts[0] != sessionKey && Closed(d, ts[0])
  }

  /** The gates ask whether the first chat is closed: the prompt's for a spawn, the ask's for a chat that is not the
      session's own. Without a way to tell, no chat is closed. */
  lemma GatesExactly(d: Deps, sessionKey: Key)
    requires AskRoute(d, sessionKey).targets != [] && PromptRoute(d, sessionKey).targets != []
    ensures
      var k := PromptRoute(d, sessionKey).targets[0];
      PromptGateCloses(d, sessionKey) <==>
      PromptRoute(d, sessionKey).spawned && d.chatClosed.Some? && d.chatClosed.value(k)
    ensures
      var k := AskRoute(d, sessionKey).targets[0];
      AskGateCloses(d, sessionKey) <==> k != sessionKey && d.chatClosed.Some? && d.chatClosed.value(k)
  {
  }

  /** The ask's gate tells a spawn by its first chat. So the two gates decide alike, except for a spawn whose first chat
      were its own session's, and closed. */
  lemma GatesAgree(d: Deps, sessionKey: Key)
    requires AskRoute(d, sessionKey).targets != []
    ensures
      var c := PromptRoute(d, sessionKey);
      (PromptGateCloses(d, sessionKey) <==> AskGateCloses(d, sessionKey)) <==>
      !(c.spawned && c.targets[..1] == [sessionKey] && Closed(d, sessionKey))
  {
    SpawnRoutesAgree(d, sessionKey);
  }

  /** No spawn has such chats unless the walk from its owner comes to the spawn's own session: as the owner itself, a
      live ancestor of it, its root, or the default session. For all others the gates are one. */
  lemma GatesAreOne(d: Deps, sessionKey: Key)
    requires AskRoute(d, sessionKey).targets != []
    requires
      d.owner.Some? && d.owner.value(sessionKey).Some? ==> sessionKey !in Targets(d, d.owner.value(sessionKey).value)
    ensures PromptGateCloses(d, sessionKey) <==> AskGateCloses(d, sessionKey)
  {
    GatesAgree(d, sessionKey);
    if PromptRoute(d, sessionKey).spawned {
      AskChatsExact(d, sessionKey);
      var ts := PromptRoute(d, sessionKey).targets;
      assert ts[0] in ts;
    }
  }
}
