/**
 The fields of memorySystem (cmd/foci-gw/memory_init.go) as the object that its critical sections update; each
 section is a step of MemoryProtocol. The view `s` is what the protocol sees of it.
*/
module MemorySystem {
  import opened Wrappers
  import opened MemoryClosers
  import opened MemoryProtocol
  import opened MemoryGuarantees

  function Reversed(list: seq<nat>): seq<nat> {
    if list == [] then [] else [list[|list| - 1]] + Reversed(list[..|list| - 1])
  }

  /** What is in the log, and what is still to come. */
  ghost predicate ClosesRest(log: seq<nat>, rest: seq<nat>, before: seq<nat>, list: seq<nat>) {
    log + Reversed(rest) == before + Reversed(list)
  }

  lemma ClosesOneMore(log: seq<nat>, rest: seq<nat>, before: seq<nat>, list: seq<nat>)
    requires rest != [] && ClosesRest(log, rest, before, list)
    ensures ClosesRest(log + [rest[|rest| - 1]], rest[..|rest| - 1], before, list)
  {
  }

  class System {
    var agents: set<Owner>
    var closers: seq<nat>                    // shared indices
    var agentClosers: map<Owner, seq<nat>>   // each agent's stores and own indices
    var closed: bool
    var closeLog: seq<nat>                   // the Close calls so far
    ghost var s: State

    function List(w: Owner): seq<nat>
      reads this`closers, this`agentClosers
    {
      if w == SHARED then closers else if w in agentClosers then agentClosers[w] else []
    }

    ghost predicate Valid()
      reads this
    {
      && agents == s.agents && closed == s.closed && SHARED !in agentClosers
      && forall w :: List(w) == At(s.bins, Registered(w))
    }

    constructor (perAgent: bool)
      ensures Valid() && s == Initial(perAgent) && closeLog == []
    {
      agents, closers, agentClosers, closed, closeLog, s := {}, [], map[], false, [], Initial(perAgent);
    }

    method Append(w: Owner, list: seq<nat>)
      modifies this`closers, this`agentClosers
      requires SHARED !in agentClosers
      ensures SHARED !in agentClosers
      ensures List(w) == old(List(w)) + list && forall v :: v != w ==> List(v) == old(List(v))
    {
      if w == SHARED {
        closers := closers + list;
      } else {
        agentClosers := agentClosers[w := List(w) + list];
      }
    }

    /** The section of addAgent that registers its stores. */
    method Admit(o: OpId, owner: Owner, stores: seq<nat>) returns (ok: bool)
      requires Valid() && o in s.ops && s.ops[o].pc.Admitting? && s.ops[o].owner == owner
      requires stores == At(s.bins, Mine(s, o))
      modifies this`agents, this`closers, this`agentClosers, this`s
      ensures Valid() && Apply(old(s), Act(o, Action.Admit)) == Some(s)
      ensures ok <==> !closed && owner !in old(agents)
      ensures agents == if ok then old(agents) + {owner} else old(agents)
      ensures List(owner) == if ok then old(List(owner)) + stores else old(List(owner))
    {
      ghost var next := Apply(s, Act(o, Action.Admit)).value;
      ok := !closed && owner !in agents;
      if ok {
        agents := agents + {owner};
        Append(owner, stores);
        MovesToEnd(s.bins, Mine(s, o), owner);
      }
      s := next;
    }

    /** The section of startBackend. */
    method StartBackend(o: OpId, owner: Owner, index: nat)
      requires Valid() && o in s.ops && s.ops[o].pc.Starting? && s.ops[o].owner == owner
      requires At(s.bins, Mine(s, o)) == [index]
      modifies this`closers, this`agentClosers, this`s
      ensures Valid() && Apply(old(s), Act(o, Start)) == Some(s)
      ensures List(owner) == old(List(owner)) + [index]
    {
      Append(owner, [index]);
      s := Apply(s, Act(o, Start)).value;
    }

    /** The section of removeAgent. */
    method TakeAgent(o: OpId, owner: Owner) returns (list: seq<nat>)
      requires Valid() && o in s.ops && s.ops[o].pc.TakingAgent? && s.ops[o].owner == owner && owner != SHARED
      requires At(s.bins, Mine(s, o)) == []
      modifies this`agents, this`agentClosers, this`s
      ensures Valid() && Apply(old(s), Act(o, Take)) == Some(s)
      ensures list == old(List(owner)) == At(s.bins, Held(o, owner)) && List(owner) == []
      ensures agents == old(agents) - {owner}
    {
      agents := agents - {owner};
      list := List(owner);
      agentClosers := agentClosers - {owner};
      s := Apply(s, Act(o, Take)).value;
    }

    /** The sections of cleanup. */
    method Shut(o: OpId)
      requires Valid() && o in s.ops && s.ops[o].pc.Shutting?
      modifies this`closed, this`s
      ensures Valid() && Apply(old(s), Act(o, Take)) == Some(s) && closed
    {
      closed := true;
      s := Apply(s, Act(o, Take)).value;
    }

    method TakeAll(o: OpId) returns (shared: seq<nat>, perAgent: map<Owner, seq<nat>>)
      requires Valid() && o in s.ops && s.ops[o].pc.TakingAll? && forall w :: At(s.bins, Held(o, w)) == []
      modifies this`closers, this`agentClosers, this`s
      ensures Valid() && Apply(old(s), Act(o, Take)) == Some(s)
      ensures shared == At(s.bins, Held(o, SHARED)) && forall w | w in perAgent :: perAgent[w] == At(s.bins, Held(o, w))
      ensures forall w | w != SHARED && At(s.bins, Held(o, w)) != [] :: w in perAgent
    {
      ghost var before := s;
      shared, perAgent := closers, agentClosers;
      closers, agentClosers := [], map[];
      s := Apply(s, Act(o, Take)).value;
      forall w ensures At(s.bins, Held(o, w)) == At(before.bins, Registered(w)) {
        MoveAllAt(before.bins, o, w);
      }
    }

    method Close(o: OpId, owner: Owner, id: nat)
      requires Valid() && o in s.ops && s.ops[o].pc.Closing?
      requires At(s.bins, Held(o, owner)) != [] && id == At(s.bins, Held(o, owner))[|At(s.bins, Held(o, owner))| - 1]
      modifies this`closeLog, this`s
      ensures Valid() && Apply(old(s), Act(o, CloseOne(owner))) == Some(s) && s.ops == old(s.ops)
      ensures At(s.bins, Held(o, owner)) == old(At(s.bins, Held(o, owner)))[..|old(At(s.bins, Held(o, owner)))| - 1]
      ensures closeLog == old(closeLog) + [id]
    {
      ClosesLast(s, o, owner);
      closeLog := closeLog + [id];
      s := Apply(s, Act(o, CloseOne(owner))).value;
    }

    /** closeAll: from the last opened to the first. */
    method CloseAll(o: OpId, owner: Owner, list: seq<nat>) returns (ghost events: seq<Event>)
      requires Valid() && o in s.ops && s.ops[o].pc.Closing? && list == At(s.bins, Held(o, owner))
      modifies this`closeLog, this`s
      ensures Valid() && Run(old(s), events) == Some(s) && At(s.bins, Held(o, owner)) == []
      ensures closeLog == old(closeLog) + Reversed(list)
    {
      events := [];
      var i := |list|;
      while i > 0
        invariant 0 <= i <= |list|
        invariant Valid() && Run(old(s), events) == Some(s) && o in s.ops && s.ops[o].pc.Closing?
        invariant At(s.bins, Held(o, owner)) == list[..i]
        invariant ClosesRest(closeLog, list[..i], old(closeLog), list)
      {
        assert list[..i][..i - 1] == list[..i - 1];
        ClosesOneMore(closeLog, list[..i], old(closeLog), list);
        ghost var next;
        events, next := Extend(old(s), events, s, Act(o, CloseOne(owner)));
        Close(o, owner, list[i - 1]);
        i := i - 1;
      }
    }
  }

  lemma MovesToEnd(c: Bins, from: Bin, owner: Owner)
    requires from.Held?
    ensures
      var d := Move(c, from, Registered(owner));
      && At(d, Registered(owner)) == At(c, Registered(owner)) + At(c, from)
      && forall v :: v != owner ==> At(d, Registered(v)) == At(c, Registered(v))
  {
  }

  lemma ClosesLast(s: State, o: OpId, w: Owner)
    requires o in s.ops && s.ops[o].pc.Closing? && At(s.bins, Held(o, w)) != []
    ensures
      var z := Apply(s, Act(o, CloseOne(w)));
      && z == Some(s.(bins := CloseLast(s.bins, Held(o, w))))
      && At(z.value.bins, Held(o, w)) == At(s.bins, Held(o, w))[..|At(s.bins, Held(o, w))| - 1]
      && (forall v :: At(z.value.bins, Registered(v)) == At(s.bins, Registered(v)))
  {
  }

  lemma MoveAllAt(c: Bins, o: OpId, w: Owner)
    requires At(c, Held(o, w)) == []
    ensures At(MoveAll(c, o), Held(o, w)) == At(c, Registered(w)) && At(MoveAll(c, o), Registered(w)) == []
  {
  }
}
