/**
 The running process's set of agents (cmd/foci-gw/agent_registry.go): a map, the registration order and the
 ids reserved for a hot-add in progress.
*/
module AgentRegistry {
  import opened Wrappers

  type Id = string

  /** `build` tells two instances of one id apart, as their pointers do in the source. */
  datatype Instance = Instance(id: Id, build: nat)

  datatype Reg = Reg(byID: map<Id, Instance>, order: seq<Id>, reserved: set<Id>)

  const EMPTY := Reg(map[], [], {})

  predicate NoDuplicates<T(==)>(s: seq<T>) {
    forall i, j :: 0 <= i < j < |s| ==> s[i] != s[j]
  }

  /** The order lists exactly the registered ids, once each; a reserved id is not registered. */
  ghost predicate Wf(r: Reg) {
    && NoDuplicates(r.order)
    && (forall id :: id in r.order <==> id in r.byID)
    && (forall id :: id in r.byID ==> r.byID[id].id == id)
    && r.reserved !! r.byID.Keys
  }

  function IndexOf<T(==)>(s: seq<T>, x: T): (i: nat)
    requires x in s
    ensures i < |s| && s[i] == x && x !in s[..i]
  {
    if s[0] == x then 0 else 1 + IndexOf(s[1..], x)
  }

  function RemoveAt<T>(s: seq<T>, i: nat): seq<T>
    requires i < |s|
  {
    s[..i] + s[i + 1..]
  }

  function InsertAt<T>(s: seq<T>, i: nat, x: T): seq<T>
    requires i <= |s|
  {
    s[..i] + [x] + s[i..]
  }

  /** A slot outside the order means its end. */
  function Clamp(r: Reg, slot: int): nat {
    if slot < 0 || slot > |r.order| then |r.order| else slot
  }

  predicate CanReserve(r: Reg, id: Id) {
    id !in r.byID && id !in r.reserved
  }

  function Reserve(r: Reg, id: Id): Reg {
    if CanReserve(r, id) then r.(reserved := r.reserved + {id}) else r
  }

  function Release(r: Reg, id: Id): Reg {
    r.(reserved := r.reserved - {id})
  }

  /** The reservation ends even when the commit fails. */
  function CommitAt(r: Reg, inst: Instance, slot: int): Reg {
    if inst.id in r.byID then Release(r, inst.id)
    else Reg(r.byID[inst.id := inst], InsertAt(r.order, Clamp(r, slot), inst.id), r.reserved - {inst.id})
  }

  function Remove(r: Reg, id: Id): Reg
    requires id in r.byID ==> id in r.order
  {
    if id in r.byID then Reg(r.byID - {id}, RemoveAt(r.order, IndexOf(r.order, id)), r.reserved) else r
  }

  // ---- What the operations keep ----

  lemma InsertAtMembers<T>(s: seq<T>, i: nat, x: T, y: T)
    requires i <= |s|
    ensures y in InsertAt(s, i, x) <==> y == x || y in s
  {
    assert s == s[..i] + s[i..];
    assert InsertAt(s, i, x)[i] == x;
  }

  lemma RemoveAtMembers<T>(s: seq<T>, i: nat, y: T)
    requires i < |s| && NoDuplicates(s)
    ensures NoDuplicates(RemoveAt(s, i))
    ensures y in RemoveAt(s, i) <==> y in s && y != s[i]
  {
    assert s == s[..i] + [s[i]] + s[i + 1..];
  }

  /** A reserved id cannot be reserved again until it is released, which undoes the reservation; other ids are as free
      as before. */
  lemma ReservationHolds(r: Reg, id: Id, other: Id)
    requires CanReserve(r, id)
    ensures !CanReserve(Reserve(r, id), id) && CanReserve(Release(Reserve(r, id), id), id)
    ensures Release(Reserve(r, id), id) == r
    ensures other != id ==> (CanReserve(Reserve(r, id), other) <==> other !in r.byID && other !in r.reserved)
  {
  }

  lemma CommitAtKeepsWf(r: Reg, inst: Instance, slot: int)
    requires Wf(r)
    ensures Wf(CommitAt(r, inst, slot))
  {
    var after := CommitAt(r, inst, slot);
    if inst.id !in r.byID {
      forall id ensures id in after.order <==> id in after.byID {
        InsertAtMembers(r.order, Clamp(r, slot), inst.id, id);
      }
    }
  }

  /** A commit ends the reservation of its id, also when it fails, and registers nothing then; no other reservation
      ends. */
  lemma CommitEndsReservation(r: Reg, inst: Instance, slot: int)
    ensures
      var after := CommitAt(r, inst, slot);
      && after.reserved == r.reserved - {inst.id}
      && (inst.id in r.byID ==> after.byID == r.byID && after.order == r.order)
      && (inst.id !in r.byID ==> after.byID == r.byID[inst.id := inst])
  {
  }

  lemma RemoveKeepsWf(r: Reg, id: Id)
    requires Wf(r)
    ensures Wf(Remove(r, id))
  {
    if id in r.byID {
      forall j ensures j in Remove(r, id).order <==> j in Remove(r, id).byID {
        RemoveAtMembers(r.order, IndexOf(r.order, id), j);
      }
      RemoveAtMembers(r.order, IndexOf(r.order, id), id);
    }
  }

  /** Taking an element out and putting another in its slot replaces it, and only it. */
  lemma RemoveThenInsert<T>(s: seq<T>, i: nat, x: T)
    requires i < |s|
    ensures i <= |RemoveAt(s, i)| && InsertAt(RemoveAt(s, i), i, x) == s[i := x]
  {
    var r := RemoveAt(s, i);
    assert r[..i] == s[..i] && r[i..] == s[i + 1..];
  }

  // ---- The registry as the process holds it ----

  class Registry {
    var byID: map<Id, Instance>
    var order: seq<Id>
    var reserved: set<Id>

    constructor ()
      ensures Value() == EMPTY && Valid()
    {
      byID, order, reserved := map[], [], {};
    }

    ghost function Value(): Reg
      reads this
    {
      Reg(byID, order, reserved)
    }

    ghost predicate Valid()
      reads this
    {
      Wf(Value())
    }

    method Get(id: Id) returns (inst: Option<Instance>)
      ensures inst == if id in byID then Some(byID[id]) else None
    {
      inst := if id in byID then Some(byID[id]) else None;
    }

    /** The first-registered agent. */
    method Default() returns (inst: Option<Instance>)
      requires Valid()
      ensures inst.None? <==> byID == map[]
      ensures inst.Some? ==> order != [] && inst.value.id == order[0] && inst.value in byID.Values
    {
      if order == [] {
        assert byID.Keys == {};
        return None;
      }
      return Some(byID[order[0]]);
    }

    /** The agents in registration order. */
    method All() returns (all: seq<Instance>)
      requires Valid()
      ensures |all| == |order| && forall i :: 0 <= i < |all| ==> all[i].id == order[i] && all[i] == byID[order[i]]
      ensures forall inst :: inst in all <==> inst in byID.Values
    {
      all := [];
      for i := 0 to |order|
        invariant |all| == i
        invariant forall k :: 0 <= k < i ==> all[k].id == order[k] && all[k] == byID[order[k]]
      {
        all := all + [byID[order[i]]];
      }
      forall inst | inst in byID.Values ensures inst in all {
        var id :| id in byID && byID[id] == inst;
        assert id in order;
        var k :| 0 <= k < |order| && order[k] == id;
        assert all[k] == inst;
      }
    }

    method ReserveId(id: Id) returns (ok: bool)
      requires Valid()
      modifies this
      ensures Valid() && ok == CanReserve(old(Value()), id) && Value() == Reserve(old(Value()), id)
    {
      if id in byID || id in reserved {
        return false;
      }
      reserved := reserved + {id};
      return true;
    }

    method ReleaseId(id: Id)
      requires Valid()
      modifies this
      ensures Valid() && Value() == Release(old(Value()), id)
    {
      reserved := reserved - {id};
    }

    /** Publishes at the end of the order. */
    method Commit(inst: Instance) returns (ok: bool)
      requires Valid()
      modifies this
      ensures Valid() && ok == (inst.id !in old(byID)) && Value() == CommitAt(old(Value()), inst, -1)
    {
      ghost var was := Value();
      CommitAtKeepsWf(was, inst, -1);
      reserved := reserved - {inst.id};
      if inst.id in byID {
        return false;
      }
      byID := byID[inst.id := inst];
      order := order + [inst.id];
      assert order == InsertAt(was.order, |was.order|, inst.id);
      return true;
    }

    method CommitInSlot(inst: Instance, slot: int) returns (ok: bool)
      requires Valid()
      modifies this
      ensures Valid() && ok == (inst.id !in old(byID)) && Value() == CommitAt(old(Value()), inst, slot)
    {
      CommitAtKeepsWf(Value(), inst, slot);
      reserved := reserved - {inst.id};
      if inst.id in byID {
        return false;
      }
      byID := byID[inst.id := inst];
      var at := slot;
      if at < 0 || at > |order| {
        at := |order|;
      }
      order := InsertAt(order, at, inst.id);
      return true;
    }

    /** Unregisters a running agent; slot is its place in the order, -1 when it is not registered. */
    method RemoveId(id: Id) returns (inst: Option<Instance>, slot: int)
      requires Valid()
      modifies this
      ensures Valid() && Value() == Remove(old(Value()), id)
      ensures if id in old(byID) then inst == Some(old(byID)[id]) && slot == IndexOf(old(order), id)
              else inst == None && slot == -1
    {
      RemoveKeepsWf(Value(), id);
      if id !in byID {
        return None, -1;
      }
      inst := Some(byID[id]);
      byID := byID - {id};
      slot := IndexOf(order, id);
      order := RemoveAt(order, slot);
    }
  }
}
