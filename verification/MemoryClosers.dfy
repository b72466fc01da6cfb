/**
 Who owns each open store and index of the memory system (cmd/foci-gw/memory_init.go): the adding call that has
 opened it, the running system, the call that is to close it, or nobody once it is closed.
*/
module MemoryClosers {
  type Owner = string
  type OpId = int

  /** The id "" owns the shared indices. */
  const SHARED: Owner := ""

  /** A list of open closers: registered for an owner, or in the hands of one running call. */
  datatype Bin = Registered(owner: Owner) | Held(op: OpId, owner: Owner)

  datatype Place = In(bin: Bin) | Closed | ClosedTwice

  /** Closers are numbered as they are opened. `places` records what became of each; the code sees only the lists. */
  datatype Bins = Bins(lists: map<Bin, seq<nat>>, places: map<nat, Place>, next: nat)

  const EMPTY := Bins(map[], map[], 0)

  function At(c: Bins, b: Bin): seq<nat> {
    if b in c.lists then c.lists[b] else []
  }

  function Open(c: Bins, b: Bin): Bins {
    Bins(c.lists[b := At(c, b) + [c.next]], c.places[c.next := In(b)], c.next + 1)
  }

  /** The whole list `from` goes to the end of `to`. */
  function Move(c: Bins, from: Bin, to: Bin): Bins {
    Bins((c.lists - {from})[to := At(c, to) + At(c, from)],
         map id | id in c.places :: if c.places[id] == In(from) then In(to) else c.places[id],
         c.next)
  }

  function Owners(c: Bins): set<Owner> {
    set b | b in c.lists && b.Registered? :: b.owner
  }

  /** Every registered list goes to the call `o`. */
  function MoveAll(c: Bins, o: OpId): Bins {
    Bins((map b | b in c.lists && b.Held? :: c.lists[b]) +
         (map b | b in HeldFor(o, Owners(c)) :: c.lists[Registered(b.owner)]),
         map id | id in c.places ::
           if c.places[id].In? && c.places[id].bin.Registered? then In(Held(o, c.places[id].bin.owner))
           else c.places[id],
         c.next)
  }

  function HeldFor(o: OpId, owners: set<Owner>): set<Bin> {
    set w | w in owners :: Held(o, w)
  }

  /** The last of a list is closed. */
  function CloseLast(c: Bins, b: Bin): Bins
    requires At(c, b) != []
  {
    var list := At(c, b);
    var id := list[|list| - 1];
    Bins(c.lists[b := list[..|list| - 1]],
         c.places[id := if id in c.places && !c.places[id].In? then ClosedTwice else Closed],
         c.next)
  }

  // ---- Each closer is in one place ----

  predicate Distinct(list: seq<nat>) {
    forall i, j :: 0 <= i < j < |list| ==> list[i] != list[j]
  }

  ghost predicate Listed(c: Bins) {
    forall b, i :: b in c.lists && 0 <= i < |c.lists[b]| ==>
      c.lists[b][i] in c.places && c.places[c.lists[b][i]] == In(b)
  }

  ghost predicate Conserved(c: Bins) {
    && (forall id :: id in c.places <==> 0 <= id < c.next)
    && Listed(c)
    && (forall b :: b in c.lists ==> Distinct(c.lists[b]))
    && (forall id :: id in c.places && c.places[id].In? ==> id in At(c, c.places[id].bin))
    && (forall id :: id in c.places ==> !c.places[id].ClosedTwice?)
  }

  lemma OpenConserves(c: Bins, b: Bin)
    requires Conserved(c)
    ensures Conserved(Open(c, b))
  {
  }

  lemma MoveConserves(c: Bins, from: Bin, to: Bin)
    requires Conserved(c) && from != to
    ensures Conserved(Move(c, from, to))
  {
  }

  lemma MoveAllLists(c: Bins, o: OpId)
    requires Conserved(c) && forall w :: At(c, Held(o, w)) == []
    ensures
      var d := MoveAll(c, o);
      && (forall w :: At(d, Held(o, w)) == At(c, Registered(w)) && At(d, Registered(w)) == [])
      && (forall p, w :: p != o ==> At(d, Held(p, w)) == At(c, Held(p, w)))
  {
  }

  lemma MoveAllConserves(c: Bins, o: OpId)
    requires Conserved(c) && forall w :: At(c, Held(o, w)) == []
    ensures Conserved(MoveAll(c, o))
  {
    var d := MoveAll(c, o);
    MoveAllLists(c, o);
    forall b, i | b in d.lists && 0 <= i < |d.lists[b]|
      ensures d.lists[b][i] in d.places && d.places[d.lists[b][i]] == In(b)
    {
      var from := if b.Held? && b.op == o then Registered(b.owner) else b;
      assert At(d, b) == At(c, from);
    }
  }

  lemma CloseListed(c: Bins, b: Bin)
    requires Conserved(c) && At(c, b) != []
    ensures Listed(CloseLast(c, b))
  {
    var id := At(c, b)[|At(c, b)| - 1];
    forall x, i | x in c.lists && 0 <= i < |c.lists[x]| && (x != b || i < |c.lists[b]| - 1)
      ensures c.lists[x][i] != id
    {
      assert c.places[c.lists[x][i]] == In(x) && c.places[id] == In(b);
    }
  }

  lemma CloseConserves(c: Bins, b: Bin)
    requires Conserved(c) && At(c, b) != []
    ensures Conserved(CloseLast(c, b))
  {
    var list := At(c, b);
    CloseListed(c, b);
    assert list == list[..|list| - 1] + [list[|list| - 1]];
  }
}
