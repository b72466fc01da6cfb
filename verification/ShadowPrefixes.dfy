/** Building the running totals (cmd/foci-gw/ledger_shadow.go, callPrefixes) on the heap. */
module ShadowPrefixes {
  import opened ShadowTotals

  /** A token map as the source holds it: by reference. */
  class Counts {
    var m: Tokens

    constructor (m: Tokens)
      ensures this.m == m
    {
      this.m := m;
    }

    /** `for class, n := range add { m[class] += n }`. */
    method AddTokens(add: Tokens)
      modifies this
      ensures forall c :: Get(m, c) == Get(old(m), c) + Get(add, c)
    {
      var todo := add.Keys;
      while todo != {}
        invariant todo <= add.Keys
        invariant forall c :: Get(m, c) == Get(old(m), c) + (if c in todo then 0 else Get(add, c))
        decreases |todo|
      {
        var c :| c in todo;
        m := m[c := Get(m, c) + add[c]];
        todo := todo - {c};
      }
    }
  }

  datatype Total = Total(tokens: map<Model, Counts>, cost: real, ttl: TTLWrite)

  ghost function Repr(t: Total): set<Counts> {
    set m | m in t.tokens :: t.tokens[m]
  }

  /** No two models of the total share a map. */
  ghost predicate Unshared(t: Total) {
    forall m, n :: m in t.tokens && n in t.tokens && m != n ==> t.tokens[m] != t.tokens[n]
  }

  /** What the total says at one class of one model. */
  ghost function AmountAt(t: Total, m: Model, c: Class): Amount
    reads Repr(t)
  {
    Amount(if m in t.tokens then Get(t.tokens[m].m, c) else 0, t.cost, t.ttl)
  }

  method CloneTokens(prev: Total) returns (tokens: map<Model, Counts>)
    ensures tokens.Keys == prev.tokens.Keys
    ensures forall m :: m in tokens ==> fresh(tokens[m]) && tokens[m].m == prev.tokens[m].m
    ensures forall m, n :: m in tokens && n in tokens && m != n ==> tokens[m] != tokens[n]
  {
    tokens := map[];
    var todo := prev.tokens.Keys;
    while todo != {}
      invariant todo <= prev.tokens.Keys && tokens.Keys == prev.tokens.Keys - todo
      invariant forall m :: m in tokens ==> fresh(tokens[m]) && tokens[m].m == prev.tokens[m].m
      invariant forall m, n :: m in tokens && n in tokens && m != n ==> tokens[m] != tokens[n]
      decreases |todo|
    {
      var m :| m in todo;
      var clone := new Counts(prev.tokens[m].m);
      tokens := tokens[m := clone];
      todo := todo - {m};
    }
  }

  /** Adds one call to a total whose maps are its own. */
  method AddCall(t: Total, call: Call) returns (next: Total)
    requires Unshared(t)
    modifies Repr(t)
    ensures forall m :: m in next.tokens ==> fresh(next.tokens[m]) || (m in t.tokens && next.tokens[m] == t.tokens[m])
    ensures Unshared(next)
    ensures forall m, c :: AmountAt(next, m, c) == Plus(old(AmountAt(t, m, c)), Part(call, m, c))
  {
    var tokens := t.tokens;
    if call.model !in tokens {
      var empty := new Counts(map[]);
      tokens := tokens[call.model := empty];
    }
    tokens[call.model].AddTokens(call.tokens);
    next := Total(tokens, t.cost + call.cost, t.ttl.Add(call.ttl));
  }

  /** The entry after `prev`: a deep clone, with the calls of the next window added. It has no `modifies`, so no
      earlier entry changes. */
  method NextTotal(prev: Total, calls: seq<Call>, ghost w: int) returns (next: Total)
    requires forall call :: call in calls ==> call.window == w
    ensures (forall m :: m in next.tokens ==> fresh(next.tokens[m])) && Unshared(next)
    ensures forall m, c :: AmountAt(next, m, c) == Plus(AmountAt(prev, m, c), Sum(calls, {w}, m, c))
  {
    var tokens := CloneTokens(prev);
    next := Total(tokens, prev.cost, prev.ttl);
    for i := 0 to |calls|
      invariant forall m :: m in next.tokens ==> fresh(next.tokens[m])
      invariant Unshared(next)
      invariant forall m, c :: AmountAt(next, m, c) == Plus(AmountAt(prev, m, c), Sum(calls[..i], {w}, m, c))
    {
      ghost var base := next;
      label before:
      next := AddCall(next, calls[i]);
      forall m, c ensures AmountAt(next, m, c) == Plus(AmountAt(prev, m, c), Sum(calls[..i + 1], {w}, m, c)) {
        OneMoreCall(calls, i, w, m, c);
        assert AmountAt(next, m, c) == Plus(old@before(AmountAt(base, m, c)), Part(calls[i], m, c));
      }
    }
    assert calls[..|calls|] == calls;
  }

  lemma OneMoreCall(calls: seq<Call>, i: nat, w: int, m: Model, c: Class)
    requires i < |calls| && calls[i].window == w
    ensures Sum(calls[..i + 1], {w}, m, c) == Plus(Sum(calls[..i], {w}, m, c), Part(calls[i], m, c))
  {
    assert calls[..i + 1][..i] == calls[..i];
  }

  method GroupByWindow(calls: seq<Call>) returns (byWindow: map<int, seq<Call>>)
    ensures byWindow.Keys == Windows(calls)
    ensures forall w :: w in byWindow ==> byWindow[w] == OfWindow(calls, w)
  {
    byWindow := map[];
    for i := 0 to |calls|
      invariant byWindow.Keys == Windows(calls[..i])
      invariant forall w :: w in byWindow ==> byWindow[w] == OfWindow(calls[..i], w)
    {
      var call := calls[i];
      WindowsGrow(calls, i);
      if call.window != NO_WINDOW {
        var group := if call.window in byWindow then byWindow[call.window] else [];
        if call.window !in byWindow {
          NoneOfWindow(calls[..i], call.window);
        }
        byWindow := byWindow[call.window := group + [call]];
      }
    }
    assert calls[..|calls|] == calls;
  }

  lemma NoneOfWindow(calls: seq<Call>, w: int)
    requires w !in Windows(calls) && w != NO_WINDOW
    ensures OfWindow(calls, w) == []
  {
    OfWindowExact(calls, w);
    assert forall call :: call in OfWindow(calls, w) ==> call.window in Windows(calls);
    if |OfWindow(calls, w)| > 0 {
      assert false;
    }
  }

  lemma WindowsGrow(calls: seq<Call>, i: nat)
    requires i < |calls|
    ensures Windows(calls[..i + 1]) ==
            Windows(calls[..i]) + (if calls[i].window != NO_WINDOW then {calls[i].window} else {})
    ensures forall w :: OfWindow(calls[..i + 1], w) ==
              OfWindow(calls[..i], w) + (if calls[i].window == w then [calls[i]] else [])
  {
    assert calls[..i + 1] == calls[..i] + [calls[i]];
    assert calls[..i + 1][..i] == calls[..i];
  }

  /** `t` holds every call of `windows`, at every class of every model, with the cost and the unknown-TTL writes. */
  ghost predicate Holds(t: Total, calls: seq<Call>, windows: set<int>)
    reads Repr(t)
  {
    forall m, c :: AmountAt(t, m, c) == Sum(calls, windows, m, c)
  }

  ghost function ReprAll(out: seq<Total>): set<Counts> {
    set i, m | 0 <= i < |out| && m in out[i].tokens :: out[i].tokens[m]
  }

  /** Entry i is every call of the i lowest windows. */
  ghost predicate AllHold(out: seq<Total>, calls: seq<Call>, ws: seq<int>)
    reads ReprAll(out)
  {
    |out| <= |ws| + 1 && forall i :: 0 <= i < |out| ==> Holds(out[i], calls, Elements(ws[..i]))
  }

  ghost predicate NoSharing(s: Total, t: Total) {
    forall m, n :: m in s.tokens && n in t.tokens ==> s.tokens[m] != t.tokens[n]
  }

  ghost predicate NoneShared(out: seq<Total>) {
    forall i, j :: 0 <= i < j < |out| ==> NoSharing(out[i], out[j])
  }

  /** The running totals by window; no two entries share a map. */
  method CallPrefixes(calls: seq<Call>) returns (out: seq<Total>)
    ensures |out| == |SortedKeys(Windows(calls))| + 1
    ensures AllHold(out, calls, SortedKeys(Windows(calls)))
    ensures fresh(ReprAll(out)) && NoneShared(out)
  {
    var byWindow := GroupByWindow(calls);
    var ws := SortedKeys(byWindow.Keys);
    out := [Total(map[], 0.0, NO_TTL)];
    EmptyHolds(out[0], calls);
    assert ws[..0] == [];
    for k := 0 to |ws|
      invariant |out| == k + 1
      invariant AllHold(out, calls, ws)
      invariant fresh(ReprAll(out)) && NoneShared(out)
    {
      OfWindowExact(calls, ws[k]);
      out := AppendTotal(out, byWindow[ws[k]], calls, ws);
    }
  }

  method AppendTotal(out: seq<Total>, group: seq<Call>, ghost calls: seq<Call>, ghost ws: seq<int>)
    returns (longer: seq<Total>)
    requires 0 < |out| <= |ws| && Increasing(ws)
    requires AllHold(out, calls, ws) && NoneShared(out)
    requires group == OfWindow(calls, ws[|out| - 1]) && forall call :: call in group ==> call.window == ws[|out| - 1]
    ensures |longer| == |out| + 1 && AllHold(longer, calls, ws) && NoneShared(longer)
    ensures fresh(ReprAll(longer) - ReprAll(out))
  {
    var prev := out[|out| - 1];
    var next := NextTotal(prev, group, ws[|out| - 1]);
    assert old(AllHold(out, calls, ws)) && unchanged(ReprAll(out));
    NextHolds(prev, next, calls, ws, |out| - 1);
    OneMoreHolds(out, next, calls, ws);
    longer := out + [next];
  }

  lemma OneMoreHolds(out: seq<Total>, next: Total, calls: seq<Call>, ws: seq<int>)
    requires AllHold(out, calls, ws) && NoneShared(out) && |out| <= |ws|
    requires Holds(next, calls, Elements(ws[..|out|]))
    requires forall m :: m in next.tokens ==> next.tokens[m] !in ReprAll(out)
    ensures AllHold(out + [next], calls, ws) && NoneShared(out + [next])
    ensures ReprAll(out + [next]) == ReprAll(out) + Repr(next)
  {
    var longer := out + [next];
    forall i | 0 <= i < |longer| ensures Holds(longer[i], calls, Elements(ws[..i])) {
      assert longer[i] == if i < |out| then out[i] else next;
    }
    assert forall i :: 0 <= i < |out| ==> longer[i] == out[i];
  }

  lemma EmptyHolds(t: Total, calls: seq<Call>)
    requires t == Total(map[], 0.0, NO_TTL)
    ensures Holds(t, calls, Elements([]))
  {
    assert Elements([]) == {};
    forall m, c ensures AmountAt(t, m, c) == Sum(calls, Elements([]), m, c) {
      SumOfNoWindow(calls, m, c);
    }
  }

  lemma NextHolds(prev: Total, next: Total, calls: seq<Call>, ws: seq<int>, k: nat)
    requires Increasing(ws) && k < |ws|
    requires Holds(prev, calls, Elements(ws[..k]))
    requires
      forall m, c ::
        AmountAt(next, m, c) == Plus(AmountAt(prev, m, c), Sum(OfWindow(calls, ws[k]), {ws[k]}, m, c))
    ensures Holds(next, calls, Elements(ws[..k + 1]))
  {
    forall m, c ensures AmountAt(next, m, c) == Sum(calls, Elements(ws[..k + 1]), m, c) {
      NextWindow(calls, ws, k, m, c);
    }
  }

  function Elements(ws: seq<int>): set<int> {
    set w | w in ws
  }

  lemma {:induction false} SumOfNoWindow(calls: seq<Call>, m: Model, c: Class)
    ensures Sum(calls, {}, m, c) == NOTHING
  {
    if calls != [] {
      SumOfNoWindow(calls[..|calls| - 1], m, c);
    }
  }

  lemma NextWindow(calls: seq<Call>, ws: seq<int>, k: nat, m: Model, c: Class)
    requires Increasing(ws) && k < |ws|
    ensures Sum(calls, Elements(ws[..k + 1]), m, c) ==
            Plus(Sum(calls, Elements(ws[..k]), m, c), Sum(OfWindow(calls, ws[k]), {ws[k]}, m, c))
  {
    assert Elements(ws[..k + 1]) == Elements(ws[..k]) + {ws[k]} by {
      assert ws[..k + 1] == ws[..k] + [ws[k]];
    }
    assert ws[k] !in ws[..k];
    SumOfMoreWindows(calls, Elements(ws[..k]), ws[k], m, c);
    SumOfOneWindow(calls, ws[k], m, c);
  }
}
