/**
 The running totals of a process's calls by window (cmd/foci-gw/ledger_shadow.go, callPrefixes;
 cmd/foci-gw/ledger_shadow_checks.go, shadowTTLWrite). A per-model token map is a heap object here, as Go's maps
 are references: an entry that shared one with the entry before it would change under it.
*/
module ShadowTotals {

  type Model = string
  type Class = string
  type Tokens = map<Class, int>

  /** Cache writes whose TTL was not reported. */
  datatype TTLWrite = TTLWrite(tokens: int, calls: int, booked: real, at5m: real) {
    function Add(o: TTLWrite): TTLWrite {
      TTLWrite(tokens + o.tokens, calls + o.calls, booked + o.booked, at5m + o.at5m)
    }

    /** How much of the price the TTL guess decides. */
    function Exposure(): real {
      booked - at5m
    }
  }

  const NO_TTL := TTLWrite(0, 0, 0.0, 0.0)

  /** math.MaxInt64 stands for a call booked outside any window. */
  const NO_WINDOW := 9223372036854775807

  datatype Call = Call(model: Model, window: int, cost: real, tokens: Tokens, ttl: TTLWrite)

  function Get(t: Tokens, c: Class): int {
    if c in t then t[c] else 0
  }

  function GetIn(ts: map<Model, Tokens>, m: Model, c: Class): int {
    if m in ts then Get(ts[m], c) else 0
  }

  // ---- The simple sum that the totals stand for ----

  /** What a set of calls comes to, as seen at one class of one model. */
  datatype Amount = Amount(count: int, cost: real, ttl: TTLWrite)

  const NOTHING := Amount(0, 0.0, NO_TTL)

  function Plus(a: Amount, b: Amount): Amount {
    Amount(a.count + b.count, a.cost + b.cost, a.ttl.Add(b.ttl))
  }

  function Part(call: Call, m: Model, c: Class): Amount {
    Amount(if call.model == m then Get(call.tokens, c) else 0, call.cost, call.ttl)
  }

  /** The sum over the calls of the given windows. */
  function Sum(calls: seq<Call>, windows: set<int>, m: Model, c: Class): Amount {
    if calls == [] then NOTHING
    else
      var last := calls[|calls| - 1];
      var before := Sum(calls[..|calls| - 1], windows, m, c);
      if last.window in windows then Plus(before, Part(last, m, c)) else before
  }

  /** One number of every call of the given windows, added up. */
  function TotalInt(calls: seq<Call>, windows: set<int>, f: Call -> int): int {
    if calls == [] then 0
    else
      TotalInt(calls[..|calls| - 1], windows, f)
      + (if calls[|calls| - 1].window in windows then f(calls[|calls| - 1]) else 0)
  }

  function TotalReal(calls: seq<Call>, windows: set<int>, f: Call -> real): real {
    if calls == [] then 0.0
    else
      TotalReal(calls[..|calls| - 1], windows, f)
      + (if calls[|calls| - 1].window in windows then f(calls[|calls| - 1]) else 0.0)
  }

  /** The sum is the sum of each of its numbers; what rests on the TTL guess is the sum of what rests on it in each
      call. */
  lemma {:induction false} SumByField(calls: seq<Call>, windows: set<int>, m: Model, c: Class)
    ensures
      var sum := Sum(calls, windows, m, c);
      && sum.count ==
         TotalInt(calls, windows, (x: Call) => if x.model == m && c in x.tokens then x.tokens[c] else 0)
      && sum.cost == TotalReal(calls, windows, (x: Call) => x.cost)
      && sum.ttl.tokens == TotalInt(calls, windows, (x: Call) => x.ttl.tokens)
      && sum.ttl.calls == TotalInt(calls, windows, (x: Call) => x.ttl.calls)
      && sum.ttl.booked == TotalReal(calls, windows, (x: Call) => x.ttl.booked)
      && sum.ttl.at5m == TotalReal(calls, windows, (x: Call) => x.ttl.at5m)
      && sum.ttl.Exposure() == TotalReal(calls, windows, (x: Call) => x.ttl.booked - x.ttl.at5m)
  {
    if calls != [] {
      SumByField(calls[..|calls| - 1], windows, m, c);
    }
  }

  function Windows(calls: seq<Call>): set<int> {
    set call | call in calls && call.window != NO_WINDOW :: call.window
  }

  function OfWindow(calls: seq<Call>, w: int): seq<Call> {
    if calls == [] then []
    else OfWindow(calls[..|calls| - 1], w) + (if calls[|calls| - 1].window == w then [calls[|calls| - 1]] else [])
  }

  lemma {:induction false} SumOfMoreWindows(calls: seq<Call>, ws: set<int>, w: int, m: Model, c: Class)
    requires w !in ws
    ensures Sum(calls, ws + {w}, m, c) == Plus(Sum(calls, ws, m, c), Sum(calls, {w}, m, c))
  {
    if calls != [] {
      SumOfMoreWindows(calls[..|calls| - 1], ws, w, m, c);
    }
  }

  lemma {:induction false} SumOfOneWindow(calls: seq<Call>, w: int, m: Model, c: Class)
    ensures Sum(OfWindow(calls, w), {w}, m, c) == Sum(calls, {w}, m, c)
  {
    if calls != [] {
      var init := calls[..|calls| - 1];
      SumOfOneWindow(init, w, m, c);
      if calls[|calls| - 1].window == w {
        assert OfWindow(calls, w)[..|OfWindow(calls, w)| - 1] == OfWindow(init, w);
      } else {
        assert OfWindow(calls, w) == OfWindow(init, w);
      }
    }
  }

  lemma {:induction false} OfWindowExact(calls: seq<Call>, w: int)
    ensures forall call :: call in OfWindow(calls, w) <==> call in calls && call.window == w
  {
    if calls != [] {
      OfWindowExact(calls[..|calls| - 1], w);
      assert calls == calls[..|calls| - 1] + [calls[|calls| - 1]];
    }
  }

  // ---- The windows in order ----

  predicate Increasing(s: seq<int>) {
    forall i, j :: 0 <= i < j < |s| ==> s[i] < s[j]
  }

  lemma {:induction false} HasLeast(s: set<int>)
    requires s != {}
    ensures exists x :: x in s && forall y :: y in s ==> x <= y
  {
    assert (forall x :: x !in s) ==> s == {};
    var x :| x in s;
    if y :| y in s && y < x {
      assert y in s - {x};
      HasLeast(s - {x});
      var z :| z in s - {x} && forall v :: v in s - {x} ==> z <= v;
      assert z <= y;
      forall v | v in s ensures z <= v {
        assert v == x || v in s - {x};
      }
    }
  }

  function Least(s: set<int>): (x: int)
    requires s != {}
    ensures x in s && forall y :: y in s ==> x <= y
  {
    HasLeast(s);
    var x :| x in s && forall y :: y in s ==> x <= y;
    x
  }

  /** slices.Sorted(maps.Keys(...)): the elements of a set in increasing order. */
  function SortedKeys(s: set<int>): (ws: seq<int>)
    ensures Increasing(ws) && forall w :: w in ws <==> w in s
  {
    if s == {} then []
    else
      var rest := SortedKeys(s - {Least(s)});
      [Least(s)] + rest
  }
}
