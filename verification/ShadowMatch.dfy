/**
 Which interval of a process is compared (cmd/foci-gw/ledger_shadow.go, shadowProcesses, reportDelta, sameTokens):
 the latest report whose counts beyond the baseline are those of the calls up to some window.
*/
module ShadowMatch {
  import opened Wrappers
  import opened ShadowTotals
  import opened ShadowPrefixes

  datatype Usage = Usage(cost: real, tokens: Tokens)

  type Report = map<Model, Usage>

  const NO_USAGE := Usage(0.0, map[])

  function UsageOf(r: Report, m: Model): Usage {
    if m in r then r[m] else NO_USAGE
  }

  // ---- sameTokens ----

  predicate TokensWithin(a: map<Model, Tokens>, b: map<Model, Tokens>) {
    forall m :: m in a ==> forall c :: c in a[m] ==> a[m][c] != 0 ==> GetIn(b, m, c) == a[m][c]
  }

  predicate SameTokens(a: map<Model, Tokens>, b: map<Model, Tokens>) {
    TokensWithin(a, b) && TokensWithin(b, a)
  }

  /** Two sets of counts are the same exactly when they agree at every class of every model, absent or zero alike. */
  lemma SameTokensExact(a: map<Model, Tokens>, b: map<Model, Tokens>)
    ensures SameTokens(a, b) <==> forall m, c :: GetIn(a, m, c) == GetIn(b, m, c)
  {
    if SameTokens(a, b) {
      forall m, c ensures GetIn(a, m, c) == GetIn(b, m, c) {
        assert m in a ==> c in a[m] ==> a[m][c] != 0 ==> GetIn(b, m, c) == a[m][c];
        assert m in b ==> c in b[m] ==> b[m][c] != 0 ==> GetIn(a, m, c) == b[m][c];
      }
    }
    if forall m, c :: GetIn(a, m, c) == GetIn(b, m, c) {
      forall m | m in a ensures forall c :: c in a[m] ==> GetIn(b, m, c) == a[m][c] {
        assert forall c :: c in a[m] ==> GetIn(a, m, c) == a[m][c];
      }
      forall m | m in b ensures forall c :: c in b[m] ==> GetIn(a, m, c) == b[m][c] {
        assert forall c :: c in b[m] ==> GetIn(b, m, c) == b[m][c];
      }
    }
  }

  // ---- reportDelta ----

  datatype Delta = Delta(tokens: map<Model, Tokens>, cost: real)

  /** The cost a set of models adds beyond the baseline; the order of the sum does not matter. */
  ghost function CostBeyond(r: Report, base: Report, models: set<Model>): real {
    if models == {} then 0.0
    else
      var m :| m in models;
      CostBeyond(r, base, models - {m}) + (UsageOf(r, m).cost - UsageOf(base, m).cost)
  }

  lemma {:induction false} CostBeyondAnyOrder(r: Report, base: Report, models: set<Model>, n: Model)
    requires n in models
    ensures CostBeyond(r, base, models) ==
            CostBeyond(r, base, models - {n}) + (UsageOf(r, n).cost - UsageOf(base, n).cost)
    decreases models
  {
    var m :| m in models && CostBeyond(r, base, models) ==
      CostBeyond(r, base, models - {m}) + (UsageOf(r, m).cost - UsageOf(base, m).cost);
    if m != n {
      CostBeyondAnyOrder(r, base, models - {m}, n);
      CostBeyondAnyOrder(r, base, models - {n}, m);
      assert models - {m} - {n} == models - {n} - {m};
    }
  }

  lemma OneMoreCost(r: Report, base: Report, done: set<Model>, m: Model)
    requires m !in done
    ensures CostBeyond(r, base, done + {m}) == CostBeyond(r, base, done) + (UsageOf(r, m).cost - UsageOf(base, m).cost)
  {
    CostBeyondAnyOrder(r, base, done + {m}, m);
    assert done + {m} - {m} == done;
  }

  function Beyond(r: Report, base: Report, m: Model, c: Class): int {
    Get(UsageOf(r, m).tokens, c) - Get(UsageOf(base, m).tokens, c)
  }

  /** What a report counts beyond the baseline. A model the report omits has not moved. */
  ghost predicate IsDelta(d: Delta, r: Report, base: Report) {
    && d.tokens.Keys == r.Keys
    && (forall m, c :: GetIn(d.tokens, m, c) == (if m in r then Beyond(r, base, m, c) else 0))
    && d.cost == CostBeyond(r, base, r.Keys)
  }

  method Subtract(a: Tokens, b: Tokens) returns (d: Tokens)
    ensures forall c :: Get(d, c) == Get(a, c) - Get(b, c)
  {
    d := a;
    var todo := b.Keys;
    while todo != {}
      invariant todo <= b.Keys
      invariant forall c :: Get(d, c) == Get(a, c) - (if c in todo then 0 else Get(b, c))
      decreases |todo|
    {
      var c :| c in todo;
      d := d[c := Get(d, c) - b[c]];
      todo := todo - {c};
    }
  }

  /** `d` counts what the models `done` of the report add beyond the baseline. */
  ghost predicate DeltaOver(d: Delta, r: Report, base: Report, done: set<Model>) {
    && done <= r.Keys && d.tokens.Keys == done && d.cost == CostBeyond(r, base, done)
    && forall m :: m in done ==> forall c :: Get(d.tokens[m], c) == Beyond(r, base, m, c)
  }

  lemma DeltaGrows(d: Delta, r: Report, base: Report, done: set<Model>, m: Model, t: Tokens)
    requires DeltaOver(d, r, base, done) && m in r && m !in done
    requires forall c :: Get(t, c) == Beyond(r, base, m, c)
    ensures
      var cost := UsageOf(r, m).cost - UsageOf(base, m).cost;
      DeltaOver(Delta(d.tokens[m := t], d.cost + cost), r, base, done + {m})
  {
    OneMoreCost(r, base, done, m);
  }

  lemma DeltaNone(r: Report, base: Report)
    ensures DeltaOver(Delta(map[], 0.0), r, base, {})
  {
  }

  lemma DeltaDone(d: Delta, r: Report, base: Report)
    requires DeltaOver(d, r, base, r.Keys)
    ensures IsDelta(d, r, base)
  {
  }

  method AddModel(d: Delta, r: Report, base: Report, ghost done: set<Model>, m: Model) returns (d': Delta)
    requires DeltaOver(d, r, base, done) && m in r && m !in done
    ensures DeltaOver(d', r, base, done + {m})
  {
    var t := Subtract(r[m].tokens, UsageOf(base, m).tokens);
    DeltaGrows(d, r, base, done, m, t);
    d' := Delta(d.tokens[m := t], d.cost + (r[m].cost - UsageOf(base, m).cost));
  }

  method ReportDelta(r: Report, base: Report) returns (d: Delta)
    ensures IsDelta(d, r, base)
  {
    d := Delta(map[], 0.0);
    var todo := r.Keys;
    assert r.Keys - todo == {};
    DeltaNone(r, base);
    while todo != {}
      invariant DeltaOver(d, r, base, r.Keys - todo) && todo <= r.Keys
      decreases |todo|
    {
      var m :| m in todo;
      assert r.Keys - (todo - {m}) == r.Keys - todo + {m};
      d := AddModel(d, r, base, r.Keys - todo, m);
      todo := todo - {m};
    }
    assert r.Keys - todo == r.Keys;
    DeltaDone(d, r, base);
  }

  /** A report of one model adds its counts and its cost less the baseline's, and all of both where the baseline lacks
      the model. */
  lemma ModelAddsItsOwn(u: Usage, base: Report, m: Model, d: Delta)
    requires IsDelta(d, map[m := u], base)
    ensures d.cost == if m in base then u.cost - base[m].cost else u.cost
    ensures
      forall c ::
        GetIn(d.tokens, m, c) == if m in base then Get(u.tokens, c) - Get(base[m].tokens, c) else Get(u.tokens, c)
  {
    OneMoreCost(map[m := u], base, {}, m);
    assert {} + {m} == map[m := u].Keys;
  }

  // ---- The interval ----

  /** The calls of the j lowest windows are exactly what `r` counts beyond the baseline. */
  ghost predicate Matches(calls: seq<Call>, r: Report, base: Report, j: nat)
    requires j <= |SortedKeys(Windows(calls))|
  {
    forall m, c ::
      Sum(calls, Elements(SortedKeys(Windows(calls))[..j]), m, c).count == (if m in r then Beyond(r, base, m, c) else 0)
  }

  datatype Interval =
    | Compared(report: nat, prefix: nat, live: real, shadow: real, ttl: TTLWrite)
    | Unmatched(live: real, shadow: real)

  function TotalCost(calls: seq<Call>): real {
    if calls == [] then 0.0 else TotalCost(calls[..|calls| - 1]) + calls[|calls| - 1].cost
  }

  /** None of the reports from the i-th on matches a prefix. */
  ghost predicate NoneMatchFrom(calls: seq<Call>, rs: seq<Report>, base: Report, i: nat) {
    forall i', j :: i <= i' < |rs| && 0 <= j <= |SortedKeys(Windows(calls))| ==> !Matches(calls, rs[i'], base, j)
  }

  /** The latest report that matches any prefix and, for it, the longest prefix; unmatched exactly when no report
      matches any prefix, and then the price of every call the adapter booked, windowed or not. */
  ghost predicate IsInterval(calls: seq<Call>, rs: seq<Report>, base: Report, v: Interval)
    requires rs != []
  {
    var ws := SortedKeys(Windows(calls));
    match v
    case Compared(i, j, live, shadow, ttl) =>
      && i < |rs| && j <= |ws| && Matches(calls, rs[i], base, j)
      && NoneMatchFrom(calls, rs, base, i + 1)
      && (forall j' :: j < j' <= |ws| ==> !Matches(calls, rs[i], base, j'))
      && live == CostBeyond(rs[i], base, rs[i].Keys)
      && (forall m, c ::
            Sum(calls, Elements(ws[..j]), m, c).cost == shadow && Sum(calls, Elements(ws[..j]), m, c).ttl == ttl)
    case Unmatched(live, shadow) =>
      && NoneMatchFrom(calls, rs, base, 0)
      && live == CostBeyond(rs[|rs| - 1], base, rs[|rs| - 1].Keys)
      && shadow == TotalCost(calls)
  }

  ghost function ValueOf(t: Total): map<Model, Tokens>
    reads Repr(t)
  {
    map m | m in t.tokens :: t.tokens[m].m
  }

  method ReadTokens(t: Total) returns (v: map<Model, Tokens>)
    ensures v == ValueOf(t)
  {
    v := map m | m in t.tokens :: t.tokens[m].m;
  }

  lemma MatchIsSameTokens(calls: seq<Call>, r: Report, base: Report, j: nat, t: Total, d: Delta)
    requires j <= |SortedKeys(Windows(calls))| && Holds(t, calls, Elements(SortedKeys(Windows(calls))[..j]))
    requires IsDelta(d, r, base)
    ensures SameTokens(ValueOf(t), d.tokens) <==> Matches(calls, r, base, j)
  {
    SameTokensExact(ValueOf(t), d.tokens);
    forall m, c ensures GetIn(ValueOf(t), m, c) == Sum(calls, Elements(SortedKeys(Windows(calls))[..j]), m, c).count {
      assert AmountAt(t, m, c) == Sum(calls, Elements(SortedKeys(Windows(calls))[..j]), m, c);
    }
  }

  /** The longest matching prefix of one report, None when none matches. */
  method MatchReport(calls: seq<Call>, r: Report, base: Report, prefixes: seq<Total>) returns (j: Option<nat>)
    requires |prefixes| == |SortedKeys(Windows(calls))| + 1 && AllHold(prefixes, calls, SortedKeys(Windows(calls)))
    ensures j.Some? ==> j.value < |prefixes| && Matches(calls, r, base, j.value)
    ensures forall j' :: (if j.Some? then j.value < j' else 0 <= j') && j' < |prefixes| ==> !Matches(calls, r, base, j')
  {
    var want := ReportDelta(r, base);
    var k := |prefixes|;
    while k > 0
      invariant 0 <= k <= |prefixes|
      invariant forall j' :: k <= j' < |prefixes| ==> !Matches(calls, r, base, j')
    {
      k := k - 1;
      MatchIsSameTokens(calls, r, base, k, prefixes[k], want);
      var have := ReadTokens(prefixes[k]);
      if SameTokens(have, want.tokens) {
        return Some(k);
      }
    }
    return None;
  }

  /** What every call comes to, from the last prefix and the calls outside any window. */
  lemma {:induction false} AllCallsCost(calls: seq<Call>, windows: set<int>, m: Model, c: Class)
    requires forall call :: call in calls ==> (call.window in windows <==> call.window != NO_WINDOW)
    ensures TotalCost(calls) == Sum(calls, windows, m, c).cost + Sum(calls, {NO_WINDOW}, m, c).cost
  {
    if calls != [] {
      AllCallsCost(calls[..|calls| - 1], windows, m, c);
      assert calls[|calls| - 1] in calls;
    }
  }

  method UnmatchedCost(calls: seq<Call>, last: Total) returns (cost: real)
    requires Holds(last, calls, Windows(calls))
    ensures cost == TotalCost(calls)
  {
    cost := last.cost;
    ghost var m, c: Class := "", "";
    assert AmountAt(last, m, c) == Sum(calls, Windows(calls), m, c);
    for i := 0 to |calls|
      invariant cost == last.cost + Sum(calls[..i], {NO_WINDOW}, m, c).cost
    {
      assert calls[..i + 1][..i] == calls[..i];
      if calls[i].window == NO_WINDOW {
        cost := cost + calls[i].cost;
      }
    }
    assert calls[..|calls|] == calls;
    AllCallsCost(calls, Windows(calls), m, c);
  }

  /** A process's own report of the totals restored at its launch is the baseline, not a report. */
  datatype TimedReport = TimedReport(at: int, byModel: Report)

  function Baseline(rs: seq<TimedReport>, launch: Option<int>): Report {
    if rs != [] && launch == Some(rs[0].at) then rs[0].byModel else map[]
  }

  function Bodies(rs: seq<TimedReport>): (bodies: seq<Report>)
    ensures |bodies| == |rs| && forall i :: 0 <= i < |rs| ==> bodies[i] == rs[i].byModel
  {
    if rs == [] then [] else [rs[0].byModel] + Bodies(rs[1..])
  }

  function Compare(rs: seq<TimedReport>, launch: Option<int>): seq<Report> {
    if rs != [] && launch == Some(rs[0].at) then Bodies(rs[1..]) else Bodies(rs)
  }

  /** One process of shadowProcesses; None when it has only its restored totals. */
  method CompareProcess(all: seq<TimedReport>, launch: Option<int>, calls: seq<Call>) returns (v: Option<Interval>)
    requires all != []
    ensures v.None? <==> Compare(all, launch) == []
    ensures v.Some? ==> IsInterval(calls, Compare(all, launch), Baseline(all, launch), v.value)
  {
    var base, rs := map[], Bodies(all);
    if launch.Some? && all[0].at == launch.value {
      base, rs := all[0].byModel, Bodies(all[1..]);
    }
    if rs == [] {
      return None;
    }
    var interval := FindInterval(calls, rs, base);
    v := Some(interval);
  }

  method FindInterval(calls: seq<Call>, rs: seq<Report>, base: Report) returns (v: Interval)
    requires rs != []
    ensures IsInterval(calls, rs, base, v)
  {
    var prefixes := CallPrefixes(calls);
    ghost var ws := SortedKeys(Windows(calls));
    var i := |rs|;
    while i > 0
      invariant 0 <= i <= |rs| && |prefixes| == |ws| + 1 && AllHold(prefixes, calls, ws)
      invariant NoneMatchFrom(calls, rs, base, i)
    {
      i := i - 1;
      var j := MatchReport(calls, rs[i], base, prefixes);
      if j.Some? {
        v := IntervalAt(calls, rs, base, i, j.value, prefixes);
        return;
      }
    }
    v := NoInterval(calls, rs, base, prefixes);
  }

  method IntervalAt(calls: seq<Call>, rs: seq<Report>, base: Report, i: nat, j: nat, prefixes: seq<Total>)
    returns (v: Interval)
    requires |prefixes| == |SortedKeys(Windows(calls))| + 1 && AllHold(prefixes, calls, SortedKeys(Windows(calls)))
    requires i < |rs| && j < |prefixes| && NoneMatchFrom(calls, rs, base, i + 1) && Matches(calls, rs[i], base, j)
    requires forall j' :: j < j' < |prefixes| ==> !Matches(calls, rs[i], base, j')
    ensures IsInterval(calls, rs, base, v) && v.Compared?
  {
    var want := ReportDelta(rs[i], base);
    PrefixAmounts(prefixes[j], calls, Elements(SortedKeys(Windows(calls))[..j]));
    v := Compared(i, j, want.cost, prefixes[j].cost, prefixes[j].ttl);
  }

  method NoInterval(calls: seq<Call>, rs: seq<Report>, base: Report, prefixes: seq<Total>) returns (v: Interval)
    requires |prefixes| == |SortedKeys(Windows(calls))| + 1 && AllHold(prefixes, calls, SortedKeys(Windows(calls)))
    requires rs != [] && NoneMatchFrom(calls, rs, base, 0)
    ensures IsInterval(calls, rs, base, v) && v.Unmatched?
  {
    ghost var ws := SortedKeys(Windows(calls));
    assert ws[..|ws|] == ws && Elements(ws) == Windows(calls);
    var live := ReportDelta(rs[|rs| - 1], base);
    var cost := UnmatchedCost(calls, prefixes[|prefixes| - 1]);
    v := Unmatched(live.cost, cost);
  }

  lemma PrefixAmounts(t: Total, calls: seq<Call>, windows: set<int>)
    requires Holds(t, calls, windows)
    ensures forall m, c :: Sum(calls, windows, m, c).cost == t.cost && Sum(calls, windows, m, c).ttl == t.ttl
  {
    forall m, c ensures Sum(calls, windows, m, c).cost == t.cost && Sum(calls, windows, m, c).ttl == t.ttl {
      assert AmountAt(t, m, c) == Sum(calls, windows, m, c);
    }
  }

  // ---- Only one interval can match ----

  ghost predicate NonNegative(calls: seq<Call>) {
    forall call :: call in calls ==> forall c :: Get(call.tokens, c) >= 0
  }

  lemma {:induction false} SumGrows(calls: seq<Call>, fewer: set<int>, more: set<int>, m: Model, c: Class)
    requires NonNegative(calls) && fewer <= more
    ensures 0 <= Sum(calls, fewer, m, c).count <= Sum(calls, more, m, c).count
  {
    if calls != [] {
      var init := calls[..|calls| - 1];
      assert forall call :: call in init ==> call in calls;
      SumGrows(init, fewer, more, m, c);
      assert calls[|calls| - 1] in calls;
      assert Get(calls[|calls| - 1].tokens, c) >= 0;
    }
  }

  /** With no negative count the running totals grow at every class of every model. */
  lemma PrefixesGrow(calls: seq<Call>, i: nat, j: nat, m: Model, c: Class)
    requires NonNegative(calls) && i <= j <= |SortedKeys(Windows(calls))|
    ensures
      var ws := SortedKeys(Windows(calls));
      Sum(calls, Elements(ws[..i]), m, c).count <= Sum(calls, Elements(ws[..j]), m, c).count
  {
    var ws := SortedKeys(Windows(calls));
    assert ws[..j] == ws[..i] + ws[i..j];
    SumGrows(calls, Elements(ws[..i]), Elements(ws[..j]), m, c);
  }

  /** Every window counts something. */
  ghost predicate EveryWindowCounts(calls: seq<Call>) {
    forall w :: w in Windows(calls) ==> exists m, c :: Sum(calls, {w}, m, c).count > 0
  }

  /** Then the matching prefix is the only one: taking the longest decides nothing. */
  lemma MatchIsUnique(calls: seq<Call>, r: Report, base: Report, i: nat, j: nat)
    requires NonNegative(calls) && EveryWindowCounts(calls)
    requires i < j <= |SortedKeys(Windows(calls))|
    ensures !(Matches(calls, r, base, i) && Matches(calls, r, base, j))
  {
    var ws := SortedKeys(Windows(calls));
    assert ws[i] in ws;
    var m, c :| Sum(calls, {ws[i]}, m, c).count > 0;
    NextWindow(calls, ws, i, m, c);
    SumOfOneWindow(calls, ws[i], m, c);
    PrefixesGrow(calls, i + 1, j, m, c);
    assert Sum(calls, Elements(ws[..i]), m, c).count < Sum(calls, Elements(ws[..j]), m, c).count;
  }
}
