/**
 The dollar checks of the shadow ledger (cmd/foci-gw/ledger_shadow_checks.go): the known residual, a median that
 one broken process cannot widen, and the flag on a process whose dollars disagree beyond it.
*/
module ShadowChecks {
  import opened ShadowTotals

  /** One compared process: CC's cost (live), the adapter's price (shadow), and what of it is unknown-TTL. */
  datatype Process = Process(live: real, shadow: real, ttl: TTLWrite) {
    function Diff(): real {
      shadow - live
    }
  }

  const NOISE: real := 0.000000001

  function Abs(x: real): real {
    if x < 0.0 then -x else x
  }

  // ---- The residual ----

  predicate Qualifies(p: Process) {
    p.ttl.tokens == 0 && Abs(p.live) > NOISE
  }

  function RelativeError(p: Process): (e: real)
    requires Qualifies(p)
    ensures e >= 0.0
  {
    NonNegativeQuotient(Abs(p.Diff()), Abs(p.live));
    Abs(p.Diff()) / Abs(p.live)
  }

  lemma NonNegativeQuotient(a: real, b: real)
    requires a >= 0.0 && b > 0.0
    ensures a / b >= 0.0
  {
  }

  function Errors(procs: seq<Process>): (rel: seq<real>)
    ensures forall e :: e in rel ==> e >= 0.0
  {
    if procs == [] then []
    else
      var last := procs[|procs| - 1];
      Errors(procs[..|procs| - 1]) + (if Qualifies(last) then [RelativeError(last)] else [])
  }

  /** The processes that count, and by what: no unknown-TTL write, a cost of CC's beyond rounding, and the difference
      over that cost. */
  lemma {:induction false} ErrorsExactly(procs: seq<Process>, e: real)
    ensures e in Errors(procs) <==> exists i :: 0 <= i < |procs| && Counts(procs[i], e)
    ensures |Errors(procs)| <= |procs|
  {
    if procs != [] {
      var init, last := procs[..|procs| - 1], procs[|procs| - 1];
      ErrorsExactly(init, e);
      CountsExactly(last, e);
      assert procs == init + [last];
      if exists i :: 0 <= i < |init| && Counts(init[i], e) {
        var i :| 0 <= i < |init| && Counts(init[i], e);
        assert Counts(procs[i], e);
      }
      if Counts(last, e) {
        assert Counts(procs[|procs| - 1], e);
      }
    }
  }

  predicate Counts(p: Process, e: real) {
    && p.ttl.tokens == 0
    && (p.live > 0.000000001 || p.live < -0.000000001)
    && e >= 0.0
    && (e * p.live == p.shadow - p.live || e * p.live == p.live - p.shadow)
  }

  lemma CountsExactly(p: Process, e: real)
    ensures Counts(p, e) <==> Qualifies(p) && e == RelativeError(p)
  {
    if Qualifies(p) {
      var q := RelativeError(p);
      assert q * Abs(p.live) == Abs(p.Diff());
      if Counts(p, e) {
        SameQuotient(e, q, Abs(p.live));
      }
    }
  }

  lemma SameQuotient(a: real, b: real, d: real)
    requires a >= 0.0 && b >= 0.0 && d > 0.0 && (a * d == b * d || a * d == -(b * d))
    ensures a == b
  {
    assert a * d >= 0.0 && b * d >= 0.0;
    assert (a - b) * d == 0.0;
  }

  lemma ErrorsGrow(procs: seq<Process>, i: nat)
    requires i < |procs|
    ensures
      Errors(procs[..i + 1]) ==
      Errors(procs[..i]) + (if Qualifies(procs[i]) then [RelativeError(procs[i])] else [])
  {
    assert procs[..i + 1][..i] == procs[..i];
  }

  predicate Sorted(s: seq<real>) {
    forall i, j :: 0 <= i < j < |s| ==> s[i] <= s[j]
  }

  function Insert(s: seq<real>, x: real): (t: seq<real>)
    requires Sorted(s)
    ensures Sorted(t) && multiset(t) == multiset(s) + multiset{x}
  {
    if s == [] || x <= s[0] then [x] + s
    else
      assert s == [s[0]] + s[1..];
      var rest := Insert(s[1..], x);
      PrependKeepsSorted(s, x, rest);
      [s[0]] + rest
  }

  lemma PrependKeepsSorted(s: seq<real>, x: real, rest: seq<real>)
    requires s != [] && Sorted(s) && s[0] < x && Sorted(rest) && multiset(rest) == multiset(s[1..]) + multiset{x}
    ensures Sorted([s[0]] + rest)
  {
    forall i | 0 <= i < |rest| ensures s[0] <= rest[i] {
      assert rest[i] in multiset(s[1..]) + multiset{x};
      assert rest[i] in s[1..] || rest[i] == x;
    }
  }

  /** Stands for the library's sort; LibrarySortIsThisOne says that any other gives the same sequence. */
  function Sort(s: seq<real>): (t: seq<real>)
    ensures Sorted(t) && multiset(t) == multiset(s) && |t| == |s|
  {
    if s == [] then []
    else
      assert s == s[..|s| - 1] + [s[|s| - 1]];
      assert |multiset(s)| == |s|;
      var t := Insert(Sort(s[..|s| - 1]), s[|s| - 1]);
      assert |multiset(t)| == |t|;
      t
  }

  lemma {:induction false} LibrarySortIsThisOne(a: seq<real>, b: seq<real>)
    requires Sorted(a) && Sorted(b) && multiset(a) == multiset(b)
    ensures a == b
  {
    SameLength(a, b);
    if a != [] {
      FirstIsLeast(a, b);
      FirstIsLeast(b, a);
      TailsAgree(a, b);
      LibrarySortIsThisOne(a[1..], b[1..]);
      assert a == [a[0]] + a[1..] && b == [b[0]] + b[1..];
    }
  }

  lemma SameLength(a: seq<real>, b: seq<real>)
    requires multiset(a) == multiset(b)
    ensures |a| == |b|
  {
    assert |multiset(a)| == |a| && |multiset(b)| == |b|;
  }

  lemma TailsAgree(a: seq<real>, b: seq<real>)
    requires a != [] && b != [] && a[0] == b[0] && multiset(a) == multiset(b)
    ensures multiset(a[1..]) == multiset(b[1..])
  {
    assert a == [a[0]] + a[1..] && b == [b[0]] + b[1..];
    assert multiset(a[1..]) == multiset(a) - multiset{a[0]} == multiset(b[1..]);
  }

  lemma FirstIsLeast(a: seq<real>, b: seq<real>)
    requires Sorted(a) && multiset(a) == multiset(b) && a != [] && b != []
    ensures a[0] <= b[0]
  {
    assert b[0] in multiset(a);
    var j :| 0 <= j < |a| && a[j] == b[0];
  }

  function Median(sorted: seq<real>): real
    requires sorted != []
  {
    var mid := |sorted| / 2;
    if |sorted| % 2 == 1 then sorted[mid] else (sorted[mid - 1] + sorted[mid]) / 2.0
  }

  lemma MedianNonNegative(rel: seq<real>)
    requires rel != [] && forall e :: e in rel ==> e >= 0.0
    ensures Median(Sort(rel)) >= 0.0
  {
    KeepsNonNegative(rel, Sort(rel));
  }

  lemma KeepsNonNegative(s: seq<real>, t: seq<real>)
    requires multiset(s) == multiset(t) && forall e :: e in s ==> e >= 0.0
    ensures forall i :: 0 <= i < |t| ==> t[i] >= 0.0
  {
    forall i | 0 <= i < |t| ensures t[i] >= 0.0 {
      assert t[i] in multiset(t);
      var j :| 0 <= j < |s| && s[j] == t[i];
      assert s[j] in s;
    }
  }

  method Residual(procs: seq<Process>) returns (residual: real, n: nat)
    ensures n == |Errors(procs)|
    ensures residual == if n == 0 then 0.0 else Median(Sort(Errors(procs)))
    ensures residual >= 0.0
  {
    var rel := CollectErrors(procs);
    if rel == [] {
      return 0.0, 0;
    }
    MedianNonNegative(rel);
    n := |rel|;
    residual := Middle(Sort(rel));
  }

  method CollectErrors(procs: seq<Process>) returns (rel: seq<real>)
    ensures rel == Errors(procs)
  {
    rel := [];
    for i := 0 to |procs|
      invariant rel == Errors(procs[..i])
    {
      ErrorsGrow(procs, i);
      if Qualifies(procs[i]) {
        rel := rel + [RelativeError(procs[i])];
      }
    }
    assert procs[..|procs|] == procs;
  }

  method Middle(sorted: seq<real>) returns (m: real)
    requires sorted != []
    ensures m == Median(sorted)
  {
    var mid := |sorted| / 2;
    if |sorted| % 2 == 1 {
      return sorted[mid];
    }
    return (sorted[mid - 1] + sorted[mid]) / 2.0;
  }

  /** How many of the errors are at most `b`. */
  function AtMost(s: seq<real>, b: real): (n: nat)
    ensures n <= |s|
  {
    if s == [] then 0 else AtMost(s[..|s| - 1], b) + (if s[|s| - 1] <= b then 1 else 0)
  }

  lemma {:induction false} AtMostAdds(s: seq<real>, t: seq<real>, b: real)
    ensures AtMost(s + t, b) == AtMost(s, b) + AtMost(t, b)
  {
    if t == [] {
      assert s + t == s;
    } else {
      AtMostAdds(s, t[..|t| - 1], b);
      assert (s + t)[..|s + t| - 1] == s + t[..|t| - 1];
    }
  }

  lemma {:induction false} AtMostOfInsert(s: seq<real>, x: real, b: real)
    requires Sorted(s)
    ensures AtMost(Insert(s, x), b) == AtMost(s, b) + (if x <= b then 1 else 0)
  {
    AtMostOfOne(x, b);
    if s == [] || x <= s[0] {
      AtMostAdds([x], s, b);
    } else {
      AtMostOfInsert(s[1..], x, b);
      AtMostAdds([s[0]], Insert(s[1..], x), b);
      AtMostAdds([s[0]], s[1..], b);
      assert s == [s[0]] + s[1..];
    }
  }

  lemma AtMostOfOne(x: real, b: real)
    ensures AtMost([x], b) == if x <= b then 1 else 0
  {
    assert [x][..0] == [];
  }

  lemma {:induction false} AtMostOfSort(s: seq<real>, b: real)
    ensures AtMost(Sort(s), b) == AtMost(s, b)
  {
    if s != [] {
      AtMostOfSort(s[..|s| - 1], b);
      AtMostOfInsert(Sort(s[..|s| - 1]), s[|s| - 1], b);
    }
  }

  /** In a sorted sequence the elements at most `b` are the first ones. */
  lemma {:induction false} AtMostIsPrefix(s: seq<real>, b: real, k: nat)
    requires Sorted(s) && k < |s|
    ensures s[k] <= b <==> AtMost(s, b) > k
  {
    var init := s[..|s| - 1];
    if k < |s| - 1 {
      AtMostIsPrefix(init, b, k);
    } else if s[k] <= b {
      AllAtMost(init, b);
    }
  }

  lemma {:induction false} AllAtMost(s: seq<real>, b: real)
    requires forall i :: 0 <= i < |s| ==> s[i] <= b
    ensures AtMost(s, b) == |s|
  {
    if s != [] {
      AllAtMost(s[..|s| - 1], b);
    }
  }

  /** The residual is at most `b` whenever more than half the processes err by at most `b`, however far off the
      others are; and only when at least half do. For an odd number the two conditions are one. */
  lemma MedianBreakdown(rel: seq<real>, b: real)
    requires rel != []
    ensures 2 * AtMost(rel, b) > |rel| ==> Median(Sort(rel)) <= b
    ensures Median(Sort(rel)) <= b ==> 2 * AtMost(rel, b) >= |rel|
  {
    var sorted := Sort(rel);
    AtMostOfSort(rel, b);
    AtMostIsPrefix(sorted, b, |sorted| / 2);
    AtMostIsPrefix(sorted, b, (|sorted| - 1) / 2);
    MedianIsBetween(sorted);
  }

  lemma MedianIsBetween(s: seq<real>)
    requires Sorted(s) && s != []
    ensures s[(|s| - 1) / 2] <= Median(s) <= s[|s| / 2]
  {
    var mid := |s| / 2;
    if |s| % 2 == 0 {
      assert s[mid - 1] <= s[mid];
    }
  }

  /** With three processes or more, one broken process cannot widen the residual. */
  lemma OneBrokenCannotWiden(good: seq<real>, bad: real, b: real)
    requires |good| >= 2 && forall i :: 0 <= i < |good| ==> good[i] <= b
    ensures Median(Sort(good + [bad])) <= b
  {
    AllAtMost(good, b);
    AtMostAdds(good, [bad], b);
    MedianBreakdown(good + [bad], b);
  }

  /** With one or two it can, beyond any bound. */
  lemma OneBrokenWidensFewer(good: seq<real>, b: real) returns (bad: real)
    requires |good| <= 1 && b >= 0.0 && forall i :: 0 <= i < |good| ==> good[i] >= 0.0
    ensures Median(Sort(good + [bad])) > b
  {
    bad := 2.0 * b + 2.0;
    if good == [] {
      assert good + [bad] == [bad];
      MedianOfOne(bad);
    } else {
      assert good + [bad] == [good[0], bad];
      MedianOfTwo(good[0], bad);
    }
  }

  lemma MedianOfOne(a: real)
    ensures Median(Sort([a])) == a
  {
    SortIs([a], [a]);
  }

  lemma MedianOfTwo(a: real, b: real)
    ensures Median(Sort([a, b])) == (a + b) / 2.0
  {
    var sorted := if a <= b then [a, b] else [b, a];
    SameTwo(a, b);
    SortIs([a, b], sorted);
    MedianOfPair(sorted);
  }

  lemma SameTwo(a: real, b: real)
    ensures multiset([b, a]) == multiset([a, b])
  {
  }

  lemma MedianOfPair(s: seq<real>)
    requires |s| == 2
    ensures Median(s) == (s[0] + s[1]) / 2.0
  {
  }

  lemma SortIs(s: seq<real>, t: seq<real>)
    requires Sorted(t) && multiset(t) == multiset(s)
    ensures Sort(s) == t
  {
    LibrarySortIsThisOne(Sort(s), t);
  }

  // ---- The flag ----

  datatype Flag =
    | Fine
    | Unexplained
    | UnexplainedAtAnyTTL(gap: real, lo: real, hi: real)
    | RestsOnTTL(share5m: real)

  function Bound(p: Process, residual: real): real {
    residual * Abs(p.live) + NOISE
  }

  function Lo(p: Process): real {
    if p.ttl.Exposure() < 0.0 then p.shadow else p.shadow - p.ttl.Exposure()
  }

  function Hi(p: Process): real {
    if p.ttl.Exposure() < 0.0 then p.shadow - p.ttl.Exposure() else p.shadow
  }

  /** How far CC's cost lies outside the span. */
  function Gap(p: Process): real {
    if p.live < Lo(p) then Lo(p) - p.live else if p.live > Hi(p) then Hi(p) - p.live else 0.0
  }

  /** The division is by an exposure that is never zero: with none, the whole difference is unexplained. */
  function FlagOf(p: Process, residual: real): Flag {
    if Abs(Gap(p)) > Bound(p, residual) then
      if p.ttl.tokens == 0 then Unexplained else UnexplainedAtAnyTTL(Gap(p), Lo(p), Hi(p))
    else if Abs(p.Diff()) > Bound(p, residual) then RestsOnTTL(p.Diff() / p.ttl.Exposure())
    else Fine
  }

  /** A process is flagged exactly when CC's cost and the adapter's differ beyond the bound. */
  lemma FlaggedExactly(p: Process, residual: real)
    ensures
      var size := if p.live < 0.0 then -p.live else p.live;
      var bound := residual * size + 0.000000001;
      !FlagOf(p, residual).Fine? <==> p.live - p.shadow > bound || p.shadow - p.live > bound
  {
  }

  /** What a flag says: with unknown-TTL writes the span of the prices they could have had, all at 5m to all as booked,
      and how far CC's cost lies outside it; without them nothing. */
  lemma FlagSaysExactly(p: Process, residual: real)
    ensures
      var e, f := p.ttl.booked - p.ttl.at5m, FlagOf(p, residual);
      var lo := if p.shadow - e <= p.shadow then p.shadow - e else p.shadow;
      var hi := if p.shadow - e <= p.shadow then p.shadow else p.shadow - e;
      && (InSpan(p, p.live) <==> lo <= p.live <= hi)
      && (f.Unexplained? ==> p.ttl.tokens == 0)
      && (f.UnexplainedAtAnyTTL? ==>
          && p.ttl.tokens != 0 && f.lo == lo && f.hi == hi
          && p.live + f.gap == if p.live < lo then lo else if p.live > hi then hi else p.live)
  {
  }

  /** Between the price with all unknown writes at 5m and the price with all as booked, whichever is higher. */
  predicate BetweenTTLs(p: Process, price: real) {
    var at5m := p.shadow - p.ttl.booked + p.ttl.at5m;
    at5m <= price <= p.shadow || p.shadow <= price <= at5m
  }

  /** A price some TTL of the unknown writes could have given. */
  predicate InSpan(p: Process, price: real) {
    Lo(p) <= price <= Hi(p)
  }

  /** ... and as unexplained exactly when no TTL of its unknown writes would bring CC's cost within the bound. */
  lemma UnexplainedExactly(p: Process, residual: real)
    ensures forall price: real :: InSpan(p, price) <==> BetweenTTLs(p, price)
    ensures
      (FlagOf(p, residual).Unexplained? || FlagOf(p, residual).UnexplainedAtAnyTTL?) <==>
      forall price: real :: InSpan(p, price) ==> Abs(price - p.live) > Bound(p, residual)
  {
    var nearest := p.live + Gap(p);
    assert InSpan(p, nearest) && Abs(nearest - p.live) == Abs(Gap(p));
    forall price: real | InSpan(p, price) ensures Abs(price - p.live) >= Abs(Gap(p)) {
    }
  }

  /** The share of 5m writes a guess implies is positive, and at most the bound's worth over the whole; within the
      span it is at most the whole. The sign of the exposure does not matter. */
  lemma ImpliedShare(p: Process, residual: real)
    requires FlagOf(p, residual).RestsOnTTL?
    ensures
      var share, e := FlagOf(p, residual).share5m, p.ttl.Exposure();
      && e != 0.0 && 0.0 < share <= 1.0 + Bound(p, residual) / Abs(e)
      && (Lo(p) <= p.live <= Hi(p) ==> share <= 1.0)
      && p.shadow - share * e == p.live
  {
    ShareFacts(p, residual);
    ShareBounds(p.Diff(), p.ttl.Exposure(), Bound(p, residual));
  }

  lemma ShareBounds(d: real, e: real, bound: real)
    requires e != 0.0 && if e > 0.0 then 0.0 < d <= e + bound else 0.0 < -d <= -e + bound
    ensures 0.0 < d / e <= 1.0 + bound / Abs(e)
    ensures (if e > 0.0 then d <= e else -d <= -e) ==> d / e <= 1.0
    ensures d / e * e == d
  {
    if e > 0.0 {
      QuotientBounds(d, e, bound);
    } else {
      QuotientBounds(-d, -e, bound);
      NegatedQuotient(d, e);
    }
  }

  /** A guess is in question only with an exposure, whose sign the difference has. */
  lemma ShareFacts(p: Process, residual: real)
    requires FlagOf(p, residual).RestsOnTTL?
    ensures
      var e, d, bound := p.ttl.Exposure(), p.Diff(), Bound(p, residual);
      && e != 0.0
      && (if e > 0.0 then 0.0 < d <= e + bound else 0.0 < -d <= -e + bound)
      && (Lo(p) <= p.live <= Hi(p) ==> if e > 0.0 then d <= e else -d <= -e)
  {
  }

  lemma NegatedQuotient(d: real, e: real)
    requires e != 0.0
    ensures d / e == (-d) / (-e)
  {
  }

  lemma QuotientBounds(d: real, e: real, bound: real)
    requires 0.0 < d <= e + bound && e > 0.0
    ensures 0.0 < d / e <= 1.0 + bound / e
    ensures d <= e ==> d / e <= 1.0
  {
    var q, r := d / e, bound / e;
    assert q * e == d && r * e == bound;
    if q > 1.0 + r {
      TimesIsLarger(q, 1.0 + r, e);
    }
    if d <= e && q > 1.0 {
      TimesIsLarger(q, 1.0, e);
    }
  }

  lemma TimesIsLarger(a: real, b: real, e: real)
    requires a > b && e > 0.0
    ensures a * e > b * e
  {
    assert (a - b) * e > 0.0;
  }
}
