/**
 The `git log` loop of scripts/restore-mtime.py:76-109: a stream of NUL-terminated records is read in chunks,
 and every pending path gets the time of the first record that names it.
*/
module RestoreMtime {
  import opened Wrappers
  import opened ByteStreams

  type Path = Bytes

  /** `stamps`: what int() makes of the bytes after the mark; it raises on any others. `refused`: the paths on which
      utime fails. */
  datatype Env = Env(stamps: map<Bytes, int>, refused: set<Path>)

  /** One utime call. */
  datatype Touch = Touch(path: Path, time: int)

  /** `raised`: int() has raised, and the script has ended. */
  datatype Progress = Progress(ts: Option<int>, pending: set<Path>, calls: seq<Touch>, done: nat, raised: bool)

  function Start(pending: set<Path>): Progress {
    Progress(None, pending, [], 0, false)
  }

  predicate IsStamp(tok: Bytes) {
    tok != [] && tok[0] == SOH
  }

  predicate IsPath(tok: Bytes) {
    tok != [] && tok[0] != SOH
  }

  function Take(env: Env, p: Progress, tok: Bytes): Progress {
    if p.raised || tok == [] then p
    else if IsStamp(tok) then
      if tok[1..] in env.stamps then p.(ts := Some(env.stamps[tok[1..]])) else p.(raised := true)
    else if tok in p.pending && p.ts.Some? then
      p.(calls := p.calls + [Touch(tok, p.ts.value)], pending := p.pending - {tok},
         done := p.done + (if tok in env.refused then 0 else 1))
    else p
  }

  function TakeAll(env: Env, p: Progress, toks: seq<Bytes>): Progress {
    if toks == [] then p else Take(env, TakeAll(env, p, toks[..|toks| - 1]), toks[|toks| - 1])
  }

  /** The tokens of some records: their non-empty lines count. */
  function Tokens(records: seq<Bytes>): seq<Bytes> {
    if records == [] then [] else Tokens(records[..|records| - 1]) + Split(records[|records| - 1], LF)
  }

  /** A single pass over the complete records of a whole stream. */
  function SinglePass(env: Env, pending: set<Path>, stream: Bytes): Progress {
    TakeAll(env, Start(pending), Tokens(Complete(stream, NUL)))
  }

  lemma {:induction false} TakeAllConcat(env: Env, p: Progress, a: seq<Bytes>, b: seq<Bytes>)
    ensures TakeAll(env, p, a + b) == TakeAll(env, TakeAll(env, p, a), b)
  {
    if b == [] {
      assert a + b == a;
    } else {
      TakeAllConcat(env, p, a, b[..|b| - 1]);
      assert (a + b)[..|a + b| - 1] == a + b[..|b| - 1];
    }
  }

  lemma {:induction false} TokensConcat(a: seq<Bytes>, b: seq<Bytes>)
    ensures Tokens(a + b) == Tokens(a) + Tokens(b)
  {
    if b == [] {
      assert a + b == a;
    } else {
      var init, last := b[..|b| - 1], b[|b| - 1];
      TokensConcat(a, init);
      assert (a + b)[..|a + b| - 1] == a + init;
      Regroup(Tokens(a), Tokens(init), Split(last, LF));
    }
  }

  /** A pass goes on from where it was when more of the stream arrives. */
  lemma PassGrows(env: Env, pending: set<Path>, seen: Bytes, more: Bytes)
    ensures
      SinglePass(env, pending, seen + more) ==
      TakeAll(env, SinglePass(env, pending, seen), Tokens(Complete(Tail(seen, NUL) + more, NUL)))
    ensures Tail(seen + more, NUL) == Tail(Tail(seen, NUL) + more, NUL)
  {
    CompleteGrows(seen, more, NUL);
    var first, later := Complete(seen, NUL), Complete(Tail(seen, NUL) + more, NUL);
    TokensConcat(first, later);
    TakeAllConcat(env, Start(pending), Tokens(first), Tokens(later));
  }

  /** With nothing pending, or once it has raised, a pass touches no more. */
  lemma {:induction false} NothingMore(env: Env, p: Progress, toks: seq<Bytes>)
    requires p.pending == {} || p.raised
    ensures TakeAll(env, p, toks).calls == p.calls && TakeAll(env, p, toks).pending == p.pending
    ensures TakeAll(env, p, toks).done == p.done && (p.raised ==> TakeAll(env, p, toks).raised)
  {
    if toks != [] {
      NothingMore(env, p, toks[..|toks| - 1]);
    }
  }

  // ---- The loop ----

  /** The tokens of one record. */
  method TakeRecord(env: Env, p: Progress, record: Bytes) returns (q: Progress)
    requires !p.raised
    ensures q == TakeAll(env, p, Split(record, LF))
  {
    var ts, pending, calls, done := p.ts, p.pending, p.calls, p.done;
    var toks := Split(record, LF);
    for i := 0 to |toks|
      invariant TakeAll(env, p, toks[..i]) == Progress(ts, pending, calls, done, false)
    {
      assert toks[..i + 1][..i] == toks[..i];
      var tok := toks[i];
      if tok == [] {
        continue;
      }
      if tok[0] == SOH {
        if tok[1..] !in env.stamps {
          q := Progress(ts, pending, calls, done, true);
          RaisesFor(env, p, toks, i, q);
          return;
        }
        ts := Some(env.stamps[tok[1..]]);
        continue;
      }
      if tok in pending && ts.Some? {
        calls := calls + [Touch(tok, ts.value)];
        if tok !in env.refused {
          done := done + 1;
        }
        pending := pending - {tok};
      }
    }
    assert toks[..|toks|] == toks;
    q := Progress(ts, pending, calls, done, false);
  }

  lemma RaisesFor(env: Env, p: Progress, toks: seq<Bytes>, i: nat, q: Progress)
    requires i < |toks| && TakeAll(env, p, toks[..i + 1]) == q && q.raised
    ensures TakeAll(env, p, toks) == q
  {
    assert toks == toks[..i + 1] + toks[i + 1..];
    TakeAllConcat(env, p, toks[..i + 1], toks[i + 1..]);
    RaisedStays(env, q, toks[i + 1..]);
  }

  lemma {:induction false} RaisedStays(env: Env, p: Progress, toks: seq<Bytes>)
    requires p.raised
    ensures TakeAll(env, p, toks) == p
  {
    if toks != [] {
      RaisedStays(env, p, toks[..|toks| - 1]);
    }
  }

  lemma RaisesForAll(env: Env, p: Progress, records: seq<Bytes>, i: nat, q: Progress)
    requires i <= |records| && TakeAll(env, p, Tokens(records[..i])) == q && q.raised
    ensures TakeAll(env, p, Tokens(records)) == q
  {
    assert records == records[..i] + records[i..];
    TokensConcat(records[..i], records[i..]);
    TakeAllConcat(env, p, Tokens(records[..i]), Tokens(records[i..]));
    RaisedStays(env, q, Tokens(records[i..]));
  }

  method TakeRecords(env: Env, p: Progress, records: seq<Bytes>) returns (q: Progress)
    requires !p.raised
    ensures q == TakeAll(env, p, Tokens(records))
  {
    q := p;
    for i := 0 to |records|
      invariant q == TakeAll(env, p, Tokens(records[..i])) && !q.raised
    {
      assert records[..i + 1][..i] == records[..i];
      TakeAllConcat(env, p, Tokens(records[..i]), Split(records[i], LF));
      q := TakeRecord(env, q, records[i]);
      if q.raised {
        RaisesForAll(env, p, records, i + 1, q);
        return;
      }
    }
    assert records[..|records|] == records;
  }

  /** `chunks` are what the reads return until the end of the stream. However the stream is cut into chunks, the utime
      calls are those of a single pass over the whole of it. Stopping when nothing is pending loses at most an
      exception. */
  method Restore(env: Env, pending: set<Path>, chunks: seq<Bytes>) returns (p: Progress)
    ensures
      var whole := SinglePass(env, pending, Flatten(chunks));
      && SameTouches(p, whole)
      && (whole.raised && !p.raised ==> p.pending == {})
  {
    p := Start(pending);
    var buf: Bytes := [];
    var i := 0;
    while p.pending != {}
      invariant 0 <= i <= |chunks|
      invariant p == SinglePass(env, pending, Flatten(chunks[..i])) && !p.raised
      invariant buf == Tail(Flatten(chunks[..i]), NUL)
      decreases |chunks| - i
    {
      if i == |chunks| {
        assert chunks[..i] == chunks;
        return;
      }
      var chunk := chunks[i];
      assert chunks[..i + 1][..i] == chunks[..i];
      PassGrows(env, pending, Flatten(chunks[..i]), chunk);
      buf := buf + chunk;
      var parts := Split(buf, NUL);
      buf := parts[|parts| - 1];
      p := TakeRecords(env, p, parts[..|parts| - 1]);
      i := i + 1;
      if p.raised {
        break;
      }
    }
    RestChangesNothing(env, pending, chunks, i, p);
  }

  /** What a whole pass can still change once a prefix of the stream has settled every path. */
  ghost predicate SameTouches(p: Progress, whole: Progress) {
    p.calls == whole.calls && p.pending == whole.pending && p.done == whole.done && (p.raised ==> whole.raised)
  }

  lemma MoreChangesNothing(env: Env, pending: set<Path>, seen: Bytes, more: Bytes)
    requires SinglePass(env, pending, seen).pending == {} || SinglePass(env, pending, seen).raised
    ensures SameTouches(SinglePass(env, pending, seen), SinglePass(env, pending, seen + more))
  {
    PassGrows(env, pending, seen, more);
    NothingMore(env, SinglePass(env, pending, seen), Tokens(Complete(Tail(seen, NUL) + more, NUL)));
  }

  lemma RestChangesNothing(env: Env, pending: set<Path>, chunks: seq<Bytes>, i: nat, p: Progress)
    requires i <= |chunks| && p == SinglePass(env, pending, Flatten(chunks[..i])) && (p.pending == {} || p.raised)
    ensures SameTouches(p, SinglePass(env, pending, Flatten(chunks)))
  {
    assert chunks == chunks[..i] + chunks[i..];
    FlattenConcat(chunks[..i], chunks[i..]);
    MoreChangesNothing(env, pending, Flatten(chunks[..i]), Flatten(chunks[i..]));
  }

  // ---- What a pass does ----

  /** The time in force after some tokens: that of the last stamp. */
  function LastStamp(env: Env, toks: seq<Bytes>): Option<int> {
    if toks == [] then None
    else
      var last := toks[|toks| - 1];
      if IsStamp(last) && last[1..] in env.stamps then Some(env.stamps[last[1..]])
      else LastStamp(env, toks[..|toks| - 1])
  }

  /** Token `k` is the first to name `path` with a time in force. */
  predicate NamesFirst(env: Env, toks: seq<Bytes>, path: Path, k: int) {
    && 0 <= k < |toks| && toks[k] == path && IsPath(path) && LastStamp(env, toks[..k]).Some?
    && forall j | 0 <= j < k && toks[j] == path :: LastStamp(env, toks[..j]).None?
  }

  ghost predicate TouchDue(env: Env, toks: seq<Bytes>, t: Touch) {
    exists k :: NamesFirst(env, toks, t.path, k) && LastStamp(env, toks[..k]) == Some(t.time)
  }

  predicate OncePerPath(calls: seq<Touch>) {
    forall i, j :: 0 <= i < j < |calls| ==> calls[i].path != calls[j].path
  }

  function Touched(calls: seq<Touch>): set<Path> {
    set t | t in calls :: t.path
  }

  lemma NamesFirstBefore(env: Env, toks: seq<Bytes>, path: Path, k: nat)
    requires toks != [] && k < |toks| - 1
    ensures NamesFirst(env, toks, path, k) <==> NamesFirst(env, toks[..|toks| - 1], path, k)
    ensures LastStamp(env, toks[..k]) == LastStamp(env, toks[..|toks| - 1][..k])
  {
    var init := toks[..|toks| - 1];
    assert toks[..k] == init[..k];
    forall j | 0 <= j < k ensures toks[..j] == init[..j] && toks[j] == init[j] {
    }
  }

  /** If a token names `path` with a time in force, some token is the first to. */
  lemma {:induction false} SomeNamesFirst(env: Env, toks: seq<Bytes>, path: Path, j: nat) returns (k: nat)
    requires j < |toks| && toks[j] == path && IsPath(path) && LastStamp(env, toks[..j]).Some?
    ensures k <= j && NamesFirst(env, toks, path, k)
    decreases j
  {
    if i :| 0 <= i < j && toks[i] == path && LastStamp(env, toks[..i]).Some? {
      k := SomeNamesFirst(env, toks, path, i);
    } else {
      k := j;
    }
  }

  lemma DueWithOneMore(env: Env, toks: seq<Bytes>, t: Touch)
    requires toks != []
    ensures
      var n, init := |toks| - 1, toks[..|toks| - 1];
      TouchDue(env, toks, t) <==>
      TouchDue(env, init, t) || (NamesFirst(env, toks, t.path, n) && LastStamp(env, init) == Some(t.time))
  {
    var n, init := |toks| - 1, toks[..|toks| - 1];
    if TouchDue(env, toks, t) {
      var k :| NamesFirst(env, toks, t.path, k) && LastStamp(env, toks[..k]) == Some(t.time);
      if k < n {
        NamesFirstBefore(env, toks, t.path, k);
      }
    }
    if TouchDue(env, init, t) {
      var k :| NamesFirst(env, init, t.path, k) && LastStamp(env, init[..k]) == Some(t.time);
      NamesFirstBefore(env, toks, t.path, k);
    }
  }

  ghost predicate Exact(env: Env, pending: set<Path>, toks: seq<Bytes>, p: Progress) {
    && p.ts == LastStamp(env, toks)
    && OncePerPath(p.calls)
    && p.pending == pending - Touched(p.calls)
    && (forall t :: t in p.calls <==> t.path in pending && TouchDue(env, toks, t))
  }

  /** A token that touches nothing makes no touch due for a pending path. */
  lemma QuietToken(env: Env, pending: set<Path>, toks: seq<Bytes>, p: Progress, t: Touch)
    requires toks != [] && Exact(env, pending, toks[..|toks| - 1], p) && !p.raised && t.path in pending
    requires
      var tok := toks[|toks| - 1];
      !IsPath(tok) || tok !in p.pending || p.ts.None?
    ensures TouchDue(env, toks, t) <==> TouchDue(env, toks[..|toks| - 1], t)
  {
    var n, init := |toks| - 1, toks[..|toks| - 1];
    DueWithOneMore(env, toks, t);
    if NamesFirst(env, toks, t.path, n) {
      assert t.path in Touched(p.calls);
      var u :| u in p.calls && u.path == t.path;
      var k :| NamesFirst(env, init, u.path, k) && LastStamp(env, init[..k]) == Some(u.time);
      NamesFirstBefore(env, toks, t.path, k);
      assert false;
    }
  }

  lemma NamedIsTouched(env: Env, pending: set<Path>, toks: seq<Bytes>, p: Progress, j: nat)
    requires Exact(env, pending, toks, p) && j < |toks| && toks[j] in pending && IsPath(toks[j])
    requires LastStamp(env, toks[..j]).Some?
    ensures toks[j] in Touched(p.calls)
  {
    var k := SomeNamesFirst(env, toks, toks[j], j);
    var due := Touch(toks[j], LastStamp(env, toks[..k]).value);
    assert TouchDue(env, toks, due);
    assert due in p.calls;
  }

  /** One that touches a path makes that touch due, and no other. */
  lemma LoudToken(env: Env, pending: set<Path>, toks: seq<Bytes>, p: Progress, t: Touch)
    requires toks != [] && Exact(env, pending, toks[..|toks| - 1], p) && !p.raised && t.path in pending
    requires
      var tok := toks[|toks| - 1];
      IsPath(tok) && tok in p.pending && p.ts.Some?
    ensures
      TouchDue(env, toks, t) <==>
      TouchDue(env, toks[..|toks| - 1], t) || t == Touch(toks[|toks| - 1], p.ts.value)
  {
    var n, init, tok := |toks| - 1, toks[..|toks| - 1], toks[|toks| - 1];
    DueWithOneMore(env, toks, t);
    forall j | 0 <= j < n && toks[j] == tok ensures LastStamp(env, toks[..j]).None? {
      assert toks[..j] == init[..j] && init[j] == tok;
      if LastStamp(env, init[..j]).Some? {
        NamedIsTouched(env, pending, init, p, j);
        assert false;
      }
    }
    assert toks[..n] == init;
    assert NamesFirst(env, toks, tok, n);
  }

  lemma TouchesOneMore(env: Env, pending: set<Path>, toks: seq<Bytes>, p: Progress)
    requires toks != [] && Exact(env, pending, toks[..|toks| - 1], p) && !p.raised
    requires !Take(env, p, toks[|toks| - 1]).raised
    ensures Exact(env, pending, toks, Take(env, p, toks[|toks| - 1]))
  {
    var tok, q := toks[|toks| - 1], Take(env, p, toks[|toks| - 1]);
    if IsPath(tok) && tok in p.pending && p.ts.Some? {
      var touch := Touch(tok, p.ts.value);
      forall t ensures t in q.calls <==> t.path in pending && TouchDue(env, toks, t) {
        assert t in q.calls <==> t in p.calls || t == touch;
        if t.path in pending {
          LoudToken(env, pending, toks, p, t);
        }
      }
      assert Touched(q.calls) == Touched(p.calls) + {tok};
      forall i | 0 <= i < |p.calls| ensures p.calls[i].path != tok {
        assert p.calls[i] in p.calls;
      }
    } else {
      forall t ensures t in q.calls <==> t.path in pending && TouchDue(env, toks, t) {
        if t.path in pending {
          QuietToken(env, pending, toks, p, t);
        }
      }
    }
  }

  /** As long as it has not raised, a pass calls utime once for every pending path that a record has named, with the
      time of the first such record, and touches no other path. */
  lemma {:induction false} TouchesExactly(env: Env, pending: set<Path>, toks: seq<Bytes>)
    requires !TakeAll(env, Start(pending), toks).raised
    ensures Exact(env, pending, toks, TakeAll(env, Start(pending), toks))
  {
    if toks != [] {
      TouchesExactly(env, pending, toks[..|toks| - 1]);
      TouchesOneMore(env, pending, toks, TakeAll(env, Start(pending), toks[..|toks| - 1]));
    } else {
      assert Touched([]) == {};
    }
  }

  /** Whether or not it raises, it touches only pending paths. */
  lemma {:induction false} TouchesOnlyPending(env: Env, pending: set<Path>, toks: seq<Bytes>)
    ensures
      var p := TakeAll(env, Start(pending), toks);
      p.pending <= pending && Touched(p.calls) <= pending
  {
    if toks != [] {
      TouchesOnlyPending(env, pending, toks[..|toks| - 1]);
    }
  }

  /** A pass counts the calls that worked. */
  lemma {:induction false} CountsExactly(env: Env, pending: set<Path>, toks: seq<Bytes>)
    ensures TakeAll(env, Start(pending), toks).done == |Worked(env, TakeAll(env, Start(pending), toks).calls)|
  {
    if toks != [] {
      CountsExactly(env, pending, toks[..|toks| - 1]);
      CountsOneMore(env, TakeAll(env, Start(pending), toks[..|toks| - 1]), toks[|toks| - 1]);
    }
  }

  lemma CountsOneMore(env: Env, p: Progress, tok: Bytes)
    requires p.done == |Worked(env, p.calls)|
    ensures Take(env, p, tok).done == |Worked(env, Take(env, p, tok).calls)|
  {
    var q := Take(env, p, tok);
    if q.calls != p.calls {
      assert q.calls[..|q.calls| - 1] == p.calls;
    }
  }

  /** A token that int() does not take. */
  predicate IsBadStamp(env: Env, tok: Bytes) {
    tok != [] && tok[0] == 1 && tok[1..] !in env.stamps
  }

  /** A pass raises exactly on such a token. */
  lemma {:induction false} RaisesExactly(env: Env, pending: set<Path>, toks: seq<Bytes>)
    ensures TakeAll(env, Start(pending), toks).raised <==> exists tok :: tok in toks && IsBadStamp(env, tok)
  {
    if toks != [] {
      var init, last := toks[..|toks| - 1], toks[|toks| - 1];
      RaisesExactly(env, pending, init);
      assert toks == init + [last];
      assert last in toks;
    }
  }

  function Worked(env: Env, calls: seq<Touch>): seq<Touch> {
    if calls == [] then []
    else
      var last := calls[|calls| - 1];
      Worked(env, calls[..|calls| - 1]) + (if last.path in env.refused then [] else [last])
  }

  // ---- What the log means ----

  /** A commit as the log lists it, the newest commit first: a stamp, then the files it changed. */
  datatype Commit = Commit(stamp: Bytes, paths: seq<Path>)

  function Lines(commits: seq<Commit>): seq<Bytes> {
    if commits == [] then []
    else
      var last := commits[|commits| - 1];
      Lines(commits[..|commits| - 1]) + ([[SOH] + last.stamp] + last.paths)
  }

  function TimeIn(env: Env, commits: seq<Commit>, path: Path): Option<int> {
    if commits == [] then None
    else
      var before, last := TimeIn(env, commits[..|commits| - 1], path), commits[|commits| - 1];
      if before.Some? then before
      else if path in last.paths && last.stamp in env.stamps then Some(env.stamps[last.stamp])
      else None
  }

  predicate WellFormed(env: Env, commits: seq<Commit>) {
    forall c | c in commits :: c.stamp in env.stamps && forall path | path in c.paths :: IsPath(path)
  }

  function NonEmpty(toks: seq<Bytes>): seq<Bytes> {
    if toks == [] then []
    else NonEmpty(toks[..|toks| - 1]) + (if toks[|toks| - 1] == [] then [] else [toks[|toks| - 1]])
  }

  lemma {:induction false} EmptyTokensDoNothing(env: Env, p: Progress, toks: seq<Bytes>)
    ensures TakeAll(env, p, toks) == TakeAll(env, p, NonEmpty(toks))
  {
    if toks != [] {
      var init, last := toks[..|toks| - 1], toks[|toks| - 1];
      EmptyTokensDoNothing(env, p, init);
      if last == [] {
        assert NonEmpty(toks) == NonEmpty(init);
      } else {
        TakeAllConcat(env, p, NonEmpty(init), [last]);
        assert [last][..0] == [];
      }
    }
  }

  /** The files of one commit, all at its time. */
  lemma {:induction false} TakePaths(env: Env, p: Progress, paths: seq<Path>)
    requires !p.raised && p.ts.Some? && forall path | path in paths :: IsPath(path)
    ensures
      var q := TakeAll(env, p, paths);
      && !q.raised && q.ts == p.ts
      && (forall path :: path in q.pending <==> path in p.pending && path !in paths)
      && (forall t ::
            t in q.calls <==> t in p.calls || (t.path in p.pending && t.path in paths && t.time == p.ts.value))
  {
    if paths != [] {
      var init, last := paths[..|paths| - 1], paths[|paths| - 1];
      assert paths == init + [last];
      TakePaths(env, p, init);
      assert last in paths;
      var p', q := TakeAll(env, p, init), TakeAll(env, p, paths);
      assert q == Take(env, p', last);
      if last in p'.pending {
        assert q.calls == p'.calls + [Touch(last, p.ts.value)];
      }
    }
  }

  ghost predicate FollowsLog(env: Env, pending: set<Path>, commits: seq<Commit>, p: Progress) {
    && !p.raised
    && (forall path :: path in p.pending <==> path in pending && TimeIn(env, commits, path).None?)
    && (forall t :: t in p.calls <==> t.path in pending && TimeIn(env, commits, t.path) == Some(t.time))
  }

  lemma OneMoreCommit(env: Env, pending: set<Path>, commits: seq<Commit>, p: Progress)
    requires commits != [] && WellFormed(env, commits)
    requires FollowsLog(env, pending, commits[..|commits| - 1], p)
    ensures
      var last := commits[|commits| - 1];
      FollowsLog(env, pending, commits, TakeAll(env, p, [[SOH] + last.stamp] + last.paths))
  {
    var last := commits[|commits| - 1];
    assert last in commits;
    var line := [SOH] + last.stamp;
    assert line[1..] == last.stamp;
    TakeAllConcat(env, p, [line], last.paths);
    assert [line][..0] == [];
    TakePaths(env, TakeAll(env, p, [line]), last.paths);
  }

  lemma {:induction false} LinesFollowLog(env: Env, pending: set<Path>, commits: seq<Commit>)
    requires WellFormed(env, commits)
    ensures FollowsLog(env, pending, commits, TakeAll(env, Start(pending), Lines(commits)))
  {
    if commits != [] {
      var init, last := commits[..|commits| - 1], commits[|commits| - 1];
      LinesFollowLog(env, pending, init);
      OneMoreCommit(env, pending, commits, TakeAll(env, Start(pending), Lines(init)));
      TakeAllConcat(env, Start(pending), Lines(init), [[SOH] + last.stamp] + last.paths);
    }
  }

  /** If the non-empty lines of a stream are a log, every pending file that some commit changed gets the time of the
      last commit that did (the log lists the newest first), and the others none. */
  lemma RestoresCommitTimes(env: Env, pending: set<Path>, stream: Bytes, commits: seq<Commit>)
    requires WellFormed(env, commits) && NonEmpty(Tokens(Complete(stream, NUL))) == Lines(commits)
    ensures FollowsLog(env, pending, commits, SinglePass(env, pending, stream))
  {
    EmptyTokensDoNothing(env, Start(pending), Tokens(Complete(stream, NUL)));
    LinesFollowLog(env, pending, commits);
  }

  // ---- Exactly when it does ----

  lemma {:induction false} TouchedIsToken(env: Env, pending: set<Path>, toks: seq<Bytes>, t: Touch)
    requires t in TakeAll(env, Start(pending), toks).calls
    ensures t.path in toks && IsPath(t.path)
  {
    var init := toks[..|toks| - 1];
    if t in TakeAll(env, Start(pending), init).calls {
      TouchedIsToken(env, pending, init, t);
    }
  }

  lemma {:induction false} TokensHoldNoLF(records: seq<Bytes>, tok: Bytes)
    requires tok in Tokens(records)
    ensures LF !in tok
  {
    var init, last := records[..|records| - 1], records[|records| - 1];
    if tok in Tokens(init) {
      TokensHoldNoLF(init, tok);
    } else {
      SplitIsExact(last, LF);
    }
  }

  lemma {:induction false} PlainTokens(records: seq<Bytes>)
    requires forall r | r in records :: LF !in r
    ensures Tokens(records) == records
  {
    if records != [] {
      PlainTokens(records[..|records| - 1]);
      NoSeparator(records[|records| - 1], LF);
    }
  }

  /** A name that the loop reads back as itself. */
  predicate Plain(path: Path) {
    IsPath(path) && LF !in path
  }

  predicate AllPlain(commits: seq<Commit>) {
    forall c | c in commits :: forall path | path in c.paths :: Plain(path)
  }

  /** git writes a number after the mark, and int() takes it. */
  predicate StampsRead(env: Env, commits: seq<Commit>) {
    forall c | c in commits :: c.stamp in env.stamps && LF !in c.stamp && NUL !in c.stamp
  }

  lemma {:induction false} LinesArePlain(env: Env, commits: seq<Commit>)
    requires StampsRead(env, commits) && AllPlain(commits)
    ensures forall line | line in Lines(commits) :: LF !in line
  {
    if commits != [] {
      LinesArePlain(env, commits[..|commits| - 1]);
      assert commits[|commits| - 1] in commits;
    }
  }

  lemma {:induction false} ListedHasTime(env: Env, commits: seq<Commit>, c: Commit, path: Path)
    requires StampsRead(env, commits) && c in commits && path in c.paths
    ensures TimeIn(env, commits, path).Some?
  {
    var init := commits[..|commits| - 1];
    if c in init {
      ListedHasTime(env, init, c, path);
    } else {
      assert c == commits[|commits| - 1];
    }
  }

  /** Every pending file gets the time of its last commit, whatever is pending, exactly when no listed name is empty,
      begins with the mark of a stamp, or holds a line feed. */
  lemma CommitTimesExactly(env: Env, commits: seq<Commit>)
    requires StampsRead(env, commits)
    ensures
      (forall pending: set<Path> ::
         FollowsLog(env, pending, commits, TakeAll(env, Start(pending), Tokens(Lines(commits))))) <==>
      AllPlain(commits)
  {
    if AllPlain(commits) {
      LinesArePlain(env, commits);
      PlainTokens(Lines(commits));
      forall pending: set<Path>
        ensures FollowsLog(env, pending, commits, TakeAll(env, Start(pending), Tokens(Lines(commits))))
      {
        LinesFollowLog(env, pending, commits);
      }
    } else {
      var c :| c in commits && !(forall path | path in c.paths :: Plain(path));
      var path :| path in c.paths && !Plain(path);
      OddNameMissed(env, commits, c, path);
    }
  }

  /** The only pending file then gets no time at all. */
  lemma OddNameMissed(env: Env, commits: seq<Commit>, c: Commit, path: Path)
    requires StampsRead(env, commits) && c in commits && path in c.paths && !Plain(path)
    ensures !FollowsLog(env, {path}, commits, TakeAll(env, Start({path}), Tokens(Lines(commits))))
  {
    var p := TakeAll(env, Start({path}), Tokens(Lines(commits)));
    ListedHasTime(env, commits, c, path);
    var due := Touch(path, TimeIn(env, commits, path).value);
    if due in p.calls {
      TouchedIsToken(env, {path}, Tokens(Lines(commits)), due);
      TokensHoldNoLF(Lines(commits), path);
    }
    assert FollowsLog(env, {path}, commits, p) ==> due in p.calls;
  }

  /** The records of a log, each ended by a NUL. */
  function Written(records: seq<Bytes>): Bytes {
    if records == [] then [] else Written(records[..|records| - 1]) + (records[|records| - 1] + [NUL])
  }

  lemma {:induction false} WrittenReadsBack(records: seq<Bytes>)
    requires forall r | r in records :: NUL !in r
    ensures Complete(Written(records), NUL) == records && Tail(Written(records), NUL) == []
  {
    if records != [] {
      var init, last := records[..|records| - 1], records[|records| - 1];
      WrittenReadsBack(init);
      OneMoreRecord(Written(init), init, last);
      assert records == init + [last];
    }
  }

  lemma OneMoreRecord(before: Bytes, init: seq<Bytes>, last: Bytes)
    requires Complete(before, NUL) == init && Tail(before, NUL) == [] && NUL !in last
    ensures Complete(before + (last + [NUL]), NUL) == init + [last] && Tail(before + (last + [NUL]), NUL) == []
  {
    CompleteGrows(before, last + [NUL], NUL);
    OneRecord(last);
    NothingBefore(last + [NUL]);
  }

  lemma NothingBefore(s: Bytes)
    ensures [] + s == s
  {
  }

  lemma OneRecord(r: Bytes)
    requires NUL !in r
    ensures Complete(r + [NUL], NUL) == [r] && Tail(r + [NUL], NUL) == []
  {
    SplitTerminated(r);
  }

  lemma {:induction false} SplitTerminated(r: Bytes)
    requires NUL !in r
    ensures Split(r + [NUL], NUL) == [r, []]
  {
    if r == [] {
      assert r + [NUL] == [NUL];
      SplitOfPrepended(NUL, [], NUL);
      assert [NUL] + [] == [NUL];
    } else {
      SplitTerminated(r[1..]);
      SplitOfPrepended(r[0], r[1..] + [NUL], NUL);
      assert [r[0]] + (r[1..] + [NUL]) == r + [NUL];
      assert [r[0]] + r[1..] == r;
    }
  }

  /** `stream` lists the commits, in any layout of its records: empty lines aside, its lines are those of the log. */
  predicate Lists(stream: Bytes, commits: seq<Commit>) {
    NonEmpty(Tokens(Complete(stream, NUL))) == NonEmpty(Tokens(Lines(commits)))
  }

  /** ... so for the whole stream, however its records are laid out and in any chunks, since Restore is this pass. */
  lemma StreamTimesExactly(env: Env, commits: seq<Commit>, stream: Bytes)
    requires StampsRead(env, commits) && Lists(stream, commits)
    ensures
      (forall pending: set<Path> :: FollowsLog(env, pending, commits, SinglePass(env, pending, stream))) <==>
      AllPlain(commits)
  {
    CommitTimesExactly(env, commits);
    forall pending: set<Path>
      ensures SinglePass(env, pending, stream) == TakeAll(env, Start(pending), Tokens(Lines(commits)))
    {
      EmptyTokensDoNothing(env, Start(pending), Tokens(Complete(stream, NUL)));
      EmptyTokensDoNothing(env, Start(pending), Tokens(Lines(commits)));
    }
  }

  /** The log with one line a record is such a stream. A file name never holds a NUL. */
  lemma WrittenLists(commits: seq<Commit>)
    requires forall line | line in Lines(commits) :: forall b: byte | b in line :: b != 0
    ensures Lists(Written(Lines(commits)), commits)
  {
    WrittenReadsBack(Lines(commits));
  }

  lemma SplitsInTwo(a: byte, b: byte)
    requires a != LF && b != LF
    ensures Split([a, LF, b], LF) == [[a], [b]]
  {
    NoSeparator([b], LF);
    SplitOfPrepended(LF, [b], LF);
    SplitOfPrepended(a, [LF, b], LF);
    var rest: seq<Bytes> := [[], [b]];
    assert [LF] + [b] == [LF, b] && [a] + [LF, b] == [a, LF, b];
    assert Split([LF, b], LF) == rest;
    assert [a] + rest[0] == [a] && rest[1..] == [[b]];
  }

  lemma TokensOfTwo(x: Bytes, y: Bytes)
    ensures Tokens([x, y]) == Split(x, LF) + Split(y, LF)
  {
    assert [x, y][..1] == [x] && [x][..0] == [];
    assert Tokens([x]) == Tokens([]) + Split(x, LF);
  }

  lemma TakeThree(env: Env, p: Progress, x: Bytes, y: Bytes, z: Bytes)
    ensures TakeAll(env, p, [x, y, z]) == Take(env, Take(env, Take(env, p, x), y), z)
  {
    assert [x, y, z][..2] == [x, y] && [x, y][..1] == [x] && [x][..0] == [];
    assert TakeAll(env, p, [x]) == Take(env, p, x);
    assert TakeAll(env, p, [x, y]) == Take(env, Take(env, p, x), y);
  }

  /** A file name that holds a line feed is never such a line: the record of the name a-LF-b names the files a and b
      instead, which then get the time of a commit that did not change them. A line feed is byte 10, a stamp's mark
      byte 1. */
  lemma LineFeedInNameMisleads(env: Env, stamp: Bytes, a: byte, b: byte)
    requires stamp in env.stamps && LF !in stamp && a != b && a != LF && b != LF && a != SOH && b != SOH
    ensures
      var p := TakeAll(env, Start({[a], [a, 10, b]}), Tokens([[1] + stamp, [a, 10, b]]));
      p.calls == [Touch([a], env.stamps[stamp])] && p.pending == {[a, 10, b]}
  {
    var line, name := [SOH] + stamp, [a, LF, b];
    assert LF !in line && line[1..] == stamp;
    NoSeparator(line, LF);
    SplitsInTwo(a, b);
    TokensOfTwo(line, name);
    assert [line] + [[a], [b]] == [line, [a], [b]];
    TakeThree(env, Start({[a], name}), line, [a], [b]);
    assert [a] != name && [b] != [a] && [b] != name;
  }
}
