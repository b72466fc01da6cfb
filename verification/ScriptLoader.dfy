/**
 loadScript itself (cmd/cc-stub/main.go:1529-1602), one file operation a method, over the files of one script
 directory: every call of it is a run of the step system of ScriptClaim. Between any two of its operations the
 writers and the other turns do whatever they like.
*/
module ScriptLoader {
  import opened Wrappers
  import opened ScriptClaim

  /** Which file operations work. */
  datatype Faults = Faults(peek: bool, rename: bool, reread: bool, link: bool)

  /** What the others do before each operation. */
  datatype Others = Others(peek: seq<Event>, rename: seq<Event>, reread: seq<Event>,
                           link: seq<Event>, remove: seq<Event>)

  const NOBODY := Others([], [], [], [], [])

  /** A file operation of turn `t` that works, or not, as the faults say. */
  predicate Fits(io: Faults, t: Turn, e: Event) {
    e.Act? && e.t == t ==>
      match e.a
      case Peek(ok) => ok == io.peek
      case Rename(ok) => ok == io.rename
      case Reread(ok) => ok == io.reread
      case Link(ok) => ok == io.link
      case Remove => true
  }

  /** A run in which the operations of `t` do. */
  ghost predicate Course(parse: Parser, io: Faults, t: Turn, s0: State, events: seq<Event>, s: State) {
    Run(parse, s0, events) == Some(s) && forall e | e in events :: Fits(io, t, e)
  }

  lemma Adds(parse: Parser, io: Faults, t: Turn, s0: State, events: seq<Event>, s: State, e: Event, s': State)
    returns (longer: seq<Event>)
    requires Course(parse, io, t, s0, events, s) && Apply(parse, s, e) == Some(s') && Fits(io, t, e)
    ensures Course(parse, io, t, s0, longer, s')
  {
    var next;
    longer, next := Extend(parse, s0, events, s, e);
  }

  lemma GoesOn(parse: Parser, io: Faults, t: Turn, s0: State, events: seq<Event>, s: State,
               more: seq<Event>, s': State) returns (longer: seq<Event>)
    requires Course(parse, io, t, s0, events, s) && Course(parse, io, t, s, more, s')
    ensures Course(parse, io, t, s0, longer, s')
  {
    RunConcat(parse, s0, events, more);
    longer := events + more;
  }

  lemma PrefixRuns(parse: Parser, s: State, events: seq<Event>, i: nat)
    requires i <= |events| && Run(parse, s, events).Some?
    ensures Run(parse, s, events[..i]).Some?
    decreases |events|
  {
    if i == |events| {
      assert events[..i] == events;
    } else {
      PrefixRuns(parse, s, events[..|events| - 1], i);
      assert events[..|events| - 1][..i] == events[..i];
    }
  }

  /** What the others would do, all of which is possible. */
  ghost predicate Possible(parse: Parser, s: State, t: Turn, others: seq<Event>) {
    Run(parse, s, others).Some? && forall e | e in others :: NotOf(e, t)
  }

  // ---- What everybody makes of the files ----

  /** After what the others do; what is not possible when its turn comes does not happen. */
  function Amid(parse: Parser, s: State, t: Turn, others: seq<Event>): State
    decreases |others|
  {
    if others == [] then s
    else
      var before, last := Amid(parse, s, t, others[..|others| - 1]), others[|others| - 1];
      if NotOf(last, t) && Apply(parse, before, last).Some? then Apply(parse, before, last).value else before
  }

  /** ... and then one operation of `t`. */
  function Next(parse: Parser, s: State, t: Turn, others: seq<Event>, a: Action): State {
    var before := Amid(parse, s, t, others);
    var after := Apply(parse, before, Act(t, a));
    if after.Some? then after.value else before
  }

  function Claimed(parse: Parser, s: State, t: Turn, others: Others, io: Faults): State {
    var peeked := Next(parse, s, t, others.peek, Action.Peek(io.peek));
    if IsAt(peeked, t, Renaming) then Next(parse, peeked, t, others.rename, Action.Rename(io.rename)) else peeked
  }

  function Consumed(parse: Parser, s: State, t: Turn, others: Others, io: Faults): State {
    var read := Next(parse, s, t, others.reread, Action.Reread(io.reread));
    var back := if IsAt(read, t, Linking) then Next(parse, read, t, others.link, Action.Link(io.link)) else read;
    Next(parse, back, t, others.remove, Action.Remove)
  }

  function Loaded(parse: Parser, s: State, t: Turn, others: Others, io: Faults): State {
    var claimed := Claimed(parse, s, t, others, io);
    if IsAt(claimed, t, Rereading) then Consumed(parse, claimed, t, others, io) else claimed
  }

  predicate IsAt(s: State, t: Turn, pc: Pc) {
    t in s.loaders && s.loaders[t].pc == pc
  }

  class ScriptDir {
    const parse: Parser
    var path: Option<Version>     // the script file
    var claimed: Option<Version>  // the private name of the turn that is loading
    var s: State                  // the same files and everybody who uses them, as the step system has them

    ghost predicate Valid()
      reads this
    {
      path == s.path
    }

    /** Turn `t` is at `pc`, and what it has claimed is at its private name. */
    ghost predicate Stands(t: Turn, text: string, pc: Pc)
      reads this
    {
      t in s.loaders && s.loaders[t].text == text && s.loaders[t].pc == pc && claimed == s.loaders[t].claim
    }

    constructor (parse: Parser)
      ensures Valid() && this.parse == parse && path.None? && s == INITIAL
    {
      this.parse := parse;
      path, claimed, s := None, None, INITIAL;
    }

    /** The others act, all as they would if it is possible; what is not possible when its turn comes does not
        happen. */
    method Meanwhile(ghost io: Faults, t: Turn, others: seq<Event>) returns (ghost events: seq<Event>)
      requires Valid() && t in s.loaders
      modifies this`path, this`s
      ensures Valid() && Course(parse, io, t, old(s), events, s)
      ensures t in s.loaders && s.loaders[t] == old(s).loaders[t]
      ensures s == Amid(parse, old(s), t, others)
      ensures Possible(parse, old(s), t, others) ==> events == others
    {
      events := [];
      for i := 0 to |others|
        invariant Valid() && Course(parse, io, t, old(s), events, s)
        invariant t in s.loaders && s.loaders[t] == old(s).loaders[t]
        invariant s == Amid(parse, old(s), t, others[..i])
        invariant Possible(parse, old(s), t, others) ==> events == others[..i]
      {
        assert others[..i + 1][..i] == others[..i];
        ghost var before := events;
        if NotOf(others[i], t) && Apply(parse, s, others[i]).Some? {
          OthersKeepLoader(parse, s, others[i], t);
          ghost var next;
          events, next := Extend(parse, old(s), events, s, others[i]);
          s := Apply(parse, s, others[i]).value;
          path := s.path;
        }
        if Possible(parse, old(s), t, others) {
          PrefixRuns(parse, old(s), others, i + 1);
        }
      }
      assert others[..|others|] == others;
    }

    method Peek(t: Turn, text: string, ok: bool) returns (aimed: bool)
      requires Valid() && Stands(t, text, Peeking)
      modifies this`s
      ensures Valid() && Apply(parse, old(s), Act(t, Action.Peek(ok))) == Some(s)
      ensures Stands(t, text, if aimed then Renaming else NoScript)
      ensures aimed == (ok && IsFor(path, text))
    {
      aimed := ok && path.Some? && AimedAt(parse, path.value, text);
      s := Apply(parse, s, Act(t, Action.Peek(ok))).value;
    }

    method Rename(t: Turn, text: string, ok: bool) returns (mine: bool)
      requires Valid() && Stands(t, text, Renaming)
      modifies this
      ensures Valid() && Apply(parse, old(s), Act(t, Action.Rename(ok))) == Some(s)
      ensures if mine then Stands(t, text, Rereading) && claimed.Some? else t in s.loaders && s.loaders[t].pc.NoScript?
      ensures mine == (ok && old(path).Some?)
      ensures if mine then path.None? && claimed == old(path) else path == old(path) && claimed == old(claimed)
    {
      mine := ok && path.Some?;
      s := Apply(parse, s, Act(t, Action.Rename(ok))).value;
      if mine {
        claimed, path := path, None;
      }
    }

    method Reread(t: Turn, text: string, ok: bool) returns (bytes: Option<string>)
      requires Valid() && Stands(t, text, Rereading) && claimed.Some?
      modifies this`s
      ensures Valid() && Apply(parse, old(s), Act(t, Action.Reread(ok))) == Some(s)
      ensures bytes == if ok then Some(claimed.value.bytes) else None
      ensures Stands(t, text, if ok then Judge(parse, claimed.value, text) else Removing(Lost(Unread)))
    {
      bytes := if ok then Some(claimed.value.bytes) else None;
      s := Apply(parse, s, Act(t, Action.Reread(ok))).value;
    }

    /** Link refuses to clobber. */
    method Link(t: Turn, text: string, ok: bool)
      requires Valid() && Stands(t, text, Linking) && claimed.Some?
      modifies this`path, this`s
      ensures Valid() && Apply(parse, old(s), Act(t, Action.Link(ok))) == Some(s)
      ensures Stands(t, text, Removing(if ok && old(path).None? then Restored else Lost(LinkFailed)))
      ensures path == if ok && old(path).None? then claimed else old(path)
    {
      s := Apply(parse, s, Act(t, Action.Link(ok))).value;
      if ok && path.None? {
        path := claimed;
      }
    }

    method Remove(t: Turn, text: string, ghost r: ScriptClaim.Result)
      requires Valid() && Stands(t, text, Removing(r))
      modifies this`claimed, this`s
      ensures Valid() && Apply(parse, old(s), Act(t, Action.Remove)) == Some(s)
      ensures t in s.loaders && s.loaders[t] == old(s).loaders[t].(pc := Done(r)) && claimed.None?
    {
      claimed := None;
      s := Apply(parse, s, Act(t, Action.Remove)).value;
    }

    /** Turn `t` loads the script for its message. If nobody else acts, a script at the path that parses and is aimed at
        the message is taken from it, and given unless it cannot be read back; any other stays. */
    method Load(t: Turn, text: string, others: Others, io: Faults)
      returns (script: Option<string>, ghost events: seq<Event>)
      requires Valid() && t !in s.loaders && claimed.None?
      modifies this
      ensures Valid() && Course(parse, io, t, old(s), events, s) && t in s.loaders
      ensures s == Loaded(parse, Apply(parse, old(s), Arrive(t, text)).value, t, others, io)
      ensures s.loaders[t].pc.NoScript? || s.loaders[t].pc.Done?
      ensures script.Some? <==> s.loaders[t].pc == Done(Applied)
      ensures script.Some? ==> s.loaders[t].claim.Some? && s.loaders[t].claim.value.bytes == script.value
      ensures
        others == NOBODY ==>
        if IsFor(old(path), text) && io.peek && io.rename then
          path.None? && script == if io.reread then Some(old(path).value.bytes) else None
        else path == old(path) && script.None?
    {
      ghost var more;
      var mine;
      s := Apply(parse, s, Arrive(t, text)).value;
      events := Adds(parse, io, t, old(s), [], old(s), Arrive(t, text), s);
      ghost var arrived := s;
      mine, more := Claim(t, text, others, io);
      events := GoesOn(parse, io, t, old(s), events, arrived, more, s);
      if !mine {
        return None, events;
      }
      ghost var taken := s;
      script, more := Consume(t, text, others, io);
      events := GoesOn(parse, io, t, old(s), events, taken, more, s);
    }

    /** There is a script, it parses, and its aim, if it has one, is in the message. */
    predicate IsFor(path: Option<Version>, text: string)
      reads this
    {
      && path.Some? && parse(path.value.bytes).Some?
      && var aim := parse(path.value.bytes).value;
         aim == "" || exists i :: 0 <= i <= |text| && aim <= text[i..]
    }

    /** Up to the rename. */
    method Claim(t: Turn, text: string, others: Others, io: Faults) returns (mine: bool, ghost events: seq<Event>)
      requires Valid() && Stands(t, text, Peeking)
      modifies this
      ensures Valid() && Course(parse, io, t, old(s), events, s)
      ensures if mine then Stands(t, text, Rereading) && claimed.Some? else t in s.loaders && s.loaders[t].pc.NoScript?
      ensures s == Claimed(parse, old(s), t, others, io)
      ensures others == NOBODY ==> mine == (IsFor(old(path), text) && io.peek && io.rename)
      ensures others == NOBODY ==> if mine then path.None? && claimed == old(path) else path == old(path)
    {
      var aimed;
      aimed, events := ThenPeek(t, text, others, io);
      if !aimed {
        return false, events;
      }
      ghost var peeked := s;
      ghost var more;
      mine, more := ThenRename(t, text, others, io);
      events := GoesOn(parse, io, t, old(s), events, peeked, more, s);
    }

    method ThenPeek(t: Turn, text: string, others: Others, io: Faults) returns (aimed: bool, ghost events: seq<Event>)
      requires Valid() && Stands(t, text, Peeking)
      modifies this
      ensures Valid() && Course(parse, io, t, old(s), events, s)
      ensures Stands(t, text, if aimed then Renaming else NoScript)
      ensures s == Next(parse, old(s), t, others.peek, Action.Peek(io.peek))
      ensures others.peek == [] ==> path == old(path) && aimed == (IsFor(old(path), text) && io.peek)
    {
      events := Meanwhile(io, t, others.peek);
      ghost var before := s;
      aimed := Peek(t, text, io.peek);
      events := Adds(parse, io, t, old(s), events, before, Act(t, Action.Peek(io.peek)), s);
    }

    method ThenRename(t: Turn, text: string, others: Others, io: Faults) returns (mine: bool, ghost events: seq<Event>)
      requires Valid() && Stands(t, text, Renaming)
      modifies this
      ensures Valid() && Course(parse, io, t, old(s), events, s)
      ensures if mine then Stands(t, text, Rereading) && claimed.Some? else t in s.loaders && s.loaders[t].pc.NoScript?
      ensures s == Next(parse, old(s), t, others.rename, Action.Rename(io.rename))
      ensures others.rename == [] ==> mine == (old(path).Some? && io.rename)
      ensures others.rename == [] ==> if mine then path.None? && claimed == old(path) else path == old(path)
    {
      events := Meanwhile(io, t, others.rename);
      ghost var before := s;
      mine := Rename(t, text, io.rename);
      events := Adds(parse, io, t, old(s), events, before, Act(t, Action.Rename(io.rename)), s);
    }

    /** After it: read back what was claimed, put it back if it is aimed elsewhere, drop the private name. */
    method Consume(t: Turn, text: string, others: Others, io: Faults)
      returns (script: Option<string>, ghost events: seq<Event>)
      requires Valid() && Stands(t, text, Rereading) && claimed.Some?
      modifies this
      ensures Valid() && Course(parse, io, t, old(s), events, s) && t in s.loaders && s.loaders[t].pc.Done?
      ensures script.Some? <==> s.loaders[t].pc == Done(Applied)
      ensures script.Some? ==> s.loaders[t].claim.Some? && s.loaders[t].claim.value.bytes == script.value
      ensures s == Consumed(parse, old(s), t, others, io)
      ensures script == if io.reread && IsFor(old(claimed), text) then Some(old(claimed).value.bytes) else None
      ensures others == NOBODY && (IsFor(old(claimed), text) || !io.reread) ==> path == old(path)
    {
      var aimed;
      script, aimed, events := ReadBack(t, text, others, io);
      ghost var before := s;
      ghost var more := [];
      if script.Some? && !aimed {
        script := None;
        more := PutBack(t, text, others, io);
      }
      events := GoesOn(parse, io, t, old(s), events, before, more, s);
      before := s;
      more := Drop(t, text, others, io);
      events := GoesOn(parse, io, t, old(s), events, before, more, s);
    }

    /** The script as read back, None when it cannot be read or parsed. */
    method ReadBack(t: Turn, text: string, others: Others, io: Faults)
      returns (script: Option<string>, aimed: bool, ghost events: seq<Event>)
      requires Valid() && Stands(t, text, Rereading) && claimed.Some?
      modifies this`path, this`s
      ensures Valid() && Course(parse, io, t, old(s), events, s)
      ensures
        script == if io.reread && parse(claimed.value.bytes).Some? then Some(claimed.value.bytes) else None
      ensures script.Some? ==> aimed == IsFor(claimed, text)
      ensures
        if script.None? then Stands(t, text, Removing(Lost(Unread))) || Stands(t, text, Removing(Lost(Unparseable)))
        else Stands(t, text, if aimed then Removing(Applied) else Linking)
      ensures s == Next(parse, old(s), t, others.reread, Action.Reread(io.reread))
      ensures others.reread == [] ==> path == old(path)
    {
      events := Meanwhile(io, t, others.reread);
      ghost var before := s;
      script := Reread(t, text, io.reread);
      events := Adds(parse, io, t, old(s), events, before, Act(t, Action.Reread(io.reread)), s);
      aimed := false;
      if script.Some? {
        if parse(script.value).None? {
          script := None;
        } else {
          aimed := Matches(parse(script.value).value, text);
        }
      }
    }

    method PutBack(t: Turn, text: string, others: Others, io: Faults) returns (ghost events: seq<Event>)
      requires Valid() && Stands(t, text, Linking) && claimed.Some?
      modifies this`path, this`s
      ensures Valid() && Course(parse, io, t, old(s), events, s)
      ensures Stands(t, text, Removing(Restored)) || Stands(t, text, Removing(Lost(LinkFailed)))
      ensures s == Next(parse, old(s), t, others.link, Action.Link(io.link))
      ensures others.link == [] ==> path == if io.link && old(path).None? then claimed else old(path)
    {
      events := Meanwhile(io, t, others.link);
      ghost var before := s;
      Link(t, text, io.link);
      events := Adds(parse, io, t, old(s), events, before, Act(t, Action.Link(io.link)), s);
    }

    method Drop(t: Turn, text: string, others: Others, ghost io: Faults) returns (ghost events: seq<Event>)
      requires Valid() && t in s.loaders && s.loaders[t].pc.Removing? && Stands(t, text, s.loaders[t].pc)
      modifies this
      ensures Valid() && Course(parse, io, t, old(s), events, s) && claimed.None?
      ensures t in s.loaders && s.loaders[t] == old(s).loaders[t].(pc := Done(old(s).loaders[t].pc.r))
      ensures s == Next(parse, old(s), t, others.remove, Action.Remove)
      ensures others.remove == [] ==> path == old(path)
    {
      events := Meanwhile(io, t, others.remove);
      ghost var before := s;
      Remove(t, text, before.loaders[t].pc.r);
      events := Adds(parse, io, t, old(s), events, before, Act(t, Action.Remove), s);
    }
  }
}
