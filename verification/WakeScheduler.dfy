/**
 The scheduler's own state (cmd/foci-gw/agents_notify.go, buildWakeScheduler) and the reminder store it writes,
 as the objects the source updates in place. Each method is one critical section, tied to the step of the
 claim protocol it stands for; `View` is what the protocol sees of one wake.
*/
module WakeScheduler {
  import opened Wrappers
  import P = WakeProtocol

  /** A wakeCtx with its cancel func. */
  class WakeContext {
    var done: bool

    constructor ()
      ensures !done
    {
      done := false;
    }

    method Cancel()
      modifies this
      ensures done
    {
      done := true;
    }
  }

  /** The rows of the reminders table and the runtime overlay of fired wakes (internal/memory/remind.go). */
  class ReminderStore {
    var rows: set<P.Id>
    var fired: map<P.Id, P.Session>

    constructor ()
      ensures rows == {} && fired == map[]
    {
      rows, fired := {}, map[];
    }

    method MarkWakeFired(id: P.Id, sk: P.Session)
      modifies this
      ensures fired == old(fired)[id := sk] && rows == old(rows)
    {
      fired := fired[id := sk];
    }

    method ClearWakeFired(id: P.Id)
      modifies this
      ensures fired == old(fired) - {id} && rows == old(rows)
    {
      fired := fired - {id};
    }

    /** The second half of a dismissal. dbOk: whether the database took the delete. */
    method DeleteRow(id: P.Id, dbOk: bool)
      modifies this
      ensures fired == old(fired) && rows == (if dbOk then old(rows) - {id} else old(rows))
    {
      if dbOk {
        rows := rows - {id};
      }
    }

    method Dismiss(id: P.Id, dbOk: bool)
      modifies this
      ensures fired == old(fired) - {id} && rows == (if dbOk then old(rows) - {id} else old(rows))
    {
      ClearWakeFired(id);
      DeleteRow(id, dbOk);
    }
  }

  class Scheduler {
    const store: ReminderStore
    var wakes: map<P.Id, WakeContext>

    constructor (store: ReminderStore)
      ensures this.store == store && wakes == map[]
    {
      this.store, wakes := store, map[];
    }

    /** Every map entry has its own context. */
    ghost predicate Valid()
      reads this
    {
      forall i, j | i in wakes && j in wakes && i != j :: wakes[i] != wakes[j]
    }

    /** What the protocol sees of wake `id`, whose goroutine holds `c`. */
    ghost function View(id: P.Id, c: WakeContext): P.Shared
      reads this, store, c
    {
      P.Shared(id in wakes && wakes[id] == c, c.done, id in store.rows,
               if id in store.fired then Some(store.fired[id]) else None)
    }

    /** The claim primitive: it hands the cancel func to the one caller that found the entry. */
    method TakeEntry(id: P.Id) returns (c: WakeContext?)
      requires Valid()
      modifies this
      ensures Valid() && wakes == old(wakes) - {id}
      ensures if id in old(wakes) then c == old(wakes)[id] else c == null
      ensures c != null ==> old(View(id, wakes[id])).entry && View(id, c) == P.Take(old(View(id, wakes[id])))
    {
      c := if id in wakes then wakes[id] else null;
      wakes := wakes - {id};
    }

    /** Claims the wake and marks it fired under one hold of the lock. `c` is the calling goroutine's own
        context: the only one ever registered under its id. */
    method ClaimForFire(id: P.Id, sk: P.Session, ghost c: WakeContext) returns (ok: bool)
      requires Valid() && (id in wakes ==> wakes[id] == c)
      modifies this, store
      ensures Valid() && ok == old(View(id, c)).entry
      ensures View(id, c) == P.ClaimForFire(old(View(id, c)), sk)
      ensures wakes == old(wakes) - {id} && store.rows == old(store.rows)
      ensures store.fired == if ok then old(store.fired)[id := sk] else old(store.fired)
    {
      if id !in wakes {
        return false;
      }
      wakes := wakes - {id};
      store.MarkWakeFired(id, sk);
      return true;
    }

    /** Registers the wake before its goroutine starts. The row is already stored. */
    method ScheduleWake(id: P.Id) returns (c: WakeContext)
      requires Valid()
      requires id in store.rows && id !in store.fired
      modifies this
      ensures Valid() && fresh(c) && wakes == old(wakes)[id := c]
      ensures View(id, c) == P.SCHEDULED.sh
    {
      c := new WakeContext();
      wakes := wakes[id := c];
    }

    /** A whole cancel call with nothing in between: true exactly when it found the entry, and the wake is
        uncancellable again when it returns. */
    method CancelWake(id: P.Id) returns (ok: bool)
      requires Valid()
      modifies this, if id in wakes then {wakes[id]} else {}
      ensures Valid() && ok == (id in old(wakes)) && wakes == old(wakes) - {id}
      ensures ok ==> View(id, old(wakes[id])) == P.CancelCtx(P.Take(old(View(id, wakes[id]))))
    {
      var c := TakeEntry(id);
      if c == null {
        return false;
      }
      c.Cancel();
      return true;
    }

    /** The stop arm of the wake's select. */
    method StopWake(id: P.Id, ghost c: WakeContext)
      requires Valid() && (id in wakes ==> wakes[id] == c)
      modifies this, if id in wakes then {wakes[id]} else {}
      ensures Valid() && wakes == old(wakes) - {id}
      ensures View(id, c) == if old(View(id, c)).entry then P.CancelCtx(P.Take(old(View(id, c)))) else old(View(id, c))
    {
      var d := TakeEntry(id);
      if d != null {
        d.Cancel();
      }
    }

    /** The completion hook of the wake's turn (wakeTurnDone). A turn that panicked reaches it without an
        error. */
    method TurnDone(id: P.Id, result: P.TurnResult, dbOk: bool, ghost c: WakeContext)
      modifies store
      ensures View(id, c) == if result.ShuttingDown? then P.ClearFired(old(View(id, c)))
                             else P.DeleteRow(P.ClearFired(old(View(id, c))), dbOk)
      ensures store.fired == old(store.fired) - {id}
      ensures store.rows == if result.ShuttingDown? || !dbOk then old(store.rows) else old(store.rows) - {id}
    {
      if result.ShuttingDown? {
        store.ClearWakeFired(id);
        return;
      }
      store.Dismiss(id, dbOk);
    }
  }
}
