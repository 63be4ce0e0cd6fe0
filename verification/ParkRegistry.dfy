/** The registry of runs parked on a question (internal/a2a/interruption.go), keyed by task.
    Both operations run under the registry's mutex, so each is one atomic step. */
module ParkRegistry {
  import opened Wrappers

  type TaskId = string
  /** A run is named by the number it was started under. */
  type RunId = nat

  datatype Park = Park(run: RunId, parkedAt: int)

  function Expired(parked: map<TaskId, Park>, ttl: int, now: int): set<TaskId> {
    set k | k in parked && ttl > 0 && now - parked[k].parkedAt > ttl
  }

  /** The registry after `put`: every park past its time is gone, and `id` names the new one. */
  function AfterPut(parked: map<TaskId, Park>, ttl: int, id: TaskId, run: RunId, now: int): map<TaskId, Park> {
    (parked - Expired(parked, ttl, now))[id := Park(run, now)]
  }

  /** The runs `put` cancels. */
  function Reaped(parked: map<TaskId, Park>, ttl: int, now: int): set<RunId> {
    set k | k in Expired(parked, ttl, now) :: parked[k].run
  }

  /** A park `put` throws away without cancelling its run: the entry it overwrites while that
      entry is still within its time. */
  predicate Overwrites(parked: map<TaskId, Park>, ttl: int, id: TaskId, now: int, victim: RunId) {
    id in parked && id !in Expired(parked, ttl, now) && parked[id].run == victim
  }

  class Registry {
    var parked: map<TaskId, Park>
    const ttl: int

    constructor (ttl: int)
      ensures parked == map[] && this.ttl == ttl
    {
      this.parked := map[];
      this.ttl := ttl;
    }

    /** put: reap what has expired, then register. Answers the runs whose cancel was called. */
    method Put(id: TaskId, run: RunId, now: int) returns (cancelled: set<RunId>)
      modifies this
      ensures parked == AfterPut(old(parked), ttl, id, run, now)
      ensures cancelled == Reaped(old(parked), ttl, now)
      ensures id in parked && parked[id] == Park(run, now)
      ensures forall k :: k != id ==> (k in parked <==> k in old(parked) && (ttl <= 0 || now - old(parked)[k].parkedAt <= ttl))
      ensures forall k :: k != id && k in parked ==> parked[k] == old(parked)[k]
      ensures forall r: RunId :: r in cancelled <==> exists k :: k in old(parked) && old(parked)[k].run == r && 0 < ttl < now - old(parked)[k].parkedAt
    {
      var before := parked;
      var todo := parked.Keys;
      cancelled := {};
      while todo != {}
        invariant todo <= before.Keys
        invariant parked == before - (Expired(before, ttl, now) - todo)
        invariant cancelled == set k | k in Expired(before, ttl, now) - todo :: before[k].run
        decreases todo
      {
        var k :| k in todo;
        var old' := before[k];
        ghost var seen := Expired(before, ttl, now) - todo;
        todo := todo - {k};
        if ttl > 0 && now - old'.parkedAt > ttl {
          cancelled := cancelled + {old'.run};
          parked := parked - {k};
          assert Expired(before, ttl, now) - todo == seen + {k};
        } else {
          assert Expired(before, ttl, now) - todo == seen;
        }
      }
      parked := parked[id := Park(run, now)];
    }

    /** take: hand the park out and forget it. */
    method Take(id: TaskId) returns (r: Option<Park>)
      modifies this
      ensures r == if id in old(parked) then Some(old(parked)[id]) else None
      ensures parked == old(parked) - {id}
    {
      if id in parked {
        r := Some(parked[id]);
        parked := parked - {id};
      } else {
        r := None;
      }
    }
  }
}
