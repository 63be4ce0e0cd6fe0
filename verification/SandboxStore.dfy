/** The sandbox sidecar's session registry (deploy/builder/session.go) and the tool calls that use
    it (deploy/builder/tools.go, main.go). Every method runs under the store's mutex, so each is one
    step; opening a sandbox is two, with the slow container start between them. */
module SandboxStore {
  import opened Wrappers

  type Id = nat

  datatype Session = Session(principal: string, rootRun: string, createdAt: int, lastUsed: int)

  type Sessions = map<Id, Session>

  datatype Ttl = Ttl(idle: int, max: int)

  predicate IsExpired(s: Session, now: int, ttl: Ttl) {
    now - s.lastUsed > ttl.idle || now - s.createdAt > ttl.max
  }

  function ExpiredIds(m: Sessions, now: int, ttl: Ttl): set<Id> {
    set id | id in m && IsExpired(m[id], now, ttl)
  }

  /** close_run sweeps only the caller's own sessions, and never the untagged ones. */
  function RunIds(m: Sessions, principal: string, rootRun: string): set<Id> {
    set id | id in m && rootRun != "" && m[id].principal == principal && m[id].rootRun == rootRun
  }

  predicate Owns(m: Sessions, id: Id, principal: string) {
    id in m && m[id].principal == principal
  }

  function Only(m: Sessions, ids: set<Id>): Sessions {
    map id | id in m && id in ids :: m[id]
  }

  // ---------------------------------------------------------------- the sidecar's runs

  /** `opening` counts the opens between their capacity check and their Add; `known` holds every id
      ever added; `handed` lists the sessions Expired and RemoveByRun gave out for teardown, in
      order. Each call brings the time it read, and nothing is said of how those times compare. */
  datatype State = State(
    m: Sessions, ttl: Ttl, maxSessions: int, opening: nat, known: set<Id>, handed: seq<Id>, closing: set<Id>)

  datatype Step =
    | PassCheck
    | FinishOpen(id: Id, principal: string, rootRun: string, at: int)
    | FailOpen
    | Use(id: Id, principal: string, at: int)         // exec, read, write and touch
    | BeginClose(id: Id, principal: string, at: int)  // the first half of close: a use by its owner
    | Close(id: Id)                                   // the second half of close
    | CloseRun(principal: string, rootRun: string, out: seq<Id>)
    | Collect(at: int, out: seq<Id>)           // a GC pass

  ghost predicate Lists(out: seq<Id>, ids: set<Id>) {
    && (forall id :: id in out <==> id in ids)
    && forall i, j :: 0 <= i < j < |out| ==> out[i] != out[j]
  }

  /** Session ids are never used twice: each is 128 random bits. */
  ghost predicate Enabled(s: State, st: Step) {
    match st
    case PassCheck => |s.m| < s.maxSessions
    case FinishOpen(id, _, _, _) => s.opening > 0 && id !in s.known
    case FailOpen => s.opening > 0
    case Use(_, _, _) => true
    case BeginClose(_, _, _) => true
    case Close(id) => id in s.closing
    case CloseRun(principal, rootRun, out) => Lists(out, RunIds(s.m, principal, rootRun))
    case Collect(at, out) => Lists(out, ExpiredIds(s.m, at, s.ttl))
  }

  ghost function Apply(s: State, st: Step): State
    requires Enabled(s, st)
  {
    match st
    case PassCheck => s.(opening := s.opening + 1)
    case FinishOpen(id, principal, rootRun, at) =>
      s.(m := s.m[id := Session(principal, rootRun, at, at)], opening := s.opening - 1, known := s.known + {id})
    case FailOpen => s.(opening := s.opening - 1)
    case Use(id, principal, at) => if Owns(s.m, id, principal) then s.(m := s.m[id := s.m[id].(lastUsed := at)]) else s
    case BeginClose(id, principal, at) =>
      if Owns(s.m, id, principal) then s.(m := s.m[id := s.m[id].(lastUsed := at)], closing := s.closing + {id}) else s
    case Close(id) => s.(m := s.m - {id}, closing := s.closing - {id})
    case CloseRun(principal, rootRun, out) => s.(m := s.m - RunIds(s.m, principal, rootRun), handed := s.handed + out)
    case Collect(at, out) => s.(m := s.m - ExpiredIds(s.m, at, s.ttl), handed := s.handed + out)
  }

  ghost predicate Start(s: State) {
    s.m == map[] && s.opening == 0 && s.known == {} && s.handed == [] && s.closing == {}
  }

  ghost predicate IsTrace(states: seq<State>, steps: seq<Step>) {
    && |states| == |steps| + 1
    && Start(states[0])
    && forall i :: 0 <= i < |steps| ==> Enabled(states[i], steps[i]) && states[i + 1] == Apply(states[i], steps[i])
  }

  // ---------------------------------------------------------------- teardown lists

  ghost predicate HandedOk(s: State) {
    && s.m.Keys <= s.known
    && (forall id :: id in s.handed ==> id in s.known && id !in s.m)
    && forall i, j :: 0 <= i < j < |s.handed| ==> s.handed[i] != s.handed[j]
  }

  lemma HandedStep(s: State, st: Step)
    requires HandedOk(s) && Enabled(s, st)
    ensures HandedOk(Apply(s, st)) && s.handed <= Apply(s, st).handed
  {
    if st.CloseRun? || st.Collect? {
      var out := st.out;
      forall i | 0 <= i < |out| ensures out[i] in s.m { assert out[i] in out; }
      forall i | 0 <= i < |s.handed| ensures s.handed[i] !in s.m { assert s.handed[i] in s.handed; }
      assert forall id :: id in s.handed + out ==> id in s.handed || id in out;
    }
  }

  lemma ListsMore(ids: seq<Id>, some: set<Id>, id: Id)
    requires Lists(ids, some) && id !in some
    ensures Lists(ids + [id], some + {id})
  {
    forall i | 0 <= i < |ids| ensures ids[i] != id { assert ids[i] in ids; }
  }

  /** A sweep over the map that is to take out `all`, with `todo` still ahead. */
  ghost predicate Swept(before: Sessions, all: set<Id>, todo: set<Id>, m: Sessions, ids: seq<Id>, out: Sessions) {
    && todo <= before.Keys && all <= before.Keys
    && m == before - (all - todo) && out == Only(before, all - todo) && Lists(ids, all - todo)
  }

  lemma SweepTakes(before: Sessions, all: set<Id>, todo: set<Id>, m: Sessions, ids: seq<Id>, out: Sessions, id: Id)
    requires Swept(before, all, todo, m, ids, out) && id in todo && id in all
    ensures Swept(before, all, todo - {id}, m - {id}, ids + [id], out[id := before[id]])
  {
    assert all - (todo - {id}) == (all - todo) + {id};
    ListsMore(ids, all - todo, id);
  }

  lemma SweepLeaves(before: Sessions, all: set<Id>, todo: set<Id>, m: Sessions, ids: seq<Id>, out: Sessions, id: Id)
    requires Swept(before, all, todo, m, ids, out) && id in todo && id !in all
    ensures Swept(before, all, todo - {id}, m, ids, out)
  {
    assert all - (todo - {id}) == all - todo;
  }

  // ---------------------------------------------------------------- the store itself

  /** The registry, with the open tool's capacity check; the ghost fields are the history a State
      carries. Every method is one step of the runs above. */
  class Store {
    var m: Sessions
    const ttl: Ttl
    const maxSessions: int
    ghost var opening: nat
    ghost var known: set<Id>
    ghost var handed: seq<Id>
    ghost var closing: set<Id>

    ghost function View(): State
      reads this
    {
      State(m, ttl, maxSessions, opening, known, handed, closing)
    }

    ghost predicate Valid()
      reads this
    {
      HandedOk(View())
    }

    constructor (ttl: Ttl, maxSessions: int)
      ensures Valid() && Start(View()) && this.ttl == ttl && this.maxSessions == maxSessions
    {
      m := map[];
      this.ttl := ttl;
      this.maxSessions := maxSessions;
      opening, known, handed, closing := 0, {}, [], {};
    }

    method Count() returns (n: nat)
      ensures n == |m|
    {
      n := |m|;
    }

    /** open's check: passed exactly while fewer than the maximum are stored. */
    method PassesCheck() returns (ok: bool)
      requires Valid()
      modifies this
      ensures Valid() && (ok <==> Enabled(old(View()), PassCheck))
      ensures View() == if ok then Apply(old(View()), PassCheck) else old(View())
    {
      var n := Count();
      ok := n < maxSessions;
      if ok { opening := opening + 1; }
    }

    /** The end of an open, under a new id: born and last used at the same time. */
    method Add(id: Id, principal: string, rootRun: string, now: int)
      requires Valid() && Enabled(View(), FinishOpen(id, principal, rootRun, now))
      modifies this
      ensures Valid() && View() == Apply(old(View()), FinishOpen(id, principal, rootRun, now))
      ensures id !in handed && forall k :: k in old(m) ==> k in m && m[k] == old(m)[k]
    {
      m := m[id := Session(principal, rootRun, now, now)];
      opening, known := opening - 1, known + {id};
    }

    /** A foreign id reads as an unknown one, and only a successful use resets the idle clock. */
    method Get(id: Id, principal: string, now: int) returns (sess: Option<Session>)
      requires Valid()
      modifies this
      ensures Valid() && View() == Apply(old(View()), Use(id, principal, now))
      ensures sess.Some? <==> id in old(m) && old(m)[id].principal == principal
      ensures sess.Some? ==> sess.value == m[id] == old(m)[id].(lastUsed := now)
      ensures sess.None? ==> m == old(m)
    {
      if id !in m || m[id].principal != principal { return None; }
      m := m[id := m[id].(lastUsed := now)];
      sess := Some(m[id]);
    }

    /** Gone, whoever removed it first, and not to be handed out any more. */
    method Remove(id: Id)
      requires Valid()
      modifies this
      ensures Valid() && (id in old(closing) ==> View() == Apply(old(View()), Close(id)))
      ensures id !in m && forall k :: k in old(m) && k != id ==> k in m && m[k] == old(m)[k]
      ensures closing == old(closing) - {id}
    {
      m := m - {id};
      closing := closing - {id};
    }

    /** The close tool, with nothing between its halves: gone afterwards exactly if it was the caller's. */
    method CloseOwn(id: Id, principal: string, now: int) returns (closed: bool)
      requires Valid()
      modifies this
      ensures Valid() && (closed <==> id in old(m) && old(m)[id].principal == principal)
      ensures closed ==> id !in m
      ensures forall k :: k in old(m) && (k != id || !closed) ==> k in m && m[k] == old(m)[k]
    {
      var sess := Get(id, principal, now);
      closed := sess.Some?;
      if closed { Remove(id); }
    }

    /** close_run: hands out, each once, and removes exactly the caller's sessions of the run. */
    method RemoveByRun(principal: string, rootRun: string) returns (ids: seq<Id>, out: Sessions)
      requires Valid()
      modifies this
      ensures Valid() && Lists(ids, RunIds(old(m), principal, rootRun)) && out == Only(old(m), RunIds(old(m), principal, rootRun))
      ensures View() == Apply(old(View()), CloseRun(principal, rootRun, ids))
      ensures forall id :: id in ids ==> id in old(m) && old(m)[id].principal == principal && old(m)[id].rootRun == rootRun != ""
      ensures forall id :: id in old(m) && (old(m)[id].principal != principal || old(m)[id].rootRun != rootRun || rootRun == "") ==>
                id in m && m[id] == old(m)[id]
      ensures forall id :: id in m ==> m[id].principal != principal || m[id].rootRun != rootRun || rootRun == ""
    {
      ids, out := [], map[];
      if rootRun == "" {
        HandedStep(View(), CloseRun(principal, rootRun, ids));
        assert m - {} == m && handed + [] == handed;
        return;
      }
      var before, todo := m, m.Keys;
      ghost var all := RunIds(before, principal, rootRun);
      assert before - (all - todo) == before && Only(before, all - todo) == map[];
      while todo != {}
        invariant Swept(before, all, todo, m, ids, out)
        invariant unchanged(`opening) && unchanged(`known) && unchanged(`handed) && unchanged(`closing)
        decreases todo
      {
        var id :| id in todo;
        if before[id].principal == principal && before[id].rootRun == rootRun {
          SweepTakes(before, all, todo, m, ids, out, id);
          ids, out := ids + [id], out[id := before[id]];
          m := m - {id};
        } else {
          SweepLeaves(before, all, todo, m, ids, out, id);
        }
        todo := todo - {id};
      }
      assert all - {} == all;
      HandedStep(old(View()), CloseRun(principal, rootRun, ids));
      handed := handed + ids;
    }

    /** One GC pass: hands out, each once, and removes exactly what is past either limit. */
    method Expired(now: int) returns (ids: seq<Id>, out: Sessions)
      requires Valid()
      modifies this
      ensures Valid() && Lists(ids, ExpiredIds(old(m), now, ttl)) && out == Only(old(m), ExpiredIds(old(m), now, ttl))
      ensures View() == Apply(old(View()), Collect(now, ids))
      ensures forall id :: id in m ==> now - m[id].lastUsed <= ttl.idle && now - m[id].createdAt <= ttl.max
      ensures forall id :: id in ids ==> id in old(m) && (now - old(m)[id].lastUsed > ttl.idle || now - old(m)[id].createdAt > ttl.max)
      ensures forall id :: id in old(m) && now - old(m)[id].lastUsed <= ttl.idle && now - old(m)[id].createdAt <= ttl.max ==>
                id in m && m[id] == old(m)[id]
    {
      ids, out := [], map[];
      var before, todo := m, m.Keys;
      ghost var all := ExpiredIds(before, now, ttl);
      assert before - (all - todo) == before && Only(before, all - todo) == map[];
      while todo != {}
        invariant Swept(before, all, todo, m, ids, out)
        invariant unchanged(`opening) && unchanged(`known) && unchanged(`handed) && unchanged(`closing)
        decreases todo
      {
        var id :| id in todo;
        if now - before[id].lastUsed > ttl.idle || now - before[id].createdAt > ttl.max {
          SweepTakes(before, all, todo, m, ids, out, id);
          ids, out := ids + [id], out[id := before[id]];
          m := m - {id};
        } else {
          SweepLeaves(before, all, todo, m, ids, out, id);
        }
        todo := todo - {id};
      }
      assert all - {} == all;
      HandedStep(old(View()), Collect(now, ids));
      handed := handed + ids;
    }
  }

  // ---------------------------------------------------------------- capacity

  function Capacity(maxSessions: int, k: nat): nat {
    if maxSessions <= 0 then 0 else maxSessions - 1 + k
  }

  lemma KeysSize(m: Sessions, n: Sessions)
    requires m.Keys <= n.Keys
    ensures |m| <= |n|
  {
    SubsetSize(m.Keys, n.Keys);
    assert |m| == |m.Keys| && |n| == |n.Keys|;
  }

  lemma CapacityStep(s: State, st: Step, k: nat)
    requires Enabled(s, st) && |s.m| + s.opening <= Capacity(s.maxSessions, k) && Apply(s, st).opening <= k
    ensures |Apply(s, st).m| + Apply(s, st).opening <= Capacity(s.maxSessions, k)
    ensures Apply(s, st).maxSessions == s.maxSessions
  {
    if st.FinishOpen? {
      assert Apply(s, st).m.Keys == s.m.Keys + {st.id};
    } else {
      KeysSize(Apply(s, st).m, s.m);
    }
  }

  /** With at most k opens ever between check and Add, the store never holds more than
      MaxSessions - 1 + k sessions. */
  lemma {:induction false} CapacityBound(states: seq<State>, steps: seq<Step>, k: nat, i: nat)
    requires IsTrace(states, steps) && i < |states| && forall j :: 0 <= j <= i ==> states[j].opening <= k
    ensures |states[i].m| + states[i].opening <= Capacity(states[0].maxSessions, k)
    ensures states[i].maxSessions == states[0].maxSessions
  {
    if i == 0 {
    } else {
      CapacityBound(states, steps, k, i - 1);
      assert states[i] == Apply(states[i - 1], steps[i - 1]) && states[i].opening <= k;
      CapacityStep(states[i - 1], steps[i - 1], k);
    }
  }

  function Batch(n: nat): (m: Sessions)
    ensures |m| == n && forall id: Id :: id in m <==> id < n
  {
    if n == 0 then map[] else Batch(n - 1)[n - 1 := Session("p", "r", 0, 0)]
  }

  function Crowd(ttl: Ttl, maxSessions: int, n: nat, opening: nat): State {
    State(Batch(n), ttl, maxSessions, opening, Batch(n).Keys, [], {})
  }

  lemma CrowdGrows(ttl: Ttl, maxSessions: int, n: nat, opening: nat, st: Step)
    requires if n < maxSessions && opening > 0 then st == PassCheck else n > 0 && st == FinishOpen(n - 1, "p", "r", 0)
    ensures
      var before := Crowd(ttl, maxSessions, if st.PassCheck? then n else n - 1,
                          if st.PassCheck? then opening - 1 else opening + 1);
      Enabled(before, st) && Apply(before, st) == Crowd(ttl, maxSessions, n, opening)
  {
    if st.FinishOpen? {
      assert Batch(n).Keys == Batch(n - 1).Keys + {n - 1};
    }
  }

  lemma Extend(states: seq<State>, steps: seq<Step>, st: Step, next: State)
    requires IsTrace(states, steps) && Enabled(states[|steps|], st) && next == Apply(states[|steps|], st)
    ensures IsTrace(states + [next], steps + [st])
  {
    var ss, ts := states + [next], steps + [st];
    forall i | 0 <= i < |ts| ensures Enabled(ss[i], ts[i]) && ss[i + 1] == Apply(ss[i], ts[i]) {
      if i < |steps| {
        assert ss[i] == states[i] && ss[i + 1] == states[i + 1] && ts[i] == steps[i];
      }
    }
  }

  /** A trace that gathered a crowd, with at most k opens ever in flight. */
  ghost predicate Gathers(states: seq<State>, steps: seq<Step>, ttl: Ttl, maxSessions: nat, k: nat, n: nat, opening: nat) {
    && IsTrace(states, steps) && states[0].maxSessions == maxSessions
    && states[|steps|] == Crowd(ttl, maxSessions, n, opening)
    && forall j :: 0 <= j < |states| ==> states[j].opening <= k
  }

  lemma OneMore(states: seq<State>, steps: seq<Step>, ttl: Ttl, maxSessions: nat, k: nat, n: nat, opening: nat, st: Step)
    requires if n < maxSessions && opening > 0 then st == PassCheck else n > 0 && st == FinishOpen(n - 1, "p", "r", 0)
    requires Gathers(states, steps, ttl, maxSessions, k, if st.PassCheck? then n else n - 1, if st.PassCheck? then opening - 1 else opening + 1)
    requires opening <= k
    ensures Gathers(states + [Crowd(ttl, maxSessions, n, opening)], steps + [st], ttl, maxSessions, k, n, opening)
  {
    CrowdGrows(ttl, maxSessions, n, opening, st);
    Extend(states, steps, st, Crowd(ttl, maxSessions, n, opening));
  }

  /** Every crowd within the bound is reachable with at most k opens in flight. */
  lemma {:induction false} Gather(ttl: Ttl, maxSessions: nat, k: nat, n: nat, opening: nat)
    returns (states: seq<State>, steps: seq<Step>)
    requires 1 <= maxSessions && 1 <= k && opening <= k && n + opening <= maxSessions - 1 + k
    ensures Gathers(states, steps, ttl, maxSessions, k, n, opening)
    decreases 2 * n + opening
  {
    var now := Crowd(ttl, maxSessions, n, opening);
    if n == 0 && opening == 0 {
      states, steps := [now], [];
    } else {
      var st := if n < maxSessions && opening > 0 then PassCheck else FinishOpen(n - 1, "p", "r", 0);
      if st.PassCheck? {
        states, steps := Gather(ttl, maxSessions, k, n, opening - 1);
      } else {
        states, steps := Gather(ttl, maxSessions, k, n - 1, opening + 1);
      }
      OneMore(states, steps, ttl, maxSessions, k, n, opening, st);
      states, steps := states + [now], steps + [st];
    }
  }

  /** The bound is met: some run with at most k opens in flight holds exactly that many sessions. */
  lemma CapacityReached(ttl: Ttl, maxSessions: nat, k: nat) returns (states: seq<State>, steps: seq<Step>)
    requires 1 <= maxSessions && 1 <= k
    ensures IsTrace(states, steps) && states[0].maxSessions == maxSessions
    ensures forall j :: 0 <= j < |states| ==> states[j].opening <= k
    ensures |states[|steps|].m| == Capacity(maxSessions, k)
  {
    states, steps := Gather(ttl, maxSessions, k, maxSessions - 1 + k, 0);
  }

  // ---------------------------------------------------------------- teardown

  /** Expired and RemoveByRun between them hand out each session at most once, and never one that
      is still in the store. */
  lemma {:induction false} HandedOutOnce(states: seq<State>, steps: seq<Step>, i: nat)
    requires IsTrace(states, steps) && i < |states|
    ensures HandedOk(states[i])
  {
    if i == 0 {
    } else {
      HandedOutOnce(states, steps, i - 1);
      HandedStep(states[i - 1], steps[i - 1]);
    }
  }

  /** While a session is in the store, its birth is the time its own open read. */
  lemma {:induction false} BirthIsFixed(states: seq<State>, steps: seq<Step>, i: nat, j: nat)
    requires IsTrace(states, steps) && i < j < |states| && steps[i].FinishOpen?
    ensures steps[i].id in states[j].known && states[j].ttl == states[i].ttl
    ensures steps[i].id in states[j].m ==> states[j].m[steps[i].id].createdAt == steps[i].at
  {
    if j == i + 1 {
    } else {
      BirthIsFixed(states, steps, i, j - 1);
      assert Enabled(states[j - 1], steps[j - 1]);
    }
  }

  /** No run of touches carries a session past its absolute limit: one that a GC pass leaves was
      opened no longer ago than that, however often it was used, and was used within the idle limit. */
  lemma TouchesCannotOutlive(states: seq<State>, steps: seq<Step>, i: nat, j: nat)
    requires IsTrace(states, steps) && i < j < |steps| && steps[i].FinishOpen? && steps[j].Collect?
    requires steps[i].id in states[j + 1].m
    ensures steps[j].at - steps[i].at <= states[i].ttl.max
    ensures steps[j].at - states[j + 1].m[steps[i].id].lastUsed <= states[i].ttl.idle
  {
    BirthIsFixed(states, steps, i, j);
    assert Enabled(states[j], steps[j]);
    assert steps[i].id !in ExpiredIds(states[j].m, steps[j].at, states[j].ttl);
  }

  // ---------------------------------------------------------------- how a session leaves

  /** The owner of this id asked to close it, and its record was there. */
  ghost predicate AskedToClose(states: seq<State>, steps: seq<Step>, k: nat, id: Id)
    requires IsTrace(states, steps) && k < |steps|
  {
    && steps[k].BeginClose? && steps[k].id == id
    && id in states[k].m && states[k].m[id].principal == steps[k].principal
  }

  lemma ClosingStep(s: State, st: Step, id: Id)
    requires Enabled(s, st) && id in Apply(s, st).closing && id !in s.closing
    ensures st.BeginClose? && st.id == id && id in s.m && s.m[id].principal == st.principal
  {
  }

  lemma {:induction false} ClosingWasAsked(states: seq<State>, steps: seq<Step>, i: nat, id: Id)
    requires IsTrace(states, steps) && i < |states| && id in states[i].closing
    ensures exists k :: 0 <= k < i && AskedToClose(states, steps, k, id)
  {
    if i == 0 {
    } else if id in states[i - 1].closing {
      ClosingWasAsked(states, steps, i - 1, id);
    } else {
      ClosingStep(states[i - 1], steps[i - 1], id);
      assert AskedToClose(states, steps, i - 1, id);
    }
  }

  lemma LeavesBy(s: State, st: Step, id: Id)
    requires HandedOk(s) && Enabled(s, st) && id in s.m
    ensures id !in Apply(s, st).m <==>
              || (st.Close? && st.id == id)
              || (st.CloseRun? && st.principal == s.m[id].principal && st.rootRun == s.m[id].rootRun != "")
              || (st.Collect? && (st.at - s.m[id].lastUsed > s.ttl.idle || st.at - s.m[id].createdAt > s.ttl.max))
    ensures id in Apply(s, st).m ==>
              && Apply(s, st).m[id].principal == s.m[id].principal && Apply(s, st).m[id].rootRun == s.m[id].rootRun
              && Apply(s, st).m[id].createdAt == s.m[id].createdAt
  {
  }

  /** A session leaves the store only by a close its own principal asked for, by a close_run of its own
      principal and run, or by a pass that found it past a limit; and by each of the last two it does. */
  lemma LeavesOnlyBy(states: seq<State>, steps: seq<Step>, i: nat, id: Id)
    requires IsTrace(states, steps) && i < |steps| && id in states[i].m
    ensures var s, st := states[i], steps[i];
            id !in states[i + 1].m <==>
              || (st.Close? && st.id == id && exists k :: 0 <= k < i && AskedToClose(states, steps, k, id))
              || (st.CloseRun? && st.principal == s.m[id].principal && st.rootRun == s.m[id].rootRun != "")
              || (st.Collect? && (st.at - s.m[id].lastUsed > s.ttl.idle || st.at - s.m[id].createdAt > s.ttl.max))
  {
    HandedOutOnce(states, steps, i);
    LeavesBy(states[i], steps[i], id);
    if steps[i].Close? && steps[i].id == id { ClosingWasAsked(states, steps, i, id); }
  }

  /** The time of the last use by its owner after its open, or else of the open. */
  function LastUse(born: int, owner: string, steps: seq<Step>, id: Id): int {
    if steps == [] then born
    else
      var last := steps[|steps| - 1];
      if (last.Use? || last.BeginClose?) && last.id == id && last.principal == owner then last.at
      else LastUse(born, owner, steps[..|steps| - 1], id)
  }

  lemma LastUseSnoc(born: int, owner: string, steps: seq<Step>, st: Step, id: Id)
    ensures LastUse(born, owner, steps + [st], id) ==
            if (st.Use? || st.BeginClose?) && st.id == id && st.principal == owner then st.at else LastUse(born, owner, steps, id)
  {
    assert (steps + [st])[..|steps|] == steps;
  }

  lemma UseStep(s: State, st: Step, id: Id)
    requires Enabled(s, st) && id in s.m && id in Apply(s, st).m && !(st.FinishOpen? && st.id == id)
    ensures Apply(s, st).m[id].lastUsed ==
            if (st.Use? || st.BeginClose?) && st.id == id && st.principal == s.m[id].principal then st.at else s.m[id].lastUsed
    ensures Apply(s, st).m[id].principal == s.m[id].principal
  {
  }

  lemma {:induction false} StillThereBefore(states: seq<State>, steps: seq<Step>, i: nat, j: nat)
    requires IsTrace(states, steps) && i < j < |steps| && steps[i].FinishOpen? && steps[i].id in states[j + 1].m
    ensures steps[i].id in states[j].m && !(steps[j].FinishOpen? && steps[j].id == steps[i].id)
  {
    BirthIsFixed(states, steps, i, j);
    assert Enabled(states[j], steps[j]);
  }

  /** While a session is there, it is its opener's, and its idle clock shows its owner's last use: a
      use under another principal does not reset it. */
  lemma {:induction false} IdleClockIsTheOwners(states: seq<State>, steps: seq<Step>, i: nat, j: nat)
    requires IsTrace(states, steps) && i < j < |states| && steps[i].FinishOpen? && steps[i].id in states[j].m
    ensures var sess := states[j].m[steps[i].id];
            && sess.principal == steps[i].principal
            && sess.lastUsed == LastUse(steps[i].at, steps[i].principal, steps[i + 1..j], steps[i].id)
  {
    var id := steps[i].id;
    if j == i + 1 {
      assert steps[i + 1..j] == [];
    } else {
      StillThereBefore(states, steps, i, j - 1);
      IdleClockIsTheOwners(states, steps, i, j - 1);
      UseStep(states[j - 1], steps[j - 1], id);
      assert steps[i + 1..j] == steps[i + 1..j - 1] + [steps[j - 1]];
      LastUseSnoc(steps[i].at, steps[i].principal, steps[i + 1..j - 1], steps[j - 1], id);
    }
  }
}
