/** The landing's sliding-window limiter (cloud-deployment/landing/server.js). `Grants` is the
    reference: the full history of slots ever taken, nothing pruned. The class keeps what the
    source keeps, per-key lists pruned on use, and is proved to answer as the reference does. */
module Grants {
  import opened Wrappers

  /** One slot taken; its position in the history is its identity. */
  datatype Grant = Grant(key: string, t: int, released: bool)

  datatype Limit = Limit(max: nat, window: int)

  ghost function LiveAt(h: seq<Grant>, key: string, now: int, window: int): set<nat> {
    set i: nat | i < |h| && h[i].key == key && !h[i].released && now - h[i].t < window
  }

  ghost predicate Full(h: seq<Grant>, key: string, now: int, lim: Limit) {
    |LiveAt(h, key, now, lim.window)| >= lim.max
  }

  /** The unreleased grants of a key since one window ago. */
  ghost function Recent(h: seq<Grant>, key: string, now: int, window: int): set<nat> {
    set i: nat | i < |h| && h[i].key == key && !h[i].released && now - window < h[i].t
  }

  lemma RecentIsLive(h: seq<Grant>, key: string, now: int, window: int)
    ensures Recent(h, key, now, window) == LiveAt(h, key, now, window)
  {
  }

  function Granted(h: seq<Grant>, key: string, now: int): seq<Grant> {
    h + [Grant(key, now, false)]
  }

  function Released(h: seq<Grant>, id: nat): seq<Grant>
    requires id < |h|
  {
    h[id := h[id].(released := true)]
  }

  ghost predicate Ordered(h: seq<Grant>) {
    forall i, j :: 0 <= i < j < |h| ==> h[i].t <= h[j].t
  }

  /** The unreleased grants of the same key that a grant still saw in its window. */
  ghost function Seen(h: seq<Grant>, i: nat, window: int): set<nat>
    requires i < |h|
  {
    set j: nat | j <= i && h[j].key == h[i].key && !h[j].released && h[i].t - h[j].t < window
  }

  ghost predicate Bounded(h: seq<Grant>, lim: Limit) {
    forall i {:trigger h[i]} :: 0 <= i < |h| ==> |Seen(h, i, lim.window)| <= lim.max
  }

  lemma NewGrantBounded(h: seq<Grant>, key: string, now: int, lim: Limit)
    requires !Full(h, key, now, lim)
    ensures |Seen(Granted(h, key, now), |h|, lim.window)| <= lim.max
  {
    var live := LiveAt(h, key, now, lim.window);
    var seen := Seen(Granted(h, key, now), |h|, lim.window);
    assert seen - {|h|} <= live;
    SubsetSize(seen - {|h|}, live);
    SubsetSize(seen, (seen - {|h|}) + {|h|});
  }

  lemma GrantBounded(h: seq<Grant>, key: string, now: int, lim: Limit)
    requires Bounded(h, lim) && !Full(h, key, now, lim)
    ensures Bounded(Granted(h, key, now), lim)
  {
    var h' := Granted(h, key, now);
    NewGrantBounded(h, key, now, lim);
    forall i | 0 <= i < |h|
      ensures |Seen(h', i, lim.window)| <= lim.max
    {
      assert h'[i] == h[i];
      assert Seen(h', i, lim.window) == Seen(h, i, lim.window);
    }
  }

  lemma ReleaseBounded(h: seq<Grant>, id: nat, lim: Limit)
    requires Bounded(h, lim) && id < |h|
    ensures Bounded(Released(h, id), lim)
  {
    var h' := Released(h, id);
    forall i | 0 <= i < |h'|
      ensures |Seen(h', i, lim.window)| <= lim.max
    {
      assert Seen(h', i, lim.window) <= Seen(h, i, lim.window);
      SubsetSize(Seen(h', i, lim.window), Seen(h, i, lim.window));
    }
  }

  ghost function InWindow(h: seq<Grant>, key: string, from: int, window: int): set<nat> {
    set i: nat | i < |h| && h[i].key == key && !h[i].released && from <= h[i].t < from + window
  }

  lemma HasLast(s: set<nat>) returns (m: nat)
    requires s != {}
    ensures m in s && forall x :: x in s ==> x <= m
  {
    m :| m in s;
    var rest := s - {m};
    while rest != {}
      invariant m in s && rest <= s
      invariant forall x :: x in s && x !in rest ==> x <= m
      decreases rest
    {
      var x :| x in rest;
      rest := rest - {x};
      if x > m { m := x; }
    }
  }

  /** Whatever stretch of one window's length is looked at, and whatever was released since, at
      most `max` of the slots taken in it are still held. */
  lemma AtMostMaxPerWindow(h: seq<Grant>, lim: Limit, key: string, from: int)
    requires Ordered(h) && Bounded(h, lim)
    ensures |InWindow(h, key, from, lim.window)| <= lim.max
  {
    var s := InWindow(h, key, from, lim.window);
    if s != {} {
      var m := HasLast(s);
      assert s <= Seen(h, m, lim.window);
      SubsetSize(s, Seen(h, m, lim.window));
    }
  }

  /** A key that is not full stays so as time passes and other slots come back, as long as nobody
      takes a slot under it. */
  lemma NotFullLater(h: seq<Grant>, h': seq<Grant>, key: string, now: int, now': int, lim: Limit)
    requires now <= now' && |h| <= |h'|
    requires forall i {:trigger h'[i]} :: 0 <= i < |h'| && h'[i].key == key && !h'[i].released ==> i < |h| && h[i].key == key && h[i].t == h'[i].t && !h[i].released
    requires !Full(h, key, now, lim)
    ensures !Full(h', key, now', lim)
  {
    var later, before := LiveAt(h', key, now', lim.window), LiveAt(h, key, now, lim.window);
    assert later <= before;
    SubsetSize(later, before);
  }
}

module SlidingWindow {
  import opened Wrappers
  import opened Grants

  /** A stored hit: `id` is the object's identity. */
  datatype Hit = Hit(id: nat, t: int)

  function Live(l: seq<Hit>, now: int, window: int): (r: seq<Hit>)
    ensures forall h :: h in r <==> h in l && now - h.t < window
  {
    if l == [] then []
    else
      var rest := Live(l[..|l| - 1], now, window);
      var last := l[|l| - 1];
      assert l == l[..|l| - 1] + [last];
      if now - last.t < window then rest + [last] else rest
  }

  ghost predicate Rising(l: seq<Hit>) {
    forall a, b :: 0 <= a < b < |l| ==> l[a].id < l[b].id
  }

  ghost function Ids(l: seq<Hit>): set<nat> {
    set h | h in l :: h.id
  }

  lemma {:induction false} LiveRising(l: seq<Hit>, now: int, window: int)
    requires Rising(l)
    ensures Rising(Live(l, now, window))
  {
    if l == [] {
    } else {
      var front := l[..|l| - 1];
      LiveRising(front, now, window);
      forall h | h in Live(front, now, window)
        ensures h.id < l[|l| - 1].id
      {
        assert h in front;
      }
    }
  }

  lemma {:induction false} RisingCount(l: seq<Hit>)
    requires Rising(l)
    ensures |Ids(l)| == |l|
  {
    if l == [] {
    } else {
      var front, last := l[..|l| - 1], l[|l| - 1];
      RisingCount(front);
      assert l == front + [last];
      assert last.id !in Ids(front);
      assert Ids(l) == Ids(front) + {last.id};
    }
  }

  /** Everything in a key's list is an unreleased grant of that key, oldest first. */
  ghost predicate ListSound(l: seq<Hit>, h: seq<Grant>, key: string) {
    && Rising(l)
    && forall x {:trigger x in l} :: x in l ==> x.id < |h| && h[x.id] == Grant(key, x.t, false)
  }

  /** Nothing of the key that can still count was pruned. */
  ghost predicate ListComplete(l: seq<Hit>, h: seq<Grant>, key: string, now: int, window: int) {
    forall i {:trigger h[i]} :: 0 <= i < |h| && h[i].key == key && !h[i].released && now - h[i].t < window ==> Hit(i, h[i].t) in l
  }

  ghost predicate ListAgrees(l: seq<Hit>, h: seq<Grant>, key: string, now: int, window: int) {
    ListSound(l, h, key) && ListComplete(l, h, key, now, window)
  }

  lemma PruneAgrees(l: seq<Hit>, h: seq<Grant>, key: string, clock: int, now: int, window: int)
    requires ListAgrees(l, h, key, clock, window) && clock <= now
    ensures ListAgrees(Live(l, now, window), h, key, now, window)
    ensures ListAgrees(l, h, key, now, window)
  {
    LiveRising(l, now, window);
  }

  lemma GrantElsewhereAgrees(l: seq<Hit>, h: seq<Grant>, key: string, now: int, window: int, taken: string)
    requires ListAgrees(l, h, key, now, window) && key != taken
    ensures ListAgrees(l, Granted(h, taken, now), key, now, window)
  {
    var h' := Granted(h, taken, now);
    assert forall i :: 0 <= i < |h| ==> h'[i] == h[i];
  }

  lemma GrantAgrees(l: seq<Hit>, h: seq<Grant>, key: string, now: int, window: int)
    requires ListAgrees(l, h, key, now, window)
    ensures ListAgrees(l + [Hit(|h|, now)], Granted(h, key, now), key, now, window)
  {
    var l', h' := l + [Hit(|h|, now)], Granted(h, key, now);
    forall a | 0 <= a < |l| ensures l[a].id < |h| { assert l[a] in l; }
    assert Rising(l');
    forall x | x in l' ensures x.id < |h'| && h'[x.id] == Grant(key, x.t, false) {
      assert x in l || x == Hit(|h|, now);
    }
    forall i | 0 <= i < |h'| && h'[i].key == key && !h'[i].released && now - h'[i].t < window
      ensures Hit(i, h'[i].t) in l'
    {
      if i == |h| { assert l'[|l|] == Hit(i, now); } else { assert Hit(i, h[i].t) in l; }
    }
  }

  lemma ReleaseAgrees(l: seq<Hit>, l': seq<Hit>, h: seq<Grant>, key: string, now: int, window: int, id: nat)
    requires ListAgrees(l, h, key, now, window) && id < |h| && Rising(l')
    requires forall x {:trigger x in l'} {:trigger x in l} :: x in l' <==> x in l && x.id != id
    ensures ListAgrees(l', Released(h, id), key, now, window)
  {
    var h' := Released(h, id);
    assert forall i :: 0 <= i < |h| && i != id ==> h'[i] == h[i];
    forall i | 0 <= i < |h'| && h'[i].key == key && !h'[i].released && now - h'[i].t < window
      ensures Hit(i, h'[i].t) in l'
    {
      assert i != id && Hit(i, h[i].t) in l;
    }
  }

  /** The pruned list, filtered to now, holds exactly the grants the full history has live. */
  lemma LiveAgrees(l: seq<Hit>, h: seq<Grant>, key: string, now: int, window: int)
    requires ListAgrees(l, h, key, now, window)
    ensures Ids(Live(l, now, window)) == LiveAt(h, key, now, window)
    ensures |Live(l, now, window)| == |LiveAt(h, key, now, window)|
  {
    var live := Live(l, now, window);
    LiveRising(l, now, window);
    RisingCount(live);
    forall i | i in LiveAt(h, key, now, window)
      ensures i in Ids(live)
    {
      assert Hit(i, h[i].t) in live;
    }
  }

  /** Drop the hit with this identity, wherever it stands (indexOf and splice). */
  method Splice(cur: seq<Hit>, id: nat) returns (l: seq<Hit>)
    requires Rising(cur)
    ensures Rising(l)
    ensures forall x {:trigger x in l} {:trigger x in cur} :: x in l <==> x in cur && x.id != id
    ensures (forall x :: x in cur ==> x.id != id) ==> l == cur
  {
    var i := 0;
    while i < |cur| && cur[i].id != id
      invariant 0 <= i <= |cur|
      invariant forall j :: 0 <= j < i ==> cur[j].id != id
    {
      i := i + 1;
    }
    if i == |cur| { return cur; }
    l := cur[..i] + cur[i + 1..];
    forall x | x in cur && x.id != id
      ensures x in l
    {
      var j :| 0 <= j < |cur| && cur[j] == x;
      assert x == if j < i then l[j] else l[j - 1];
    }
  }

  function Stored(hits: map<string, seq<Hit>>, key: string): seq<Hit> {
    if key in hits then hits[key] else []
  }

  /** Prune every key's list, and forget a key with none left. */
  method Swept(hits: map<string, seq<Hit>>, now: int, window: int) returns (r: map<string, seq<Hit>>)
    ensures forall k {:trigger Stored(r, k)} :: Stored(r, k) == Live(Stored(hits, k), now, window)
    ensures forall k :: k in r ==> r[k] != []
  {
    r := hits;
    var todo := hits.Keys;
    while todo != {}
      invariant todo <= hits.Keys && todo <= r.Keys <= hits.Keys
      invariant forall k :: k in todo ==> r[k] == hits[k]
      invariant forall k :: k in r && k !in todo ==> r[k] != [] && r[k] == Live(hits[k], now, window)
      invariant forall k :: k in hits && k !in r ==> Live(hits[k], now, window) == []
      decreases todo
    {
      var k :| k in todo;
      todo := todo - {k};
      var l := Live(r[k], now, window);
      if |l| > 0 { r := r[k := l]; } else { r := r - {k}; }
    }
  }

  class Limiter {
    const lim: Limit
    var hits: map<string, seq<Hit>>
    var fresh': nat  // the identity the next hit object gets
    ghost var history: seq<Grant>
    ghost var clock: int

    ghost predicate Valid()
      reads this
    {
      && Ordered(history) && Bounded(history, lim) && fresh' == |history|
      && (forall i {:trigger history[i]} :: 0 <= i < |history| ==> history[i].t <= clock)
      && (forall key {:trigger Stored(hits, key)} :: ListAgrees(Stored(hits, key), history, key, clock, lim.window))
    }

    constructor (max: nat, window: int, now: int)
      ensures Valid() && history == [] && clock == now && lim == Limit(max, window)
    {
      lim := Limit(max, window);
      hits := map[];
      fresh' := 0;
      history := [];
      clock := now;
    }

    method IsFull(key: string, now: int) returns (full: bool)
      requires Valid() && clock <= now
      ensures full == Full(history, key, now, lim)
      ensures full <==> |Recent(history, key, now, lim.window)| >= lim.max
    {
      PruneAgrees(Stored(hits, key), history, key, clock, now, lim.window);
      LiveAgrees(Stored(hits, key), history, key, now, lim.window);
      full := |Live(Stored(hits, key), now, lim.window)| >= lim.max;
      RecentIsLive(history, key, now, lim.window);
    }

    /** take: checks and reserves in one step. The answer is the slot's identity, or None. */
    method Take(key: string, now: int) returns (slot: Option<nat>)
      requires Valid() && clock <= now
      modifies this
      ensures Valid() && clock == now
      ensures slot.None? <==> Full(old(history), key, now, lim)
      ensures slot.None? <==> |Recent(old(history), key, now, lim.window)| >= lim.max
      ensures slot.Some? ==> history == old(history) + [Grant(key, now, false)]
      ensures slot.None? ==> history == old(history) && hits == old(hits)
      ensures slot.Some? ==> history == Granted(old(history), key, now) && slot.value == |old(history)|
    {
      var l := Live(Stored(hits, key), now, lim.window);
      RecentIsLive(history, key, now, lim.window);
      forall k ensures ListAgrees(Stored(hits, k), history, k, now, lim.window) {
        PruneAgrees(Stored(hits, k), history, k, clock, now, lim.window);
      }
      LiveAgrees(Stored(hits, key), history, key, now, lim.window);
      PruneAgrees(Stored(hits, key), history, key, clock, now, lim.window);
      clock := now;
      if |l| >= lim.max {
        return None;
      }
      slot := Some(fresh');
      var hits' := hits[key := l + [Hit(fresh', now)]];
      forall k ensures ListAgrees(Stored(hits', k), Granted(history, key, now), k, now, lim.window) {
        if k == key { GrantAgrees(l, history, k, now, lim.window); }
        else { GrantElsewhereAgrees(Stored(hits, k), history, k, now, lim.window, key); }
      }
      GrantBounded(history, key, now, lim);
      fresh' := fresh' + 1;
      hits := hits';
      history := Granted(history, key, now);
    }

    /** The function `take` returned: removes its own slot if it is still stored, and only that. */
    method Release(key: string, id: nat)
      requires Valid() && id < |history| && history[id].key == key
      modifies this
      ensures Valid() && clock == old(clock)
      ensures history == Released(old(history), id)
      ensures forall k :: k != key ==> Stored(hits, k) == Stored(old(hits), k)
      ensures old(history[id].released) ==> hits == old(hits) && history == old(history)
    {
      ReleaseBounded(history, id, lim);
      ghost var h := history;
      ghost var before := hits;
      assert ListAgrees(Stored(hits, key), h, key, clock, lim.window);
      if key in hits {
        var l := Splice(hits[key], id);
        assert h[id].released ==> forall x :: x in hits[key] ==> x.id != id;
        hits := hits[key := l];
      }
      forall k ensures ListAgrees(Stored(hits, k), Released(h, id), k, clock, lim.window) {
        ReleaseAgrees(Stored(before, k), Stored(hits, k), h, k, clock, lim.window, id);
      }
      history := Released(history, id);
    }

    /** The hourly sweep. */
    method Sweep(now: int)
      requires Valid() && clock <= now
      modifies this
      ensures Valid() && clock == now && history == old(history)
      ensures forall k {:trigger Stored(hits, k)} :: Stored(hits, k) == Live(Stored(old(hits), k), now, lim.window)
      ensures forall k :: k in hits ==> hits[k] != []
    {
      forall k ensures ListAgrees(Live(Stored(hits, k), now, lim.window), history, k, now, lim.window) {
        PruneAgrees(Stored(hits, k), history, k, clock, now, lim.window);
      }
      clock := now;
      hits := Swept(hits, now, lim.window);
    }
  }
}
