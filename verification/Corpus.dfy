/** The synthesis corpus generator (bench/synthesis/gen_corpus.py): facts of a functional relation,
    questions that are paths through it, and sessions the facts are spread over so that no question
    can be answered from one. Random draws and shuffles are arbitrary inputs. */
module Corpus {
  import opened Wrappers

  /** A fact's id is its position in the list of facts. */
  datatype Fact = Fact(s: string, r: string, o: string, text: string)

  type Key = (string, string)

  function KeyOf(f: Fact): Key {
    (f.s, f.r)
  }

  /** One object per subject and relation. */
  ghost predicate Functional(facts: seq<Fact>) {
    forall i, j :: 0 <= i < j < |facts| ==> KeyOf(facts[i]) != KeyOf(facts[j])
  }

  ghost predicate RelMatches(rel: map<Key, string>, facts: seq<Fact>) {
    && (forall i {:trigger facts[i]} :: 0 <= i < |facts| ==> KeyOf(facts[i]) in rel && rel[KeyOf(facts[i])] == facts[i].o)
    && (forall k {:trigger k in rel} :: k in rel ==> exists i :: 0 <= i < |facts| && KeyOf(facts[i]) == k)
  }

  // ---------------------------------------------------------------- the graph

  class World {
    var rel: map<Key, string>
    var facts: seq<Fact>

    ghost predicate Valid()
      reads this
    {
      Functional(facts) && RelMatches(rel, facts)
    }

    constructor ()
      ensures Valid() && facts == []
    {
      rel, facts := map[], [];
    }

    /** edge: the first object given for a subject and relation stands. */
    method AddEdge(s: string, r: string, o: string, text: string)
      requires Valid()
      modifies this
      ensures Valid()
      ensures (s, r) in old(rel) ==> rel == old(rel) && facts == old(facts)
      ensures (s, r) !in old(rel) ==> rel == old(rel)[(s, r) := o] && facts == old(facts) + [Fact(s, r, o, text)]
    {
      if (s, r) in rel { return; }
      rel := rel[(s, r) := o];
      facts := facts + [Fact(s, r, o, text)];
      forall k | k in rel
        ensures exists i :: 0 <= i < |facts| && KeyOf(facts[i]) == k
      {
        if k == (s, r) { assert KeyOf(facts[|facts| - 1]) == k; }
        else {
          var i :| 0 <= i < |old(facts)| && KeyOf(old(facts)[i]) == k;
          assert facts[i] == old(facts)[i];
        }
      }
    }
  }

  /** FACT_BY_EDGE. */
  method IndexFacts(facts: seq<Fact>) returns (byEdge: map<Key, nat>)
    requires Functional(facts)
    ensures IndexesFacts(byEdge, facts)
  {
    byEdge := map[];
    for i := 0 to |facts|
      invariant IndexesFacts(byEdge, facts[..i])
    {
      byEdge := byEdge[KeyOf(facts[i]) := i];
      assert forall j :: 0 <= j < i ==> facts[..i + 1][j] == facts[..i][j];
    }
    assert facts[..|facts|] == facts;
  }

  ghost predicate IndexesFacts(byEdge: map<Key, nat>, facts: seq<Fact>) {
    && (forall k {:trigger k in byEdge} :: k in byEdge ==> byEdge[k] < |facts| && KeyOf(facts[byEdge[k]]) == k)
    && (forall i {:trigger facts[i]} :: 0 <= i < |facts| ==> KeyOf(facts[i]) in byEdge && byEdge[KeyOf(facts[i])] == i)
  }

  // ---------------------------------------------------------------- paths

  ghost predicate DistinctIds(ids: seq<nat>) {
    forall i, j :: 0 <= i < j < |ids| ==> ids[i] != ids[j]
  }

  /** Where a path stands once these facts are behind it. */
  function EndOf(facts: seq<Fact>, sup: seq<nat>, start: string): string {
    if sup == [] || sup[|sup| - 1] >= |facts| then start else facts[sup[|sup| - 1]].o
  }

  /** The k-th fact leaves, by the k-th relation, the place where the ones before it led. */
  ghost predicate Link(facts: seq<Fact>, sup: seq<nat>, start: string, rels: seq<string>, k: nat)
    requires k < |sup| == |rels|
  {
    sup[k] < |facts| && KeyOf(facts[sup[k]]) == (EndOf(facts, sup[..k], start), rels[k])
  }

  /** `sup` are the facts that lead from start along the relations to gold. */
  ghost predicate Chain(facts: seq<Fact>, sup: seq<nat>, start: string, rels: seq<string>, gold: string) {
    && |sup| == |rels|
    && (forall k :: 0 <= k < |sup| ==> Link(facts, sup, start, rels, k))
    && gold == EndOf(facts, sup, start)
  }

  /** The facts found by following the relations one after another, None when one is missing. */
  function Follow(facts: seq<Fact>, byEdge: map<Key, nat>, start: string, rels: seq<string>): Option<seq<nat>> {
    if rels == [] then Some([])
    else
      var before := Follow(facts, byEdge, start, rels[..|rels| - 1]);
      if before.None? then None
      else
        var key := (EndOf(facts, before.value, start), rels[|rels| - 1]);
        if key in byEdge then Some(before.value + [byEdge[key]]) else None
  }

  lemma ChainIds(facts: seq<Fact>, sup: seq<nat>, start: string, rels: seq<string>, gold: string)
    requires Chain(facts, sup, start, rels, gold)
    ensures forall k :: 0 <= k < |sup| ==> sup[k] < |facts|
  {
    forall k | 0 <= k < |sup| ensures sup[k] < |facts| { assert Link(facts, sup, start, rels, k); }
  }

  lemma ChainFront(facts: seq<Fact>, sup: seq<nat>, start: string, rels: seq<string>, gold: string)
    requires Chain(facts, sup, start, rels, gold) && rels != []
    ensures var n := |rels| - 1; Chain(facts, sup[..n], start, rels[..n], EndOf(facts, sup[..n], start))
  {
    var n := |rels| - 1;
    forall k | 0 <= k < n ensures Link(facts, sup[..n], start, rels[..n], k) {
      assert Link(facts, sup, start, rels, k) && sup[..n][..k] == sup[..k];
    }
  }

  lemma ChainSnoc(facts: seq<Fact>, sup: seq<nat>, start: string, rels: seq<string>, f: nat, r: string)
    requires Chain(facts, sup, start, rels, EndOf(facts, sup, start)) && f < |facts| && KeyOf(facts[f]) == (EndOf(facts, sup, start), r)
    ensures Chain(facts, sup + [f], start, rels + [r], facts[f].o)
  {
    var sup' := sup + [f];
    forall k | 0 <= k < |sup'| ensures Link(facts, sup', start, rels + [r], k) {
      assert sup'[..k] == sup[..k];
      if k < |sup| { assert Link(facts, sup, start, rels, k); } else { assert sup[..k] == sup; }
    }
  }

  lemma FollowSnoc(facts: seq<Fact>, byEdge: map<Key, nat>, start: string, rels: seq<string>)
    requires IndexesFacts(byEdge, facts) && rels != []
    requires var before := Follow(facts, byEdge, start, rels[..|rels| - 1]);
             before.Some? ==> Chain(facts, before.value, start, rels[..|rels| - 1], EndOf(facts, before.value, start))
    ensures var got := Follow(facts, byEdge, start, rels);
            got.Some? ==> Chain(facts, got.value, start, rels, EndOf(facts, got.value, start))
  {
    var n := |rels| - 1;
    var before, got := Follow(facts, byEdge, start, rels[..n]), Follow(facts, byEdge, start, rels);
    if got.Some? {
      var key := (EndOf(facts, before.value, start), rels[n]);
      ChainSnoc(facts, before.value, start, rels[..n], byEdge[key], rels[n]);
      assert rels[..n] + [rels[n]] == rels;
    }
  }

  lemma FollowLast(facts: seq<Fact>, byEdge: map<Key, nat>, start: string, rels: seq<string>, sup: seq<nat>)
    requires IndexesFacts(byEdge, facts) && |rels| == |sup| > 0
    requires var n := |rels| - 1; Follow(facts, byEdge, start, rels[..n]) == Some(sup[..n]) && Link(facts, sup, start, rels, n)
    ensures Follow(facts, byEdge, start, rels) == Some(sup)
  {
    var n := |rels| - 1;
    assert byEdge[KeyOf(facts[sup[n]])] == sup[n];
    assert sup == sup[..n] + [sup[n]];
  }

  /** There is at most one chain, and following finds it. */
  lemma {:induction false} ChainIsFollowed(facts: seq<Fact>, byEdge: map<Key, nat>, start: string, rels: seq<string>, sup: seq<nat>, gold: string)
    requires IndexesFacts(byEdge, facts) && Chain(facts, sup, start, rels, gold)
    ensures Follow(facts, byEdge, start, rels) == Some(sup) && gold == EndOf(facts, sup, start)
  {
    if rels == [] {
    } else {
      var n := |rels| - 1;
      ChainFront(facts, sup, start, rels, gold);
      ChainIsFollowed(facts, byEdge, start, rels[..n], sup[..n], EndOf(facts, sup[..n], start));
      assert Link(facts, sup, start, rels, n);
      FollowLast(facts, byEdge, start, rels, sup);
    }
  }

  lemma {:induction false} FollowedIsChain(facts: seq<Fact>, byEdge: map<Key, nat>, start: string, rels: seq<string>)
    requires IndexesFacts(byEdge, facts)
    ensures var got := Follow(facts, byEdge, start, rels);
            got.Some? ==> Chain(facts, got.value, start, rels, EndOf(facts, got.value, start))
  {
    if rels == [] {
    } else {
      FollowedIsChain(facts, byEdge, start, rels[..|rels| - 1]);
      FollowSnoc(facts, byEdge, start, rels);
    }
  }

  /** Following gives a chain or there is none, and no chain but that one. */
  lemma FollowFindsTheChain(facts: seq<Fact>, byEdge: map<Key, nat>, start: string, rels: seq<string>)
    requires IndexesFacts(byEdge, facts)
    ensures var got := Follow(facts, byEdge, start, rels);
            && (got.Some? ==> Chain(facts, got.value, start, rels, EndOf(facts, got.value, start)))
            && forall sup, gold :: Chain(facts, sup, start, rels, gold) ==> got == Some(sup) && gold == EndOf(facts, sup, start)
  {
    FollowedIsChain(facts, byEdge, start, rels);
    forall sup, gold | Chain(facts, sup, start, rels, gold)
      ensures Follow(facts, byEdge, start, rels) == Some(sup) && gold == EndOf(facts, sup, start)
    {
      ChainIsFollowed(facts, byEdge, start, rels, sup, gold);
    }
  }

  datatype Path = Path(supports: seq<nat>, gold: string)

  /** walk: the one chain along the relations, unless it is broken or meets a fact twice. */
  method Walk(facts: seq<Fact>, byEdge: map<Key, nat>, start: string, rels: seq<string>) returns (got: Option<Path>)
    requires IndexesFacts(byEdge, facts)
    ensures got.Some? ==> Chain(facts, got.value.supports, start, rels, got.value.gold) && DistinctIds(got.value.supports)
    ensures got.None? ==> forall sup, gold :: Chain(facts, sup, start, rels, gold) ==> !DistinctIds(sup)
  {
    FollowFindsTheChain(facts, byEdge, start, rels);
    var cur := start;
    var sup: seq<nat> := [];
    for k := 0 to |rels|
      invariant Follow(facts, byEdge, start, rels[..k]) == Some(sup) && cur == EndOf(facts, sup, start)
    {
      assert rels[..k + 1][..k] == rels[..k];
      if (cur, rels[k]) !in byEdge {
        BrokenStaysBroken(facts, byEdge, start, rels, k + 1);
        return None;
      }
      var f := byEdge[(cur, rels[k])];
      sup := sup + [f];
      cur := facts[f].o;
    }
    assert rels[..|rels|] == rels;
    if exists i, j :: 0 <= i < j < |sup| && sup[i] == sup[j] {
      return None;
    }
    got := Some(Path(sup, cur));
  }

  lemma {:induction false} BrokenStaysBroken(facts: seq<Fact>, byEdge: map<Key, nat>, start: string, rels: seq<string>, k: nat)
    requires k <= |rels| && Follow(facts, byEdge, start, rels[..k]).None?
    ensures Follow(facts, byEdge, start, rels).None?
  {
    if k < |rels| {
      assert rels[..|rels| - 1][..k] == rels[..k];
      BrokenStaysBroken(facts, byEdge, start, rels[..|rels| - 1], k);
    } else {
      assert rels[..k] == rels;
    }
  }

  /** A chain is a walk of the relation: each next key is there, and the last object is the gold. */
  lemma {:induction false} ChainFollowsRel(rel: map<Key, string>, facts: seq<Fact>, sup: seq<nat>, start: string, rels: seq<string>, gold: string)
    requires RelMatches(rel, facts) && Chain(facts, sup, start, rels, gold)
    ensures RelEnd(rel, start, rels) == Some(gold)
  {
    if rels == [] {
    } else {
      var n := |rels| - 1;
      ChainFront(facts, sup, start, rels, gold);
      ChainFollowsRel(rel, facts, sup[..n], start, rels[..n], EndOf(facts, sup[..n], start));
      assert Link(facts, sup, start, rels, n);
    }
  }

  /** validate's own walk over `rel`. */
  function RelEnd(rel: map<Key, string>, start: string, rels: seq<string>): Option<string> {
    if rels == [] then Some(start)
    else
      var before := RelEnd(rel, start, rels[..|rels| - 1]);
      if before.None? || (before.value, rels[|rels| - 1]) !in rel then None else Some(rel[(before.value, rels[|rels| - 1])])
  }
}
