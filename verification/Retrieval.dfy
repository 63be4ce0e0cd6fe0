/** The retrieval layer of the traversal benchmark (bench/synthesis/db3_retrieval.py): the
    fact-entity graph and its breadth-first expansion. */
module FactGraph {

  type Fact = string
  type Entity = string

  datatype Edge = Edge(fact: Fact, entity: Entity)

  /** The entities of a fact, and the facts of an entity, in edge order. */
  function EntitiesOf(edges: seq<Edge>, f: Fact): seq<Entity> {
    if edges == [] then []
    else
      var last := edges[|edges| - 1];
      EntitiesOf(edges[..|edges| - 1], f) + if last.fact == f then [last.entity] else []
  }

  function FactsOf(edges: seq<Edge>, e: Entity): seq<Fact> {
    if edges == [] then []
    else
      var last := edges[|edges| - 1];
      FactsOf(edges[..|edges| - 1], e) + if last.entity == e then [last.fact] else []
  }

  lemma {:induction false} EntitiesOfMembers(edges: seq<Edge>, f: Fact, e: Entity)
    ensures e in EntitiesOf(edges, f) <==> Edge(f, e) in edges
  {
    if edges == [] {
    } else {
      EntitiesOfMembers(edges[..|edges| - 1], f, e);
      assert edges == edges[..|edges| - 1] + [edges[|edges| - 1]];
    }
  }

  lemma {:induction false} FactsOfMembers(edges: seq<Edge>, e: Entity, f: Fact)
    ensures f in FactsOf(edges, e) <==> Edge(f, e) in edges
  {
    if edges == [] {
    } else {
      FactsOfMembers(edges[..|edges| - 1], e, f);
      assert edges == edges[..|edges| - 1] + [edges[|edges| - 1]];
    }
  }

  function Get(m: map<string, seq<string>>, k: string): seq<string> {
    if k in m then m[k] else []
  }

  lemma EdgeAdded(edges: seq<Edge>, i: nat, f: Fact, e: Entity)
    requires i < |edges|
    ensures EntitiesOf(edges[..i + 1], f) == if edges[i].fact == f then EntitiesOf(edges[..i], f) + [edges[i].entity] else EntitiesOf(edges[..i], f)
    ensures FactsOf(edges[..i + 1], e) == if edges[i].entity == e then FactsOf(edges[..i], e) + [edges[i].fact] else FactsOf(edges[..i], e)
  {
    assert edges[..i + 1][..i] == edges[..i];
  }

  /** _index. */
  method Index(edges: seq<Edge>) returns (factToEntity: map<string, seq<string>>, entityToFact: map<string, seq<string>>)
    ensures forall f {:trigger Get(factToEntity, f)} :: Get(factToEntity, f) == EntitiesOf(edges, f)
    ensures forall e {:trigger Get(entityToFact, e)} :: Get(entityToFact, e) == FactsOf(edges, e)
  {
    factToEntity, entityToFact := map[], map[];
    for i := 0 to |edges|
      invariant forall f {:trigger Get(factToEntity, f)} :: Get(factToEntity, f) == EntitiesOf(edges[..i], f)
      invariant forall e {:trigger Get(entityToFact, e)} :: Get(entityToFact, e) == FactsOf(edges[..i], e)
    {
      var a, b := edges[i].fact, edges[i].entity;
      ghost var fte, etf := factToEntity, entityToFact;
      factToEntity := factToEntity[a := Get(factToEntity, a) + [b]];
      entityToFact := entityToFact[b := Get(entityToFact, b) + [a]];
      forall f ensures Get(factToEntity, f) == EntitiesOf(edges[..i + 1], f) {
        EdgeAdded(edges, i, f, b);
        assert Get(fte, f) == EntitiesOf(edges[..i], f);
      }
      forall e ensures Get(entityToFact, e) == FactsOf(edges[..i + 1], e) {
        EdgeAdded(edges, i, a, e);
        assert Get(etf, e) == FactsOf(edges[..i], e);
      }
    }
    assert edges[..|edges|] == edges;
  }

  // ---------------------------------------------------------------- reachability, the reference

  /** One fact-entity-fact hop. */
  ghost predicate Hop(edges: seq<Edge>, f: Fact, g: Fact) {
    exists e :: Edge(f, e) in edges && Edge(g, e) in edges
  }

  /** Within `d` hops of a seed. */
  ghost predicate Within(edges: seq<Edge>, seeds: seq<Fact>, d: nat, g: Fact) {
    if d == 0 then g in seeds
    else Within(edges, seeds, d - 1, g) || exists f :: Within(edges, seeds, d - 1, f) && Hop(edges, f, g)
  }

  // ---------------------------------------------------------------- the expansion

  function FactsOfAll(edges: seq<Edge>, ents: seq<Entity>): seq<Fact> {
    if ents == [] then [] else FactsOfAll(edges, ents[..|ents| - 1]) + FactsOf(edges, ents[|ents| - 1])
  }

  /** Everything one hop from the frontier, in the order the loops meet it. */
  function Met(edges: seq<Edge>, frontier: seq<Fact>): seq<Fact> {
    if frontier == [] then []
    else Met(edges, frontier[..|frontier| - 1]) + FactsOfAll(edges, EntitiesOf(edges, frontier[|frontier| - 1]))
  }

  lemma {:induction false} FactsOfAllMembers(edges: seq<Edge>, ents: seq<Entity>, g: Fact)
    ensures g in FactsOfAll(edges, ents) <==> exists e :: e in ents && Edge(g, e) in edges
  {
    if ents == [] {
    } else {
      var front, last := ents[..|ents| - 1], ents[|ents| - 1];
      FactsOfAllMembers(edges, front, g);
      FactsOfMembers(edges, last, g);
      assert ents == front + [last];
    }
  }

  lemma OneHopAway(edges: seq<Edge>, f: Fact, g: Fact)
    ensures g in FactsOfAll(edges, EntitiesOf(edges, f)) <==> Hop(edges, f, g)
  {
    FactsOfAllMembers(edges, EntitiesOf(edges, f), g);
    forall e ensures e in EntitiesOf(edges, f) <==> Edge(f, e) in edges { EntitiesOfMembers(edges, f, e); }
  }

  lemma {:induction false} MetFromSome(edges: seq<Edge>, frontier: seq<Fact>, g: Fact) returns (f: Fact)
    requires g in Met(edges, frontier)
    ensures f in frontier && Hop(edges, f, g)
  {
    var front, last := frontier[..|frontier| - 1], frontier[|frontier| - 1];
    OneHopAway(edges, last, g);
    if g in Met(edges, front) {
      f := MetFromSome(edges, front, g);
    } else {
      f := last;
    }
  }

  lemma {:induction false} HopIsMet(edges: seq<Edge>, frontier: seq<Fact>, f: Fact, g: Fact)
    requires f in frontier && Hop(edges, f, g)
    ensures g in Met(edges, frontier)
  {
    var front, last := frontier[..|frontier| - 1], frontier[|frontier| - 1];
    if f in front {
      HopIsMet(edges, front, f, g);
    } else {
      OneHopAway(edges, last, g);
    }
  }

  /** The first occurrences of what has not been seen. */
  function Fresh(met: seq<Fact>, seen: set<Fact>): seq<Fact> {
    if met == [] then []
    else
      var rest, last := Fresh(met[..|met| - 1], seen), met[|met| - 1];
      if last in seen || last in rest then rest else rest + [last]
  }

  ghost predicate Distinct(s: seq<Fact>) {
    forall i, j :: 0 <= i < j < |s| ==> s[i] != s[j]
  }

  lemma {:induction false} FreshMembers(met: seq<Fact>, seen: set<Fact>)
    ensures forall g :: g in Fresh(met, seen) <==> g in met && g !in seen
    ensures Distinct(Fresh(met, seen))
  {
    if met == [] {
    } else {
      FreshMembers(met[..|met| - 1], seen);
      assert met == met[..|met| - 1] + [met[|met| - 1]];
    }
  }

  function Elems(s: seq<Fact>): set<Fact> {
    set x | x in s
  }

  /** The facts in the order they are reached, and the last layer of them, after d rounds. */
  function Order(edges: seq<Edge>, seeds: seq<Fact>, d: nat): seq<Fact>
    decreases d, 1
  {
    if d == 0 then seeds else Order(edges, seeds, d - 1) + Front(edges, seeds, d)
  }

  function Front(edges: seq<Edge>, seeds: seq<Fact>, d: nat): seq<Fact>
    decreases d, 0
  {
    if d == 0 then seeds else Fresh(Met(edges, Front(edges, seeds, d - 1)), Elems(Order(edges, seeds, d - 1)))
  }

  /** A round that finds nothing is the last: nothing is found after it either. */
  lemma {:induction false} NothingAfterEmpty(edges: seq<Edge>, seeds: seq<Fact>, d: nat, k: nat)
    requires Front(edges, seeds, d) == [] && d <= k
    ensures Front(edges, seeds, k) == [] && Order(edges, seeds, k) == Order(edges, seeds, d)
  {
    if d == k {
    } else {
      NothingAfterEmpty(edges, seeds, d, k - 1);
    }
  }

  /** expand. */
  method Expand(edges: seq<Edge>, seeds: seq<Fact>, depth: nat) returns (order: seq<Fact>)
    ensures order == Order(edges, seeds, depth)
  {
    var factToEntity, entityToFact := Index(edges);
    order := seeds;
    var seen := Elems(seeds);
    var frontier := seeds;
    var round := 0;
    while round < depth
      invariant round <= depth
      invariant order == Order(edges, seeds, round) && frontier == Front(edges, seeds, round) && seen == Elems(order)
    {
      ghost var base := order;
      frontier, order, seen := Round(edges, factToEntity, entityToFact, frontier, order, seen);
      assert frontier == Front(edges, seeds, round + 1);
      round := round + 1;
      if frontier == [] {
        assert order == base;
        NothingAfterEmpty(edges, seeds, round, depth);
        return;
      }
    }
  }

  /** One round of expand, over the frontier. */
  method Round(edges: seq<Edge>, factToEntity: map<string, seq<string>>, entityToFact: map<string, seq<string>>,
               frontier: seq<Fact>, order0: seq<Fact>, seen0: set<Fact>)
    returns (nxt: seq<Fact>, order: seq<Fact>, seen: set<Fact>)
    requires forall f {:trigger Get(factToEntity, f)} :: Get(factToEntity, f) == EntitiesOf(edges, f)
    requires forall e {:trigger Get(entityToFact, e)} :: Get(entityToFact, e) == FactsOf(edges, e)
    requires seen0 == Elems(order0)
    ensures nxt == Fresh(Met(edges, frontier), Elems(order0)) && order == order0 + nxt && seen == Elems(order)
  {
    nxt, order, seen := [], order0, seen0;
    for i := 0 to |frontier|
      invariant nxt == Fresh(Met(edges, frontier[..i]), Elems(order0))
      invariant order == order0 + nxt && seen == Elems(order0) + Elems(nxt)
    {
      assert frontier[..i + 1][..i] == frontier[..i];
      nxt, order, seen := Visit(edges, entityToFact, Get(factToEntity, frontier[i]), order0, Met(edges, frontier[..i]), nxt, order, seen);
    }
    assert frontier[..|frontier|] == frontier;
  }

  lemma FreshSnoc(met: seq<Fact>, g: Fact, seen: set<Fact>)
    ensures Fresh(met + [g], seen) == if g in seen || g in Fresh(met, seen) then Fresh(met, seen) else Fresh(met, seen) + [g]
  {
    assert (met + [g])[..|met|] == met;
  }

  lemma MetSnoc(met: seq<Fact>, facts: seq<Fact>, j: nat, seen: set<Fact>)
    requires j < |facts|
    ensures var was := Fresh(met + facts[..j], seen);
            Fresh(met + facts[..j + 1], seen) == if facts[j] in seen || facts[j] in was then was else was + [facts[j]]
  {
    FreshSnoc(met + facts[..j], facts[j], seen);
    assert met + facts[..j + 1] == met + facts[..j] + [facts[j]];
  }

  lemma MetMore(edges: seq<Edge>, met: seq<Fact>, ents: seq<Entity>, i: nat)
    requires i < |ents|
    ensures met + FactsOfAll(edges, ents[..i]) + FactsOf(edges, ents[i]) == met + FactsOfAll(edges, ents[..i + 1])
  {
    assert ents[..i + 1][..i] == ents[..i];
  }

  /** The two inner loops, over one fact's entities and their facts. */
  method Visit(edges: seq<Edge>, entityToFact: map<string, seq<string>>, ents: seq<Entity>, ghost base: seq<Fact>, ghost met0: seq<Fact>,
               nxt0: seq<Fact>, order0: seq<Fact>, seen0: set<Fact>)
    returns (nxt: seq<Fact>, order: seq<Fact>, seen: set<Fact>)
    requires forall e {:trigger Get(entityToFact, e)} :: Get(entityToFact, e) == FactsOf(edges, e)
    requires nxt0 == Fresh(met0, Elems(base)) && order0 == base + nxt0 && seen0 == Elems(base) + Elems(nxt0)
    ensures nxt == Fresh(met0 + FactsOfAll(edges, ents), Elems(base)) && order == base + nxt && seen == Elems(base) + Elems(nxt)
  {
    nxt, order, seen := nxt0, order0, seen0;
    assert met0 + [] == met0;
    for i := 0 to |ents|
      invariant nxt == Fresh(met0 + FactsOfAll(edges, ents[..i]), Elems(base))
      invariant order == base + nxt && seen == Elems(base) + Elems(nxt)
    {
      ghost var met := met0 + FactsOfAll(edges, ents[..i]);
      nxt, order, seen := VisitFacts(Get(entityToFact, ents[i]), base, met, nxt, order, seen);
      MetMore(edges, met0, ents, i);
    }
    assert ents[..|ents|] == ents;
  }

  method VisitFacts(facts: seq<Fact>, ghost base: seq<Fact>, ghost met: seq<Fact>, nxt0: seq<Fact>, order0: seq<Fact>, seen0: set<Fact>)
    returns (nxt: seq<Fact>, order: seq<Fact>, seen: set<Fact>)
    requires nxt0 == Fresh(met, Elems(base)) && order0 == base + nxt0 && seen0 == Elems(base) + Elems(nxt0)
    ensures nxt == Fresh(met + facts, Elems(base)) && order == base + nxt && seen == Elems(base) + Elems(nxt)
  {
    nxt, order, seen := nxt0, order0, seen0;
    assert met + facts[..0] == met;
    for j := 0 to |facts|
      invariant nxt == Fresh(met + facts[..j], Elems(base))
      invariant order == base + nxt && seen == Elems(base) + Elems(nxt)
    {
      var g := facts[j];
      MetSnoc(met, facts, j, Elems(base));
      if g !in seen {
        seen := seen + {g};
        nxt := nxt + [g];
        order := order + [g];
      }
    }
    assert facts[..|facts|] == facts;
  }

  // ---------------------------------------------------------------- what the expansion is

  lemma FrontIsFollowed(edges: seq<Edge>, seeds: seq<Fact>, d: nat, f: Fact, g: Fact)
    requires f in Front(edges, seeds, d) && Hop(edges, f, g)
    ensures g in Order(edges, seeds, d + 1)
  {
    HopIsMet(edges, Front(edges, seeds, d), f, g);
    FreshMembers(Met(edges, Front(edges, seeds, d)), Elems(Order(edges, seeds, d)));
  }

  /** Everything one hop from what d rounds reached is reached by the next. */
  lemma {:induction false} HopsAreFollowed(edges: seq<Edge>, seeds: seq<Fact>, d: nat, f: Fact, g: Fact)
    requires f in Order(edges, seeds, d) && Hop(edges, f, g)
    ensures g in Order(edges, seeds, d + 1)
  {
    if d > 0 && f in Order(edges, seeds, d - 1) {
      HopsAreFollowed(edges, seeds, d - 1, f, g);
    } else {
      FrontIsFollowed(edges, seeds, d, f, g);
    }
  }

  lemma HasParent(edges: seq<Edge>, seeds: seq<Fact>, d: nat, g: Fact) returns (f: Fact)
    requires d > 0 && g in Front(edges, seeds, d)
    ensures f in Order(edges, seeds, d - 1) && Hop(edges, f, g)
  {
    var frontier := Front(edges, seeds, d - 1);
    FreshMembers(Met(edges, frontier), Elems(Order(edges, seeds, d - 1)));
    f := MetFromSome(edges, frontier, g);
  }

  lemma WithinStep(edges: seq<Edge>, seeds: seq<Fact>, d: nat, f: Fact, g: Fact)
    requires Within(edges, seeds, d, f) && (f == g || Hop(edges, f, g))
    ensures Within(edges, seeds, d + 1, g)
  {
  }

  lemma ComesFrom(edges: seq<Edge>, seeds: seq<Fact>, d: nat, g: Fact) returns (f: Fact)
    requires d > 0 && g in Order(edges, seeds, d)
    ensures f in Order(edges, seeds, d - 1) && (f == g || Hop(edges, f, g))
  {
    f := g;
    if g !in Order(edges, seeds, d - 1) { f := HasParent(edges, seeds, d, g); }
  }

  lemma {:induction false} ReachedIsWithin(edges: seq<Edge>, seeds: seq<Fact>, d: nat, g: Fact)
    requires g in Order(edges, seeds, d)
    ensures Within(edges, seeds, d, g)
  {
    if d == 0 {
    } else {
      var f := ComesFrom(edges, seeds, d, g);
      ReachedIsWithin(edges, seeds, d - 1, f);
      WithinStep(edges, seeds, d - 1, f, g);
    }
  }

  lemma WithinFrom(edges: seq<Edge>, seeds: seq<Fact>, d: nat, g: Fact) returns (f: Fact)
    requires d > 0 && Within(edges, seeds, d, g)
    ensures Within(edges, seeds, d - 1, f) && (f == g || Hop(edges, f, g))
  {
    f := g;
    if !Within(edges, seeds, d - 1, g) { f :| Within(edges, seeds, d - 1, f) && Hop(edges, f, g); }
  }

  lemma {:induction false} WithinIsReached(edges: seq<Edge>, seeds: seq<Fact>, d: nat, g: Fact)
    requires Within(edges, seeds, d, g)
    ensures g in Order(edges, seeds, d)
  {
    if d == 0 {
    } else {
      var f := WithinFrom(edges, seeds, d, g);
      WithinIsReached(edges, seeds, d - 1, f);
      if f != g { HopsAreFollowed(edges, seeds, d - 1, f, g); }
    }
  }

  /** The expansion holds exactly the facts within `d` hops of a seed. */
  lemma ExpandsExactly(edges: seq<Edge>, seeds: seq<Fact>, d: nat, g: Fact)
    ensures g in Order(edges, seeds, d) <==> Within(edges, seeds, d, g)
  {
    if g in Order(edges, seeds, d) { ReachedIsWithin(edges, seeds, d, g); }
    if Within(edges, seeds, d, g) { WithinIsReached(edges, seeds, d, g); }
  }

  /** A smaller depth gives a prefix of a larger one; at depth 0 that is the seeds. */
  lemma {:induction false} ShallowerIsPrefix(edges: seq<Edge>, seeds: seq<Fact>, d: nat, k: nat)
    requires d <= k
    ensures Order(edges, seeds, d) <= Order(edges, seeds, k)
  {
    if d == k {
    } else {
      ShallowerIsPrefix(edges, seeds, d, k - 1);
    }
  }

  lemma {:induction false} EachOnce(edges: seq<Edge>, seeds: seq<Fact>, d: nat)
    requires Distinct(seeds)
    ensures Distinct(Order(edges, seeds, d))
  {
    if d == 0 {
    } else {
      EachOnce(edges, seeds, d - 1);
      var before := Order(edges, seeds, d - 1);
      FreshMembers(Met(edges, Front(edges, seeds, d - 1)), Elems(before));
      forall j | 0 <= j < |Front(edges, seeds, d)| ensures Front(edges, seeds, d)[j] !in before {
        assert Front(edges, seeds, d)[j] in Front(edges, seeds, d);
      }
    }
  }

  /** Facts come in order of distance: what reaches a later one reaches every earlier one. */
  lemma NearerFirst(edges: seq<Edge>, seeds: seq<Fact>, d: nat, i: nat, j: nat, k: nat)
    requires Distinct(seeds) && i < j < |Order(edges, seeds, d)| && Within(edges, seeds, k, Order(edges, seeds, d)[j])
    ensures Within(edges, seeds, k, Order(edges, seeds, d)[i])
  {
    var order := Order(edges, seeds, d);
    ExpandsExactly(edges, seeds, k, order[i]);
    ExpandsExactly(edges, seeds, k, order[j]);
    if d <= k {
      ShallowerIsPrefix(edges, seeds, d, k);
      assert order[i] in Order(edges, seeds, k);
    } else {
      var near := Order(edges, seeds, k);
      ShallowerIsPrefix(edges, seeds, k, d);
      EachOnce(edges, seeds, d);
      var m :| 0 <= m < |near| && near[m] == order[j];
      assert order[m] == order[j];
      assert near[i] == order[i];
    }
  }

  /** An early stop means the closure: nothing more is within any number of hops. */
  lemma EarlyStopIsClosure(edges: seq<Edge>, seeds: seq<Fact>, d: nat, k: nat, g: Fact)
    requires Front(edges, seeds, d) == [] && Within(edges, seeds, k, g)
    ensures g in Order(edges, seeds, d)
  {
    ExpandsExactly(edges, seeds, k, g);
    if k < d { ShallowerIsPrefix(edges, seeds, k, d); } else { NothingAfterEmpty(edges, seeds, d, k); }
  }
}
