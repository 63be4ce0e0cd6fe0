/** The order of the expansion within one layer (bench/synthesis/db3_retrieval.py): facts come as the
    three nested loops meet them first. */
module RetrievalOrder {
  import opened FactGraph

  // ---------------------------------------------------------------- edges in order

  /** The entities of a fact are those of its edges, all of them, in the order the edges come. */
  lemma {:induction false} EntitiesInEdgeOrder(edges: seq<Edge>, f: Fact) returns (at: seq<nat>)
    ensures |at| == |EntitiesOf(edges, f)|
    ensures forall k :: 0 <= k < |at| ==> at[k] < |edges| && edges[at[k]] == Edge(f, EntitiesOf(edges, f)[k])
    ensures forall j, k :: 0 <= j < k < |at| ==> at[j] < at[k]
    ensures forall i :: 0 <= i < |edges| && edges[i].fact == f ==> i in at
  {
    if edges == [] {
      at := [];
    } else {
      var n := |edges| - 1;
      at := EntitiesInEdgeOrder(edges[..n], f);
      if edges[n].fact == f { at := at + [n]; }
    }
  }

  /** Likewise the facts of an entity. */
  lemma {:induction false} FactsInEdgeOrder(edges: seq<Edge>, e: Entity) returns (at: seq<nat>)
    ensures |at| == |FactsOf(edges, e)|
    ensures forall k :: 0 <= k < |at| ==> at[k] < |edges| && edges[at[k]] == Edge(FactsOf(edges, e)[k], e)
    ensures forall j, k :: 0 <= j < k < |at| ==> at[j] < at[k]
    ensures forall i :: 0 <= i < |edges| && edges[i].entity == e ==> i in at
  {
    if edges == [] {
      at := [];
    } else {
      var n := |edges| - 1;
      at := FactsInEdgeOrder(edges[..n], e);
      if edges[n].entity == e { at := at + [n]; }
    }
  }

  // ---------------------------------------------------------------- blocks one after another

  function Flat(blocks: seq<seq<Fact>>): seq<Fact> {
    if blocks == [] then [] else Flat(blocks[..|blocks| - 1]) + blocks[|blocks| - 1]
  }

  lemma {:induction false} FlatPrefix(blocks: seq<seq<Fact>>, i: nat)
    requires i <= |blocks|
    ensures Flat(blocks[..i]) <= Flat(blocks)
  {
    if i == |blocks| {
      assert blocks[..i] == blocks;
    } else {
      var front := blocks[..|blocks| - 1];
      assert front[..i] == blocks[..i];
      FlatPrefix(front, i);
    }
  }

  /** Where the k-th element of the i-th block stands. */
  function At(blocks: seq<seq<Fact>>, i: nat, k: nat): nat
    requires i < |blocks|
  {
    |Flat(blocks[..i])| + k
  }

  lemma FlatAt(blocks: seq<seq<Fact>>, i: nat, k: nat)
    requires i < |blocks| && k < |blocks[i]|
    ensures At(blocks, i, k) < |Flat(blocks)| && Flat(blocks)[At(blocks, i, k)] == blocks[i][k]
  {
    FlatPrefix(blocks, i + 1);
    assert blocks[..i + 1][..i] == blocks[..i];
  }

  lemma {:induction false} FlatFind(blocks: seq<seq<Fact>>, p: nat) returns (i: nat, k: nat)
    requires p < |Flat(blocks)|
    ensures i < |blocks| && k < |blocks[i]| && p == At(blocks, i, k)
  {
    var n := |blocks| - 1;
    if p < |Flat(blocks[..n])| {
      i, k := FlatFind(blocks[..n], p);
      assert blocks[..n][..i] == blocks[..i];
    } else {
      i, k := n, p - |Flat(blocks[..n])|;
    }
  }

  lemma FlatRises(blocks: seq<seq<Fact>>, i: nat, k: nat, j: nat, l: nat)
    requires i < j < |blocks| && k < |blocks[i]|
    ensures At(blocks, i, k) < At(blocks, j, l)
  {
    FlatPrefix(blocks[..j], i + 1);
    assert blocks[..j][..i + 1] == blocks[..i + 1] && blocks[..i + 1][..i] == blocks[..i];
  }

  // ---------------------------------------------------------------- the loops as blocks

  function FactBlocks(edges: seq<Edge>, ents: seq<Entity>): seq<seq<Fact>> {
    seq(|ents|, j requires 0 <= j < |ents| => FactsOf(edges, ents[j]))
  }

  function HopBlocks(edges: seq<Edge>, frontier: seq<Fact>): seq<seq<Fact>> {
    seq(|frontier|, i requires 0 <= i < |frontier| => FactsOfAll(edges, EntitiesOf(edges, frontier[i])))
  }

  lemma {:induction false} AllIsFlat(edges: seq<Edge>, ents: seq<Entity>)
    ensures FactsOfAll(edges, ents) == Flat(FactBlocks(edges, ents))
  {
    if ents == [] {
    } else {
      var n := |ents| - 1;
      AllIsFlat(edges, ents[..n]);
      assert FactBlocks(edges, ents)[..n] == FactBlocks(edges, ents[..n]);
    }
  }

  lemma {:induction false} MetIsFlat(edges: seq<Edge>, frontier: seq<Fact>)
    ensures Met(edges, frontier) == Flat(HopBlocks(edges, frontier))
  {
    if frontier == [] {
    } else {
      var n := |frontier| - 1;
      MetIsFlat(edges, frontier[..n]);
      assert HopBlocks(edges, frontier)[..n] == HopBlocks(edges, frontier[..n]);
    }
  }

  /** A turn of the three loops: over the frontier, the fact's entities, the entity's facts. */
  datatype Turn = Turn(i: nat, j: nat, k: nat)

  predicate Meets(edges: seq<Edge>, frontier: seq<Fact>, t: Turn, g: Fact) {
    && t.i < |frontier|
    && var ents := EntitiesOf(edges, frontier[t.i]);
       t.j < |ents| && t.k < |FactsOf(edges, ents[t.j])| && FactsOf(edges, ents[t.j])[t.k] == g
  }

  predicate Sooner(a: Turn, b: Turn) {
    a.i < b.i || (a.i == b.i && (a.j < b.j || (a.j == b.j && a.k < b.k)))
  }

  function Place(edges: seq<Edge>, frontier: seq<Fact>, t: Turn): nat
    requires t.i < |frontier| && t.j < |EntitiesOf(edges, frontier[t.i])|
  {
    At(HopBlocks(edges, frontier), t.i, At(FactBlocks(edges, EntitiesOf(edges, frontier[t.i])), t.j, t.k))
  }

  lemma TurnHasPlace(edges: seq<Edge>, frontier: seq<Fact>, t: Turn, g: Fact)
    requires Meets(edges, frontier, t, g)
    ensures Place(edges, frontier, t) < |Met(edges, frontier)| && Met(edges, frontier)[Place(edges, frontier, t)] == g
    ensures At(FactBlocks(edges, EntitiesOf(edges, frontier[t.i])), t.j, t.k) < |HopBlocks(edges, frontier)[t.i]|
  {
    var ents := EntitiesOf(edges, frontier[t.i]);
    AllIsFlat(edges, ents);
    FlatAt(FactBlocks(edges, ents), t.j, t.k);
    MetIsFlat(edges, frontier);
    FlatAt(HopBlocks(edges, frontier), t.i, At(FactBlocks(edges, ents), t.j, t.k));
  }

  lemma PlaceHasTurn(edges: seq<Edge>, frontier: seq<Fact>, p: nat) returns (t: Turn)
    requires p < |Met(edges, frontier)|
    ensures Meets(edges, frontier, t, Met(edges, frontier)[p]) && Place(edges, frontier, t) == p
  {
    MetIsFlat(edges, frontier);
    var i, q := FlatFind(HopBlocks(edges, frontier), p);
    var ents := EntitiesOf(edges, frontier[i]);
    AllIsFlat(edges, ents);
    var j, k := FlatFind(FactBlocks(edges, ents), q);
    t := Turn(i, j, k);
    FlatAt(FactBlocks(edges, ents), j, k);
    FlatAt(HopBlocks(edges, frontier), i, q);
  }

  lemma SoonerIsBefore(edges: seq<Edge>, frontier: seq<Fact>, a: Turn, x: Fact, b: Turn, y: Fact)
    requires Meets(edges, frontier, a, x) && Meets(edges, frontier, b, y) && Sooner(a, b)
    ensures Place(edges, frontier, a) < Place(edges, frontier, b)
  {
    TurnHasPlace(edges, frontier, a, x);
    if a.i < b.i {
      var blocks := HopBlocks(edges, frontier);
      FlatRises(blocks, a.i, At(FactBlocks(edges, EntitiesOf(edges, frontier[a.i])), a.j, a.k),
                b.i, At(FactBlocks(edges, EntitiesOf(edges, frontier[b.i])), b.j, b.k));
    } else if a.j < b.j {
      FlatRises(FactBlocks(edges, EntitiesOf(edges, frontier[a.i])), a.j, a.k, b.j, b.k);
    }
  }

  // ---------------------------------------------------------------- first met, first listed

  /** x occurs before any occurrence of y. */
  ghost predicate Before(s: seq<Fact>, x: Fact, y: Fact) {
    exists p :: 0 <= p < |s| && s[p] == x && forall q :: 0 <= q < |s| && s[q] == y ==> p < q
  }

  lemma BeforeStays(s: seq<Fact>, last: Fact, x: Fact, y: Fact)
    requires Before(s, x, y)
    ensures Before(s + [last], x, y)
  {
    var p :| 0 <= p < |s| && s[p] == x && forall q :: 0 <= q < |s| && s[q] == y ==> p < q;
    assert (s + [last])[p] == x;
  }

  lemma NewIsLast(s: seq<Fact>, x: Fact, y: Fact)
    requires x in s && y !in s
    ensures Before(s + [y], x, y)
  {
    var p :| 0 <= p < |s| && s[p] == x;
    assert (s + [y])[p] == x;
  }

  lemma {:induction false} FreshInOrder(met: seq<Fact>, seen: set<Fact>, a: nat, b: nat)
    requires a < b < |Fresh(met, seen)|
    ensures Before(met, Fresh(met, seen)[a], Fresh(met, seen)[b])
  {
    var n := |met| - 1;
    var rest, last := Fresh(met[..n], seen), met[n];
    assert met == met[..n] + [last];
    if b < |rest| {
      FreshInOrder(met[..n], seen, a, b);
      BeforeStays(met[..n], last, rest[a], rest[b]);
    } else {
      FreshMembers(met[..n], seen);
      assert rest[a] in rest;
      NewIsLast(met[..n], rest[a], last);
    }
  }

  /** Within a layer facts come in the order they were first met: by the earliest fact of the layer
      before, then by its earliest entity, then by the earliest edge. */
  lemma FirstMetFirst(edges: seq<Edge>, seeds: seq<Fact>, d: nat, a: nat, b: nat) returns (t: Turn)
    requires d > 0 && a < b < |Front(edges, seeds, d)|
    ensures var frontier := Front(edges, seeds, d - 1);
            && Meets(edges, frontier, t, Front(edges, seeds, d)[a])
            && forall u :: Meets(edges, frontier, u, Front(edges, seeds, d)[b]) ==> Sooner(t, u)
  {
    var frontier := Front(edges, seeds, d - 1);
    var met, x, y := Met(edges, frontier), Front(edges, seeds, d)[a], Front(edges, seeds, d)[b];
    FreshInOrder(met, Elems(Order(edges, seeds, d - 1)), a, b);
    var p :| 0 <= p < |met| && met[p] == x && forall q :: 0 <= q < |met| && met[q] == y ==> p < q;
    t := PlaceHasTurn(edges, frontier, p);
    forall u | Meets(edges, frontier, u, y) ensures Sooner(t, u) {
      TurnHasPlace(edges, frontier, u, y);
      if !Sooner(t, u) && t != u { SoonerIsBefore(edges, frontier, u, y, t, x); }
    }
  }
}
