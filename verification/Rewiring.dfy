/** The control graphs of the benchmark (bench/synthesis/db3_retrieval.py: shuffled, thinned,
    link_density) and the content budget every arm is held to (fill). The random draws are
    arbitrary: any permutation of the targets, any set of facts that lose their second edge. */
module Rewiring {
  import opened FactGraph

  // ---------------------------------------------------------------- shuffled

  function Sources(edges: seq<Edge>): seq<Fact> {
    seq(|edges|, i requires 0 <= i < |edges| => edges[i].fact)
  }

  function Targets(edges: seq<Edge>): seq<Entity> {
    seq(|edges|, i requires 0 <= i < |edges| => edges[i].entity)
  }

  function Rewired(edges: seq<Edge>, targets: seq<Entity>): seq<Edge>
    requires |targets| == |edges|
  {
    seq(|edges|, i requires 0 <= i < |edges| => Edge(edges[i].fact, targets[i]))
  }

  lemma {:induction false} OutDegreeBySource(a: seq<Edge>, b: seq<Edge>, f: Fact)
    requires Sources(a) == Sources(b)
    ensures |EntitiesOf(a, f)| == |EntitiesOf(b, f)|
  {
    assert |Sources(a)| == |a| && |Sources(b)| == |b|;
    if a == [] {
    } else {
      var n := |a| - 1;
      assert Sources(a)[n] == a[n].fact && Sources(b)[n] == b[n].fact;
      assert Sources(a[..n]) == Sources(a)[..n] && Sources(b[..n]) == Sources(b)[..n];
      OutDegreeBySource(a[..n], b[..n], f);
    }
  }

  lemma {:induction false} InDegreeByTarget(edges: seq<Edge>, e: Entity)
    ensures |FactsOf(edges, e)| == multiset(Targets(edges))[e]
  {
    if edges == [] {
    } else {
      var n := |edges| - 1;
      InDegreeByTarget(edges[..n], e);
      assert Targets(edges) == Targets(edges[..n]) + [edges[n].entity];
    }
  }

  /** Shuffling the targets keeps the number of edges, every fact's out-degree and every entity's
      in-degree: only who is wired to whom changes. */
  lemma ShuffleKeepsDegrees(edges: seq<Edge>, targets: seq<Entity>, f: Fact, e: Entity)
    requires |targets| == |edges| && multiset(targets) == multiset(Targets(edges))
    ensures |Rewired(edges, targets)| == |edges|
    ensures |EntitiesOf(Rewired(edges, targets), f)| == |EntitiesOf(edges, f)|
    ensures |FactsOf(Rewired(edges, targets), e)| == |FactsOf(edges, e)|
  {
    var r := Rewired(edges, targets);
    assert Sources(r) == Sources(edges);
    OutDegreeBySource(r, edges, f);
    assert Targets(r) == targets;
    InDegreeByTarget(r, e);
    InDegreeByTarget(edges, e);
  }

  // ---------------------------------------------------------------- thinned

  function EdgesOf(f: Fact, tos: seq<Entity>): seq<Edge> {
    seq(|tos|, i requires 0 <= i < |tos| => Edge(f, tos[i]))
  }

  /** The entities a fact keeps: its first alone when it is drawn, all otherwise. */
  function Keeps(tos: seq<Entity>, drawn: bool): seq<Entity> {
    if |tos| > 1 && drawn then tos[..1] else tos
  }

  function Thin(edges: seq<Edge>, drawn: set<Fact>, facts: seq<Fact>): seq<Edge> {
    if facts == [] then []
    else
      var f := facts[|facts| - 1];
      Thin(edges, drawn, facts[..|facts| - 1]) + EdgesOf(f, Keeps(EntitiesOf(edges, f), f in drawn))
  }

  /** The facts, in the order their first edges come (the insertion order of by_fact). */
  function FirstSeen(edges: seq<Edge>): seq<Fact> {
    Fresh(Sources(edges), {})
  }

  /** thinned. */
  method Thinned(edges: seq<Edge>, drawn: set<Fact>) returns (kept: seq<Edge>)
    ensures kept == Thin(edges, drawn, FirstSeen(edges))
  {
    var byFact: map<Fact, seq<Entity>> := map[];
    var facts: seq<Fact> := [];
    for i := 0 to |edges|
      invariant facts == Fresh(Sources(edges[..i]), {}) && byFact.Keys == Elems(facts)
      invariant forall f {:trigger Get(byFact, f)} :: Get(byFact, f) == EntitiesOf(edges[..i], f)
    {
      var a, b := edges[i].fact, edges[i].entity;
      assert Sources(edges[..i + 1]) == Sources(edges[..i]) + [a];
      FreshSnoc(Sources(edges[..i]), a, {});
      ghost var before := byFact;
      if a !in byFact { facts := facts + [a]; }
      byFact := byFact[a := Get(byFact, a) + [b]];
      forall f ensures Get(byFact, f) == EntitiesOf(edges[..i + 1], f) {
        EdgeAdded(edges, i, f, b);
        assert Get(before, f) == EntitiesOf(edges[..i], f);
      }
    }
    assert edges[..|edges|] == edges;
    kept := [];
    for i := 0 to |facts|
      invariant kept == Thin(edges, drawn, facts[..i])
    {
      var f := facts[i];
      var tos := Get(byFact, f);
      assert facts[..i + 1][..i] == facts[..i];
      if |tos| > 1 && f in drawn { kept := kept + EdgesOf(f, tos[..1]); } else { kept := kept + EdgesOf(f, tos); }
    }
    assert facts[..|facts|] == facts;
  }

  lemma {:induction false} EntitiesOfAppend(a: seq<Edge>, b: seq<Edge>, f: Fact)
    ensures EntitiesOf(a + b, f) == EntitiesOf(a, f) + EntitiesOf(b, f)
  {
    if b == [] {
      assert a + b == a;
    } else {
      var n, last := |b| - 1, b[|b| - 1];
      EntitiesOfAppend(a, b[..n], f);
      assert (a + b)[..|a + b| - 1] == a + b[..n] && (a + b)[|a + b| - 1] == last;
      var here := if last.fact == f then [last.entity] else [];
      assert EntitiesOf(a, f) + EntitiesOf(b[..n], f) + here == EntitiesOf(a, f) + (EntitiesOf(b[..n], f) + here);
    }
  }

  lemma {:induction false} EntitiesOfBlock(g: Fact, tos: seq<Entity>, f: Fact)
    ensures EntitiesOf(EdgesOf(g, tos), f) == if f == g then tos else []
  {
    if tos == [] {
    } else {
      var n := |tos| - 1;
      EntitiesOfBlock(g, tos[..n], f);
      assert EdgesOf(g, tos)[..n] == EdgesOf(g, tos[..n]);
      assert tos == tos[..n] + [tos[n]];
    }
  }

  lemma ThinAppends(edges: seq<Edge>, drawn: set<Fact>, facts: seq<Fact>, f: Fact)
    requires facts != []
    ensures var g := facts[|facts| - 1];
            EntitiesOf(Thin(edges, drawn, facts), f)
            == EntitiesOf(Thin(edges, drawn, facts[..|facts| - 1]), f) + if f == g then Keeps(EntitiesOf(edges, g), g in drawn) else []
  {
    var g := facts[|facts| - 1];
    var tos := Keeps(EntitiesOf(edges, g), g in drawn);
    EntitiesOfAppend(Thin(edges, drawn, facts[..|facts| - 1]), EdgesOf(g, tos), f);
    EntitiesOfBlock(g, tos, f);
  }

  lemma {:induction false} ThinPerFact(edges: seq<Edge>, drawn: set<Fact>, facts: seq<Fact>, f: Fact)
    requires Distinct(facts)
    ensures EntitiesOf(Thin(edges, drawn, facts), f) == if f in facts then Keeps(EntitiesOf(edges, f), f in drawn) else []
  {
    if facts == [] {
    } else {
      var n := |facts| - 1;
      ThinPerFact(edges, drawn, facts[..n], f);
      ThinAppends(edges, drawn, facts, f);
      assert f in facts <==> f in facts[..n] || f == facts[n];
      assert facts[n] !in facts[..n];
    }
  }

  lemma {:induction false} NoEdgesNoEntities(edges: seq<Edge>, f: Fact)
    requires f !in Sources(edges)
    ensures EntitiesOf(edges, f) == []
  {
    if edges == [] {
    } else {
      var n := |edges| - 1;
      assert Sources(edges) == Sources(edges[..n]) + [edges[n].fact];
      NoEdgesNoEntities(edges[..n], f);
    }
  }

  /** Thinning changes exactly one thing: a drawn fact with several subjects keeps its first alone,
      and every other fact keeps all of its own. */
  lemma ThinnedExactly(edges: seq<Edge>, drawn: set<Fact>, f: Fact)
    ensures var had, has := EntitiesOf(edges, f), EntitiesOf(Thin(edges, drawn, FirstSeen(edges)), f);
            has == if f in drawn && |had| >= 2 then [had[0]] else had
    ensures EntitiesOf(Thin(edges, drawn, FirstSeen(edges)), f) == Keeps(EntitiesOf(edges, f), f in drawn)
  {
    FreshMembers(Sources(edges), {});
    ThinPerFact(edges, drawn, FirstSeen(edges), f);
    if f !in FirstSeen(edges) { NoEdgesNoEntities(edges, f); }
  }

  lemma {:induction false} FewerEdgesReachLess(small: seq<Edge>, large: seq<Edge>, seeds: seq<Fact>, d: nat, g: Fact)
    requires forall e :: e in small ==> e in large
    requires Within(small, seeds, d, g)
    ensures Within(large, seeds, d, g)
  {
    if d == 0 {
    } else {
      if Within(small, seeds, d - 1, g) {
        FewerEdgesReachLess(small, large, seeds, d - 1, g);
        WithinStep(large, seeds, d - 1, g, g);
      } else {
        var f :| Within(small, seeds, d - 1, f) && Hop(small, f, g);
        FewerEdgesReachLess(small, large, seeds, d - 1, f);
        assert Hop(large, f, g);
        WithinStep(large, seeds, d - 1, f, g);
      }
    }
  }

  lemma ThinnedIsSubgraph(edges: seq<Edge>, drawn: set<Fact>, e: Edge)
    requires e in Thin(edges, drawn, FirstSeen(edges))
    ensures e in edges
  {
    ThinnedExactly(edges, drawn, e.fact);
    EntitiesOfMembers(Thin(edges, drawn, FirstSeen(edges)), e.fact, e.entity);
    EntitiesOfMembers(edges, e.fact, e.entity);
  }

  /** A thinned graph reaches nothing the full graph does not, at the same depth. */
  lemma ThinnedReachesLess(edges: seq<Edge>, drawn: set<Fact>, seeds: seq<Fact>, d: nat, g: Fact)
    requires Within(Thin(edges, drawn, FirstSeen(edges)), seeds, d, g)
    ensures Within(edges, seeds, d, g)
  {
    var thin := Thin(edges, drawn, FirstSeen(edges));
    forall e | e in thin ensures e in edges { ThinnedIsSubgraph(edges, drawn, e); }
    FewerEdgesReachLess(thin, edges, seeds, d, g);
  }

  // ---------------------------------------------------------------- link_density

  ghost function Linked(edges: seq<Edge>, facts: set<Fact>): set<Fact> {
    set f | f in facts && |EntitiesOf(edges, f)| >= 2
  }

  ghost function Twos(n: map<Fact, nat>, facts: set<Fact>): set<Fact> {
    set f | f in facts && f in n && n[f] >= 2
  }

  lemma TwosMore(n: map<Fact, nat>, facts: set<Fact>, f: Fact)
    requires f !in facts
    ensures |Twos(n, facts + {f})| == |Twos(n, facts)| + if f in n && n[f] >= 2 then 1 else 0
  {
    assert Twos(n, facts + {f}) == Twos(n, facts) + if f in n && n[f] >= 2 then {f} else {};
  }

  method CountAtLeastTwo(n: map<Fact, nat>, facts: set<Fact>) returns (multi: nat)
    ensures multi == |Twos(n, facts)|
  {
    multi := 0;
    var todo, done := facts, {};
    while todo != {}
      invariant todo !! done && todo + done == facts && multi == |Twos(n, done)|
      decreases todo
    {
      var f :| f in todo;
      TwosMore(n, done, f);
      todo, done := todo - {f}, done + {f};
      if f in n && n[f] >= 2 { multi := multi + 1; }
    }
    assert done == facts;
  }

  /** The share of facts with two or more subjects, 0 when there are none. */
  method LinkDensity(edges: seq<Edge>, facts: set<Fact>) returns (r: real)
    ensures r == if facts == {} then 0.0 else |Linked(edges, facts)| as real / |facts| as real
  {
    var n: map<Fact, nat> := map[];
    for i := 0 to |edges|
      invariant forall f {:trigger EntitiesOf(edges[..i], f)} :: (if f in n then n[f] else 0) == |EntitiesOf(edges[..i], f)|
    {
      var a := edges[i].fact;
      ghost var before := n;
      n := n[a := (if a in n then n[a] else 0) + 1];
      forall f ensures (if f in n then n[f] else 0) == |EntitiesOf(edges[..i + 1], f)| {
        EdgeAdded(edges, i, f, edges[i].entity);
        assert (if f in before then before[f] else 0) == |EntitiesOf(edges[..i], f)|;
      }
    }
    assert edges[..|edges|] == edges;
    var multi := CountAtLeastTwo(n, facts);
    assert Twos(n, facts) == Linked(edges, facts);
    r := if facts == {} then 0.0 else multi as real / |facts| as real;
  }

  /** Thinning takes out of the linked facts exactly the drawn ones. */
  lemma ThinnedDensity(edges: seq<Edge>, drawn: set<Fact>, facts: set<Fact>)
    ensures Linked(Thin(edges, drawn, FirstSeen(edges)), facts) == Linked(edges, facts) - drawn
  {
    forall f ensures EntitiesOf(Thin(edges, drawn, FirstSeen(edges)), f) == Keeps(EntitiesOf(edges, f), f in drawn) {
      ThinnedExactly(edges, drawn, f);
    }
  }
}

module ContentBudget {

  /** A fact's text as handed to the answerer, already stripped; "" when it has none. */
  type Texts = map<string, string>

  function TextOf(texts: Texts, id: string): string {
    if id in texts then texts[id] else ""
  }

  predicate Fits(texts: Texts, id: string, used: int, budget: int) {
    TextOf(texts, id) != "" && used + |TextOf(texts, id)| + 3 <= budget
  }

  /** The characters spent after the whole list, and what was picked. */
  function Used(texts: Texts, ids: seq<string>, budget: int): nat {
    if ids == [] then 0
    else
      var u := Used(texts, ids[..|ids| - 1], budget);
      var id := ids[|ids| - 1];
      if Fits(texts, id, u, budget) then u + |TextOf(texts, id)| + 3 else u
  }

  function Picked(texts: Texts, ids: seq<string>, budget: int): seq<string> {
    if ids == [] then []
    else
      var id := ids[|ids| - 1];
      Picked(texts, ids[..|ids| - 1], budget) + if Fits(texts, id, Used(texts, ids[..|ids| - 1], budget), budget) then [TextOf(texts, id)] else []
  }

  function Cost(picked: seq<string>): nat {
    if picked == [] then 0 else Cost(picked[..|picked| - 1]) + |picked[|picked| - 1]| + 3
  }

  /** fill: a fact that does not fit is passed over, and later ones are still tried. */
  method Fill(texts: Texts, ids: seq<string>, budget: int) returns (picked: seq<string>, used: nat)
    ensures picked == Picked(texts, ids, budget) && used == Used(texts, ids, budget)
  {
    picked, used := [], 0;
    for i := 0 to |ids|
      invariant picked == Picked(texts, ids[..i], budget) && used == Used(texts, ids[..i], budget)
    {
      assert ids[..i + 1][..i] == ids[..i];
      var b := TextOf(texts, ids[i]);
      if b == "" { continue; }
      if used + |b| + 3 > budget { continue; }
      picked := picked + [b];
      used := used + |b| + 3;
    }
    assert ids[..|ids|] == ids;
  }

  /** What is spent is what the picked texts cost, and it stays within the budget. */
  lemma {:induction false} SpendsWithinBudget(texts: Texts, ids: seq<string>, budget: int)
    ensures Used(texts, ids, budget) == Cost(Picked(texts, ids, budget))
    ensures Picked(texts, ids, budget) != [] ==> Used(texts, ids, budget) <= budget
  {
    if ids == [] {
    } else {
      var front := Picked(texts, ids[..|ids| - 1], budget);
      var t := TextOf(texts, ids[|ids| - 1]);
      SpendsWithinBudget(texts, ids[..|ids| - 1], budget);
      assert (front + [t])[..|front|] == front;
      assert front + [] == front;
    }
  }

  lemma {:induction false} SpendingOnlyGrows(texts: Texts, ids: seq<string>, budget: int, k: nat)
    requires k <= |ids|
    ensures Used(texts, ids[..k], budget) <= Used(texts, ids, budget)
    ensures Picked(texts, ids[..k], budget) <= Picked(texts, ids, budget)
  {
    if k == |ids| {
      assert ids[..k] == ids;
    } else {
      SpendingOnlyGrows(texts, ids[..|ids| - 1], budget, k);
      assert ids[..|ids| - 1][..k] == ids[..k];
    }
  }

  /** The budget is filled as far as it goes: a fact with text that was passed over would not fit
      even in what is left at the end. */
  lemma PassedOverNeverFits(texts: Texts, ids: seq<string>, budget: int, k: nat)
    requires k < |ids| && TextOf(texts, ids[k]) != "" && !Fits(texts, ids[k], Used(texts, ids[..k], budget), budget)
    ensures Used(texts, ids, budget) + |TextOf(texts, ids[k])| + 3 > budget
  {
    SpendingOnlyGrows(texts, ids, budget, k);
  }

  // ---------------------------------------------------------------- until the budget is spent

  /** The place of the first fact with text that does not fit, the length if there is none. */
  function FirstMisfit(texts: Texts, ids: seq<string>, budget: int): (j: nat)
    ensures j <= |ids|
    ensures j < |ids| ==> TextOf(texts, ids[j]) != "" && !Fits(texts, ids[j], Used(texts, ids[..j], budget), budget)
  {
    if ids == [] then 0
    else
      var n := |ids| - 1;
      var j := FirstMisfit(texts, ids[..n], budget);
      assert ids[..n][..j] == ids[..j];
      if j < n then j
      else if TextOf(texts, ids[n]) == "" || Fits(texts, ids[n], Used(texts, ids[..n], budget), budget) then n + 1
      else n
  }

  /** fill as its comment has it: facts in order until one does not fit. */
  function UntilSpent(texts: Texts, ids: seq<string>, budget: int): seq<string> {
    Picked(texts, ids[..FirstMisfit(texts, ids, budget)], budget)
  }

  lemma {:induction false} NothingMoreFits(texts: Texts, ids: seq<string>, budget: int, j: nat)
    requires j <= |ids| && forall k :: j <= k < |ids| ==> !Fits(texts, ids[k], Used(texts, ids[..j], budget), budget)
    ensures Picked(texts, ids, budget) == Picked(texts, ids[..j], budget) && Used(texts, ids, budget) == Used(texts, ids[..j], budget)
  {
    if j == |ids| {
      assert ids[..j] == ids;
    } else {
      var front := ids[..|ids| - 1];
      assert front[..j] == ids[..j];
      NothingMoreFits(texts, front, budget, j);
      assert !Fits(texts, ids[|ids| - 1], Used(texts, ids[..j], budget), budget);
    }
  }

  lemma {:induction false} SomethingMoreIsPicked(texts: Texts, ids: seq<string>, budget: int, j: nat, k: nat)
    requires j <= k < |ids| && Fits(texts, ids[k], Used(texts, ids[..j], budget), budget)
    ensures |Picked(texts, ids, budget)| > |Picked(texts, ids[..j], budget)|
  {
    var front := ids[..|ids| - 1];
    assert front[..j] == ids[..j];
    if m :| j <= m < |front| && Fits(texts, front[m], Used(texts, front[..j], budget), budget) {
      SomethingMoreIsPicked(texts, front, budget, j, m);
    } else {
      NothingMoreFits(texts, front, budget, j);
      assert k == |front|;
    }
  }

  /** Nothing after place j is picked if and only if no later fact fits in what is left there. */
  lemma PicksNothingAfter(texts: Texts, ids: seq<string>, budget: int, j: nat)
    requires j <= |ids|
    ensures Picked(texts, ids, budget) == Picked(texts, ids[..j], budget) <==>
            forall k :: j <= k < |ids| ==> !Fits(texts, ids[k], Used(texts, ids[..j], budget), budget)
  {
    if k :| j <= k < |ids| && Fits(texts, ids[k], Used(texts, ids[..j], budget), budget) {
      SomethingMoreIsPicked(texts, ids, budget, j, k);
    } else {
      NothingMoreFits(texts, ids, budget, j);
    }
  }

  /** The code does what its comment says if and only if no fact after the first that does not fit
      would have fitted in what was left there. */
  lemma StopsAsDocumented(texts: Texts, ids: seq<string>, budget: int)
    ensures var j := FirstMisfit(texts, ids, budget);
            Picked(texts, ids, budget) == UntilSpent(texts, ids, budget) <==>
            forall k :: j < k < |ids| ==> !Fits(texts, ids[k], Used(texts, ids[..j], budget), budget)
  {
    PicksNothingAfter(texts, ids, budget, FirstMisfit(texts, ids, budget));
  }

  /** A long fact and then a short one: the comment picks nothing, the code the short one. */
  lemma GoesOnPastAMisfit()
    ensures var texts, ids := map["long" := "0123456789", "short" := "0"], ["long", "short"];
            UntilSpent(texts, ids, 5) == [] && Picked(texts, ids, 5) == ["0"]
  {
    var texts, ids := map["long" := "0123456789", "short" := "0"], ["long", "short"];
    assert ids[..1] == ["long"] && ids[..1][..0] == [] && ids[..0] == [];
    assert TextOf(texts, "long") == "0123456789" && TextOf(texts, "short") == "0";
    assert |TextOf(texts, "long")| == 10;
    assert FirstMisfit(texts, ids[..1], 5) == 0;
    assert Used(texts, ids[..1], 5) == 0 && Picked(texts, ids[..1], 5) == [];
  }

  /** Two arms whose lists begin alike spend the start of the budget alike, whatever follows. */
  lemma ArmsShareTheirStart(texts: Texts, seeds: seq<string>, a: seq<string>, b: seq<string>, budget: int)
    ensures Picked(texts, seeds, budget) <= Picked(texts, seeds + a, budget)
    ensures Picked(texts, seeds, budget) <= Picked(texts, seeds + b, budget)
    ensures Used(texts, seeds, budget) <= Used(texts, seeds + a, budget)
  {
    SpendingOnlyGrows(texts, seeds + a, budget, |seeds|);
    SpendingOnlyGrows(texts, seeds + b, budget, |seeds|);
    assert (seeds + a)[..|seeds|] == seeds && (seeds + b)[..|seeds|] == seeds;
  }
}
