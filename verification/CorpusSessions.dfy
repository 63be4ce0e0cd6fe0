/** Spreading the facts over sessions, choosing the questions, and the generator's own validation
    (bench/synthesis/gen_corpus.py). */
module CorpusSessions {
  import opened Wrappers
  import opened Corpus

  datatype Candidate = Candidate(anchor: string, rels: seq<string>, gold: string, supports: seq<nat>)

  const MAX_FACTS_PER_SESSION := 6

  // ---------------------------------------------------------------- the conflict graph

  type Conflicts = map<nat, set<nat>>

  function Against(conflict: Conflicts, a: nat): set<nat> {
    if a in conflict then conflict[a] else {}
  }

  /** Some question needs both facts. */
  ghost predicate Together(cands: seq<Candidate>, a: nat, b: nat) {
    exists i :: 0 <= i < |cands| && a in cands[i].supports && b in cands[i].supports
  }

  function WithPair(conflict: Conflicts, a: nat, b: nat): Conflicts {
    var c1 := conflict[a := Against(conflict, a) + {b}];
    c1[b := Against(c1, b) + {a}]
  }

  lemma WithPairAgainst(conflict: Conflicts, a: nat, b: nat, x: nat, y: nat)
    ensures y in Against(WithPair(conflict, a, b), x) <==> y in Against(conflict, x) || (x == a && y == b) || (x == b && y == a)
  {
  }

  /** One question's pairs (itertools.combinations of two). */
  method AddPairs(conflict0: Conflicts, sup: seq<nat>) returns (conflict: Conflicts)
    requires DistinctIds(sup)
    ensures forall x, y {:trigger y in Against(conflict, x)} ::
              y in Against(conflict, x) <==> y in Against(conflict0, x) || (x != y && x in sup && y in sup)
  {
    conflict := conflict0;
    for i := 0 to |sup|
      invariant forall x, y {:trigger y in Against(conflict, x)} ::
        y in Against(conflict, x) <==> y in Against(conflict0, x) || (x != y && x in sup && y in sup && (x in sup[..i] || y in sup[..i]))
    {
      ghost var before := conflict;
      for j := i + 1 to |sup|
        invariant forall x, y {:trigger y in Against(conflict, x)} ::
          y in Against(conflict, x) <==> y in Against(before, x) || (x == sup[i] && y in sup[i + 1..j]) || (y == sup[i] && x in sup[i + 1..j])
      {
        ghost var c := conflict;
        conflict := WithPair(conflict, sup[i], sup[j]);
        assert sup[i + 1..j + 1] == sup[i + 1..j] + [sup[j]];
        forall x, y ensures y in Against(conflict, x) <==> y in Against(c, x) || (x == sup[i] && y == sup[j]) || (x == sup[j] && y == sup[i]) {
          WithPairAgainst(c, sup[i], sup[j], x, y);
        }
      }
      assert sup == sup[..i] + [sup[i]] + sup[i + 1..];
      assert sup[..i + 1] == sup[..i] + [sup[i]];
      assert sup[i] !in sup[..i] && sup[i] !in sup[i + 1..];
    }
    assert sup[..|sup|] == sup;
  }

  /** The conflict graph: two facts are in conflict exactly when some question needs both. */
  method BuildConflicts(cands: seq<Candidate>) returns (conflict: Conflicts)
    requires forall i :: 0 <= i < |cands| ==> DistinctIds(cands[i].supports)
    ensures forall a, b {:trigger b in Against(conflict, a)} :: b in Against(conflict, a) <==> a != b && Together(cands, a, b)
  {
    conflict := map[];
    for i := 0 to |cands|
      invariant forall a, b {:trigger b in Against(conflict, a)} :: b in Against(conflict, a) <==> a != b && Together(cands[..i], a, b)
    {
      ghost var before := conflict;
      conflict := AddPairs(conflict, cands[i].supports);
      forall a, b ensures b in Against(conflict, a) <==> a != b && Together(cands[..i + 1], a, b) {
        assert b in Against(before, a) <==> a != b && Together(cands[..i], a, b);
        assert Together(cands[..i + 1], a, b) <==> Together(cands[..i], a, b) || (a in cands[i].supports && b in cands[i].supports) by {
          assert cands[..i + 1][i] == cands[i];
          assert forall k :: 0 <= k < i ==> cands[..i + 1][k] == cands[..i][k];
        }
      }
    }
    assert cands[..|cands|] == cands;
  }

  // ---------------------------------------------------------------- greedy placement

  /** The facts placed so far: each in its one session, none over capacity, no conflict inside. */
  ghost predicate Placed(order: seq<nat>, conflict: Conflicts, sessions: seq<seq<nat>>, sessionOf: map<nat, nat>) {
    && (forall f {:trigger f in sessionOf} :: f in sessionOf <==> f in order)
    && (forall f {:trigger f in sessionOf} :: f in sessionOf ==> sessionOf[f] < |sessions| && f in sessions[sessionOf[f]])
    && (forall n, f {:trigger f in sessions[n]} :: 0 <= n < |sessions| && f in sessions[n] ==> f in sessionOf && sessionOf[f] == n)
    && (forall n {:trigger sessions[n]} :: 0 <= n < |sessions| ==> 0 < |sessions[n]| <= MAX_FACTS_PER_SESSION && DistinctIds(sessions[n]))
    && (forall n, a, b {:trigger a in sessions[n], b in sessions[n]} ::
          0 <= n < |sessions| && a in sessions[n] && b in sessions[n] ==> b !in Against(conflict, a))
  }

  predicate Takes(conflict: Conflicts, members: seq<nat>, f: nat) {
    |members| < MAX_FACTS_PER_SESSION && forall m :: m in members ==> m !in Against(conflict, f)
  }

  ghost predicate Symmetric(conflict: Conflicts) {
    && (forall a, b {:trigger b in Against(conflict, a)} :: b in Against(conflict, a) ==> a in Against(conflict, b))
    && (forall a {:trigger Against(conflict, a)} :: a !in Against(conflict, a))
  }

  /** First fit: a fact sits in a later session only because every earlier one is full or holds a
      fact in conflict with it. */
  ghost predicate FirstFit(conflict: Conflicts, sessions: seq<seq<nat>>) {
    forall m, n, f {:trigger sessions[m], f in sessions[n]} ::
      0 <= m < n < |sessions| && f in sessions[n] ==> !Takes(conflict, sessions[m], f)
  }

  lemma StillRefused(conflict: Conflicts, members: seq<nat>, more: nat, f: nat)
    requires !Takes(conflict, members, f)
    ensures !Takes(conflict, members + [more], f)
  {
    if |members| < MAX_FACTS_PER_SESSION {
      var m :| m in members && m in Against(conflict, f);
      assert m in members + [more];
    }
  }

  lemma FirstFitOld(conflict: Conflicts, sessions: seq<seq<nat>>, f: nat, n: nat)
    requires FirstFit(conflict, sessions) && n < |sessions| && forall m :: 0 <= m < n ==> !Takes(conflict, sessions[m], f)
    ensures FirstFit(conflict, sessions[n := sessions[n] + [f]])
  {
    var s' := sessions[n := sessions[n] + [f]];
    forall m, k, g | 0 <= m < k < |s'| && g in s'[k] ensures !Takes(conflict, s'[m], g) {
      assert g in sessions[k] || (k == n && g == f);
      if m == n { StillRefused(conflict, sessions[n], f, g); }
    }
  }

  lemma FirstFitNew(conflict: Conflicts, sessions: seq<seq<nat>>, f: nat)
    requires FirstFit(conflict, sessions) && forall m :: 0 <= m < |sessions| ==> !Takes(conflict, sessions[m], f)
    ensures FirstFit(conflict, sessions + [[f]])
  {
    var s' := sessions + [[f]];
    forall m, k, g | 0 <= m < k < |s'| && g in s'[k] ensures !Takes(conflict, s'[m], g) {
      assert s'[m] == sessions[m];
      if k < |sessions| { assert s'[k] == sessions[k]; } else { assert g == f; }
    }
  }

  lemma PlaceInOld(order: seq<nat>, conflict: Conflicts, sessions: seq<seq<nat>>, sessionOf: map<nat, nat>, f: nat, n: nat)
    requires Placed(order, conflict, sessions, sessionOf) && Symmetric(conflict) && f !in order && n < |sessions| && Takes(conflict, sessions[n], f)
    ensures Placed(order + [f], conflict, sessions[n := sessions[n] + [f]], sessionOf[f := n])
  {
    var s' := sessions[n := sessions[n] + [f]];
    assert f !in sessions[n];
    forall a, b | a in s'[n] && b in s'[n] ensures b !in Against(conflict, a) {
      assert a in sessions[n] || a == f;
      assert b in sessions[n] || b == f;
    }
  }

  lemma PlaceInNew(order: seq<nat>, conflict: Conflicts, sessions: seq<seq<nat>>, sessionOf: map<nat, nat>, f: nat)
    requires Placed(order, conflict, sessions, sessionOf) && Symmetric(conflict) && f !in order
    ensures Placed(order + [f], conflict, sessions + [[f]], sessionOf[f := |sessions|])
  {
    var s' := sessions + [[f]];
    assert forall n :: 0 <= n < |sessions| ==> s'[n] == sessions[n];
    assert s'[|sessions|] == [f];
  }

  /** Greedy colouring: each fact goes into the first session with room and no conflict, or a new one. */
  method PlaceAll(order: seq<nat>, conflict: Conflicts) returns (sessions: seq<seq<nat>>, sessionOf: map<nat, nat>)
    requires DistinctIds(order) && Symmetric(conflict)
    ensures Placed(order, conflict, sessions, sessionOf) && FirstFit(conflict, sessions)
    ensures forall n {:trigger sessions[n]} :: 0 <= n < |sessions| ==> |sessions[n]| <= 6
    ensures forall m, n, f {:trigger sessions[m], f in sessions[n]} :: 0 <= m < n < |sessions| && f in sessions[n] ==>
              |sessions[m]| == 6 || exists k :: k in sessions[m] && k in Against(conflict, f)
  {
    sessions, sessionOf := [], map[];
    for i := 0 to |order|
      invariant Placed(order[..i], conflict, sessions, sessionOf) && FirstFit(conflict, sessions)
    {
      var f := order[i];
      assert f !in order[..i];
      var n := 0;
      while n < |sessions| && !Takes(conflict, sessions[n], f)
        invariant 0 <= n <= |sessions| && forall m :: 0 <= m < n ==> !Takes(conflict, sessions[m], f)
      {
        n := n + 1;
      }
      if n < |sessions| {
        PlaceInOld(order[..i], conflict, sessions, sessionOf, f, n);
        FirstFitOld(conflict, sessions, f, n);
        sessions := sessions[n := sessions[n] + [f]];
      } else {
        PlaceInNew(order[..i], conflict, sessions, sessionOf, f);
        FirstFitNew(conflict, sessions, f);
        sessions := sessions + [[f]];
      }
      sessionOf := sessionOf[f := n];
      assert order[..i + 1] == order[..i] + [f];
    }
    assert order[..|order|] == order;
  }

  // ---------------------------------------------------------------- questions

  /** Substring test. */
  predicate Contains(hay: string, needle: string) {
    |needle| <= |hay| && (hay[..|needle|] == needle || (hay != "" && Contains(hay[1..], needle)))
  }

  /** one_hop_reaches: some fact about the anchor names both it and the gold. */
  predicate OneHopReaches(facts: seq<Fact>, anchor: string, gold: string) {
    exists i :: 0 <= i < |facts| && (facts[i].s == anchor || facts[i].o == anchor) && Contains(facts[i].text, gold) && Contains(facts[i].text, anchor)
  }

  lemma {:induction false} FindsIt(before: string, needle: string, after: string)
    ensures Contains(before + needle + after, needle)
  {
    var hay := before + needle + after;
    if before == "" {
      assert hay[..|needle|] == needle;
    } else {
      FindsIt(before[1..], needle, after);
      assert hay[1..] == before[1..] + needle + after;
    }
  }

  lemma {:induction false} FoundThere(hay: string, needle: string) returns (before: string, after: string)
    requires Contains(hay, needle)
    ensures hay == before + needle + after
  {
    if hay[..|needle|] == needle {
      before, after := "", hay[|needle|..];
    } else {
      before, after := FoundThere(hay[1..], needle);
      before := [hay[0]] + before;
      assert hay == [hay[0]] + hay[1..];
    }
  }

  /** The substring test finds the needle wherever it stands, and nothing else. */
  lemma ContainsAnywhere(hay: string, needle: string)
    ensures Contains(hay, needle) <==> exists before, after :: hay == before + needle + after
  {
    if Contains(hay, needle) { var before, after := FoundThere(hay, needle); }
    if before, after :| hay == before + needle + after { FindsIt(before, needle, after); }
  }

  /** One fact answers the question: it has the anchor at an end, and both names in its text. */
  ghost predicate Answers(f: Fact, anchor: string, gold: string) {
    && (f.s == anchor || f.o == anchor)
    && (exists before, after :: f.text == before + gold + after)
    && exists before, after :: f.text == before + anchor + after
  }

  lemma OneHopMeans(facts: seq<Fact>, anchor: string, gold: string)
    ensures OneHopReaches(facts, anchor, gold) <==> exists i :: 0 <= i < |facts| && Answers(facts[i], anchor, gold)
  {
    forall i | 0 <= i < |facts|
      ensures Answers(facts[i], anchor, gold) <==>
              (facts[i].s == anchor || facts[i].o == anchor) && Contains(facts[i].text, gold) && Contains(facts[i].text, anchor)
    {
      ContainsAnywhere(facts[i].text, gold);
      ContainsAnywhere(facts[i].text, anchor);
    }
  }

  ghost predicate SessionsDistinct(sessionOf: map<nat, nat>, sup: seq<nat>) {
    && (forall f :: f in sup ==> f in sessionOf)
    && (forall i, j :: 0 <= i < j < |sup| ==> sessionOf[sup[i]] != sessionOf[sup[j]])
  }

  ghost predicate WellFormed(facts: seq<Fact>, c: Candidate) {
    Chain(facts, c.supports, c.anchor, c.rels, c.gold) && DistinctIds(c.supports)
  }

  /** A question's supports always land in distinct sessions, so the selection's own test for it
      drops nothing. */
  lemma SupportsNeverShare(facts: seq<Fact>, cands: seq<Candidate>, k: nat, order: seq<nat>, conflict: Conflicts,
                           sessions: seq<seq<nat>>, sessionOf: map<nat, nat>)
    requires Placed(order, conflict, sessions, sessionOf) && (forall f: nat :: f < |facts| ==> f in order)
    requires forall a, b {:trigger b in Against(conflict, a)} :: b in Against(conflict, a) <==> a != b && Together(cands, a, b)
    requires k < |cands| && WellFormed(facts, cands[k])
    ensures SessionsDistinct(sessionOf, cands[k].supports)
  {
    var sup := cands[k].supports;
    ChainIds(facts, sup, cands[k].anchor, cands[k].rels, cands[k].gold);
    forall i, j | 0 <= i < j < |sup|
      ensures sup[i] in sessionOf && sup[j] in sessionOf && sessionOf[sup[i]] != sessionOf[sup[j]]
    {
      assert sup[i] in sup && sup[j] in sup;
      assert sup[i] in order && sup[j] in order;
      assert Together(cands, sup[i], sup[j]);
      assert sup[j] in Against(conflict, sup[i]);
    }
    forall f | f in sup ensures f in sessionOf {
      var i :| 0 <= i < |sup| && sup[i] == f;
      assert f in order;
    }
  }

  // ---------------------------------------------------------------- validate

  datatype Problem = SupportMissing | SharedSession | WrongSupportCount | OneHop | WrongEnd | OneSession

  /** The sessions a question's supports are in. */
  function SessionSet(sessionOf: map<nat, nat>, sup: seq<nat>): set<nat> {
    set i | 0 <= i < |sup| && sup[i] in sessionOf :: sessionOf[sup[i]]
  }

  /** What validate reports about one question. */
  ghost function Problems(rel: map<Key, string>, facts: seq<Fact>, sessionOf: map<nat, nat>, c: Candidate): set<Problem> {
    (if exists i :: 0 <= i < |c.supports| && c.supports[i] >= |facts| then {SupportMissing} else {})
    + (if |SessionSet(sessionOf, c.supports)| != |c.supports| then {SharedSession} else {})
    + (if |c.supports| != |c.rels| then {WrongSupportCount} else {})
    + (if OneHopReaches(facts, c.anchor, c.gold) then {OneHop} else {})
    + (if RelEnd(rel, c.anchor, c.rels) != Some(c.gold) then {WrongEnd} else {})
    + (if |SessionSet(sessionOf, c.supports)| < 2 then {OneSession} else {})
  }

  lemma {:induction false} AsManySessions(sessionOf: map<nat, nat>, sup: seq<nat>)
    requires SessionsDistinct(sessionOf, sup)
    ensures |SessionSet(sessionOf, sup)| == |sup|
  {
    if sup != [] {
      var n := |sup| - 1;
      assert forall f :: f in sup[..n] ==> f in sup;
      AsManySessions(sessionOf, sup[..n]);
      assert sup[n] in sup;
      assert SessionSet(sessionOf, sup) == SessionSet(sessionOf, sup[..n]) + {sessionOf[sup[n]]};
      assert sessionOf[sup[n]] !in SessionSet(sessionOf, sup[..n]);
    } else {
      assert SessionSet(sessionOf, sup) == {};
    }
  }

  lemma {:induction false} FewerWhenShared(sessionOf: map<nat, nat>, sup: seq<nat>)
    ensures |SessionSet(sessionOf, sup)| <= |sup|
    ensures |SessionSet(sessionOf, sup)| == |sup| ==> SessionsDistinct(sessionOf, sup)
  {
    if sup == [] {
      assert SessionSet(sessionOf, sup) == {};
    } else {
      var n := |sup| - 1;
      FewerWhenShared(sessionOf, sup[..n]);
      var before := SessionSet(sessionOf, sup[..n]);
      if sup[n] in sessionOf {
        assert SessionSet(sessionOf, sup) == before + {sessionOf[sup[n]]};
        if sessionOf[sup[n]] !in before {
          forall i | 0 <= i < n && sup[i] in sessionOf ensures sessionOf[sup[i]] != sessionOf[sup[n]] {
            assert sup[..n][i] == sup[i];
          }
        } else {
          assert before + {sessionOf[sup[n]]} == before;
        }
      } else {
        assert SessionSet(sessionOf, sup) == before;
      }
      assert sup == sup[..n] + [sup[n]];
    }
  }

  lemma NoProblem(ps: set<Problem>)
    ensures ps == {} <==> SupportMissing !in ps && SharedSession !in ps && WrongSupportCount !in ps && OneHop !in ps && WrongEnd !in ps && OneSession !in ps
  {
    if p :| p in ps {
      match p
      case SupportMissing =>
      case SharedSession =>
      case WrongSupportCount =>
      case OneHop =>
      case WrongEnd =>
      case OneSession =>
    }
  }

  lemma SessionsMean(sessionOf: map<nat, nat>, sup: seq<nat>)
    ensures |SessionSet(sessionOf, sup)| == |sup| <==> SessionsDistinct(sessionOf, sup)
  {
    FewerWhenShared(sessionOf, sup);
    if SessionsDistinct(sessionOf, sup) { AsManySessions(sessionOf, sup); }
  }

  /** What a clean validation means: the supports exist, lie in sessions of their own, two at least, one
      for each hop; no single fact answers; and the relation leads from the anchor to the gold. */
  lemma ValidationMeans(rel: map<Key, string>, facts: seq<Fact>, sessionOf: map<nat, nat>, c: Candidate)
    ensures Problems(rel, facts, sessionOf, c) == {} <==>
            && (forall i :: 0 <= i < |c.supports| ==> c.supports[i] < |facts|)
            && SessionsDistinct(sessionOf, c.supports) && 2 <= |c.supports| == |c.rels|
            && !(exists i :: 0 <= i < |facts| && Answers(facts[i], c.anchor, c.gold)) && RelEnd(rel, c.anchor, c.rels) == Some(c.gold)
  {
    SessionsMean(sessionOf, c.supports);
    OneHopMeans(facts, c.anchor, c.gold);
    NoProblem(Problems(rel, facts, sessionOf, c));
  }

  /** None of validate's checks on a question can fire for one the selection kept. */
  lemma ValidateFindsNothing(rel: map<Key, string>, facts: seq<Fact>, sessionOf: map<nat, nat>, c: Candidate)
    requires RelMatches(rel, facts) && WellFormed(facts, c) && SessionsDistinct(sessionOf, c.supports)
    requires |c.rels| >= 2 && !OneHopReaches(facts, c.anchor, c.gold)
    ensures Problems(rel, facts, sessionOf, c) == {}
  {
    AsManySessions(sessionOf, c.supports);
    ChainIds(facts, c.supports, c.anchor, c.rels, c.gold);
    ChainFollowsRel(rel, facts, c.supports, c.anchor, c.rels, c.gold);
  }

  // ---------------------------------------------------------------- the generator, end to end

  datatype Template = Template(rels: seq<string>, starts: seq<string>)

  ghost predicate FromTemplate(templates: seq<Template>, c: Candidate) {
    exists t :: 0 <= t < |templates| && c.rels == templates[t].rels && c.anchor in templates[t].starts
  }

  /** Every path of distinct facts along the relations from this start is a candidate. */
  ghost predicate Walked(facts: seq<Fact>, cands: seq<Candidate>, start: string, rels: seq<string>) {
    forall sup, gold {:trigger Candidate(start, rels, gold, sup)} ::
      Chain(facts, sup, start, rels, gold) && DistinctIds(sup) ==> Candidate(start, rels, gold, sup) in cands
  }

  ghost predicate Sound(facts: seq<Fact>, templates: seq<Template>, cands: seq<Candidate>) {
    forall i {:trigger cands[i]} :: 0 <= i < |cands| ==> WellFormed(facts, cands[i]) && FromTemplate(templates, cands[i])
  }

  /** The candidates so far, and what walking one start adds to them. */
  method CollectFrom(facts: seq<Fact>, byEdge: map<Key, nat>, start: string, rels: seq<string>, cands0: seq<Candidate>)
    returns (cands: seq<Candidate>)
    requires IndexesFacts(byEdge, facts)
    ensures cands0 <= cands && Walked(facts, cands, start, rels)
    ensures forall i {:trigger cands[i]} :: |cands0| <= i < |cands| ==>
              WellFormed(facts, cands[i]) && cands[i].anchor == start && cands[i].rels == rels
  {
    FollowFindsTheChain(facts, byEdge, start, rels);
    var got := Walk(facts, byEdge, start, rels);
    cands := cands0;
    if got.Some? {
      cands := cands + [Candidate(start, rels, got.value.gold, got.value.supports)];
      assert cands[|cands0|] in cands;
    }
  }

  /** Every template walked from every start: the candidates are exactly the paths of distinct facts
      the templates describe. */
  method CollectCandidates(facts: seq<Fact>, byEdge: map<Key, nat>, templates: seq<Template>) returns (cands: seq<Candidate>)
    requires IndexesFacts(byEdge, facts)
    ensures Sound(facts, templates, cands)
    ensures forall t, k :: 0 <= t < |templates| && 0 <= k < |templates[t].starts| ==>
              Walked(facts, cands, templates[t].starts[k], templates[t].rels)
  {
    cands := [];
    for t := 0 to |templates|
      invariant Sound(facts, templates, cands)
      invariant forall u, k :: 0 <= u < t && 0 <= k < |templates[u].starts| ==>
                  Walked(facts, cands, templates[u].starts[k], templates[u].rels)
    {
      for k := 0 to |templates[t].starts|
        invariant Sound(facts, templates, cands)
        invariant forall u, j :: 0 <= u < |templates| && 0 <= j < |templates[u].starts| && (u < t || (u == t && j < k)) ==>
                    Walked(facts, cands, templates[u].starts[j], templates[u].rels)
      {
        ghost var before := cands;
        cands := CollectFrom(facts, byEdge, templates[t].starts[k], templates[t].rels, cands);
        SoundMore(facts, templates, before, cands, t, k);
        assert forall c :: c in before ==> c in cands;
      }
    }
  }

  lemma SoundMore(facts: seq<Fact>, templates: seq<Template>, before: seq<Candidate>, cands: seq<Candidate>, t: nat, k: nat)
    requires Sound(facts, templates, before) && before <= cands && t < |templates| && k < |templates[t].starts|
    requires forall i {:trigger cands[i]} :: |before| <= i < |cands| ==>
               WellFormed(facts, cands[i]) && cands[i].anchor == templates[t].starts[k] && cands[i].rels == templates[t].rels
    ensures Sound(facts, templates, cands)
  {
    forall i | 0 <= i < |cands| ensures WellFormed(facts, cands[i]) && FromTemplate(templates, cands[i]) {
      if i < |before| { assert cands[i] == before[i]; } else { assert cands[i].anchor in templates[t].starts; }
    }
  }

  /** The candidates one fact does not answer. */
  function NotOneHop(facts: seq<Fact>, cands: seq<Candidate>): seq<Candidate> {
    if cands == [] then []
    else
      var c := cands[|cands| - 1];
      NotOneHop(facts, cands[..|cands| - 1]) + if OneHopReaches(facts, c.anchor, c.gold) then [] else [c]
  }

  lemma {:induction false} NotOneHopMembers(facts: seq<Fact>, cands: seq<Candidate>, c: Candidate)
    ensures c in NotOneHop(facts, cands) <==> c in cands && !OneHopReaches(facts, c.anchor, c.gold)
  {
    if cands == [] {
    } else {
      NotOneHopMembers(facts, cands[..|cands| - 1], c);
      assert cands == cands[..|cands| - 1] + [cands[|cands| - 1]];
    }
  }

  /** The candidates that are left keep their order. */
  lemma {:induction false} NotOneHopInOrder(facts: seq<Fact>, cands: seq<Candidate>) returns (at: seq<nat>)
    ensures |at| == |NotOneHop(facts, cands)|
    ensures forall k :: 0 <= k < |at| ==> at[k] < |cands| && cands[at[k]] == NotOneHop(facts, cands)[k]
    ensures forall j, k :: 0 <= j < k < |at| ==> at[j] < at[k]
    ensures forall i :: 0 <= i < |cands| && !OneHopReaches(facts, cands[i].anchor, cands[i].gold) ==> i in at
  {
    if cands == [] {
      at := [];
    } else {
      var n := |cands| - 1;
      at := NotOneHopInOrder(facts, cands[..n]);
      if !OneHopReaches(facts, cands[n].anchor, cands[n].gold) { at := at + [n]; }
    }
  }

  /** The selection loop keeps its test for shared sessions, but drops exactly what one hop reaches. */
  method Keep(facts: seq<Fact>, cands: seq<Candidate>, sessionOf: map<nat, nat>) returns (kept: seq<Candidate>)
    requires forall i {:trigger cands[i]} :: 0 <= i < |cands| ==> SessionsDistinct(sessionOf, cands[i].supports)
    ensures kept == NotOneHop(facts, cands)
  {
    kept := [];
    for i := 0 to |cands|
      invariant kept == NotOneHop(facts, cands[..i])
    {
      var c := cands[i];
      assert cands[..i + 1][..i] == cands[..i];
      if OneHopReaches(facts, c.anchor, c.gold) { continue; }
      AsManySessions(sessionOf, c.supports);
      if |SessionSet(sessionOf, c.supports)| != |c.supports| { continue; }
      kept := kept + [c];
    }
    assert cands[..|cands|] == cands;
  }

  function CountHops(cs: seq<Candidate>, h: nat): nat {
    if cs == [] then 0 else CountHops(cs[..|cs| - 1], h) + if |cs[|cs| - 1].rels| == h then 1 else 0
  }

  lemma CountHopsSnoc(cs: seq<Candidate>, c: Candidate, h: nat)
    ensures CountHops(cs + [c], h) == CountHops(cs, h) + if |c.rels| == h then 1 else 0
  {
    assert (cs + [c])[..|cs|] == cs;
  }

  /** One question per anchor and depth. */
  ghost predicate OnePerAnchor(cs: seq<Candidate>) {
    forall i, j :: 0 <= i < j < |cs| ==> cs[i].anchor != cs[j].anchor || |cs[i].rels| != |cs[j].rels|
  }

  predicate AnchorUsed(cs: seq<Candidate>, anchor: string, h: nat) {
    exists i :: 0 <= i < |cs| && cs[i].anchor == anchor && |cs[i].rels| == h
  }

  /** The depth has its share, or the total is reached, or every anchor it could use is used. */
  ghost predicate Filled(chosen: seq<Candidate>, kept: seq<Candidate>, h: nat, want: nat, total: nat) {
    CountHops(chosen, h) == want || |chosen| >= total || forall c :: c in kept && |c.rels| == h ==> AnchorUsed(chosen, c.anchor, h)
  }

  lemma UsedStays(chosen: seq<Candidate>, more: seq<Candidate>, anchor: string, h: nat)
    requires chosen <= more && AnchorUsed(chosen, anchor, h)
    ensures AnchorUsed(more, anchor, h)
  {
    var i :| 0 <= i < |chosen| && chosen[i].anchor == anchor && |chosen[i].rels| == h;
    assert more[i] == chosen[i];
  }

  lemma FilledStays(chosen: seq<Candidate>, more: seq<Candidate>, kept: seq<Candidate>, h: nat, want: nat, total: nat)
    requires chosen <= more && Filled(chosen, kept, h, want, total) && CountHops(more, h) == CountHops(chosen, h)
    ensures Filled(more, kept, h, want, total)
  {
    if CountHops(chosen, h) != want && |chosen| < total {
      forall c | c in kept && |c.rels| == h ensures AnchorUsed(more, c.anchor, h) { UsedStays(chosen, more, c.anchor, h); }
    }
  }

  /** The questions of one depth, up to its share. */
  method ChooseDepth(kept: seq<Candidate>, chosen0: seq<Candidate>, h: nat, want: nat, total: nat) returns (chosen: seq<Candidate>)
    requires OnePerAnchor(chosen0) && CountHops(chosen0, h) <= want && (forall c :: c in chosen0 ==> c in kept)
    ensures OnePerAnchor(chosen) && CountHops(chosen, h) <= want && (forall c :: c in chosen ==> c in kept)
    ensures chosen0 <= chosen && forall k :: k != h ==> CountHops(chosen, k) == CountHops(chosen0, k)
    ensures Filled(chosen, kept, h, want, total)
  {
    chosen := chosen0;
    for i := 0 to |kept|
      invariant OnePerAnchor(chosen) && CountHops(chosen, h) <= want && (forall c :: c in chosen ==> c in kept)
      invariant chosen0 <= chosen && forall k :: k != h ==> CountHops(chosen, k) == CountHops(chosen0, k)
      invariant forall j :: 0 <= j < i && |kept[j].rels| == h ==> AnchorUsed(chosen, kept[j].anchor, h)
    {
      var c := kept[i];
      if |c.rels| != h { continue; }
      if |chosen| >= total || CountHops(chosen, h) >= want { return; }
      if AnchorUsed(chosen, c.anchor, h) { continue; }
      forall k ensures CountHops(chosen + [c], k) == CountHops(chosen, k) + if |c.rels| == k then 1 else 0 { CountHopsSnoc(chosen, c, k); }
      ghost var before := chosen;
      chosen := chosen + [c];
      assert chosen[|before|] == c;
      assert forall j :: 0 <= j < |before| ==> chosen[j] == before[j];
    }
  }

  /** From the candidates, in any shuffle, to the chosen questions: the facts are partitioned into
      sessions of at most six without conflict, and validate finds nothing wrong with any question. */
  method Generate(rel: map<Key, string>, facts: seq<Fact>, cands: seq<Candidate>, order: seq<nat>, want: (nat, nat, nat))
    returns (chosen: seq<Candidate>, sessions: seq<seq<nat>>, sessionOf: map<nat, nat>)
    requires RelMatches(rel, facts)
    requires forall i {:trigger cands[i]} :: 0 <= i < |cands| ==> WellFormed(facts, cands[i]) && |cands[i].rels| >= 2
    requires DistinctIds(order) && forall f: nat :: f in order <==> f < |facts|
    ensures forall f: nat :: f < |facts| ==> f in sessionOf && sessionOf[f] < |sessions| && f in sessions[sessionOf[f]]
    ensures forall n, f {:trigger f in sessions[n]} :: 0 <= n < |sessions| && f in sessions[n] ==> f < |facts| && sessionOf[f] == n
    ensures forall n {:trigger sessions[n]} :: 0 <= n < |sessions| ==> 0 < |sessions[n]| <= 6 && DistinctIds(sessions[n])
    ensures forall c {:trigger c in chosen} :: c in chosen ==> c in cands && Problems(rel, facts, sessionOf, c) == {}
    ensures OnePerAnchor(chosen)
    ensures CountHops(chosen, 2) <= want.0 && CountHops(chosen, 3) <= want.1 && CountHops(chosen, 4) <= want.2
    ensures var kept, total := NotOneHop(facts, cands), want.0 + want.1 + want.2;
            Filled(chosen, kept, 2, want.0, total) && Filled(chosen, kept, 3, want.1, total) && Filled(chosen, kept, 4, want.2, total)
  {
    var conflict := BuildConflicts(cands);
    sessions, sessionOf := PlaceAll(order, conflict);
    forall k | 0 <= k < |cands| ensures SessionsDistinct(sessionOf, cands[k].supports) {
      SupportsNeverShare(facts, cands, k, order, conflict, sessions, sessionOf);
    }
    forall f: nat | f < |facts| ensures f in sessionOf && sessionOf[f] < |sessions| && f in sessions[sessionOf[f]] { assert f in order; }
    var kept := Keep(facts, cands, sessionOf);
    var total := want.0 + want.1 + want.2;
    var twos := ChooseDepth(kept, [], 2, want.0, total);
    var threes := ChooseDepth(kept, twos, 3, want.1, total);
    chosen := ChooseDepth(kept, threes, 4, want.2, total);
    FilledStays(twos, threes, kept, 2, want.0, total);
    FilledStays(twos, chosen, kept, 2, want.0, total);
    FilledStays(threes, chosen, kept, 3, want.1, total);
    forall c | c in chosen ensures c in cands && Problems(rel, facts, sessionOf, c) == {} {
      NotOneHopMembers(facts, cands, c);
      var k :| 0 <= k < |cands| && cands[k] == c;
      assert WellFormed(facts, cands[k]) && SessionsDistinct(sessionOf, cands[k].supports);
      ValidateFindsNothing(rel, facts, sessionOf, c);
    }
  }
}
