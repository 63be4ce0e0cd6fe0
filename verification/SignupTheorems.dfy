/** The guarantees of the signup flow over every interleaving. */
module SignupTheorems {
  import opened Wrappers
  import opened Grants
  import opened Signup
  import opened SignupProofs

  // ---------------------------------------------------------------- the invites of the shared tenant

  /** What the handler inside the lock has established upstream so far. */
  ghost predicate PlanOk(invites: map<nat, Invite>, me: Handler) {
    var web, mine := LiveWebsite(invites), LiveMine(invites, me.who.login);
    match me.phase
    case Listing(makeOwner) => !makeOwner
    case Revoking(todo, makeOwner) => !makeOwner && (forall i :: i in mine ==> i in todo) && |web - mine| < MAX_PENDING_INVITES
    case MakingOwner => false
    case Inviting => mine == {} && |web| < MAX_PENDING_INVITES
    case _ => true
  }

  /** The invites that took effect while their handler was in the lock. */
  ghost function Prompt(s: State): map<nat, Invite> {
    s.invites - s.late
  }

  ghost function PromptAfter(s: State, st: Step): map<nat, Invite>
    requires Ready(s, st)
  {
    InvitesAfter(s, st) - LateAfter(s, st)
  }

  ghost predicate InvitesKept(s: State) {
    && s.late <= s.invites.Keys && InvitesBounded(Prompt(s))
    && forall h {:trigger s.handlers[h]} :: 0 <= h < |s.handlers| ==> PlanOk(Prompt(s), s.handlers[h])
  }

  /** `after` has the same website invites, or fewer. */
  ghost predicate Fewer(before: map<nat, Invite>, after: map<nat, Invite>) {
    forall i :: i in after && after[i].live && after[i].website ==> i in before && before[i] == after[i]
  }

  lemma FewerKeepsPlans(before: map<nat, Invite>, after: map<nat, Invite>, me: Handler)
    requires Fewer(before, after) && PlanOk(before, me)
    ensures PlanOk(after, me)
  {
    var login := me.who.login;
    assert LiveWebsite(after) - LiveMine(after, login) <= LiveWebsite(before) - LiveMine(before, login);
    SubsetSize(LiveWebsite(after) - LiveMine(after, login), LiveWebsite(before) - LiveMine(before, login));
    SubsetSize(LiveWebsite(after), LiveWebsite(before));
    assert LiveMine(after, login) <= LiveMine(before, login);
  }

  lemma FewerKeepsBounds(before: map<nat, Invite>, after: map<nat, Invite>)
    requires Fewer(before, after) && OnePerLogin(before)
    ensures OnePerLogin(after) && |LiveWebsite(after)| <= |LiveWebsite(before)|
  {
    assert LiveWebsite(after) <= LiveWebsite(before);
    SubsetSize(LiveWebsite(after), LiveWebsite(before));
  }

  lemma OnlyCreatesAdd(s: State, st: Step)
    requires Ready(s, st) && Truthful(s, st) && !(st.CreateInvite? && st.effect && s.shared)
    ensures Fewer(Prompt(s), PromptAfter(s, st))
  {
  }

  /** A complete list below the cap is a plan. */
  lemma ListedPlan(invites: map<nat, Invite>, me: Handler, mine: seq<nat>)
    requires me.phase.Listing? && !me.phase.makeOwner
    requires LiveMine(invites, me.who.login) <= (set i | i in mine)
    requires |LiveWebsite(invites) - LiveMine(invites, me.who.login)| < MAX_PENDING_INVITES
    ensures PlanOk(invites, me.(phase := AfterRevokes(mine, false)))
  {
    var live := LiveMine(invites, me.who.login);
    forall i | i in live ensures i in mine { assert i in (set j | j in mine); }
    if mine == [] {
      assert live == {};
      assert LiveWebsite(invites) - live == LiveWebsite(invites);
    }
  }

  lemma ListPlan(s: State, st: Step)
    requires s.shared && Ready(s, st) && Truthful(s, st) && st.List? && PlanOk(Prompt(s), s.handlers[st.h])
    ensures PlanOk(Prompt(s), AfterList(s.handlers[st.h], st.list, st.atCap))
  {
    if st.list.Listed? && !st.atCap {
      var login := s.handlers[st.h].who.login;
      var all, prompt := s.invites, Prompt(s);
      assert LiveMine(prompt, login) <= LiveMine(all, login);
      SubsetSize(LiveWebsite(prompt) - LiveMine(prompt, login), LiveWebsite(all) - LiveMine(all, login));
      ListedPlan(prompt, s.handlers[st.h], st.list.mine);
    }
  }

  lemma QuietPhase(me: Handler, st: Step)
    requires AtAwait(me, st, true) && !st.List? && !st.Revoke? && !st.CreateInvite? && !st.MakeOwner?
    ensures var p := Next(me, st, true).phase; !p.Revoking? && !p.MakingOwner? && !p.Inviting? && (p.Listing? ==> !p.makeOwner)
  {
  }

  /** Steps that neither list nor revoke nor create leave no plan behind. */
  lemma QuietPlan(invites: map<nat, Invite>, me: Handler, st: Step)
    requires AtAwait(me, st, true) && !st.List? && !st.Revoke? && !st.CreateInvite? && PlanOk(invites, me)
    ensures PlanOk(invites, Next(me, st, true))
  {
    QuietPhase(me, st);
  }

  /** The actor's own plan after its step, creates aside. */
  lemma ActorPlan(s: State, st: Step)
    requires s.shared && Ready(s, st) && Truthful(s, st) && Actor(st).Some? && !st.CreateInvite?
    requires PlanOk(Prompt(s), s.handlers[st.h])
    ensures PlanOk(PromptAfter(s, st), Next(s.handlers[st.h], st, s.shared))
  {
    if st.Revoke? { RevokePlan(s, st); } else if st.List? { ListPlan(s, st); } else { QuietPlan(Prompt(s), s.handlers[st.h], st); }
  }

  lemma RevokePlan(s: State, st: Step)
    requires s.shared && Ready(s, st) && Truthful(s, st) && st.Revoke? && PlanOk(Prompt(s), s.handlers[st.h])
    ensures PlanOk(PromptAfter(s, st), AfterRevoke(s.handlers[st.h], st.ans, s.shared))
  {
    var me := s.handlers[st.h];
    var after := PromptAfter(s, st);
    OnlyCreatesAdd(s, st);
    FewerKeepsPlans(Prompt(s), after, me);
    if Revoked(st.ans) {
      var mine := LiveMine(after, me.who.login);
      forall i | i in mine ensures i in me.phase.todo[1..] {
        assert i in me.phase.todo && i != me.phase.todo[0];
      }
      if me.phase.todo[1..] == [] {
        assert mine == {};
        assert LiveWebsite(after) - mine == LiveWebsite(after);
      }
    }
  }

  /** One more invite, for a login that had none, below the cap. */
  lemma OneMoreBounded(invites: map<nat, Invite>, i: nat, login: string)
    requires OnePerLogin(invites) && LiveMine(invites, login) == {} && |LiveWebsite(invites)| < MAX_PENDING_INVITES && i !in invites
    ensures InvitesBounded(invites[i := Invite(login, true, true)])
  {
    var after := invites[i := Invite(login, true, true)];
    assert LiveWebsite(after) == LiveWebsite(invites) + {i};
    forall j | j in LiveWebsite(invites) ensures invites[j].login != login {
      assert j !in LiveMine(invites, login);
    }
  }

  lemma CreateKeepsBounds(s: State, st: Step)
    requires s.shared && Ready(s, st) && Truthful(s, st) && st.CreateInvite? && st.effect && InvitesKept(s)
    ensures InvitesBounded(PromptAfter(s, st))
  {
    var me := s.handlers[st.h];
    assert PlanOk(Prompt(s), me);
    OneMoreBounded(Prompt(s), st.invite, me.who.login);
    assert PromptAfter(s, st) == Prompt(s)[st.invite := Invite(me.who.login, true, true)];
  }

  ghost predicate OneTenant(s: State, tenant: string) {
    forall h {:trigger s.handlers[h]} :: 0 <= h < |s.handlers| ==> s.handlers[h].who.tenant == tenant
  }

  /** While one handler is in the shared tenant's lock, no other has a plan. */
  lemma OthersHaveNoPlan(s: State, st: Step, tenant: string, k: nat)
    requires LockKept(s) && OneTenant(s, tenant) && Ready(s, st) && st.CreateInvite? && k < |s.handlers| && k != st.h
    ensures !InLock(s.handlers[k].phase)
  {
    assert InLock(s.handlers[st.h].phase);
  }

  lemma OtherPlan(s: State, st: Step, tenant: string, h: nat)
    requires s.shared && LockKept(s) && OneTenant(s, tenant) && Ready(s, st) && Truthful(s, st)
    requires h < |s.handlers| && PlanOk(Prompt(s), s.handlers[h]) && Actor(st) != Some(h)
    ensures PlanOk(PromptAfter(s, st), s.handlers[h])
  {
    if st.CreateInvite? {
      OthersHaveNoPlan(s, st, tenant, h);
    } else {
      OnlyCreatesAdd(s, st);
      FewerKeepsPlans(Prompt(s), PromptAfter(s, st), s.handlers[h]);
    }
  }

  /** The creator has no plan left after its create. */
  lemma CreatePlan(invites: map<nat, Invite>, me: Handler, st: Step)
    requires AtAwait(me, st, true) && st.CreateInvite?
    ensures PlanOk(invites, Next(me, st, true))
  {
  }

  lemma PlanStep(s: State, st: Step, tenant: string, h: nat)
    requires s.shared && LockKept(s) && OneTenant(s, tenant) && Ready(s, st) && Truthful(s, st)
    requires h < |s.handlers| && PlanOk(Prompt(s), s.handlers[h])
    ensures h < |Apply(s, st).handlers| && PlanOk(PromptAfter(s, st), Apply(s, st).handlers[h])
  {
    if Actor(st) != Some(h) {
      OnlyActorMoves(s, st, h);
      OtherPlan(s, st, tenant, h);
    } else if st.CreateInvite? {
      CreatePlan(PromptAfter(s, st), s.handlers[h], st);
    } else {
      ActorPlan(s, st);
    }
  }

  lemma BoundsStep(s: State, st: Step)
    requires s.shared && InvitesKept(s) && Ready(s, st) && Truthful(s, st)
    ensures InvitesBounded(PromptAfter(s, st)) && LateAfter(s, st) <= InvitesAfter(s, st).Keys
  {
    if st.CreateInvite? && st.effect {
      CreateKeepsBounds(s, st);
    } else {
      OnlyCreatesAdd(s, st);
      FewerKeepsBounds(Prompt(s), PromptAfter(s, st));
    }
  }

  lemma NewHasNoPlan(s: State, st: Step)
    requires Ready(s, st) && |s.handlers| < |Apply(s, st).handlers|
    ensures |Apply(s, st).handlers| == |s.handlers| + 1
    ensures PlanOk(PromptAfter(s, st), Apply(s, st).handlers[|s.handlers|])
  {
    assert st.Arrive?;
  }

  lemma InvitesMove(s: State, st: Step)
    requires Ready(s, st)
    ensures var s' := Apply(s, st);
            s'.invites == InvitesAfter(s, st) && s'.late == LateAfter(s, st) && Prompt(s') == PromptAfter(s, st)
  {
  }

  lemma InvitesStep(s: State, st: Step, tenant: string)
    requires s.shared && InvitesKept(s) && LockKept(s) && OneTenant(s, tenant) && Ready(s, st) && Truthful(s, st)
    ensures InvitesKept(Apply(s, st))
  {
    var s' := Apply(s, st);
    InvitesMove(s, st);
    BoundsStep(s, st);
    forall h | 0 <= h < |s'.handlers|
      ensures PlanOk(Prompt(s'), s'.handlers[h])
    {
      if h < |s.handlers| {
        assert PlanOk(Prompt(s), s.handlers[h]);
        PlanStep(s, st, tenant, h);
      } else {
        NewHasNoPlan(s, st);
      }
    }
  }

  // ---------------------------------------------------------------- what took effect upstream

  ghost predicate Landings(s: State) {
    forall h {:trigger s.handlers[h]} :: 0 <= h < |s.handlers| ==>
      LandedOk(s.handlers[h]) && (s.shared ==> InviteIsTheirs(s.invites, s.handlers[h]))
  }

  /** An invite may die; whose it is does not change. */
  lemma InvitesPersist(s: State, st: Step, i: nat)
    requires Ready(s, st) && Truthful(s, st) && i in s.invites
    ensures i in InvitesAfter(s, st)
    ensures InvitesAfter(s, st)[i].website == s.invites[i].website && InvitesAfter(s, st)[i].login == s.invites[i].login
  {
  }

  /** A handler's invite is the one this step created, or the one it had. */
  lemma InviteAfter(me: Handler, st: Step)
    requires AtAwait(me, st, true)
    ensures Next(me, st, true).past.invite ==
            match st
            case CreateInvite(_, _, effect, i) => if effect then Some(i) else None
            case Land(_, i) => Some(i)
            case _ => me.past.invite
  {
    if !st.CreateInvite? && !st.Land? { InviteStays(me, st); }
  }

  lemma InviteStays(me: Handler, st: Step)
    requires AtAwait(me, st, true) && !st.CreateInvite? && !st.Land?
    ensures Next(me, st, true).past.invite == me.past.invite
  {
  }

  lemma ActorInvite(s: State, st: Step)
    requires s.shared && Ready(s, st) && Truthful(s, st) && Actor(st).Some? && InviteIsTheirs(s.invites, s.handlers[st.h])
    ensures InviteIsTheirs(InvitesAfter(s, st), Next(s.handlers[st.h], st, true))
  {
    var me := s.handlers[st.h];
    InviteAfter(me, st);
    if me.past.invite.Some? { InvitesPersist(s, st, me.past.invite.value); }
  }

  lemma LandingsStep(s: State, st: Step)
    requires HandlersOk(s) && Landings(s) && Ready(s, st) && Truthful(s, st)
    ensures Landings(Apply(s, st))
  {
    var s' := Apply(s, st);
    assert s'.invites == InvitesAfter(s, st) && s'.shared == s.shared;
    forall h | 0 <= h < |s'.handlers|
      ensures LandedOk(s'.handlers[h]) && (s.shared ==> InviteIsTheirs(s'.invites, s'.handlers[h]))
    {
      if h < |s.handlers| && Actor(st) == Some(h) {
        assert HandlerOk(s, h);
        ActorMoves(s, st);
        LandedStep(s.handlers[h], st, s.shared);
        if s.shared { ActorInvite(s, st); }
      } else if h < |s.handlers| {
        OnlyActorMoves(s, st, h);
        var me := s.handlers[h];
        if me.past.invite.Some? && s.shared { InvitesPersist(s, st, me.past.invite.value); }
      }
    }
  }

  // ---------------------------------------------------------------- every reachable state

  ghost predicate Inv(s: State, tenant: string) {
    && SlotsApart(s) && HandlersOk(s) && LimitsKept(s) && LockKept(s) && Landings(s)
    && (s.shared ==> OneTenant(s, tenant) && InvitesKept(s))
  }

  lemma OneTenantStep(s: State, st: Step, tenant: string)
    requires OneTenant(s, tenant) && Ready(s, st) && (st.Arrive? ==> st.tenant == tenant)
    ensures OneTenant(Apply(s, st), tenant)
  {
  }

  lemma InvStep(s: State, st: Step, tenant: string)
    requires Inv(s, tenant) && Ready(s, st) && Truthful(s, st) && (st.Arrive? && s.shared ==> st.tenant == tenant)
    ensures Inv(Apply(s, st), tenant) && Apply(s, st).shared == s.shared
  {
    SlotsApartStep(s, st);
    HandlersStep(s, st);
    LimitsStep(s, st);
    LockStep(s, st);
    LandingsStep(s, st);
    if s.shared {
      OneTenantStep(s, st, tenant);
      InvitesStep(s, st, tenant);
    }
  }

  lemma {:induction false} InvAlways(states: seq<State>, steps: seq<Step>, tenant: string, i: nat)
    requires IsTrace(states, steps, tenant) && i < |states|
    ensures Inv(states[i], tenant)
  {
    if i == 0 {
      assert Prompt(states[0]) == states[0].invites;
    } else {
      InvAlways(states, steps, tenant, i - 1);
      InvStep(states[i - 1], steps[i - 1], tenant);
    }
  }

  // ---------------------------------------------------------------- the guarantees

  lemma PromptAndLate(s: State)
    ensures LiveWebsite(Prompt(s)) == LiveWebsite(s.invites) - s.late
    ensures |LiveWebsite(s.invites)| <= |LiveWebsite(Prompt(s))| + |LiveWebsite(s.invites) * s.late|
  {
    var web := LiveWebsite(s.invites);
    assert web == (web - s.late) + (web * s.late) && (web - s.late) !! (web * s.late);
  }

  /** Over any interleaving with redemptions, expiries and operator revokes, at most 50 website
      invites are live in the shared tenant and no login has two, but for those of creates that took
      effect only after their handler had given them up. */
  lemma LiveInvitesBounded(states: seq<State>, steps: seq<Step>, tenant: string, i: nat)
    requires IsTrace(states, steps, tenant) && i < |states| && states[i].shared
    ensures |LiveWebsite(states[i].invites) - states[i].late| <= 50
    ensures |LiveWebsite(states[i].invites)| <= 50 + |LiveWebsite(states[i].invites) * states[i].late|
    ensures OnePerLogin(states[i].invites - states[i].late)
  {
    InvAlways(states, steps, tenant, i);
    PromptAndLate(states[i]);
  }

  /** The runtime did not answer, failed, or gave an answer outside the contract. */
  predicate VisitorCannotCause(up: Reply) {
    || up.status == 0 || up.status >= 500
    || (&& up.code != "login_taken" && up.code != "credential_exists" && up.code != "login_fixed" && up.code != "beyond_floor"
        && up.code != "promotion_refused" && up.code != "bootstrap_invite_live" && up.code != "invite_not_live"
        && up.code != "tenant_not_empty" && up.code != "target_beyond_floor" && up.code != "invalid_login"
        && up.code != "user_not_found" && up.code != "login_not_found" && up.code != "invite_not_found"
        && up.code != "unknown_group" && up.code != "invalid_ttl")
  }

  lemma FaultIs(up: Reply)
    ensures RuntimeFault(up) <==> VisitorCannotCause(up)
  {
  }

  /** When a handler has exited, the visitor's slots are all kept or all given back. They are given
      back after the flow ran exactly when no revoke was sent and no owner row made, and the flow
      failed on a runtime fault or on something unexpected. */
  lemma VisitorSlotsAllOrNone(states: seq<State>, steps: seq<Step>, tenant: string, i: nat, h: nat)
    requires IsTrace(states, steps, tenant) && i < |states| && h < |states[i].handlers| && states[i].handlers[h].phase.Exited?
    ensures var s, me := states[i], states[i].handlers[h];
            && (VisitorHeld(s, me) || VisitorFree(s, me))
            && (me.result.None? ==> VisitorFree(s, me))
            && (me.result.Some? ==>
                  (VisitorFree(s, me) <==>
                    && me.past.revokes == 0 && !me.past.ownerMade
                    && match me.result.value
                       case Answered => false
                       case InviteRefused(up) => VisitorCannotCause(up)
                       case UpstreamFailure(up) => VisitorCannotCause(up)
                       case Unexpected => true))
  {
    InvAlways(states, steps, tenant, i);
    assert HandlerOk(states[i], h);
    var result := states[i].handlers[h].result;
    if result.Some? && (result.value.InviteRefused? || result.value.UpstreamFailure?) { FaultIs(result.value.up); }
  }

  predicate Written(past: Past) {
    past.revokes > 0 || past.ownerLanded || past.invite.Some?
  }

  /** The slots come back although something took effect upstream, then or later, in exactly three
      ways, no revoke having been sent and no owner row acknowledged: the invite did, and its answer was
      a runtime fault; the owner row did, and its answer was one; or the invite did, and writing the
      response raised. */
  lemma FreedThoughWritten(states: seq<State>, steps: seq<Step>, tenant: string, i: nat, h: nat)
    requires IsTrace(states, steps, tenant) && i < |states| && h < |states[i].handlers| && states[i].handlers[h].phase.Exited?
    ensures var me := states[i].handlers[h];
            VisitorFree(states[i], me) && Written(me.past) <==>
              && me.result.Some? && me.past.revokes == 0 && !me.past.ownerMade
              && match me.result.value
                 case Answered => false
                 case InviteRefused(up) => me.past.invite.Some? && VisitorCannotCause(up)
                 case UpstreamFailure(up) => me.past.ownerLanded && VisitorCannotCause(up)
                 case Unexpected => me.past.invite.Some?
    ensures var me := states[i].handlers[h]; states[i].shared ==> InviteIsTheirs(states[i].invites, me)
  {
    InvAlways(states, steps, tenant, i);
    assert HandlerOk(states[i], h);
    var result := states[i].handlers[h].result;
    if result.Some? && (result.value.InviteRefused? || result.value.UpstreamFailure?) { FaultIs(result.value.up); }
    assert LandedOk(states[i].handlers[h]);
  }

  /** The shared tenant's slot stays held exactly when an invite was acknowledged and no revoke of
      an earlier one was sent. */
  lemma TenantSlotExactly(states: seq<State>, steps: seq<Step>, tenant: string, i: nat, h: nat)
    requires IsTrace(states, steps, tenant) && i < |states| && h < |states[i].handlers|
    requires states[i].handlers[h].phase.Exited? && states[i].handlers[h].who.slots.tenant.Some?
    ensures var s, me := states[i], states[i].handlers[h];
            s.shared ==>
              && me.who.slots.tenant.value < |s.tenantSlots|
              && (!s.tenantSlots[me.who.slots.tenant.value].released <==> me.past.inviteMade && me.past.revokes == 0)
  {
    InvAlways(states, steps, tenant, i);
    assert HandlerOk(states[i], h);
  }

  lemma {:induction false} ImageSize(hs: set<nat>, f: nat -> nat)
    requires forall a, b :: a in hs && b in hs && f(a) == f(b) ==> a == b
    ensures |set h | h in hs :: f(h)| == |hs|
    decreases hs
  {
    if hs != {} {
      var x :| x in hs;
      ImageSize(hs - {x}, f);
      assert (set h | h in hs :: f(h)) == (set h | h in hs - {x} :: f(h)) + {f(x)};
    } else {
      assert (set h | h in hs :: f(h)) == {};
    }
  }

  predicate AddedSomeone(me: Handler, from: int) {
    me.past.inviteMade && me.past.revokes == 0 && from <= me.who.reservedAt < from + 86400000
  }

  function TenantSlot(s: State, h: nat): nat {
    if h < |s.handlers| && s.handlers[h].who.slots.tenant.Some? then s.handlers[h].who.slots.tenant.value else 0
  }

  lemma AddedHoldsItsSlot(s: State, h: nat, tenant: string, from: int)
    requires Inv(s, tenant) && s.shared && h < |s.handlers| && AddedSomeone(s.handlers[h], from)
    ensures s.handlers[h].who.slots.tenant.Some? && TenantSlot(s, h) in InWindow(s.tenantSlots, tenant, from, 24 * HOUR)
  {
    assert HandlerOk(s, h);
  }

  lemma LaterSlot(s: State, a: nat, b: nat)
    requires SlotsApart(s) && a < b < |s.handlers|
    requires s.handlers[a].who.slots.tenant.Some? && s.handlers[b].who.slots.tenant.Some?
    ensures TenantSlot(s, a) < TenantSlot(s, b)
  {
    assert Earlier(s.handlers[a].who.slots, s.handlers[b].who.slots);
  }

  lemma NoMoreThanTheirSlots(s: State, hs: set<nat>, window: set<nat>)
    requires SlotsApart(s)
    requires forall h :: h in hs ==> h < |s.handlers| && s.handlers[h].who.slots.tenant.Some? && TenantSlot(s, h) in window
    ensures |hs| <= |window|
  {
    var f := (h: nat) => TenantSlot(s, h);
    forall a, b | a in hs && b in hs && f(a) == f(b) ensures a == b {
      if a < b { LaterSlot(s, a, b); } else if b < a { LaterSlot(s, b, a); }
    }
    ImageSize(hs, f);
    SubsetSize(set h | h in hs :: f(h), window);
  }

  /** At most 20 acknowledged invites that replaced none, of those whose slots were reserved within
      any one day. */
  lemma AtMostTwentyADay(states: seq<State>, steps: seq<Step>, tenant: string, i: nat, hs: set<nat>, from: int)
    requires IsTrace(states, steps, tenant) && i < |states| && states[i].shared
    requires forall h :: h in hs ==> h < |states[i].handlers| && AddedSomeone(states[i].handlers[h], from)
    ensures |hs| <= 20
  {
    InvAlways(states, steps, tenant, i);
    InOneDay(states[i], tenant, hs, from);
  }

  lemma InOneDay(s: State, tenant: string, hs: set<nat>, from: int)
    requires Inv(s, tenant) && s.shared
    requires forall h :: h in hs ==> h < |s.handlers| && AddedSomeone(s.handlers[h], from)
    ensures |hs| <= 20
  {
    var window := InWindow(s.tenantSlots, tenant, from, 24 * HOUR);
    forall h | h in hs
      ensures s.handlers[h].who.slots.tenant.Some? && TenantSlot(s, h) in window
    {
      AddedHoldsItsSlot(s, h, tenant, from);
    }
    NoMoreThanTheirSlots(s, hs, window);
    AtMostMaxPerWindow(s.tenantSlots, SHARED_TENANT_LIMIT, tenant, from);
  }
}
