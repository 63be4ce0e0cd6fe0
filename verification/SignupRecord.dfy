/** The signup flow read off the steps: a record of what was sent and answered, kept from the steps
    alone, against which the handlers' own fields, their slots and their order of calls are proved. */
module SignupRecord {
  import opened Wrappers
  import opened Grants
  import opened Signup
  import opened SignupProofs
  import opened SignupTheorems

  // ---------------------------------------------------------------- the record

  /** `refusal` is the answer of a create that made no invite; `found` and `listed` are what the reads
      brought, a list only if the flow goes on from it. */
  datatype Record = Record(past: Past, refusal: Option<Reply>, result: Option<Outcome>, found: Option<Finding>, listed: Option<seq<nat>>)

  const BLANK := Record(Past(0, false, false, false, None, false, false), None, None, None, None)

  function Failed(rec: Record, ans: Ans): Record {
    rec.(result := Some(if ans.Broke? then Unexpected else UpstreamFailure(ans.up)))
  }

  function Acknowledged(ans: Ans): bool {
    ans.Answer? && ans.up.status == 201
  }

  function NoAnswer(ans: Ans): bool {
    ans.Answer? && (ans.up.status == 0 || ans.up.status >= 500)
  }

  function Noted(rec: Record, st: Step, shared: bool): Record {
    match st
    case Read(_, read) =>
      (match read
       case Found(what) => rec.(found := Some(what))
       case ReadFailed(up) => rec.(result := Some(UpstreamFailure(up)))
       case ReadBroke => rec.(result := Some(Unexpected)))
    case List(_, list, atCap) =>
      (match list
       case Listed(mine) => if shared && atCap then rec else rec.(listed := Some(mine))
       case ListFailed(up) => rec.(result := Some(UpstreamFailure(up)))
       case ListBroke => rec.(result := Some(Unexpected)))
    case Revoke(_, ans, _) =>
      var sent := rec.(past := rec.past.(revokes := rec.past.revokes + 1));
      if ans.Answer? && (ans.up.status == 204 || ans.up.code == "invite_not_live") then sent else Failed(sent, ans)
    case MakeOwner(_, ans, effect) =>
      var sent := rec.(past := rec.past.(ownerMade := rec.past.ownerMade || Acknowledged(ans),
                                         ownerLanded := rec.past.ownerLanded || effect,
                                         ownerOpen := !rec.past.ownerLanded && !effect && NoAnswer(ans)));
      if Acknowledged(ans) then sent else Failed(sent, ans)
    case CreateInvite(_, ans, effect, i) =>
      var sent := rec.(past := rec.past.(inviteMade := rec.past.inviteMade || Acknowledged(ans),
                                         invite := if effect then Some(i) else None,
                                         inviteOpen := !effect && NoAnswer(ans)));
      if ans.Broke? then Failed(sent, ans) else if Acknowledged(ans) then sent else sent.(refusal := Some(ans.up))
    case Respond(_, broke) =>
      rec.(result := Some(if broke then Unexpected else if rec.refusal.Some? then InviteRefused(rec.refusal.value) else Answered))
    case Land(_, i) => rec.(past := rec.past.(invite := Some(i), inviteOpen := false))
    case LandOwner(_) => rec.(past := rec.past.(ownerLanded := true, ownerOpen := false))
    case _ => rec
  }

  /** What the steps of one handler did. */
  function RecordOf(steps: seq<Step>, h: nat, shared: bool): Record {
    if steps == [] then BLANK
    else
      var rest, last := RecordOf(steps[..|steps| - 1], h, shared), steps[|steps| - 1];
      if Actor(last) == Some(h) then Noted(rest, last, shared) else rest
  }

  /** The flow may go on to an invite from what was found. */
  predicate GoesOn(found: Option<Finding>) {
    found.Some? && !found.value.AccountExists? && !found.value.KnownVisitor?
  }

  /** It goes there by way of the list. */
  predicate ByList(found: Option<Finding>, makeOwner: bool) {
    GoesOn(found) && (makeOwner <==> found.value.NewTenant?) && (makeOwner ==> found.value.inviteLive)
  }

  /** Everything listed was revoked, one call each. */
  predicate AllRevoked(rec: Record) {
    rec.listed.Some? && rec.past.revokes == |rec.listed.value|
  }

  /** Where a handler is in its flow, by its record. */
  predicate OnRoute(phase: Phase, rec: Record) {
    match phase
    case Checking => rec == BLANK
    case Queued => rec == BLANK
    case Reading => rec == BLANK
    case Listing(makeOwner) =>
      ByList(rec.found, makeOwner) && rec.listed.None? && rec.past.revokes == 0
    case Revoking(todo, makeOwner) =>
      && ByList(rec.found, makeOwner) && rec.listed.Some?
      && rec.past.revokes < |rec.listed.value| && todo == rec.listed.value[rec.past.revokes..]
    case MakingOwner =>
      && rec.found.Some? && rec.found.value.NewTenant?
      && if rec.found.value.inviteLive then AllRevoked(rec) else rec.past.revokes == 0
    case Inviting => GoesOn(rec.found) && if rec.found.value.NewTenant? then rec.past.ownerMade else AllRevoked(rec)
    case _ => true
  }

  predicate Agrees(me: Handler, rec: Record) {
    && me.past == rec.past && me.result == rec.result && OnRoute(me.phase, rec)
    && (me.phase.Replying? ==> me.phase.answer == if rec.refusal.Some? then InviteRefused(rec.refusal.value) else Answered)
    && (rec.refusal.Some? ==> me.phase.Replying? || me.result.Some?)
    && (rec.result.Some? ==> me.phase.Leaving? || me.phase.Exited?)
    && (!me.phase.Exited? && !me.phase.Leaving? && !me.phase.Replying? ==> !me.past.inviteMade)
    && (!me.phase.Exited? && !me.phase.Leaving? && !me.phase.Replying? && !me.phase.Inviting? ==> !me.past.ownerMade)
  }

  lemma OpeningAgrees(me: Handler, st: Step, rec: Record, shared: bool)
    requires AtAwait(me, st, shared) && Agrees(me, rec) && (st.Health? || st.Begin?)
    ensures Agrees(Next(me, st, shared), Noted(rec, st, shared))
  {
  }

  lemma ReadAgrees(me: Handler, h: nat, read: ReadAns, rec: Record, shared: bool)
    requires me.phase.Reading? && Agrees(me, rec)
    ensures Agrees(AfterRead(me, read), Noted(rec, Read(h, read), shared))
  {
  }

  lemma ListAgrees(me: Handler, h: nat, list: ListAns, atCap: bool, rec: Record, shared: bool)
    requires me.phase.Listing? && Agrees(me, rec)
    ensures Agrees(AfterList(me, list, shared && atCap), Noted(rec, List(h, list, atCap), shared))
  {
    if list.Listed? { assert list.mine[0..] == list.mine; }
  }

  /** After the k-th of the listed invites was revoked, the flow is where its record says. */
  lemma NextRevoke(todo: seq<nat>, mine: seq<nat>, k: nat, rec: Record, makeOwner: bool)
    requires k < |mine| && todo == mine[k..] && rec.listed == Some(mine) && rec.past.revokes == k + 1 && ByList(rec.found, makeOwner)
    ensures OnRoute(AfterRevokes(todo[1..], makeOwner), rec)
    ensures AfterRevokes(todo[1..], makeOwner).Revoking? || AfterRevokes(todo[1..], makeOwner).MakingOwner? || AfterRevokes(todo[1..], makeOwner).Inviting?
  {
    assert todo[1..] == mine[k + 1..];
  }

  lemma RevokeAgrees(me: Handler, h: nat, ans: Ans, effect: bool, rec: Record, shared: bool)
    requires me.phase.Revoking? && me.phase.todo != [] && Agrees(me, rec)
    ensures Agrees(AfterRevoke(me, ans, shared), Noted(rec, Revoke(h, ans, effect), shared))
  {
    if Revoked(ans) {
      NextRevoke(me.phase.todo, rec.listed.value, rec.past.revokes, Noted(rec, Revoke(h, ans, effect), shared), me.phase.makeOwner);
    }
  }

  lemma OwnerAgrees(me: Handler, h: nat, ans: Ans, effect: bool, rec: Record, shared: bool)
    requires me.phase.MakingOwner? && Agrees(me, rec)
    ensures Agrees(AfterOwner(me, ans, effect), Noted(rec, MakeOwner(h, ans, effect), shared))
  {
  }

  lemma CreateAgrees(me: Handler, h: nat, ans: Ans, effect: bool, i: nat, rec: Record, shared: bool)
    requires me.phase.Inviting? && Agrees(me, rec)
    ensures Agrees(AfterCreate(me, ans, shared, if effect then Some(i) else None), Noted(rec, CreateInvite(h, ans, effect, i), shared))
  {
  }

  lemma LateAgrees(me: Handler, st: Step, rec: Record, shared: bool)
    requires AtAwait(me, st, shared) && Agrees(me, rec) && (st.Respond? || st.Finish? || st.Land? || st.LandOwner?)
    ensures Agrees(Next(me, st, shared), Noted(rec, st, shared))
  {
  }

  lemma AgreesStep(me: Handler, st: Step, rec: Record, shared: bool)
    requires AtAwait(me, st, shared) && Agrees(me, rec)
    ensures Agrees(Next(me, st, shared), Noted(rec, st, shared))
  {
    match st
    case Read(h, read) => ReadAgrees(me, h, read, rec, shared);
    case List(h, list, atCap) => ListAgrees(me, h, list, atCap, rec, shared);
    case Revoke(h, ans, effect) => RevokeAgrees(me, h, ans, effect, rec, shared);
    case MakeOwner(h, ans, effect) => OwnerAgrees(me, h, ans, effect, rec, shared);
    case CreateInvite(h, ans, effect, i) => CreateAgrees(me, h, ans, effect, i, rec, shared);
    case Respond(_, _) => LateAgrees(me, st, rec, shared);
    case Finish(_) => LateAgrees(me, st, rec, shared);
    case Land(_, _) => LateAgrees(me, st, rec, shared);
    case LandOwner(_) => LateAgrees(me, st, rec, shared);
    case _ => OpeningAgrees(me, st, rec, shared);
  }

  lemma {:induction false} SharedStays(states: seq<State>, steps: seq<Step>, tenant: string, i: nat)
    requires IsTrace(states, steps, tenant) && i < |states|
    ensures states[i].shared == states[0].shared
  {
    if i == 0 {
    } else {
      SharedStays(states, steps, tenant, i - 1);
      InvAlways(states, steps, tenant, i - 1);
      InvStep(states[i - 1], steps[i - 1], tenant);
    }
  }

  lemma NewAgrees(s: State, st: Step)
    requires Ready(s, st) && |s.handlers| < |Apply(s, st).handlers|
    ensures |Apply(s, st).handlers| == |s.handlers| + 1 && Actor(st).None?
    ensures Agrees(Apply(s, st).handlers[|s.handlers|], BLANK)
  {
  }

  lemma RecordSnoc(steps: seq<Step>, i: nat, h: nat, shared: bool)
    requires i < |steps|
    ensures RecordOf(steps[..i + 1], h, shared) ==
            var rec := RecordOf(steps[..i], h, shared); if Actor(steps[i]) == Some(h) then Noted(rec, steps[i], shared) else rec
  {
    assert steps[..i + 1][..i] == steps[..i];
  }

  lemma {:induction false} NothingBeforeArrival(states: seq<State>, steps: seq<Step>, tenant: string, i: nat, h: nat)
    requires IsTrace(states, steps, tenant) && i < |states| && |states[i].handlers| <= h
    ensures RecordOf(steps[..i], h, states[0].shared) == BLANK
  {
    if i == 0 {
    } else {
      RecordSnoc(steps, i - 1, h, states[0].shared);
      HandlersOnlyAdded(states[i - 1], steps[i - 1]);
      NothingBeforeArrival(states, steps, tenant, i - 1, h);
    }
  }

  lemma HandlersOnlyAdded(s: State, st: Step)
    requires Ready(s, st)
    ensures |s.handlers| <= |Apply(s, st).handlers|
  {
  }

  lemma RecordStep(s: State, st: Step, rec: Record, h: nat)
    requires Ready(s, st) && h < |s.handlers| && Agrees(s.handlers[h], rec)
    ensures h < |Apply(s, st).handlers|
    ensures Agrees(Apply(s, st).handlers[h], if Actor(st) == Some(h) then Noted(rec, st, s.shared) else rec)
  {
    if Actor(st) == Some(h) {
      ActorMoves(s, st);
      AgreesStep(s.handlers[h], st, rec, s.shared);
    } else {
      OnlyActorMoves(s, st, h);
    }
  }

  lemma RecordNext(states: seq<State>, steps: seq<Step>, tenant: string, i: nat, h: nat)
    requires IsTrace(states, steps, tenant) && i < |steps| && h < |states[i].handlers| && states[i].shared == states[0].shared
    requires Agrees(states[i].handlers[h], RecordOf(steps[..i], h, states[0].shared))
    ensures h < |states[i + 1].handlers| && Agrees(states[i + 1].handlers[h], RecordOf(steps[..i + 1], h, states[0].shared))
  {
    RecordSnoc(steps, i, h, states[0].shared);
    RecordStep(states[i], steps[i], RecordOf(steps[..i], h, states[0].shared), h);
  }

  lemma RecordNew(states: seq<State>, steps: seq<Step>, tenant: string, i: nat, h: nat)
    requires IsTrace(states, steps, tenant) && i < |steps| && |states[i].handlers| <= h < |states[i + 1].handlers|
    ensures Agrees(states[i + 1].handlers[h], RecordOf(steps[..i + 1], h, states[0].shared))
  {
    NewAgrees(states[i], steps[i]);
    RecordSnoc(steps, i, h, states[0].shared);
    NothingBeforeArrival(states, steps, tenant, i, h);
  }

  /** What a handler keeps about its past, its result and its place in the flow is what the steps did:
      the revokes that were sent, the creates that were acknowledged or took effect, and the answer or
      exception that ended it. */
  lemma {:induction false} RecordIsTrue(states: seq<State>, steps: seq<Step>, tenant: string, i: nat, h: nat)
    requires IsTrace(states, steps, tenant) && i < |states| && h < |states[i].handlers|
    ensures Agrees(states[i].handlers[h], RecordOf(steps[..i], h, states[0].shared))
  {
    if i == 0 {
    } else if h < |states[i - 1].handlers| {
      SharedStays(states, steps, tenant, i - 1);
      RecordIsTrue(states, steps, tenant, i - 1, h);
      RecordNext(states, steps, tenant, i - 1, h);
    } else {
      RecordNew(states, steps, tenant, i - 1, h);
    }
  }

  // ---------------------------------------------------------------- when the slots come back

  /** At exit the visitor's slots, by the steps alone: back when the flow never ran; kept once a revoke
      was sent or an owner row acknowledged; and else back exactly when something unexpected was raised,
      or the call that failed was answered by nothing, by a server error, or by a code that is not one
      of the fifteen a visitor can cause. */
  lemma SlotsByTheReply(states: seq<State>, steps: seq<Step>, tenant: string, i: nat, h: nat)
    requires IsTrace(states, steps, tenant) && i < |states| && h < |states[i].handlers| && states[i].handlers[h].phase.Exited?
    ensures var s, me := states[i], states[i].handlers[h];
            var rec := RecordOf(steps[..i], h, states[0].shared);
            && (rec.result.None? ==> VisitorFree(s, me))
            && (rec.result.Some? ==> me.who.slots.ip.Some? && me.who.slots.id.Some? && (me.who.slots.day.Some? <==> s.shared))
            && (rec.result.Some? ==> if ComesBack(rec) then VisitorFree(s, me) else VisitorHeld(s, me))
  {
    InvAlways(states, steps, tenant, i);
    assert HandlerOk(states[i], h);
    RecordIsTrue(states, steps, tenant, i, h);
    var me := states[i].handlers[h];
    if me.result.Some? { SpentIsKept(me, RecordOf(steps[..i], h, states[0].shared), states[i].shared); }
  }

  predicate ComesBack(rec: Record)
    requires rec.result.Some?
  {
    && rec.past.revokes == 0 && !rec.past.ownerMade
    && match rec.result.value
       case Answered => false
       case Unexpected => true
       case InviteRefused(up) => VisitorCannotCause(up)
       case UpstreamFailure(up) => VisitorCannotCause(up)
  }

  lemma SpentIsKept(me: Handler, rec: Record, shared: bool)
    requires FlagsOk(me, shared) && Agrees(me, rec) && me.result.Some?
    ensures Spent(me.result.value, me.wrote) <==> !ComesBack(rec)
  {
  }

  // ---------------------------------------------------------------- who gets an invite

  /** An invite is created only for a visitor without an account, only after every invite listed for
      revoking was revoked, for a new tenant only after its owner row was acknowledged, and never once
      the cap was met. */
  lemma CreatedOnlyWhenDue(states: seq<State>, steps: seq<Step>, tenant: string, i: nat)
    requires IsTrace(states, steps, tenant) && i < |steps| && steps[i].CreateInvite?
    ensures var rec := RecordOf(steps[..i], steps[i].h, states[0].shared);
            && rec.found.Some? && !rec.found.value.AccountExists? && !rec.found.value.KnownVisitor?
            && rec.result.None? && rec.refusal.None? && !rec.past.inviteMade
            && (if rec.found.value.NewTenant? then rec.past.ownerMade
                else rec.listed.Some? && rec.past.revokes == |rec.listed.value|)
  {
    RecordIsTrue(states, steps, tenant, i, steps[i].h);
  }

  /** A revoke is of the next invite on the list, and one that succeeds leaves it dead. */
  lemma RevokesWhatItListed(states: seq<State>, steps: seq<Step>, tenant: string, i: nat)
    requires IsTrace(states, steps, tenant) && i < |steps| && steps[i].Revoke?
    ensures var rec := RecordOf(steps[..i], steps[i].h, states[0].shared);
            && rec.listed.Some? && rec.past.revokes < |rec.listed.value|
            && (var dead := rec.listed.value[rec.past.revokes];
                steps[i].ans.Answer? && (steps[i].ans.up.status == 204 || steps[i].ans.up.code == "invite_not_live") && dead in states[i].invites ==>
                  dead in states[i + 1].invites && !states[i + 1].invites[dead].live)
  {
    RecordIsTrue(states, steps, tenant, i, steps[i].h);
  }

  /** Shared mode turns a visitor away at the list exactly when fifty website invites of other logins
      are live. */
  lemma FiftyIsFull(states: seq<State>, steps: seq<Step>, tenant: string, i: nat)
    requires IsTrace(states, steps, tenant) && i < |steps| && steps[i].List? && steps[i].list.Listed? && states[i].shared
    ensures var s, me := states[i], states[i].handlers[steps[i].h];
            var others := set k | k in s.invites && s.invites[k].live && s.invites[k].website && s.invites[k].login != me.who.login;
            |others| >= 50 <==> states[i + 1].handlers[steps[i].h].phase == Replying(Answered)
  {
    var s, me := states[i], states[i].handlers[steps[i].h];
    var others := set k | k in s.invites && s.invites[k].live && s.invites[k].website && s.invites[k].login != me.who.login;
    assert others == LiveWebsite(s.invites) - LiveMine(s.invites, me.who.login);
    ActorMoves(s, steps[i]);
  }

  // ---------------------------------------------------------------- who gets in

  lemma OtherKeyAside(h: seq<Grant>, taken: string, key: string, now: int, window: int)
    requires taken != key
    ensures LiveAt(Granted(h, taken, now), key, now, window) == LiveAt(h, key, now, window)
  {
    assert forall i :: 0 <= i < |h| ==> Granted(h, taken, now)[i] == h[i];
  }

  /** A visitor gets in exactly while fewer than ten signups an hour are held by their address and by
      their identity, and in shared mode fewer than three a day by the identity and twenty by the
      tenant. */
  lemma AdmittedExactly(states: seq<State>, steps: seq<Step>, tenant: string, i: nat)
    requires IsTrace(states, steps, tenant) && i < |steps| && steps[i].Arrive?
    ensures var s, st := states[i], steps[i];
            var admitted :=
              && |Recent(s.sign, "ip:" + st.ip, s.now, 3600000)| < 10 && |Recent(s.sign, "id:" + st.subject, s.now, 3600000)| < 10
              && (s.shared ==> |Recent(s.day, st.subject, s.now, 86400000)| < 3 && |Recent(s.tenantSlots, st.tenant, s.now, 86400000)| < 20);
            && |states[i + 1].handlers| == |s.handlers| + 1
            && states[i + 1].handlers[|s.handlers|].phase == if !admitted then Exited else if s.shared then Checking else Queued
  {
    var s, st := states[i], steps[i];
    RecentIsLive(s.sign, "ip:" + st.ip, s.now, 3600000);
    RecentIsLive(s.sign, "id:" + st.subject, s.now, 3600000);
    RecentIsLive(s.day, st.subject, s.now, 86400000);
    RecentIsLive(s.tenantSlots, st.tenant, s.now, 86400000);
    assert ("ip:" + st.ip)[1] != ("id:" + st.subject)[1];
    OtherKeyAside(s.sign, "ip:" + st.ip, "id:" + st.subject, s.now, 3600000);
  }

  ghost predicate SlotIs(h: seq<Grant>, slot: Option<nat>, key: string, t: int) {
    slot.Some? ==> slot.value < |h| && h[slot.value].key == key && h[slot.value].t == t
  }

  /** The slots a handler has are the visitor's own, taken when they came. */
  ghost predicate TheirSlots(s: State, me: Handler, arrive: Step, t: int)
    requires arrive.Arrive?
  {
    && me.who.login == arrive.login && me.who.tenant == arrive.tenant
    && SlotIs(s.sign, me.who.slots.ip, "ip:" + arrive.ip, t) && SlotIs(s.sign, me.who.slots.id, "id:" + arrive.subject, t)
    && SlotIs(s.day, me.who.slots.day, arrive.subject, t) && SlotIs(s.tenantSlots, me.who.slots.tenant, arrive.tenant, t)
  }

  /** Grants are added and released, never changed otherwise. */
  ghost predicate OnlyReleases(h: seq<Grant>, h': seq<Grant>) {
    |h| <= |h'| && forall i {:trigger h'[i]} :: 0 <= i < |h| ==> h'[i].key == h[i].key && h'[i].t == h[i].t && (h[i].released ==> h'[i].released)
  }

  lemma HistoriesOnlyRelease(s: State, st: Step)
    requires Ready(s, st)
    ensures var s' := Apply(s, st);
            OnlyReleases(s.sign, s'.sign) && OnlyReleases(s.day, s'.day) && OnlyReleases(s.tenantSlots, s'.tenantSlots)
  {
    if st.Arrive? {
      ArriveFacts(s, st.tenant, st.subject, st.login, st.ip, st.room);
    } else if Actor(st).Some? {
      ActorMoves(s, st);
    }
  }

  lemma WhoStays(s: State, st: Step, h: nat)
    requires Ready(s, st) && h < |s.handlers|
    ensures h < |Apply(s, st).handlers| && Apply(s, st).handlers[h].who == s.handlers[h].who
  {
    if Actor(st) == Some(h) { ActorMoves(s, st); } else { OnlyActorMoves(s, st, h); }
  }

  lemma {:induction false} SlotsAreTheVisitors(states: seq<State>, steps: seq<Step>, tenant: string, i: nat, j: nat)
    requires IsTrace(states, steps, tenant) && i < j < |states| && steps[i].Arrive?
    ensures var h := |states[i].handlers|;
            h < |states[j].handlers| && TheirSlots(states[j], states[j].handlers[h], steps[i], states[i].now)
  {
    if j == i + 1 {
    } else {
      SlotsAreTheVisitors(states, steps, tenant, i, j - 1);
      HistoriesOnlyRelease(states[j - 1], steps[j - 1]);
      WhoStays(states[j - 1], steps[j - 1], |states[i].handlers|);
    }
  }

  /** Of the slots taken in any one hour at most ten are still held by one address, and ten by one
      identity; of those of any one day three by one identity and twenty by one tenant. */
  lemma HeldSlotsBounded(states: seq<State>, steps: seq<Step>, tenant: string, i: nat, key: string, from: int)
    requires IsTrace(states, steps, tenant) && i < |states|
    ensures |InWindow(states[i].sign, key, from, 3600000)| <= 10
    ensures |InWindow(states[i].day, key, from, 86400000)| <= 3
    ensures |InWindow(states[i].tenantSlots, key, from, 86400000)| <= 20
  {
    InvAlways(states, steps, tenant, i);
    AtMostMaxPerWindow(states[i].sign, SIGNUP_LIMIT, key, from);
    AtMostMaxPerWindow(states[i].day, SHARED_ID_LIMIT, key, from);
    AtMostMaxPerWindow(states[i].tenantSlots, SHARED_TENANT_LIMIT, key, from);
  }
}
