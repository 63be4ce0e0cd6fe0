/** Runs of the signup flow that give the visitor's slots back although something was written
    upstream, one for each way FreedThoughWritten names, and one in which a late invite is the second of
    its login. */
module SignupExceptions {
  import opened Wrappers
  import opened Grants
  import opened Signup
  import opened SignupProofs
  import opened SignupTheorems

  lemma Extend(states: seq<State>, steps: seq<Step>, tenant: string, st: Step)
    requires IsTrace(states, steps, tenant)
    requires var s := states[|steps|]; Ready(s, st) && Truthful(s, st) && (st.Arrive? && s.shared ==> st.tenant == tenant)
    ensures IsTrace(states + [Apply(states[|steps|], st)], steps + [st], tenant)
  {
    var ss, ts := states + [Apply(states[|steps|], st)], steps + [st];
    assert ss[0] == states[0];
    forall i | 0 <= i < |ts|
      ensures Ready(ss[i], ts[i]) && Truthful(ss[i], ts[i]) && ss[i + 1] == Apply(ss[i], ts[i])
      ensures ts[i].Arrive? && ss[i].shared ==> ts[i].tenant == tenant
    {
      if i < |steps| {
        assert ss[i] == states[i] && ss[i + 1] == states[i + 1] && ts[i] == steps[i];
      }
    }
  }

  const ROOM := Room(true, true, true, true)

  ghost predicate AllReleased(h: seq<Grant>) {
    forall i {:trigger h[i]} :: 0 <= i < |h| ==> h[i].released
  }

  /** Nobody holds a slot, and nobody is in the tenant's lock. */
  ghost predicate Quiet(s: State, tenant: string) {
    AllReleased(s.sign) && AllReleased(s.day) && AllReleased(s.tenantSlots) && QueueOf(s, tenant) == []
  }

  ghost predicate OnlyHolds(h: seq<Grant>, a: Option<nat>, b: Option<nat>) {
    forall i {:trigger h[i]} :: 0 <= i < |h| && !h[i].released ==> Some(i) == a || Some(i) == b
  }

  /** Nobody but this handler holds a slot. */
  ghost predicate OnlyTheirs(s: State, slots: Slots) {
    OnlyHolds(s.sign, slots.ip, slots.id) && OnlyHolds(s.day, slots.day, slots.day) && OnlyHolds(s.tenantSlots, slots.tenant, slots.tenant)
  }

  lemma RoomWhenQuiet(s: State, tenant: string, subject: string, ip: string)
    requires Quiet(s, tenant)
    ensures RoomAsked(s, tenant, subject, ip, ROOM)
  {
    assert LiveAt(s.sign, "ip:" + ip, s.now, HOUR) == {};
    assert LiveAt(s.day, subject, s.now, 24 * HOUR) == {};
    assert LiveAt(s.tenantSlots, tenant, s.now, 24 * HOUR) == {};
    assert ("ip:" + ip)[1] != ("id:" + subject)[1];
    assert LiveAt(Granted(s.sign, "ip:" + ip, s.now), "id:" + subject, s.now, HOUR) == {};
  }

  /** The latest handler is this visitor's, at this phase, having sent nothing; everything else is as it
      was in `base`. */
  ghost predicate Visits(base: State, s: State, tenant: string, login: string, phase: Phase) {
    var h := |base.handlers|;
    && s.shared == base.shared && s.invites == base.invites && s.late == base.late
    && |s.handlers| == h + 1 && s.handlers[..h] == base.handlers
    && s.handlers[h].phase == phase && s.handlers[h].past == NOTHING && !s.handlers[h].wrote && !s.handlers[h].created
    && s.handlers[h].who.login == login && s.handlers[h].who.tenant == tenant
    && QueueOf(s, tenant) == (if phase.Checking? then [] else [h])
    && OnlyTheirs(s, s.handlers[h].who.slots)
  }

  lemma Arrives(s: State, tenant: string, subject: string, login: string, ip: string)
    requires Quiet(s, tenant)
    ensures var st := Arrive(tenant, subject, login, ip, ROOM);
            && Ready(s, st) && Truthful(s, st)
            && Visits(s, Apply(s, st), tenant, login, if s.shared then Checking else Queued)
  {
    RoomWhenQuiet(s, tenant, subject, ip);
  }

  /** Letting the visitor through the health check, into the lock, and past its reads. */
  lemma Goes(base: State, s: State, tenant: string, login: string, phase: Phase, st: Step, next: Phase)
    requires Visits(base, s, tenant, login, phase) && Actor(st) == Some(|base.handlers|)
    requires || (phase == Checking && st == Health(|base.handlers|, true) && next == Queued)
             || (phase == Queued && st == Begin(|base.handlers|) && next == Reading)
             || (phase == Reading && s.shared && st == Read(|base.handlers|, Found(Clear)) && next == Listing(false))
             || (phase == Reading && !s.shared && st == Read(|base.handlers|, Found(NewTenant(false))) && next == MakingOwner)
             || (phase == Listing(false) && LiveWebsite(s.invites) == {} && st == List(|base.handlers|, Listed([]), false) && next == Inviting)
    ensures Ready(s, st) && Truthful(s, st) && Visits(base, Apply(s, st), tenant, login, next)
  {
    if st.List? { assert LiveMine(s.invites, login) <= LiveWebsite(s.invites); }
  }

  lemma Go(base: State, states: seq<State>, steps: seq<Step>, tenant: string, login: string, phase: Phase, st: Step, next: Phase)
    returns (states': seq<State>, steps': seq<Step>)
    requires IsTrace(states, steps, tenant) && Visits(base, states[|steps|], tenant, login, phase) && Actor(st) == Some(|base.handlers|)
    requires var s := states[|steps|]; Ready(s, st) && Truthful(s, st) && Visits(base, Apply(s, st), tenant, login, next)
    ensures IsTrace(states', steps', tenant) && Visits(base, states'[|steps'|], tenant, login, next)
  {
    Extend(states, steps, tenant, st);
    states', steps' := states + [Apply(states[|steps|], st)], steps + [st];
  }

  lemma ReachReading(states: seq<State>, steps: seq<Step>, tenant: string, subject: string, login: string, ip: string)
    returns (states': seq<State>, steps': seq<Step>)
    requires IsTrace(states, steps, tenant) && Quiet(states[|steps|], tenant)
    ensures IsTrace(states', steps', tenant) && Visits(states[|steps|], states'[|steps'|], tenant, login, Reading)
  {
    var base := states[|steps|];
    var h, arrive := |base.handlers|, Arrive(tenant, subject, login, ip, ROOM);
    Arrives(base, tenant, subject, login, ip);
    Extend(states, steps, tenant, arrive);
    states', steps' := states + [Apply(base, arrive)], steps + [arrive];
    if base.shared {
      Goes(base, states'[|steps'|], tenant, login, Checking, Health(h, true), Queued);
      states', steps' := Go(base, states', steps', tenant, login, Checking, Health(h, true), Queued);
    }
    Goes(base, states'[|steps'|], tenant, login, Queued, Begin(h), Reading);
    states', steps' := Go(base, states', steps', tenant, login, Queued, Begin(h), Reading);
  }

  /** In shared mode, about to create the invite. */
  lemma ReachInviting(states: seq<State>, steps: seq<Step>, tenant: string, subject: string, login: string, ip: string)
    returns (states': seq<State>, steps': seq<Step>)
    requires IsTrace(states, steps, tenant) && Quiet(states[|steps|], tenant)
    requires states[|steps|].shared && LiveWebsite(states[|steps|].invites) == {}
    ensures IsTrace(states', steps', tenant) && Visits(states[|steps|], states'[|steps'|], tenant, login, Inviting)
  {
    var base := states[|steps|];
    var h := |base.handlers|;
    states', steps' := ReachReading(states, steps, tenant, subject, login, ip);
    Goes(base, states'[|steps'|], tenant, login, Reading, Read(h, Found(Clear)), Listing(false));
    states', steps' := Go(base, states', steps', tenant, login, Reading, Read(h, Found(Clear)), Listing(false));
    Goes(base, states'[|steps'|], tenant, login, Listing(false), List(h, Listed([]), false), Inviting);
    states', steps' := Go(base, states', steps', tenant, login, Listing(false), List(h, Listed([]), false), Inviting);
  }

  /** A trace on which nothing has happened yet. */
  lemma FromScratch(shared: bool, now: int, tenant: string) returns (states: seq<State>, steps: seq<Step>)
    ensures IsTrace(states, steps, tenant) && steps == [] && states == [Init(shared, now, map[])] && Quiet(states[0], tenant)
    ensures LiveWebsite(states[0].invites) == {}
  {
    states, steps := [Init(shared, now, map[])], [];
    assert LiveWebsite(states[0].invites) == {};
  }

  /** Everything but the queue and this handler's own progress is the same. */
  ghost predicate SameElse(s: State, s': State, h: nat) {
    && s'.shared == s.shared && s'.invites == s.invites && s'.late == s.late
    && h < |s.handlers| == |s'.handlers| && s'.handlers == s.handlers[h := s'.handlers[h]]
    && s'.handlers[h].past == s.handlers[h].past && s'.handlers[h].who == s.handlers[h].who
    && s'.handlers[h].wrote == s.handlers[h].wrote && s'.handlers[h].created == s.handlers[h].created
  }

  lemma Responds(s: State, tenant: string, h: nat, broke: bool)
    requires h < |s.handlers| && s.handlers[h].phase.Replying? && s.handlers[h].who.tenant == tenant && QueueOf(s, tenant) == [h]
    ensures var st := Respond(h, broke);
            && Ready(s, st) && Truthful(s, st)
            && (var s' := Apply(s, st);
                && SameElse(s, s', h) && s'.handlers[h].phase == Leaving(if broke then Unexpected else s.handlers[h].phase.answer)
                && s'.sign == s.sign && s'.day == s.day && s'.tenantSlots == s.tenantSlots && QueueOf(s', tenant) == [])
  {
  }

  lemma Finishes(s: State, tenant: string, h: nat)
    requires h < |s.handlers| && s.handlers[h].phase.Leaving? && QueueOf(s, tenant) == []
    requires !Spent(s.handlers[h].phase.outcome, s.handlers[h].wrote) && OnlyTheirs(s, s.handlers[h].who.slots)
    ensures var st := Finish(h);
            && Ready(s, st) && Truthful(s, st)
            && (var s' := Apply(s, st);
                && SameElse(s, s', h) && s'.handlers[h].phase.Exited? && s'.handlers[h].result == s.handlers[h].result
                && (!s.handlers[h].created ==> Quiet(s', tenant)))
  {
  }

  /** Writing the response, and the finally block, after an outcome that keeps no slots. */
  lemma Leave(states: seq<State>, steps: seq<Step>, tenant: string, h: nat, broke: bool)
    returns (states': seq<State>, steps': seq<Step>)
    requires IsTrace(states, steps, tenant)
    requires var s := states[|steps|];
             && h < |s.handlers| && s.handlers[h].phase.Replying?
             && !Spent(if broke then Unexpected else s.handlers[h].phase.answer, s.handlers[h].wrote)
             && OnlyTheirs(s, s.handlers[h].who.slots) && s.handlers[h].who.tenant == tenant && QueueOf(s, tenant) == [h]
    ensures IsTrace(states', steps', tenant)
    ensures var s, s' := states[|steps|], states'[|steps'|];
            && SameElse(s, s', h) && s'.handlers[h].phase.Exited? && VisitorFree(s', s'.handlers[h])
            && (!s.handlers[h].created ==> Quiet(s', tenant))
  {
    Responds(states[|steps|], tenant, h, broke);
    Extend(states, steps, tenant, Respond(h, broke));
    states', steps' := states + [Apply(states[|steps|], Respond(h, broke))], steps + [Respond(h, broke)];
    Finishes(states'[|steps'|], tenant, h);
    InvAlways(states', steps', tenant, |steps'|);
    Extend(states', steps', tenant, Finish(h));
    states', steps' := states' + [Apply(states'[|steps'|], Finish(h))], steps' + [Finish(h)];
    GivenBack(states', steps', tenant, h);
  }

  lemma GivenBack(states: seq<State>, steps: seq<Step>, tenant: string, h: nat)
    requires IsTrace(states, steps, tenant) && |steps| > 0 && steps[|steps| - 1] == Finish(h)
    requires var s := states[|steps| - 1];
             h < |s.handlers| && s.handlers[h].phase.Leaving? && !Spent(s.handlers[h].phase.outcome, s.handlers[h].wrote)
    ensures h < |states[|steps|].handlers| && VisitorFree(states[|steps|], states[|steps|].handlers[h])
  {
    var n := |steps|;
    InvAlways(states, steps, tenant, n - 1);
    assert HandlerOk(states[n - 1], h);
    assert states[n].handlers[h] == states[n - 1].handlers[h].(phase := Exited);
    InvAlways(states, steps, tenant, n);
    assert HandlerOk(states[n], h);
  }

  /** What a create does to a visitor about to make it. */
  lemma Creates(base: State, s: State, tenant: string, login: string, up: Reply, effect: bool, i: nat)
    requires Visits(base, s, tenant, login, Inviting) && s.shared && i !in s.invites && Honest(Answer(up), effect)
    ensures var h := |base.handlers|;
            var st := CreateInvite(h, Answer(up), effect, i);
            && Ready(s, st) && Truthful(s, st)
            && (var s' := Apply(s, st);
                && s'.shared && s'.late == s.late && |s'.handlers| == h + 1 && s'.handlers[..h] == s.handlers[..h]
                && s'.invites == (if effect then s.invites[i := Invite(login, true, true)] else s.invites)
                && s'.handlers[h].who == s.handlers[h].who && !s'.handlers[h].wrote
                && s'.handlers[h].created == (up.status == 201)
                && s'.handlers[h].past == NOTHING.(invite := if effect then Some(i) else None, inviteMade := up.status == 201,
                                                   inviteOpen := !effect && GivenUp(Answer(up)))
                && s'.handlers[h].phase == Replying(if up.status == 201 then Answered else InviteRefused(up))
                && QueueOf(s', tenant) == [h] && OnlyTheirs(s', s'.handlers[h].who.slots))
  {
  }

  /** A state reached with the visitor's slots free although this invite of theirs is live. */
  ghost predicate FreedWithInvite(s: State, login: string, i: nat) {
    && |s.handlers| == 1 && s.handlers[0].phase.Exited? && VisitorFree(s, s.handlers[0]) && s.handlers[0].past.invite == Some(i)
    && i in s.invites && s.invites[i] == Invite(login, true, true)
  }

  /** One visitor's create, answered like this, and the response written or raising. */
  lemma OneCreate(tenant: string, subject: string, login: string, ip: string, now: int, up: Reply, effect: bool, i: nat, broke: bool)
    returns (states: seq<State>, steps: seq<Step>)
    requires Honest(Answer(up), effect) && !Spent(if broke then Unexpected else if up.status == 201 then Answered else InviteRefused(up), false)
    ensures IsTrace(states, steps, tenant)
    ensures var s := states[|steps|];
            && s.shared && s.late == {} && s.invites == (if effect then map[i := Invite(login, true, true)] else map[])
            && |s.handlers| == 1 && s.handlers[0].phase.Exited? && VisitorFree(s, s.handlers[0]) && s.handlers[0].who.login == login
            && s.handlers[0].past.invite == (if effect then Some(i) else None) && s.handlers[0].past.inviteMade == (up.status == 201)
            && s.handlers[0].past.inviteOpen == (!effect && GivenUp(Answer(up)))
            && (up.status != 201 ==> Quiet(s, tenant))
  {
    states, steps := FromScratch(true, now, tenant);
    var base := states[0];
    states, steps := ReachInviting(states, steps, tenant, subject, login, ip);
    Creates(base, states[|steps|], tenant, login, up, effect, i);
    var st := CreateInvite(0, Answer(up), effect, i);
    Extend(states, steps, tenant, st);
    states, steps := states + [Apply(states[|steps|], st)], steps + [st];
    states, steps := Leave(states, steps, tenant, 0, broke);
  }

  /** A create that landed but whose answer never came gives the slots back. */
  lemma LandedCreateGivesSlotsBack(tenant: string, subject: string, login: string, ip: string, now: int, i: nat)
    returns (states: seq<State>, steps: seq<Step>)
    ensures IsTrace(states, steps, tenant) && FreedWithInvite(states[|steps|], login, i)
    ensures !states[|steps|].handlers[0].past.inviteMade
  {
    states, steps := OneCreate(tenant, subject, login, ip, now, Reply(0, ""), true, i, false);
  }

  /** A response that raises after the invite was acknowledged gives the slots back. */
  lemma FailedResponseGivesSlotsBack(tenant: string, subject: string, login: string, ip: string, now: int, i: nat)
    returns (states: seq<State>, steps: seq<Step>)
    ensures IsTrace(states, steps, tenant) && FreedWithInvite(states[|steps|], login, i)
    ensures states[|steps|].handlers[0].past.inviteMade
  {
    states, steps := OneCreate(tenant, subject, login, ip, now, Reply(201, ""), true, i, true);
  }

  lemma OwnerLost(base: State, s: State, tenant: string, login: string)
    requires Visits(base, s, tenant, login, MakingOwner)
    ensures var h := |base.handlers|;
            var st := MakeOwner(h, Answer(Reply(0, "")), true);
            && Ready(s, st) && Truthful(s, st)
            && (var s' := Apply(s, st);
                && |s'.handlers| == h + 1 && s'.handlers[h].phase == Leaving(UpstreamFailure(Reply(0, ""))) && !s'.handlers[h].wrote
                && s'.handlers[h].past == NOTHING.(ownerLanded := true)
                && QueueOf(s', tenant) == [] && OnlyTheirs(s', s'.handlers[h].who.slots))
  {
  }

  /** Outside shared mode, about to make the owner row. */
  lemma ReachMakingOwner(tenant: string, subject: string, login: string, ip: string, now: int)
    returns (states: seq<State>, steps: seq<Step>)
    ensures IsTrace(states, steps, tenant) && Visits(Init(false, now, map[]), states[|steps|], tenant, login, MakingOwner)
  {
    states, steps := FromScratch(false, now, tenant);
    var base := states[0];
    states, steps := ReachReading(states, steps, tenant, subject, login, ip);
    Goes(base, states[|steps|], tenant, login, Reading, Read(0, Found(NewTenant(false))), MakingOwner);
    states, steps := Go(base, states, steps, tenant, login, Reading, Read(0, Found(NewTenant(false))), MakingOwner);
  }

  /** Outside shared mode an owner row that landed without an answer does the same. */
  lemma LandedOwnerGivesSlotsBack(tenant: string, subject: string, login: string, ip: string, now: int)
    returns (states: seq<State>, steps: seq<Step>)
    ensures IsTrace(states, steps, tenant)
    ensures var s := states[|steps|];
            && |s.handlers| == 1 && s.handlers[0].phase.Exited? && VisitorFree(s, s.handlers[0])
            && s.handlers[0].past.ownerLanded && !s.handlers[0].past.ownerMade
  {
    states, steps := ReachMakingOwner(tenant, subject, login, ip, now);
    OwnerLost(Init(false, now, map[]), states[|steps|], tenant, login);
    var lost := MakeOwner(0, Answer(Reply(0, "")), true);
    Extend(states, steps, tenant, lost);
    states, steps := states + [Apply(states[|steps|], lost)], steps + [lost];
    Finishes(states[|steps|], tenant, 0);
    Extend(states, steps, tenant, Finish(0));
    states, steps := states + [Apply(states[|steps|], Finish(0))], steps + [Finish(0)];
    GivenBack(states, steps, tenant, 0);
  }

  lemma Lands(s: State, h: nat, i: nat)
    requires h < |s.handlers| && s.shared && s.handlers[h].phase.Exited? && s.handlers[h].past.inviteOpen && i !in s.invites
    ensures Ready(s, Land(h, i)) && Truthful(s, Land(h, i))
    ensures Apply(s, Land(h, i)).invites == s.invites[i := Invite(s.handlers[h].who.login, true, true)]
    ensures Apply(s, Land(h, i)).late == s.late + {i}
  {
  }

  /** A create given up, and tried again with success. */
  lemma TriedAgain(tenant: string, subject: string, login: string, ip: string, now: int)
    returns (states: seq<State>, steps: seq<Step>)
    ensures IsTrace(states, steps, tenant)
    ensures var s := states[|steps|];
            && s.shared && s.late == {} && s.invites == map[0 := Invite(login, true, true)] && |s.handlers| == 2
            && s.handlers[0].phase.Exited? && s.handlers[0].past.inviteOpen && s.handlers[0].who.login == login
  {
    states, steps := OneCreate(tenant, subject, login, ip, now, Reply(0, ""), false, 0, false);
    var base := states[|steps|];
    assert LiveWebsite(base.invites) == {};
    states, steps := ReachInviting(states, steps, tenant, subject, login, ip);
    Creates(base, states[|steps|], tenant, login, Reply(201, ""), true, 0);
    assert states[|steps|].handlers[..1][0] == base.handlers[0];
    var made := CreateInvite(1, Answer(Reply(201, "")), true, 0);
    Extend(states, steps, tenant, made);
    states, steps := states + [Apply(states[|steps|], made)], steps + [made];
    assert states[|steps|].handlers[..1][0] == base.handlers[0];
  }

  /** When the first one then lands after all, its login has two live invites. */
  lemma LateInviteIsSecond(tenant: string, subject: string, login: string, ip: string, now: int)
    returns (states: seq<State>, steps: seq<Step>)
    ensures IsTrace(states, steps, tenant)
    ensures states[|steps|].invites == map[0 := Invite(login, true, true), 1 := Invite(login, true, true)] && states[|steps|].late == {1}
  {
    states, steps := TriedAgain(tenant, subject, login, ip, now);
    Lands(states[|steps|], 0, 1);
    Extend(states, steps, tenant, Land(0, 1));
    states, steps := states + [Apply(states[|steps|], Land(0, 1))], steps + [Land(0, 1)];
  }
}
