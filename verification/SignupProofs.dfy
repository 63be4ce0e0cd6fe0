/** What every interleaving of signups keeps. */
module SignupProofs {
  import opened Wrappers
  import opened Grants
  import opened Signup

  // ---------------------------------------------------------------- frames

  lemma OnlyActorMoves(s: State, st: Step, k: nat)
    requires Ready(s, st) && k < |s.handlers| && Actor(st) != Some(k)
    ensures k < |Apply(s, st).handlers| && Apply(s, st).handlers[k] == s.handlers[k]
  {
  }

  lemma ActorMoves(s: State, st: Step)
    requires Ready(s, st) && Actor(st).Some?
    ensures Apply(s, st) == Act(s, st)
  {
  }

  // ---------------------------------------------------------------- which slots are whose

  predicate Within(slot: Option<nat>, lo: nat, hi: nat) {
    slot.Some? ==> lo <= slot.value < hi
  }

  predicate Less(a: Option<nat>, b: Option<nat>) {
    a.Some? && b.Some? ==> a.value < b.value
  }

  predicate Earlier(a: Slots, b: Slots) {
    && Less(a.ip, b.ip) && Less(a.ip, b.id) && Less(a.id, b.ip) && Less(a.id, b.id)
    && Less(a.day, b.day) && Less(a.tenant, b.tenant)
  }

  predicate InRange(s: State, slots: Slots) {
    && Within(slots.ip, 0, |s.sign|) && Within(slots.id, 0, |s.sign|) && Less(slots.ip, slots.id)
    && Within(slots.day, 0, |s.day|) && Within(slots.tenant, 0, |s.tenantSlots|)
  }

  /** Slots are given out in the order the handlers came, so no two handlers share one. */
  ghost predicate SlotsApart(s: State) {
    && (forall h {:trigger s.handlers[h]} :: 0 <= h < |s.handlers| ==> InRange(s, s.handlers[h].who.slots))
    && (forall h, k {:trigger s.handlers[h], s.handlers[k]} :: 0 <= h < k < |s.handlers| ==> Earlier(s.handlers[h].who.slots, s.handlers[k].who.slots))
  }

  /** What everything before the first await does. */
  lemma ArriveFacts(s: State, tenant: string, subject: string, login: string, ip: string, room: Room)
    ensures var s' := DoArrive(s, tenant, subject, login, ip, room);
            var n := |s.handlers|;
            && |s'.handlers| == n + 1 && s'.handlers[..n] == s.handlers
            && |s.sign| <= |s'.sign| && (forall i {:trigger s'.sign[i]} :: 0 <= i < |s.sign| ==> s'.sign[i] == s.sign[i])
            && |s.day| <= |s'.day| && (forall i {:trigger s'.day[i]} :: 0 <= i < |s.day| ==> s'.day[i] == s.day[i])
            && |s.tenantSlots| <= |s'.tenantSlots| && (forall i {:trigger s'.tenantSlots[i]} :: 0 <= i < |s.tenantSlots| ==> s'.tenantSlots[i] == s.tenantSlots[i])
            && (var slots := s'.handlers[n].who.slots;
                && Within(slots.ip, |s.sign|, |s'.sign|) && Within(slots.id, |s.sign|, |s'.sign|) && Less(slots.ip, slots.id)
                && Within(slots.day, |s.day|, |s'.day|) && Within(slots.tenant, |s.tenantSlots|, |s'.tenantSlots|))
  {
  }

  lemma ApartArrive(s: State, st: Step)
    requires SlotsApart(s) && Ready(s, st) && st.Arrive?
    ensures SlotsApart(Apply(s, st))
  {
    var s' := Apply(s, st);
    ArriveFacts(s, st.tenant, st.subject, st.login, st.ip, st.room);
    var n := |s.handlers|;
    forall h | 0 <= h < n ensures s'.handlers[h] == s.handlers[h] { assert s'.handlers[..n][h] == s.handlers[h]; }
    forall h | 0 <= h < n ensures Earlier(s.handlers[h].who.slots, s'.handlers[n].who.slots) {
      assert InRange(s, s.handlers[h].who.slots);
    }
  }

  lemma ApartAct(s: State, st: Step)
    requires SlotsApart(s) && Ready(s, st) && Actor(st).Some?
    ensures SlotsApart(Act(s, st))
  {
    var s' := Act(s, st);
    assert |s'.handlers| == |s.handlers| && forall h :: 0 <= h < |s.handlers| ==> s'.handlers[h].who == s.handlers[h].who;
  }

  lemma SlotsApartStep(s: State, st: Step)
    requires SlotsApart(s) && Ready(s, st)
    ensures SlotsApart(Apply(s, st))
  {
    if st.Arrive? { ApartArrive(s, st); } else if Actor(st).Some? { ApartAct(s, st); }
  }

  // ---------------------------------------------------------------- what one handler has done

  /** The flags say what was sent upstream. */
  predicate FlagsOk(me: Handler, shared: bool) {
    && (me.wrote <==> me.past.revokes > 0 || me.past.ownerMade)
    && (me.created <==> shared && me.past.inviteMade)
    && (me.replaced <==> shared && me.past.revokes > 0)
    && (me.past.inviteMade ==>
          (me.phase.Replying? && me.phase.answer.Answered?) || (me.result.Some? && (me.result.value.Answered? || me.result.value.Unexpected?)))
    && (me.result.Some? ==> me.phase.Leaving? || me.phase.Exited?)
    && (me.phase.Leaving? ==> me.result == Some(me.phase.outcome))
  }

  /** The create was answered with something else than an invite. */
  predicate Refused(me: Handler) {
    if me.phase.Replying? then me.phase.answer.InviteRefused?
    else me.result.Some? && (me.result.value.InviteRefused? || me.result.value.Unexpected?)
  }

  /** What took effect: an acknowledged create did, and one that took effect without being
      acknowledged ended the flow. */
  predicate LandedOk(me: Handler) {
    && (me.past.inviteMade ==> me.past.invite.Some?) && (me.past.ownerMade ==> me.past.ownerLanded)
    && (me.past.invite.Some? && !me.past.inviteMade ==> Refused(me))
    && (me.past.inviteOpen ==> me.past.invite.None? && Refused(me))
    && (me.past.ownerLanded && !me.past.ownerMade ==> me.result.Some? && me.result.value.UpstreamFailure?)
    && (me.past.ownerOpen ==> !me.past.ownerLanded && me.result.Some? && me.result.value.UpstreamFailure?)
    && (me.phase.Checking? || me.phase.Queued? || (me.phase.Exited? && me.result.None?) ==> me.past == NOTHING)
  }

  /** In shared mode the invite a handler created is one of the website's, for its visitor's login. */
  ghost predicate InviteIsTheirs(invites: map<nat, Invite>, me: Handler) {
    me.past.invite.Some? ==>
      me.past.invite.value in invites
      && var inv := invites[me.past.invite.value]; inv.website && inv.login == me.who.login
  }

  lemma LandedStep(me: Handler, st: Step, shared: bool)
    requires AtAwait(me, st, shared) && FlagsOk(me, shared) && LandedOk(me)
    requires st.MakeOwner? || st.CreateInvite? ==> Honest(st.ans, st.effect)
    ensures LandedOk(Next(me, st, shared))
  {
    if st.Land? || st.LandOwner? { LandLanded(me, st, shared); } else { FlowLanded(me, st, shared); }
  }

  lemma LandLanded(me: Handler, st: Step, shared: bool)
    requires AtAwait(me, st, shared) && LandedOk(me) && (st.Land? || st.LandOwner?)
    ensures LandedOk(Next(me, st, shared))
  {
  }

  lemma FlowLanded(me: Handler, st: Step, shared: bool)
    requires AtAwait(me, st, shared) && FlagsOk(me, shared) && LandedOk(me) && !st.Land? && !st.LandOwner?
    requires st.MakeOwner? || st.CreateInvite? ==> Honest(st.ans, st.effect)
    ensures LandedOk(Next(me, st, shared))
  {
  }

  predicate Held(h: seq<Grant>, slot: Option<nat>) {
    slot.Some? ==> slot.value < |h| && !h[slot.value].released
  }

  predicate Free(h: seq<Grant>, slot: Option<nat>) {
    slot.Some? ==> slot.value < |h| && h[slot.value].released
  }

  predicate VisitorHeld(s: State, me: Handler) {
    Held(s.sign, me.who.slots.ip) && Held(s.sign, me.who.slots.id) && Held(s.day, me.who.slots.day)
  }

  predicate VisitorFree(s: State, me: Handler) {
    Free(s.sign, me.who.slots.ip) && Free(s.sign, me.who.slots.id) && Free(s.day, me.who.slots.day)
  }

  predicate Whole(slots: Slots, shared: bool) {
    slots.ip.Some? && slots.id.Some? && (slots.day.Some? <==> shared) && (slots.tenant.Some? <==> shared)
  }

  predicate VisitorSlotsOk(s: State, me: Handler) {
    if !me.phase.Exited? then Whole(me.who.slots, s.shared) && VisitorHeld(s, me)
    else if me.result.None? then VisitorFree(s, me)
    else Whole(me.who.slots, s.shared) && if Spent(me.result.value, me.wrote) then VisitorHeld(s, me) else VisitorFree(s, me)
  }

  predicate TenantSlotOk(s: State, me: Handler) {
    && (if !me.phase.Exited? || (me.created && !me.replaced) then Held(s.tenantSlots, me.who.slots.tenant) else Free(s.tenantSlots, me.who.slots.tenant))
    && (me.who.slots.tenant.Some? ==> var g := s.tenantSlots[me.who.slots.tenant.value]; g.t == me.who.reservedAt && g.key == me.who.tenant)
  }

  predicate HandlerOk(s: State, h: nat)
    requires h < |s.handlers|
  {
    FlagsOk(s.handlers[h], s.shared) && VisitorSlotsOk(s, s.handlers[h]) && TenantSlotOk(s, s.handlers[h])
  }

  ghost predicate HandlersOk(s: State) {
    forall h {:trigger s.handlers[h]} :: 0 <= h < |s.handlers| ==> HandlerOk(s, h)
  }

  predicate Writes(st: Step) {
    st.Revoke? || st.MakeOwner? || st.CreateInvite?
  }

  lemma WriteFlags(me: Handler, st: Step, shared: bool)
    requires AtAwait(me, st, shared) && FlagsOk(me, shared) && Writes(st)
    ensures FlagsOk(Next(me, st, shared), shared)
  {
  }

  lemma QuietFlags(me: Handler, st: Step, shared: bool)
    requires AtAwait(me, st, shared) && FlagsOk(me, shared) && !Writes(st)
    ensures FlagsOk(Next(me, st, shared), shared)
  {
  }

  lemma FlagsStep(me: Handler, st: Step, shared: bool)
    requires AtAwait(me, st, shared) && FlagsOk(me, shared)
    ensures FlagsOk(Next(me, st, shared), shared)
  {
    if Writes(st) { WriteFlags(me, st, shared); } else { QuietFlags(me, st, shared); }
  }

  /** The grants at these slots are the same in both. */
  predicate SameGrants(s: State, s': State, slots: Slots)
    requires InRange(s, slots) && InRange(s', slots)
  {
    && (slots.ip.Some? ==> s'.sign[slots.ip.value] == s.sign[slots.ip.value])
    && (slots.id.Some? ==> s'.sign[slots.id.value] == s.sign[slots.id.value])
    && (slots.day.Some? ==> s'.day[slots.day.value] == s.day[slots.day.value])
    && (slots.tenant.Some? ==> s'.tenantSlots[slots.tenant.value] == s.tenantSlots[slots.tenant.value])
  }

  lemma ActKeepsOthers(s: State, st: Step, slots: Slots)
    requires Ready(s, st) && Actor(st).Some? && InRange(s, slots)
    requires Earlier(s.handlers[st.h].who.slots, slots) || Earlier(slots, s.handlers[st.h].who.slots)
    ensures InRange(Act(s, st), slots) && SameGrants(s, Act(s, st), slots)
  {
  }

  lemma ArriveKeepsOthers(s: State, st: Step, slots: Slots)
    requires Ready(s, st) && st.Arrive? && InRange(s, slots)
    ensures InRange(Apply(s, st), slots) && SameGrants(s, Apply(s, st), slots)
  {
    ArriveFacts(s, st.tenant, st.subject, st.login, st.ip, st.room);
  }

  /** Another handler's step leaves this one's slots as they were. */
  lemma SlotKept(s: State, st: Step, k: nat)
    requires SlotsApart(s) && Ready(s, st) && k < |s.handlers| && Actor(st) != Some(k)
    ensures InRange(s, s.handlers[k].who.slots) && InRange(Apply(s, st), s.handlers[k].who.slots)
    ensures SameGrants(s, Apply(s, st), s.handlers[k].who.slots)
  {
    var slots := s.handlers[k].who.slots;
    if st.Arrive? {
      ArriveKeepsOthers(s, st, slots);
    } else if Actor(st).Some? {
      assert Earlier(s.handlers[st.h].who.slots, slots) || Earlier(slots, s.handlers[st.h].who.slots) by {
        if st.h < k { } else { }
      }
      ActKeepsOthers(s, st, slots);
    }
  }

  lemma ActorSlots(s: State, st: Step)
    requires SlotsApart(s) && Ready(s, st) && Actor(st).Some? && HandlerOk(s, st.h)
    ensures VisitorSlotsOk(Act(s, st), Act(s, st).handlers[st.h]) && TenantSlotOk(Act(s, st), Act(s, st).handlers[st.h])
  {
  }

  lemma NewHandlerOk(s: State, st: Step)
    requires Ready(s, st) && st.Arrive?
    ensures HandlerOk(Apply(s, st), |s.handlers|)
  {
  }

  lemma ActorHandler(s: State, st: Step)
    requires SlotsApart(s) && Ready(s, st) && Actor(st).Some? && HandlerOk(s, st.h)
    ensures st.h < |Apply(s, st).handlers| && HandlerOk(Apply(s, st), st.h)
  {
    ActorMoves(s, st);
    FlagsStep(s.handlers[st.h], st, s.shared);
    ActorSlots(s, st);
  }

  lemma OtherHandler(s: State, st: Step, h: nat)
    requires SlotsApart(s) && Ready(s, st) && h < |s.handlers| && Actor(st) != Some(h) && HandlerOk(s, h)
    ensures h < |Apply(s, st).handlers| && HandlerOk(Apply(s, st), h)
  {
    OnlyActorMoves(s, st, h);
    SlotKept(s, st, h);
  }

  lemma HandlersStep(s: State, st: Step)
    requires SlotsApart(s) && HandlersOk(s) && Ready(s, st)
    ensures HandlersOk(Apply(s, st))
  {
    var s' := Apply(s, st);
    forall h | 0 <= h < |s'.handlers|
      ensures HandlerOk(s', h)
    {
      if h == |s.handlers| {
        NewHandlerOk(s, st);
      } else if Actor(st) == Some(h) {
        ActorHandler(s, st);
      } else {
        OtherHandler(s, st, h);
      }
    }
  }

  // ---------------------------------------------------------------- the limiters' histories

  ghost predicate HistoryOk(h: seq<Grant>, lim: Limit, now: int) {
    Ordered(h) && Bounded(h, lim) && forall i {:trigger h[i]} :: 0 <= i < |h| ==> h[i].t <= now
  }

  lemma TakeOk(h: seq<Grant>, key: string, lim: Limit, now: int)
    requires HistoryOk(h, lim, now) && !Full(h, key, now, lim)
    ensures HistoryOk(Granted(h, key, now), lim, now)
  {
    GrantBounded(h, key, now, lim);
  }

  lemma ReleaseOk(h: seq<Grant>, id: nat, lim: Limit, now: int)
    requires HistoryOk(h, lim, now) && id < |h|
    ensures HistoryOk(Released(h, id), lim, now)
  {
    ReleaseBounded(h, id, lim);
  }

  lemma FreedOk(h: seq<Grant>, slot: Option<nat>, lim: Limit, now: int)
    requires HistoryOk(h, lim, now)
    ensures HistoryOk(Freed(h, slot), lim, now)
  {
    if slot.Some? && slot.value < |h| { ReleaseOk(h, slot.value, lim, now); }
  }

  ghost predicate LimitsKept(s: State) {
    HistoryOk(s.sign, SIGNUP_LIMIT, s.now) && HistoryOk(s.day, SHARED_ID_LIMIT, s.now)
    && HistoryOk(s.tenantSlots, SHARED_TENANT_LIMIT, s.now)
  }

  lemma ReserveKeepsLimits(s: State, tenant: string, subject: string, ip: string, room: Room)
    requires LimitsKept(s) && RoomAsked(s, tenant, subject, ip, room)
    ensures var a := Reserve(s, tenant, subject, ip, room);
            && HistoryOk(a.sign, SIGNUP_LIMIT, s.now) && HistoryOk(a.day, SHARED_ID_LIMIT, s.now)
            && HistoryOk(a.tenantSlots, SHARED_TENANT_LIMIT, s.now)
  {
    var n := |s.sign|;
    var sign1 := Granted(s.sign, "ip:" + ip, s.now);
    var sign2 := Granted(sign1, "id:" + subject, s.now);
    if room.ip {
      TakeOk(s.sign, "ip:" + ip, SIGNUP_LIMIT, s.now);
      ReleaseOk(sign1, n, SIGNUP_LIMIT, s.now);
      if room.id {
        TakeOk(sign1, "id:" + subject, SIGNUP_LIMIT, s.now);
        ReleaseOk(sign2, n, SIGNUP_LIMIT, s.now);
        ReleaseOk(Released(sign2, n), n + 1, SIGNUP_LIMIT, s.now);
        if s.shared && room.day {
          TakeOk(s.day, subject, SHARED_ID_LIMIT, s.now);
          ReleaseOk(Granted(s.day, subject, s.now), |s.day|, SHARED_ID_LIMIT, s.now);
          if room.tenant { TakeOk(s.tenantSlots, tenant, SHARED_TENANT_LIMIT, s.now); }
        }
      }
    }
  }

  lemma ActKeepsLimits(s: State, st: Step)
    requires LimitsKept(s) && Ready(s, st) && Actor(st).Some?
    ensures LimitsKept(Act(s, st))
  {
    var slots := s.handlers[st.h].who.slots;
    FreedOk(s.sign, slots.ip, SIGNUP_LIMIT, s.now);
    FreedOk(Freed(s.sign, slots.ip), slots.id, SIGNUP_LIMIT, s.now);
    FreedOk(s.day, slots.day, SHARED_ID_LIMIT, s.now);
    FreedOk(s.tenantSlots, slots.tenant, SHARED_TENANT_LIMIT, s.now);
  }

  lemma LimitsStep(s: State, st: Step)
    requires LimitsKept(s) && Ready(s, st) && Truthful(s, st)
    ensures LimitsKept(Apply(s, st))
  {
    if st.Arrive? {
      ReserveKeepsLimits(s, st.tenant, st.subject, st.ip, st.room);
    } else if Actor(st).Some? {
      ActKeepsLimits(s, st);
      ActorMoves(s, st);
    }
  }

  // ---------------------------------------------------------------- the lock

  predicate InLock(p: Phase) {
    p.Reading? || p.Listing? || p.Revoking? || p.MakingOwner? || p.Inviting? || p.Replying?
  }

  /** The handler inside a tenant's lock is the head of that tenant's queue. */
  ghost predicate LockKept(s: State) {
    forall h {:trigger s.handlers[h]} :: 0 <= h < |s.handlers| && InLock(s.handlers[h].phase) ==>
      var q := QueueOf(s, s.handlers[h].who.tenant); q != [] && q[0] == h
  }

  /** Nobody else's step moves the head of a queue whose head is inside the lock. */
  lemma OtherStaysHead(s: State, st: Step, k: nat)
    requires LockKept(s) && Ready(s, st) && k < |s.handlers| && Actor(st) != Some(k) && InLock(s.handlers[k].phase)
    ensures var q := QueueOf(Apply(s, st), s.handlers[k].who.tenant); q != [] && q[0] == k
  {
    if Actor(st).Some? {
      ActorMoves(s, st);
      assert InLock(s.handlers[st.h].phase) || QueuesAfter(s, st) == s.queues || (st.Health? && st.ok);
    }
  }

  lemma ActorIsHead(s: State, st: Step)
    requires LockKept(s) && Ready(s, st) && Actor(st).Some? && InLock(Next(s.handlers[st.h], st, s.shared).phase)
    ensures var q := QueueOf(Act(s, st), s.handlers[st.h].who.tenant); q != [] && q[0] == st.h
  {
  }

  lemma LockStep(s: State, st: Step)
    requires LockKept(s) && Ready(s, st)
    ensures LockKept(Apply(s, st))
  {
    var s' := Apply(s, st);
    forall h | 0 <= h < |s'.handlers| && InLock(s'.handlers[h].phase)
      ensures var q := QueueOf(s', s'.handlers[h].who.tenant); q != [] && q[0] == h
    {
      if h < |s.handlers| && Actor(st) != Some(h) {
        OnlyActorMoves(s, st, h);
        OtherStaysHead(s, st, h);
      } else if h < |s.handlers| {
        ActorMoves(s, st);
        ActorIsHead(s, st);
      }
    }
  }
}
