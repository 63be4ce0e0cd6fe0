/** The landing's signup handler (cloud-deployment/landing/server.js) as a transition system. A
    handler's code between two awaits is one step; any number of handlers interleave freely with
    each other, with the clock, and with whatever else happens to the invites upstream. The lock
    is the first-in first-out queue TenantLock proves it to be, and the limiters are the full
    histories SlidingWindow proves them equal to. */
module Signup {
  import opened Wrappers
  import opened Grants

  // ---------------------------------------------------------------- upstream answers

  /** status 0 is "unreachable"; code is "" when the body names none. */
  datatype Reply = Reply(status: int, code: string)

  const CALLER_CODES: set<string> :=
    {"login_taken", "credential_exists", "login_fixed", "beyond_floor", "promotion_refused",
     "bootstrap_invite_live", "invite_not_live", "tenant_not_empty", "target_beyond_floor", "invalid_login",
     "user_not_found", "login_not_found", "invite_not_found", "unknown_group", "invalid_ttl"}

  predicate RuntimeFault(up: Reply) {
    up.status == 0 || up.status >= 500 || up.code !in CALLER_CODES
  }

  /** A call either answers or raises something unexpected before it reached upstream. */
  datatype Ans = Answer(up: Reply) | Broke

  datatype Finding = Clear | AccountExists | NewTenant(inviteLive: bool) | LegacyOwner | KnownVisitor

  datatype ReadAns = Found(what: Finding) | ReadFailed(up: Reply) | ReadBroke

  datatype ListAns = Listed(mine: seq<nat>) | ListFailed(up: Reply) | ListBroke

  /** How the flow inside the lock came out: answered with the slots spent, refused by the invite
      call, failed on another call (UpstreamFailure), or raised something unexpected. */
  datatype Outcome = Answered | InviteRefused(up: Reply) | UpstreamFailure(up: Reply) | Unexpected

  // ---------------------------------------------------------------- state

  /** `website` says the invite is one this website issued: no subject, no bootstrap, and the
      website's own return address. */
  datatype Invite = Invite(login: string, website: bool, live: bool)

  datatype Phase =
    | Checking                       // awaiting the runtime version (shared mode)
    | Queued                         // awaiting the tenant's lock
    | Reading                        // awaiting the users, or the signup state
    | Listing(makeOwner: bool)       // awaiting the invites
    | Revoking(todo: seq<nat>, makeOwner: bool)
    | MakingOwner
    | Inviting
    | Replying(answer: Outcome)      // writing the response, still inside the lock
    | Leaving(outcome: Outcome)      // out of the lock, the finally block ahead
    | Exited

  /** The four slots, as positions in their limiters' histories; None where none was taken. */
  datatype Slots = Slots(ip: Option<nat>, id: Option<nat>, day: Option<nat>, tenant: Option<nat>)

  /** `result` is None when the handler ended before its flow ran. */
  datatype Handler = Handler(
    who: Visitor, phase: Phase,
    wrote: bool, created: bool, replaced: bool, result: Option<Outcome>, past: Past)

  /** History: the revokes sent; whether upstream acknowledged the owner row and the invite; what took
      effect upstream, acknowledged or not: the owner row, and the invite by its id; and whether a
      create that had no effect when its answer was given up may still take it. */
  datatype Past = Past(
    revokes: nat, ownerMade: bool, inviteMade: bool,
    ownerLanded: bool, invite: Option<nat>, ownerOpen: bool, inviteOpen: bool)

  const NOTHING := Past(0, false, false, false, None, false, false)

  datatype Visitor = Visitor(tenant: string, login: string, slots: Slots, reservedAt: int)

  /** `late` are the invites that took effect only after their handler had given their create up. */
  datatype State = State(
    shared: bool, now: int,
    sign: seq<Grant>, day: seq<Grant>, tenantSlots: seq<Grant>,
    handlers: seq<Handler>, queues: map<string, seq<nat>>, invites: map<nat, Invite>, late: set<nat>)

  const HOUR := 3600000
  const SIGNUP_LIMIT := Limit(10, HOUR)
  const SHARED_ID_LIMIT := Limit(3, 24 * HOUR)
  const SHARED_TENANT_LIMIT := Limit(20, 24 * HOUR)
  const MAX_PENDING_INVITES := 50

  /** The landing keeps nothing over a restart; the invites upstream live on. */
  function Init(shared: bool, now: int, invites: map<nat, Invite>): State {
    State(shared, now, [], [], [], [], map[], invites, {})
  }

  /** Which of the limiters had room for the visitor, in the order they are asked. */
  datatype Room = Room(ip: bool, id: bool, day: bool, tenant: bool)

  datatype Step =
    | Arrive(tenant: string, subject: string, login: string, ip: string, room: Room)
    | Health(h: nat, ok: bool)
    | Begin(h: nat)
    | Read(h: nat, read: ReadAns)
    | List(h: nat, list: ListAns, atCap: bool)
    | Revoke(h: nat, ans: Ans, effect: bool)
    | MakeOwner(h: nat, ans: Ans, effect: bool)
    | CreateInvite(h: nat, ans: Ans, effect: bool, invite: nat)
    | Respond(h: nat, broke: bool)
    | Finish(h: nat)
    | Land(h: nat, invite: nat)      // a create given up takes effect after all
    | LandOwner(h: nat)
    | InviteDies(invite: nat)
    | OtherInvite(invite: nat, login: string)
    | Tick(elapsed: nat)

  function QueueOf(s: State, t: string): seq<nat> {
    if t in s.queues then s.queues[t] else []
  }

  predicate Mine(inv: Invite, login: string) {
    inv.live && inv.website && inv.login == login
  }

  ghost function LiveWebsite(invites: map<nat, Invite>): set<nat> {
    set i | i in invites && invites[i].live && invites[i].website
  }

  ghost function LiveMine(invites: map<nat, Invite>, login: string): set<nat> {
    set i | i in invites && Mine(invites[i], login)
  }

  ghost predicate OnePerLogin(invites: map<nat, Invite>) {
    forall i, j :: i in LiveWebsite(invites) && j in LiveWebsite(invites) && invites[i].login == invites[j].login ==> i == j
  }

  ghost predicate InvitesBounded(invites: map<nat, Invite>) {
    |LiveWebsite(invites)| <= MAX_PENDING_INVITES && OnePerLogin(invites)
  }

  /** revokeLive goes on: the invite was revoked, or was not live any more. */
  predicate Revoked(ans: Ans) {
    ans.Answer? && (ans.up.status == 204 || ans.up.code == "invite_not_live")
  }

  /** `take` answers as the limiters' histories say. */
  ghost predicate RoomAsked(s: State, tenant: string, subject: string, ip: string, room: Room) {
    && (room.ip <==> !Full(s.sign, "ip:" + ip, s.now, SIGNUP_LIMIT))
    && (room.ip ==> (room.id <==> !Full(Granted(s.sign, "ip:" + ip, s.now), "id:" + subject, s.now, SIGNUP_LIMIT)))
    && (s.shared ==> (room.day <==> !Full(s.day, subject, s.now, SHARED_ID_LIMIT)))
    && (s.shared ==> (room.tenant <==> !Full(s.tenantSlots, tenant, s.now, SHARED_TENANT_LIMIT)))
  }

  function Actor(st: Step): Option<nat> {
    match st
    case Arrive(_, _, _, _, _) => None
    case InviteDies(_) => None
    case OtherInvite(_, _) => None
    case Tick(_) => None
    case _ => Some(st.h)
  }

  /** The handler is at the await this step comes back from. */
  predicate AtAwait(me: Handler, st: Step, shared: bool) {
    match st
    case Health(_, _) => me.phase.Checking?
    case Begin(_) => me.phase.Queued?
    case Read(_, read) => me.phase.Reading? && (read.Found? ==> (shared <==> read.what.Clear? || read.what.AccountExists?))
    case List(_, _, _) => me.phase.Listing?
    case Revoke(_, _, _) => me.phase.Revoking? && me.phase.todo != []
    case MakeOwner(_, _, _) => me.phase.MakingOwner?
    case CreateInvite(_, _, _, _) => me.phase.Inviting?
    case Respond(_, _) => me.phase.Replying?
    case Finish(_) => me.phase.Leaving?
    case Land(_, _) => me.past.inviteOpen && (me.phase.Replying? || me.phase.Leaving? || me.phase.Exited?)
    case LandOwner(_) => me.past.ownerOpen && (me.phase.Leaving? || me.phase.Exited?)
    case _ => false
  }

  predicate Ready(s: State, st: Step) {
    && (Actor(st).Some? ==> st.h < |s.handlers| && AtAwait(s.handlers[st.h], st, s.shared))
    && (st.Begin? ==> var q := QueueOf(s, s.handlers[st.h].who.tenant); q != [] && q[0] == st.h)
  }

  /** An acknowledged create took effect, and one that broke before it was sent did not. One that
      answers anything else, or times out, may have taken effect or not, or may yet. */
  predicate Honest(ans: Ans, effect: bool) {
    (ans.Answer? && ans.up.status == 201 ==> effect) && (ans.Broke? ==> !effect)
  }

  /** What the limiters and upstream answer is so: a revoke that says "not live" found it not
      live, and new invites have new ids. */
  ghost predicate Truthful(s: State, st: Step)
    requires Ready(s, st)
  {
    match st
    case Arrive(tenant, subject, _, ip, room) => RoomAsked(s, tenant, subject, ip, room)
    case List(h, list, atCap) =>
      && (atCap <==> |LiveWebsite(s.invites) - LiveMine(s.invites, s.handlers[h].who.login)| >= MAX_PENDING_INVITES)
      && (list.Listed? && s.shared ==> (set i | i in list.mine) == LiveMine(s.invites, s.handlers[h].who.login))
    case Revoke(h, ans, _) =>
      Revoked(ans) && ans.up.status != 204 ==>
        var i := s.handlers[h].phase.todo[0]; i in s.invites ==> !s.invites[i].live
    case MakeOwner(_, ans, effect) => Honest(ans, effect)
    case CreateInvite(_, ans, effect, i) => i !in s.invites && Honest(ans, effect)
    case Land(_, i) => i !in s.invites
    case OtherInvite(i, _) => i !in s.invites
    case _ => true
  }

  // ---------------------------------------------------------------- one handler's code between awaits

  function End(me: Handler, outcome: Outcome): (r: Handler)
    ensures r.who == me.who
  {
    me.(phase := Leaving(outcome), result := Some(outcome))
  }

  function AfterRevokes(todo: seq<nat>, makeOwner: bool): Phase {
    if todo != [] then Revoking(todo, makeOwner) else if makeOwner then MakingOwner else Inviting
  }

  function AfterRead(me: Handler, read: ReadAns): (r: Handler)
    ensures r.who == me.who
  {
    match read
    case ReadFailed(up) => End(me, UpstreamFailure(up))
    case ReadBroke => End(me, Unexpected)
    case Found(Clear) => me.(phase := Listing(false))
    case Found(AccountExists) => me.(phase := Replying(Answered))
    case Found(NewTenant(inviteLive)) => me.(phase := if inviteLive then Listing(true) else MakingOwner)
    case Found(LegacyOwner) => me.(phase := Listing(false))
    case Found(KnownVisitor) => me.(phase := Replying(Answered))
  }

  function AfterList(me: Handler, list: ListAns, full: bool): (r: Handler)
    requires me.phase.Listing?
    ensures r.who == me.who
  {
    match list
    case ListFailed(up) => End(me, UpstreamFailure(up))
    case ListBroke => End(me, Unexpected)
    case Listed(mine) => if full then me.(phase := Replying(Answered)) else me.(phase := AfterRevokes(mine, me.phase.makeOwner))
  }

  /** onWrite runs before the DELETE is sent. */
  function AfterRevoke(me: Handler, ans: Ans, shared: bool): (r: Handler)
    requires me.phase.Revoking? && me.phase.todo != []
    ensures r.who == me.who
  {
    var wrote := me.(wrote := true, replaced := shared, past := me.past.(revokes := me.past.revokes + 1));
    if ans.Broke? then End(wrote, Unexpected)
    else if Revoked(ans) then wrote.(phase := AfterRevokes(me.phase.todo[1..], me.phase.makeOwner))
    else End(wrote, UpstreamFailure(ans.up))
  }

  /** No answer came in time, or one from something between that may not know. */
  predicate GivenUp(ans: Ans) {
    ans.Answer? && (ans.up.status == 0 || ans.up.status >= 500)
  }

  function AfterOwner(me: Handler, ans: Ans, effect: bool): (r: Handler)
    ensures r.who == me.who
  {
    var sent := me.(past := me.past.(ownerLanded := me.past.ownerLanded || effect, ownerOpen := !effect && !me.past.ownerLanded && GivenUp(ans)));
    if ans.Broke? then End(sent, Unexpected)
    else if ans.up.status != 201 then End(sent, UpstreamFailure(ans.up))
    else sent.(wrote := true, past := sent.past.(ownerMade := true), phase := Inviting)
  }

  function AfterCreate(me: Handler, ans: Ans, shared: bool, landed: Option<nat>): (r: Handler)
    ensures r.who == me.who
  {
    var sent := me.(past := me.past.(invite := landed, inviteOpen := landed.None? && GivenUp(ans)));
    if ans.Broke? then End(sent, Unexpected)
    else if ans.up.status != 201 then sent.(phase := Replying(InviteRefused(ans.up)))
    else sent.(created := shared, past := sent.past.(inviteMade := true), phase := Replying(Answered))
  }

  function Next(me: Handler, st: Step, shared: bool): (r: Handler)
    requires AtAwait(me, st, shared)
    ensures r.who == me.who
  {
    match st
    case Health(_, ok) => me.(phase := if ok then Queued else Exited)
    case Begin(_) => me.(phase := Reading)
    case Read(_, read) => AfterRead(me, read)
    case List(_, list, atCap) => AfterList(me, list, shared && atCap)
    case Revoke(_, ans, _) => AfterRevoke(me, ans, shared)
    case MakeOwner(_, ans, effect) => AfterOwner(me, ans, effect)
    case CreateInvite(_, ans, effect, i) => AfterCreate(me, ans, shared, if effect then Some(i) else None)
    case Respond(_, broke) => End(me, if broke then Unexpected else me.phase.answer)
    case Finish(_) => me.(phase := Exited)
    case Land(_, i) => me.(past := me.past.(invite := Some(i), inviteOpen := false))
    case LandOwner(_) => me.(past := me.past.(ownerLanded := true, ownerOpen := false))
  }

  // ---------------------------------------------------------------- what it shares with the others

  /** Whether the visitor's slots stay spent. */
  predicate Spent(outcome: Outcome, wrote: bool) {
    match outcome
    case Answered => true
    case InviteRefused(up) => wrote || !RuntimeFault(up)
    case UpstreamFailure(up) => wrote || !RuntimeFault(up)
    case Unexpected => wrote
  }

  predicate FreesVisitor(me: Handler, st: Step) {
    (st.Health? && !st.ok) || (st.Finish? && me.phase.Leaving? && !Spent(me.phase.outcome, me.wrote))
  }

  predicate FreesTenant(me: Handler, st: Step) {
    (st.Health? && !st.ok) || (st.Finish? && (!me.created || me.replaced))
  }

  function Freed(h: seq<Grant>, slot: Option<nat>): (r: seq<Grant>)
    ensures |r| == |h|
    ensures forall i {:trigger r[i]} :: 0 <= i < |h| ==> r[i] == if slot == Some(i) then h[i].(released := true) else h[i]
  {
    if slot.Some? && slot.value < |h| then Released(h, slot.value) else h
  }

  function Pushed(queues: map<string, seq<nat>>, t: string, h: nat): map<string, seq<nat>> {
    queues[t := (if t in queues then queues[t] else []) + [h]]
  }

  function Popped(queues: map<string, seq<nat>>, t: string): map<string, seq<nat>> {
    if t in queues && queues[t] != [] then queues[t := queues[t][1..]] else queues
  }

  /** The lock: joined once the checks pass, handed on in the finally block. */
  function QueuesAfter(s: State, st: Step): map<string, seq<nat>>
    requires Ready(s, st) && Actor(st).Some?
  {
    var me := s.handlers[st.h];
    if st.Health? && st.ok then Pushed(s.queues, me.who.tenant, st.h)
    else if !me.phase.Leaving? && Next(me, st, s.shared).phase.Leaving? then Popped(s.queues, me.who.tenant)
    else s.queues
  }

  /** The invites upstream, kept for shared mode. */
  function InvitesAfter(s: State, st: Step): map<nat, Invite>
    requires Ready(s, st)
  {
    match st
    case Revoke(h, ans, effect) =>
      var i := s.handlers[h].phase.todo[0];
      if i in s.invites && (effect || (ans.Answer? && ans.up.status == 204)) then s.invites[i := s.invites[i].(live := false)] else s.invites
    case CreateInvite(h, _, effect, i) =>
      if effect && s.shared then s.invites[i := Invite(s.handlers[h].who.login, true, true)] else s.invites
    case Land(h, i) => if s.shared then s.invites[i := Invite(s.handlers[h].who.login, true, true)] else s.invites
    case InviteDies(i) => if i in s.invites then s.invites[i := s.invites[i].(live := false)] else s.invites
    case OtherInvite(i, login) => s.invites[i := Invite(login, false, true)]
    case _ => s.invites
  }

  function LateAfter(s: State, st: Step): set<nat> {
    if st.Land? then s.late + {st.invite} else s.late
  }

  // ---------------------------------------------------------------- arrival

  datatype Arrival = Arrival(sign: seq<Grant>, day: seq<Grant>, tenantSlots: seq<Grant>, slots: Slots, phase: Phase)

  /** Everything before the first await: the reservations, given back when a later one is refused. */
  function Reserve(s: State, tenant: string, subject: string, ip: string, room: Room): Arrival {
    var sign1 := Granted(s.sign, "ip:" + ip, s.now);
    var sign2 := Granted(sign1, "id:" + subject, s.now);
    var n := |s.sign|;
    if !room.ip then Arrival(s.sign, s.day, s.tenantSlots, Slots(None, None, None, None), Exited)
    else if !room.id then Arrival(Released(sign1, n), s.day, s.tenantSlots, Slots(Some(n), None, None, None), Exited)
    else if !s.shared then Arrival(sign2, s.day, s.tenantSlots, Slots(Some(n), Some(n + 1), None, None), Queued)
    else if !room.day then
      Arrival(Released(Released(sign2, n), n + 1), s.day, s.tenantSlots, Slots(Some(n), Some(n + 1), None, None), Exited)
    else
      var day1 := Granted(s.day, subject, s.now);
      var d := |s.day|;
      if !room.tenant then
        Arrival(Released(Released(sign2, n), n + 1), Released(day1, d), s.tenantSlots, Slots(Some(n), Some(n + 1), Some(d), None), Exited)
      else
        Arrival(sign2, day1, Granted(s.tenantSlots, tenant, s.now), Slots(Some(n), Some(n + 1), Some(d), Some(|s.tenantSlots|)), Checking)
  }

  function DoArrive(s: State, tenant: string, subject: string, login: string, ip: string, room: Room): State {
    var a := Reserve(s, tenant, subject, ip, room);
    var me := Handler(Visitor(tenant, login, a.slots, s.now), a.phase, false, false, false, None, NOTHING);
    s.(sign := a.sign, day := a.day, tenantSlots := a.tenantSlots, handlers := s.handlers + [me],
       queues := if a.phase.Queued? then Pushed(s.queues, tenant, |s.handlers|) else s.queues)
  }

  // ---------------------------------------------------------------- one step

  function Act(s: State, st: Step): State
    requires Ready(s, st) && Actor(st).Some?
  {
    var me := s.handlers[st.h];
    s.(handlers := s.handlers[st.h := Next(me, st, s.shared)],
       sign := if FreesVisitor(me, st) then Freed(Freed(s.sign, me.who.slots.ip), me.who.slots.id) else s.sign,
       day := if FreesVisitor(me, st) then Freed(s.day, me.who.slots.day) else s.day,
       tenantSlots := if FreesTenant(me, st) then Freed(s.tenantSlots, me.who.slots.tenant) else s.tenantSlots,
       queues := QueuesAfter(s, st),
       invites := InvitesAfter(s, st),
       late := LateAfter(s, st))
  }

  function Apply(s: State, st: Step): State
    requires Ready(s, st)
  {
    match st
    case Arrive(tenant, subject, login, ip, room) => DoArrive(s, tenant, subject, login, ip, room)
    case Tick(elapsed) => s.(now := s.now + elapsed)
    case InviteDies(_) => s.(invites := InvitesAfter(s, st))
    case OtherInvite(_, _) => s.(invites := InvitesAfter(s, st))
    case _ => Act(s, st)
  }

  /** In shared mode every visitor's tenant is the operator's one. */
  ghost predicate IsTrace(states: seq<State>, steps: seq<Step>, sharedTenant: string) {
    && |states| == |steps| + 1
    && (exists shared, now :: states[0] == Init(shared, now, states[0].invites))
    && (states[0].shared ==> InvitesBounded(states[0].invites))
    && forall i :: 0 <= i < |steps| ==>
         && Ready(states[i], steps[i]) && Truthful(states[i], steps[i]) && states[i + 1] == Apply(states[i], steps[i])
         && (steps[i].Arrive? && states[i].shared ==> steps[i].tenant == sharedTenant)
  }
}
