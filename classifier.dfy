/** What the member-update handler decides from the two member snapshots and
    the latest audit-log entry of the guild: a first-match chain that names at
    most one cause (a role added, a role removed, a nickname change or a
    timeout) or none. */
module Classifier {
  import opened Wrappers
  import opened Text
  import opened Duration

  datatype User = User(id: string, tag: string, bot: bool)

  datatype Role = Role(id: string)

  /** One recorded change of an audit entry: its key and its `new` value,
      which for a role update is the list of roles added or removed. */
  datatype Change = Change(key: string, newRoles: seq<Role>)

  /** The most recent audit-log entry of the guild. */
  datatype AuditEntry = AuditEntry(
    action: string,
    executor: Option<User>,
    target: Option<User>,
    reason: Option<string>,
    createdTimestamp: int,
    changes: seq<Change>)

  /** A member snapshot: `partial` when only part of it is known. */
  datatype Member = Member(
    partial: bool,
    user: User,
    nickname: Option<string>,
    communicationDisabledUntil: Option<int>)

  datatype Cause =
    | NoCause
    | RoleAdded(target: User, executor: Option<User>, role: Role)
    | RoleRemoved(target: User, executor: Option<User>, role: Role)
    | NicknameChanged(member: User, oldNickname: Option<string>, newNickname: Option<string>)
    | TimedOut(member: User, executor: Option<User>, durationMinutes: int, until: int, reason: Option<string>)

  /** Why a run throws instead of notifying: a role update whose entry has no
      target, or whose change lists no role. */
  datatype Fault = MissingTarget | MissingRole

  const RoleUpdateAction := "MEMBER_ROLE_UPDATE"
  const AddKey := "$add"
  const RemoveKey := "$remove"
  const ReasonLimit: nat := 500

  /** A member is timed out when its timeout end lies after the current time. */
  predicate IsCommunicationDisabled(m: Member, now: nat)
    ensures IsCommunicationDisabled(m, now) ==>
              m.communicationDisabledUntil.Some? && m.communicationDisabledUntil.value > now
    ensures (m.communicationDisabledUntil.None? || m.communicationDisabledUntil == Some(0)) ==>
              !IsCommunicationDisabled(m, now)
    ensures forall earlier: nat :: earlier <= now && IsCommunicationDisabled(m, now) ==>
              IsCommunicationDisabled(m, earlier)
  {
    m.communicationDisabledUntil.Some? && m.communicationDisabledUntil.value > now
  }

  function FirstChangeKey(e: AuditEntry): Option<string> {
    if e.changes == [] then None else Some(e.changes[0].key)
  }

  predicate ExecutorIsBot(e: AuditEntry) {
    e.executor.Some? && e.executor.value.bot
  }

  predicate IsRoleUpdate(lastLog: Option<AuditEntry>) {
    lastLog.Some? && lastLog.value.action == RoleUpdateAction
  }

  /** The target and first role of a role-update entry, or the fault the
      notification would throw on. */
  function RoleSubject(e: AuditEntry): (r: Result<(User, Role), Fault>)
    requires e.changes != []
    ensures r.Ok? <==> e.target.Some? && e.changes[0].newRoles != []
    ensures r == Err(MissingTarget) <==> e.target.None?
    ensures r.Ok? ==> r.value.0 == e.target.value && r.value.1 == e.changes[0].newRoles[0]
  {
    if e.target.None? then Err(MissingTarget)
    else if e.changes[0].newRoles == [] then Err(MissingRole)
    else Ok((e.target.value, e.changes[0].newRoles[0]))
  }

  /** The role-update branch: only the first change is looked at, and a bot
      executor silences it. Both tests read the same key, so at most one
      fires; any other key gives no cause. */
  function ClassifyRoleUpdate(e: AuditEntry): (r: Result<Cause, Fault>)
    ensures r.Ok? ==> !r.value.NicknameChanged? && !r.value.TimedOut?
    ensures r.Ok? && r.value.RoleAdded? ==> FirstChangeKey(e) == Some(AddKey) && !ExecutorIsBot(e)
    ensures r.Ok? && r.value.RoleRemoved? ==> FirstChangeKey(e) == Some(RemoveKey) && !ExecutorIsBot(e)
    ensures r.Ok? && !r.value.NoCause? ==> r.value.executor == e.executor && Some(r.value.target) == e.target
    ensures FirstChangeKey(e) !in {Some(AddKey), Some(RemoveKey)} ==> r == Ok(NoCause)
  {
    var key := FirstChangeKey(e);
    if key == Some(AddKey) then
      if ExecutorIsBot(e) then Ok(NoCause)
      else match RoleSubject(e)
        case Err(f) => Err(f)
        case Ok((t, role)) => Ok(RoleAdded(t, e.executor, role))
    else if key == Some(RemoveKey) then
      if ExecutorIsBot(e) then Ok(NoCause)
      else match RoleSubject(e)
        case Err(f) => Err(f)
        case Ok((t, role)) => Ok(RoleRemoved(t, e.executor, role))
    else Ok(NoCause)
  }

  /** The timeout cause: the span from the entry's creation to the timeout
      end in whole minutes, and the reason cut to its first 500 characters. */
  function TimeoutCause(newMember: Member, e: AuditEntry): (c: Cause)
    requires newMember.communicationDisabledUntil.Some?
    ensures c.TimedOut? && c.member == newMember.user && c.executor == e.executor
    ensures c.until == newMember.communicationDisabledUntil.value
    ensures c.durationMinutes * MsPerMinute - MsPerMinute / 2 <= c.until - e.createdTimestamp
              < c.durationMinutes * MsPerMinute + MsPerMinute / 2
    ensures c.reason.Some? <==> e.reason.Some?
    ensures c.reason.Some? ==> c.reason.value <= e.reason.value
                               && |c.reason.value| == Min(|e.reason.value|, ReasonLimit)
  {
    var until := newMember.communicationDisabledUntil.value;
    var reason := match e.reason
      case None => None
      case Some(s) => Some(Slice(s, ReasonLimit));
    TimedOut(newMember.user, e.executor, RoundedMinutes(until - e.createdTimestamp), until, reason)
  }

  /** The handler's decision; `now` is the clock reading the timeout test uses. */
  function Classify(oldMember: Member, newMember: Member, lastLog: Option<AuditEntry>, now: nat)
    : (r: Result<Cause, Fault>)
    ensures oldMember.partial ==> r == Ok(NoCause)
    ensures IsRoleUpdate(lastLog) && r.Ok? ==> !r.value.NicknameChanged? && !r.value.TimedOut?
    ensures r.Err? ==> IsRoleUpdate(lastLog)
    ensures r.Ok? && (r.value.RoleAdded? || r.value.RoleRemoved?) ==>
              IsRoleUpdate(lastLog) && !ExecutorIsBot(lastLog.value)
  {
    if oldMember.partial then Ok(NoCause)
    else if IsRoleUpdate(lastLog) then ClassifyRoleUpdate(lastLog.value)
    else if oldMember.nickname != newMember.nickname then
      Ok(NicknameChanged(newMember.user, oldMember.nickname, newMember.nickname))
    else if IsCommunicationDisabled(newMember, now) && !IsCommunicationDisabled(oldMember, now)
      && lastLog.Some? then
      Ok(TimeoutCause(newMember, lastLog.value))
    else Ok(NoCause)
  }

  /** A role added is reported exactly for a non-bot role update whose first
      change adds roles, naming the entry's target and executor and the first
      role of the change. */
  lemma RoleAddedIff(oldMember: Member, newMember: Member, lastLog: Option<AuditEntry>, now: nat,
                     t: User, x: Option<User>, role: Role)
    ensures Classify(oldMember, newMember, lastLog, now) == Ok(RoleAdded(t, x, role))
      <==> && !oldMember.partial
           && IsRoleUpdate(lastLog)
           && FirstChangeKey(lastLog.value) == Some(AddKey)
           && !ExecutorIsBot(lastLog.value)
           && lastLog.value.target == Some(t)
           && x == lastLog.value.executor
           && lastLog.value.changes[0].newRoles != []
           && role == lastLog.value.changes[0].newRoles[0]
  {
  }

  /** The same for roles removed. */
  lemma RoleRemovedIff(oldMember: Member, newMember: Member, lastLog: Option<AuditEntry>, now: nat,
                       t: User, x: Option<User>, role: Role)
    ensures Classify(oldMember, newMember, lastLog, now) == Ok(RoleRemoved(t, x, role))
      <==> && !oldMember.partial
           && IsRoleUpdate(lastLog)
           && FirstChangeKey(lastLog.value) == Some(RemoveKey)
           && !ExecutorIsBot(lastLog.value)
           && lastLog.value.target == Some(t)
           && x == lastLog.value.executor
           && lastLog.value.changes[0].newRoles != []
           && role == lastLog.value.changes[0].newRoles[0]
  {
  }

  /** A role update done by a bot is never reported, whatever else changed. */
  lemma BotRoleUpdateIsSilent(oldMember: Member, newMember: Member, lastLog: Option<AuditEntry>, now: nat)
    requires IsRoleUpdate(lastLog) && ExecutorIsBot(lastLog.value)
    requires FirstChangeKey(lastLog.value) in {Some(AddKey), Some(RemoveKey)}
    ensures Classify(oldMember, newMember, lastLog, now) == Ok(NoCause)
  {
  }

  /** A role update whose first change neither adds nor removes roles gives no
      cause: it does not fall through to the nickname or timeout tests. */
  lemma OtherRoleUpdateIsSilent(oldMember: Member, newMember: Member, lastLog: Option<AuditEntry>, now: nat)
    requires IsRoleUpdate(lastLog)
    requires FirstChangeKey(lastLog.value) !in {Some(AddKey), Some(RemoveKey)}
    ensures Classify(oldMember, newMember, lastLog, now) == Ok(NoCause)
  {
  }

  /** A nickname change is reported exactly when the old snapshot is whole, no
      role update came first and the nicknames differ; it carries the new
      member and both nicknames. */
  lemma NicknameChangedIff(oldMember: Member, newMember: Member, lastLog: Option<AuditEntry>, now: nat,
                           u: User, a: Option<string>, b: Option<string>)
    ensures Classify(oldMember, newMember, lastLog, now) == Ok(NicknameChanged(u, a, b))
      <==> && !oldMember.partial
           && !IsRoleUpdate(lastLog)
           && oldMember.nickname != newMember.nickname
           && u == newMember.user && a == oldMember.nickname && b == newMember.nickname
  {
  }

  /** A nickname change wins over a timeout applied in the same update. */
  lemma NicknamePrecedesTimeout(oldMember: Member, newMember: Member, lastLog: Option<AuditEntry>, now: nat)
    requires !oldMember.partial && !IsRoleUpdate(lastLog)
    requires oldMember.nickname != newMember.nickname
    requires IsCommunicationDisabled(newMember, now) && !IsCommunicationDisabled(oldMember, now)
    requires lastLog.Some?
    ensures Classify(oldMember, newMember, lastLog, now).value.NicknameChanged?
  {
  }

  /** A timeout is reported exactly when the old snapshot is whole, no role
      update or nickname change came first, the new member is timed out, the
      old one was not, and an audit entry exists; the cause carries the
      rounded span and the reason prefix. */
  lemma TimedOutIff(oldMember: Member, newMember: Member, lastLog: Option<AuditEntry>, now: nat)
    ensures Classify(oldMember, newMember, lastLog, now).Ok?
            && Classify(oldMember, newMember, lastLog, now).value.TimedOut?
      <==> && !oldMember.partial
           && !IsRoleUpdate(lastLog)
           && oldMember.nickname == newMember.nickname
           && IsCommunicationDisabled(newMember, now)
           && !IsCommunicationDisabled(oldMember, now)
           && lastLog.Some?
    ensures Classify(oldMember, newMember, lastLog, now).Ok?
            && Classify(oldMember, newMember, lastLog, now).value.TimedOut? ==>
      var c := Classify(oldMember, newMember, lastLog, now).value;
      var e := lastLog.value;
      && c.member == newMember.user
      && c.executor == e.executor
      && c.until == newMember.communicationDisabledUntil.value
      && c.durationMinutes * MsPerMinute - MsPerMinute / 2 <= c.until - e.createdTimestamp
      && c.until - e.createdTimestamp < c.durationMinutes * MsPerMinute + MsPerMinute / 2
      && (c.reason.Some? <==> e.reason.Some?)
      && (c.reason.Some? ==> c.reason.value <= e.reason.value
                             && |c.reason.value| == Min(|e.reason.value|, ReasonLimit))
  {
  }

  /** A run throws exactly for a non-bot role update that adds or removes
      roles but whose entry has no target or whose change lists no role. */
  lemma FaultIff(oldMember: Member, newMember: Member, lastLog: Option<AuditEntry>, now: nat)
    ensures Classify(oldMember, newMember, lastLog, now).Err?
      <==> && !oldMember.partial
           && IsRoleUpdate(lastLog)
           && FirstChangeKey(lastLog.value) in {Some(AddKey), Some(RemoveKey)}
           && !ExecutorIsBot(lastLog.value)
           && (lastLog.value.target.None? || lastLog.value.changes[0].newRoles == [])
  {
  }
}
