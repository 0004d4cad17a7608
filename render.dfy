/** The notifications the handler sends for each cause: the log-channel
    embed text and its console mirror for role and nickname changes, and the
    direct message for a timeout. Colours, titles, footers, avatars and
    timestamps are left to the embed library and not modelled. */
module Render {
  import opened Wrappers
  import opened Text
  import opened Duration
  import opened Classifier

  datatype Field = Field(name: string, value: string)

  datatype Notification =
    | Silent
    | ChannelLog(description: string, fields: seq<Field>, consoleLine: string)
    | DirectMessage(recipient: User, description: string)

  /** `${executor?.tag}` and `${executor?.id}`: an absent user prints as
      "undefined". */
  function OptTag(u: Option<User>): string {
    if u.Some? then u.value.tag else "undefined"
  }

  function OptId(u: Option<User>): string {
    if u.Some? then u.value.id else "undefined"
  }

  /** `${lastLog.executor}`: a user prints as its mention, an absent one as
      "null". */
  function MentionOrNull(u: Option<User>): (r: string)
    ensures u.Some? ==> r == UserMention(u.value)
    ensures r == "null" <==> u.None?
  {
    if u.Some? then
      assert UserMention(u.value)[0] != "null"[0];
      UserMention(u.value)
    else "null"
  }

  function RoleMention(role: Role): string {
    "<@&" + role.id + ">"
  }

  /** The part naming the moderator, shared by both role descriptions. */
  function ExecutorPart(executor: Option<User>): string {
    OptTag(executor) + "(<@" + OptId(executor) + ">) "
  }

  function UserMention(u: User): string {
    "<@" + u.id + ">"
  }

  function TargetPart(target: User): string {
    target.tag + ("(" + (UserMention(target) + ")"))
  }

  /** The layout both role texts share: moderator, verb, role, preposition,
      target. */
  function RoleText(executor: Option<User>, verb: string, role: Role, prep: string, target: User): (r: string)
    ensures ExecutorPart(executor) + verb <= r
    ensures Contains(r, RoleMention(role)) && Contains(r, UserMention(target))
    ensures EndsWith(r, TargetPart(target))
  {
    var p, m, tm, tp := ExecutorPart(executor), RoleMention(role), UserMention(target), TargetPart(target);
    LayoutNames(p, verb, m, prep, target.tag, tm);
    p + (verb + (m + (prep + tp)))
  }

  /** Description and console line of a role grant: it opens with the
      moderator and the verb, names the role and ends with the target. */
  function RoleAddedText(target: User, executor: Option<User>, role: Role): (r: string)
    ensures ExecutorPart(executor) + "added " <= r
    ensures Contains(r, RoleMention(role)) && Contains(r, UserMention(target))
    ensures EndsWith(r, TargetPart(target))
  {
    RoleText(executor, "added ", role, " to ", target)
  }

  /** Description and console line of a role revocation, laid out alike. */
  function RoleRemovedText(target: User, executor: Option<User>, role: Role): (r: string)
    ensures ExecutorPart(executor) + "removed " <= r
    ensures Contains(r, RoleMention(role)) && Contains(r, UserMention(target))
    ensures EndsWith(r, TargetPart(target))
  {
    RoleText(executor, "removed ", role, " from ", target)
  }

  /** A nickname field value: the nickname, or "Null" when there is none. */
  function NicknameFieldValue(nickname: Option<string>): (r: string)
    ensures nickname.Some? ==> r == nickname.value
    ensures nickname.None? ==> r == "Null"
  {
    if nickname.Some? then nickname.value else "Null"
  }

  /** `${nickname}` in the console line: an absent nickname prints "null". */
  function NicknameText(nickname: Option<string>): (r: string)
    ensures nickname.Some? ==> r == nickname.value
    ensures r == "null" <==> nickname == None || nickname == Some("null")
  {
    if nickname.Some? then nickname.value else "null"
  }

  /** The reason line: empty for an absent or empty reason, otherwise the
      reason in italics. The reason has already been cut to 500 characters. */
  function ReasonField(reason: Option<string>): (r: string)
    ensures r == "" <==> reason.None? || reason.value == ""
    ensures r != "" ==> |r| == |reason.value| + 10
                        && r[..9] == "Reason: *" && r[9..|r| - 1] == reason.value && r[|r| - 1] == '*'
  {
    if reason.Some? && reason.value != "" then "Reason: *" + reason.value + "*" else ""
  }

  /** `Math.floor(until / 1000)`: the timeout end in whole seconds. */
  function EpochSeconds(untilMs: int): (s: int)
    ensures s * 1000 <= untilMs < s * 1000 + 1000
  {
    untilMs / 1000
  }

  /** The relative-time markup `<t:SECONDS:R>` for the timeout end. */
  function RelativeTime(untilMs: int): (r: string)
    ensures 6 < |r| && r[..3] == "<t:" && r[|r| - 3..] == ":R>"
    ensures untilMs >= 0 ==>
      var digits := r[3..|r| - 3];
      AllDigits(digits) && Value(digits) * 1000 <= untilMs < Value(digits) * 1000 + 1000
  {
    var s := EpochSeconds(untilMs);
    ValueOfNatToString(if s >= 0 then s else 0);
    var r := "<t:" + IntToString(s) + ":R>";
    assert r[3..|r| - 3] == IntToString(s);
    r
  }

  const AppealLine := "**If you believe this time out is unjustified, fill in the [appeal form](https://google.com).**"

  /** The direct-message text of a timeout, line by line as the template
      literal lays it out (it opens with a line break and closes with an
      indented blank line). */
  function TimeoutText(executor: Option<User>, durationMinutes: int, untilMs: int, reason: Option<string>)
    : (r: string)
    ensures Contains(r, ReasonField(reason))
    ensures Contains(r, ModeratorLine(executor))
    ensures Contains(r, DurationLine(durationMinutes, untilMs))
    ensures EndsWith(r, AppealTail())
  {
    var a, b, c := ReasonField(reason), ModeratorLine(executor), DurationLine(durationMinutes, untilMs);
    LinesShow(a, b, c, AppealTail());
    "\n" + (a + ("\n" + (b + ("\n" + (c + AppealTail())))))
  }

  function ModeratorLine(executor: Option<User>): string {
    "Moderator: " + MentionOrNull(executor)
  }

  function DurationLine(durationMinutes: int, untilMs: int): string {
    "Duration: " + FormatDuration(durationMinutes) + " (" + RelativeTime(untilMs) + ")"
  }

  function AppealTail(): string {
    "\n\n" + AppealLine + "\n                "
  }

  /** What is sent for each cause. */
  function Notify(c: Cause): (n: Notification)
    ensures n.Silent? <==> c.NoCause?
    ensures n.DirectMessage? <==> c.TimedOut?
    ensures n.DirectMessage? ==> n.recipient == c.member
    ensures c.RoleAdded? ==>
      var text := RoleAddedText(c.target, c.executor, c.role);
      n == ChannelLog(text, [], text)
    ensures c.RoleRemoved? ==>
      var text := RoleRemovedText(c.target, c.executor, c.role);
      n == ChannelLog(text, [], text)
    ensures c.NicknameChanged? ==>
      && n.ChannelLog?
      && n.fields == [Field("Old Nickname", NicknameFieldValue(c.oldNickname)),
                      Field("New Nickname", NicknameFieldValue(c.newNickname))]
      && n.consoleLine == c.member.tag + " changed their nickname from " + NicknameText(c.oldNickname)
                          + " to " + NicknameText(c.newNickname)
    ensures c.TimedOut? ==> n.description == TimeoutText(c.executor, c.durationMinutes, c.until, c.reason)
  {
    match c
    case NoCause => Silent
    case RoleAdded(t, x, role) =>
      var text := RoleAddedText(t, x, role);
      ChannelLog(text, [], text)
    case RoleRemoved(t, x, role) =>
      var text := RoleRemovedText(t, x, role);
      ChannelLog(text, [], text)
    case NicknameChanged(u, a, b) =>
      ChannelLog("Nickname was updated!",
                 [Field("Old Nickname", NicknameFieldValue(a)), Field("New Nickname", NicknameFieldValue(b))],
                 u.tag + " changed their nickname from " + NicknameText(a) + " to " + NicknameText(b))
    case TimedOut(u, x, minutes, until, reason) =>
      DirectMessage(u, TimeoutText(x, minutes, until, reason))
  }

  /** One run of the handler on snapshots already fetched whole: classify,
      then render. A fault stands for the run throwing before anything is
      sent. */
  function Handle(oldMember: Member, newMember: Member, lastLog: Option<AuditEntry>, now: nat)
    : (r: Result<Notification, Fault>)
    ensures oldMember.partial ==> r == Ok(Silent)
    ensures r.Ok? && r.value.DirectMessage? ==>
      && IsCommunicationDisabled(newMember, now) && !IsCommunicationDisabled(oldMember, now)
      && lastLog.Some? && r.value.recipient == newMember.user
  {
    TimedOutIff(oldMember, newMember, lastLog, now);
    match Classify(oldMember, newMember, lastLog, now)
    case Err(f) => Err(f)
    case Ok(c) => Ok(Notify(c))
  }

  lemma ContainsAtStart(t: string, y: string)
    ensures Contains(t + y, t)
  {
    assert (t + y)[0..|t|] == t;
    assert OccursAt(t + y, t, 0);
  }

  lemma ContainsPrefixed(x: string, s: string, t: string)
    requires Contains(s, t)
    ensures Contains(x + s, t)
  {
    var k :| OccursAt(s, t, k);
    assert (x + s)[|x| + k..|x| + k + |t|] == s[k..k + |t|];
    assert OccursAt(x + s, t, |x| + k);
  }

  lemma PrefixBeforeRest(a: string, b: string, c: string)
    ensures a + b <= a + (b + c)
  {
    assert a + (b + c) == (a + b) + c;
  }

  lemma EndsWithSelf(t: string)
    ensures EndsWith(t, t)
  {
    assert t[0..] == t;
  }

  lemma EndsWithPrefixed(x: string, s: string, t: string)
    requires EndsWith(s, t)
    ensures EndsWith(x + s, t)
  {
    assert (x + s)[|x + s| - |t|..] == s[|s| - |t|..];
  }

  /** The role-text layout, over plain strings: it opens with `p` and the
      verb, names the role mention `m` and the target mention `tm`, and ends
      with the target part. */
  lemma LayoutNames(p: string, verb: string, m: string, prep: string, tag: string, tm: string)
    ensures var tp := tag + ("(" + (tm + ")"));
      var s := p + (verb + (m + (prep + tp)));
      && p + verb <= s
      && Contains(s, m) && Contains(s, tm) && EndsWith(s, tp)
  {
    var tp := tag + ("(" + (tm + ")"));
    var rest := m + (prep + tp);
    PrefixBeforeRest(p, verb, rest);
    ContainsAtStart(m, prep + tp);
    ContainsPrefixed(verb, rest, m);
    ContainsPrefixed(p, verb + rest, m);
    ContainsAtStart(tm, ")");
    ContainsPrefixed("(", tm + ")", tm);
    ContainsPrefixed(tag, "(" + (tm + ")"), tm);
    ContainsPrefixed(prep, tp, tm);
    ContainsPrefixed(m, prep + tp, tm);
    ContainsPrefixed(verb, rest, tm);
    ContainsPrefixed(p, verb + rest, tm);
    EndsWithSelf(tp);
    EndsWithPrefixed(prep, tp, tp);
    EndsWithPrefixed(m, prep + tp, tp);
    EndsWithPrefixed(verb, rest, tp);
    EndsWithPrefixed(p, verb + rest, tp);
  }

  /** Both role texts open with the moderator, name the role and the target,
      and never coincide: they part at the verb right after the moderator. */
  lemma RoleTexts(target: User, executor: Option<User>, role: Role)
    ensures ExecutorPart(executor) <= RoleAddedText(target, executor, role)
    ensures ExecutorPart(executor) <= RoleRemovedText(target, executor, role)
    ensures Contains(RoleAddedText(target, executor, role), RoleMention(role))
    ensures Contains(RoleRemovedText(target, executor, role), RoleMention(role))
    ensures Contains(RoleAddedText(target, executor, role), UserMention(target))
    ensures Contains(RoleRemovedText(target, executor, role), UserMention(target))
    ensures RoleAddedText(target, executor, role) != RoleRemovedText(target, executor, role)
  {
    var p, m, tp := ExecutorPart(executor), RoleMention(role), TargetPart(target);
    var added, removed := "added " + (m + (" to " + tp)), "removed " + (m + (" from " + tp));
    assert added[0] == 'a' && removed[0] == 'r';
    PartAfterPrefix(p, added, removed);
  }

  /** A role grant by moderator "Mod#2" of role 3 to "Bob#1", written out:
      "Mod#2(<@2>) added <@&3> to Bob#1(<@1>)". The inputs are named and
      pinned by `requires`, and the expected text is written in its right-nested
      pieces, because literal arguments and one long literal make the solver
      unfold every concatenation and exceed the resource limit. */
  lemma RoleAddedExample(target: User, moderator: User, role: Role)
    requires target == User("1", "Bob#1", false) && moderator == User("2", "Mod#2", false)
    requires role == Role("3")
    ensures RoleAddedText(target, Some(moderator), role)
      == "Mod#2(<@2>) " + ("added " + ("<@&3>" + (" to " + "Bob#1(<@1>)")))
  {
    var p, m, tp := ExecutorPart(Some(moderator)), RoleMention(role), TargetPart(target);
    assert p == "Mod#2(<@2>) ";
    assert m == "<@&3>";
    assert tp == "Bob#1(<@1>)";
  }

  /** A role revocation with no recorded executor prints "undefined" for the
      moderator's tag and id: "undefined(<@undefined>) removed <@&3> from Bob#1(<@1>)".
      Written in the same shape as `RoleAddedExample`, for the same reason. */
  lemma RoleRemovedExample(target: User, role: Role)
    requires target == User("1", "Bob#1", false) && role == Role("3")
    ensures RoleRemovedText(target, None, role)
      == "undefined(<@undefined>) " + ("removed " + ("<@&3>" + (" from " + "Bob#1(<@1>)")))
  {
    var p, m, tp := ExecutorPart(None), RoleMention(role), TargetPart(target);
    assert p == "undefined(<@undefined>) ";
    assert m == "<@&3>";
    assert tp == "Bob#1(<@1>)";
  }

  lemma PartAfterPrefix(p: string, a: string, b: string)
    requires a != [] && b != [] && a[0] != b[0]
    ensures p + a != p + b
  {
    assert (p + a)[|p|] == a[0] && (p + b)[|p|] == b[0];
  }

  /** Two nicknames show the same field value exactly when they are equal or
      one is absent and the other is literally "Null"; only the console line,
      which prints an absent nickname as "null", tells those two apart. */
  lemma NicknameFieldCollision(a: Option<string>, b: Option<string>)
    ensures NicknameFieldValue(a) == NicknameFieldValue(b)
      <==> a == b || (a == None && b == Some("Null")) || (a == Some("Null") && b == None)
    ensures NicknameText(None) != NicknameText(Some("Null"))
  {
    assert "Null" != "null" by { assert "Null"[0] != "null"[0]; }
  }

  /** The reason shown in the direct message is the first 500 characters of
      the audit reason, and nothing for an absent or empty reason. */
  lemma ReasonShown(auditReason: Option<string>)
    ensures var shown := ReasonField(if auditReason.Some? then Some(Slice(auditReason.value, ReasonLimit)) else None);
      && (shown == "" <==> auditReason.None? || auditReason.value == "")
      && (shown != "" ==> shown == "Reason: *" + auditReason.value[..Min(|auditReason.value|, ReasonLimit)] + "*")
  {
  }

  /** Old nickname "Al", new nickname "Alex", no role update: the log embed
      shows both nicknames. */
  lemma NicknameScenario(oldMember: Member, newMember: Member, lastLog: Option<AuditEntry>, now: nat)
    requires !oldMember.partial && !IsRoleUpdate(lastLog)
    requires oldMember.nickname == Some("Al") && newMember.nickname == Some("Alex")
    ensures Handle(oldMember, newMember, lastLog, now).Ok?
    ensures Handle(oldMember, newMember, lastLog, now).value.ChannelLog?
    ensures Handle(oldMember, newMember, lastLog, now).value.fields
      == [Field("Old Nickname", "Al"), Field("New Nickname", "Alex")]
  {
  }

  /** The three-line layout of the timeout message, over plain strings. */
  lemma LinesShow(a: string, b: string, c: string, tail: string)
    ensures var text := "\n" + (a + ("\n" + (b + ("\n" + (c + tail)))));
      Contains(text, a) && Contains(text, b) && Contains(text, c) && EndsWith(text, tail)
  {
    var r2 := "\n" + (c + tail);
    var r1 := "\n" + (b + r2);
    ContainsAtStart(c, tail);
    ContainsPrefixed("\n", c + tail, c);
    ContainsPrefixed(b, r2, c);
    ContainsPrefixed("\n", b + r2, c);
    ContainsPrefixed(a, r1, c);
    ContainsPrefixed("\n", a + r1, c);
    ContainsAtStart(b, r2);
    ContainsPrefixed("\n", b + r2, b);
    ContainsPrefixed(a, r1, b);
    ContainsPrefixed("\n", a + r1, b);
    ContainsAtStart(a, r1);
    ContainsPrefixed("\n", a + r1, a);
    EndsWithSelf(tail);
    EndsWithPrefixed(c, tail, tail);
    EndsWithPrefixed("\n", c + tail, tail);
    EndsWithPrefixed(b, r2, tail);
    EndsWithPrefixed("\n", b + r2, tail);
    EndsWithPrefixed(a, r1, tail);
    EndsWithPrefixed("\n", a + r1, tail);
  }

  /** A timeout ending 5 400 000 ms after the audit entry, with reason "spam",
      sends the member a direct message for 90 minutes and reason "spam". */
  lemma TimeoutScenario(oldMember: Member, newMember: Member, e: AuditEntry, now: nat, t: int)
    requires !oldMember.partial && e.action != RoleUpdateAction
    requires oldMember.nickname == newMember.nickname
    requires !IsCommunicationDisabled(oldMember, now)
    requires newMember.communicationDisabledUntil == Some(t + 5400000) && t + 5400000 > now
    requires e.createdTimestamp == t && e.reason == Some("spam")
    ensures Handle(oldMember, newMember, Some(e), now)
      == Ok(DirectMessage(newMember.user, TimeoutText(e.executor, 90, t + 5400000, Some("spam"))))
  {
    var c := TimedOut(newMember.user, e.executor, 90, t + 5400000, Some("spam"));
    assert TimeoutCause(newMember, e) == c by {
      assert Slice("spam", ReasonLimit) == "spam";
      assert RoundedMinutes(t + 5400000 - t) == 90;
    }
  }

  /** That message carries "Reason: *spam*" and "Duration: 1h30m" followed by
      the relative end time. */
  lemma TimeoutScenarioText(executor: Option<User>, t: int)
    ensures var text := TimeoutText(executor, 90, t + 5400000, Some("spam"));
      && Contains(text, "Reason: *" + "spam" + "*")
      && Contains(text, "Duration: " + "1h30m" + " (" + RelativeTime(t + 5400000) + ")")
  {
    NinetyMinutes();
  }
}
