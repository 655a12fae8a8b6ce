/** The role mutation executor: `modifyRole` (bulk add or remove of a role
    behind the authorization filter) and `removeRoleSafe` (the retrying
    removal used when a mute expires). Platform calls are not made here:
    their outcomes are inputs. */
module Roles {
  import opened Wrappers
  import opened Seqs
  import opened Keys

  /** A guild member as `modifyRole` sees it: the user id, whether the user is
      a bot, and the names of the roles the member holds. */
  datatype Member = Member(userId: Id, isBot: bool, roleNames: set<string>)

  /** The configuration `modifyRole` reads: testing mode, the bot's own user
      id, and the names of the moderator roles. */
  datatype Config = Config(testing: bool, selfId: Id, modRoles: set<string>)

  /** The two lists the joined promise resolves to. */
  datatype Partition = Partition(successful: seq<Member>, errored: seq<Member>)

  /** What one `modifyRole` call did: the members whose role call was issued,
      in order, and the resolved partition, or None when the call returned
      `undefined`. */
  datatype Modification = Modification(issued: seq<Member>, outcome: Option<Partition>)

  predicate HoldsModRole(cfg: Config, m: Member) {
    m.roleNames * cfg.modRoles != {}
  }

  /** Targets that abort the whole call (the bot itself, or any bot). */
  predicate Refused(cfg: Config, m: Member) {
    !cfg.testing && (m.userId == cfg.selfId || m.isBot)
  }

  /** Targets that are silently skipped (holders of a moderator role). */
  predicate Shielded(cfg: Config, m: Member) {
    !cfg.testing && HoldsModRole(cfg, m)
  }

  function Attempted(cfg: Config): Member -> bool {
    (m: Member) => !Shielded(cfg, m)
  }

  function Succeeded(fails: Id -> bool): Member -> bool {
    (m: Member) => !fails(m.userId)
  }

  function Errored(fails: Id -> bool): Member -> bool {
    (m: Member) => fails(m.userId)
  }

  /** How far the loop over the targets gets before a refused target makes it
      return: the index of the first refused target, or the length. */
  function FirstRefused(cfg: Config, users: seq<Member>): (n: nat)
    ensures n <= |users|
    ensures forall j :: 0 <= j < n ==> !Refused(cfg, users[j])
    ensures n < |users| ==> Refused(cfg, users[n])
  {
    if |users| == 0 then 0
    else if Refused(cfg, users[0]) then 0
    else 1 + FirstRefused(cfg, users[1..])
  }

  /** `modifyRole(role, users, addRole)`: one role call per target in order,
      skipping moderators; a refused target ends the call with `undefined`
      after the calls already issued for earlier targets. `fails(id)` is the
      platform's answer to the call for that user. */
  function ModifyRole(cfg: Config, users: seq<Member>, fails: Id -> bool): (r: Modification)
    ensures r.outcome.None? <==> exists i :: 0 <= i < |users| && Refused(cfg, users[i])
    ensures cfg.testing ==> r.issued == users && r.outcome.Some?
    ensures forall m :: m in r.issued ==> m in users && !Shielded(cfg, m) && !Refused(cfg, m)
    ensures r.outcome.Some? ==>
              (forall m :: m in users && !Shielded(cfg, m) ==> m in r.issued)
    ensures r.outcome.Some? ==>
              && (forall m :: m in r.outcome.value.successful <==> m in r.issued && !fails(m.userId))
              && (forall m :: m in r.outcome.value.errored <==> m in r.issued && fails(m.userId))
  {
    var n := FirstRefused(cfg, users);
    var issued := Filter(users[..n], Attempted(cfg));
    assert users[..|users|] == users;
    if n < |users| then Modification(issued, None)
    else
      Modification(issued, Some(Partition(Filter(issued, Succeeded(fails)), Filter(issued, Errored(fails)))))
  }

  /** Outside testing mode a moderator target appears in neither list. */
  lemma ShieldedInNeitherList(cfg: Config, users: seq<Member>, fails: Id -> bool, m: Member)
    requires Shielded(cfg, m)
    requires forall i :: 0 <= i < |users| ==> !Refused(cfg, users[i])
    ensures ModifyRole(cfg, users, fails).outcome.Some?
    ensures m !in ModifyRole(cfg, users, fails).outcome.value.successful
    ensures m !in ModifyRole(cfg, users, fails).outcome.value.errored
  {
  }

  /** The successful and errored lists are disjoint, and together they are
      exactly the issued members: each list is an order-preserving
      subsequence of the issued calls, and their multisets add up to the
      issued multiset. The issued calls themselves follow the target order. */
  lemma PartitionIsExact(cfg: Config, users: seq<Member>, fails: Id -> bool)
    requires forall i :: 0 <= i < |users| ==> !Refused(cfg, users[i])
    ensures ModifyRole(cfg, users, fails).outcome.Some?
    ensures var r := ModifyRole(cfg, users, fails);
            var p := r.outcome.value;
            && multiset(p.successful) + multiset(p.errored) == multiset(r.issued)
            && |p.successful| + |p.errored| == |r.issued|
            && (forall m :: m in p.successful ==> m !in p.errored)
            && Subsequence(p.successful, r.issued)
            && Subsequence(p.errored, r.issued)
            && r.issued == Filter(users, Attempted(cfg))
            && Subsequence(r.issued, users)
  {
    var r := ModifyRole(cfg, users, fails);
    var n := FirstRefused(cfg, users);
    assert n == |users|;
    assert users[..n] == users;
    assert r.issued == Filter(users, Attempted(cfg));
    var p := r.outcome.value;
    assert p.successful == Filter(r.issued, Succeeded(fails));
    assert p.errored == Filter(r.issued, Errored(fails));
    FilterPartition(r.issued, Succeeded(fails), Errored(fails));
  }

  /** A refused target after others: the earlier targets' role calls were
      issued even though the call resolves to `undefined`. */
  lemma RefusedAfterOthersStillIssues(cfg: Config, before: seq<Member>, refused: Member, after: seq<Member>, fails: Id -> bool)
    requires Refused(cfg, refused)
    requires forall m :: m in before ==> !Refused(cfg, m)
    ensures var r := ModifyRole(cfg, before + [refused] + after, fails);
            r.outcome.None? && r.issued == Filter(before, Attempted(cfg))
  {
    var users := before + [refused] + after;
    assert users[|before|] == refused;
    assert forall j :: 0 <= j < |before| ==> users[j] == before[j];
    assert forall j :: 0 <= j < |before| ==> !Refused(cfg, users[j]);
    assert FirstRefused(cfg, users) == |before|;
    assert users[..|before|] == before;
  }

  /** One reply of the platform to `member.roles.remove(role)`: success, or
      an error that may carry a numeric code. */
  datatype RemoveReply = Removed | Rejected(code: Option<int>)

  /** Replies that end the retry loop: success, or an error whose code is
      falsy (missing or 0) or lies in [10000, 10000] ("not in the server"). */
  predicate EndsRetry(reply: RemoveReply) {
    reply.Removed? || reply.code.None? || reply.code.value == 0
    || (reply.code.value >= 10000 && reply.code.value <= 10000)
  }

  /** The backoff between attempts, in milliseconds. */
  const RetryDelay: int := 5000

  /** `removeRoleSafe(member, role)`: call until a reply ends the loop,
      sleeping `RetryDelay` after every other error. `replies` are the
      platform's replies in order; when they run out without an ending reply
      the loop is still retrying (`finished` false). */
  method RemoveRoleSafe(replies: seq<RemoveReply>) returns (attempts: nat, finished: bool, slept: int)
    ensures finished <==> exists i :: 0 <= i < |replies| && EndsRetry(replies[i])
    ensures attempts <= |replies|
    ensures finished ==> attempts >= 1 && EndsRetry(replies[attempts - 1])
    ensures forall j :: 0 <= j < |replies| && j < (if finished then attempts - 1 else attempts)
              ==> !EndsRetry(replies[j])
    ensures !finished ==> attempts == |replies|
    ensures slept == RetryDelay * (if finished then attempts - 1 else attempts)
  {
    attempts, finished, slept := 0, false, 0;
    while attempts < |replies|
      invariant attempts <= |replies|
      invariant forall j :: 0 <= j < attempts ==> !EndsRetry(replies[j])
      invariant slept == RetryDelay * attempts
    {
      var reply := replies[attempts];
      attempts := attempts + 1;
      if EndsRetry(reply) {
        finished := true;
        return;
      }
      slept := slept + RetryDelay;
    }
  }
}
