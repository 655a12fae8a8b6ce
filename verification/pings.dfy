/** The ping-escalation rule: a member with a no-pinging role who mentions
    someone has the message deleted; a second offence within five minutes of
    the last one gets the member kicked. Each offence schedules a forget that
    only erases the entry if no newer offence replaced it. */
module Pings {
  import opened Keys

  /** The window, `5 * 60 * 1000` milliseconds. */
  const Window: int := 300000

  /** A pending forget timer: erase `author` if the entry still holds `stamp`. */
  datatype Forget = Forget(author: Id, stamp: int)

  /** `last` is `unauthorizedPingers`; `forgets` are the pending forget timers. */
  datatype Tracker = Tracker(last: map<Id, int>, forgets: multiset<Forget>)

  const Empty := Tracker(map[], multiset{})

  /** The facts about a message the rule looks at. */
  datatype PingContext = PingContext(
    inTextChannel: bool,
    authorIsMod: bool,
    authorIsBot: bool,
    hasMember: bool,
    holdsNoPingRole: bool,
    mentionCount: nat)

  /** The message is an offence: in a text channel, a non-moderator, non-bot
      guild member with a no-pinging role mentions at least one user. */
  predicate Offends(ctx: PingContext) {
    ctx.inTextChannel && !ctx.authorIsMod && !ctx.authorIsBot && ctx.hasMember && ctx.holdsNoPingRole && ctx.mentionCount > 0
  }

  /** `unauthorizedPingers[authorId] || 0`. */
  function LastOr0(t: Tracker, author: Id): int {
    if author in t.last then t.last[author] else 0
  }

  /** How the awaited platform calls of the rule resolved: `deleteOk` for
      `msg.delete()`, `responseOk` for the kick and its announcement, or for
      the warning reply. A rejection jumps to the handler's catch, skipping
      everything after it. */
  datatype Outcomes = Outcomes(deleteOk: bool, responseOk: bool)

  const AllResolve := Outcomes(true, true)

  /** What handling one message did to the tracker, and whether deleting the
      message and kicking its author were attempted. */
  datatype PingReply = PingReply(tracker: Tracker, deleted: bool, kicked: bool)

  /** The rule for one message sent at `now`. */
  function HandleMessage(t: Tracker, ctx: PingContext, author: Id, now: int, calls: Outcomes): (r: PingReply)
    ensures !Offends(ctx) ==> r.tracker == t && !r.deleted && !r.kicked
    ensures Offends(ctx) ==> r.deleted
    ensures r.kicked <==> Offends(ctx) && calls.deleteOk && now - LastOr0(t, author) < Window
    ensures Offends(ctx) && calls.deleteOk && calls.responseOk ==>
              && author in r.tracker.last && r.tracker.last[author] == now
              && r.tracker.forgets == t.forgets + multiset{Forget(author, now)}
    ensures !(calls.deleteOk && calls.responseOk) ==> r.tracker == t
    ensures forall a :: a != author ==>
              (a in r.tracker.last <==> a in t.last) && (a in t.last ==> r.tracker.last[a] == t.last[a])
  {
    if !Offends(ctx) then PingReply(t, false, false)
    else if !calls.deleteOk then PingReply(t, true, false)
    else
      var kicked := now - LastOr0(t, author) < Window;
      if !calls.responseOk then PingReply(t, true, kicked)
      else PingReply(Tracker(t.last[author := now], t.forgets + multiset{Forget(author, now)}), true, kicked)
  }

  /** A forget timer firing: the entry goes only if it still holds the
      timestamp the timer was scheduled with. */
  function ForgetFires(t: Tracker, f: Forget): (r: Tracker)
    requires f in t.forgets
    ensures r.forgets == t.forgets - multiset{f}
    ensures f.author in t.last && t.last[f.author] == f.stamp ==> f.author !in r.last
    ensures !(f.author in t.last && t.last[f.author] == f.stamp) ==> r.last == t.last
    ensures forall a :: a != f.author ==>
              (a in r.last <==> a in t.last) && (a in t.last ==> r.last[a] == t.last[a])
  {
    var last := if f.author in t.last && t.last[f.author] == f.stamp then t.last - {f.author} else t.last;
    Tracker(last, t.forgets - multiset{f})
  }

  /** Two offences less than the window apart: the second one kicks, even if
      the first one's forget has already fired. */
  lemma SecondPingWithinWindowKicks(ctx: PingContext, author: Id, t1: int, t2: int)
    requires Offends(ctx)
    requires Window <= t1 <= t2 < t1 + Window
    ensures var first := HandleMessage(Empty, ctx, author, t1, AllResolve);
            var second := HandleMessage(first.tracker, ctx, author, t2, AllResolve);
            !first.kicked && second.kicked
  {
  }

  /** Two offences at least the window apart: neither kicks, whether or not
      the first one's forget has fired in between. The window comparison
      alone decides it. */
  lemma PingsOutsideWindowDoNotKick(ctx: PingContext, author: Id, t1: int, t2: int)
    requires Offends(ctx)
    requires Window <= t1 && t1 + Window <= t2
    ensures var first := HandleMessage(Empty, ctx, author, t1, AllResolve);
            var forgotten := ForgetFires(first.tracker, Forget(author, t1));
            && !first.kicked
            && !HandleMessage(first.tracker, ctx, author, t2, AllResolve).kicked
            && !HandleMessage(forgotten, ctx, author, t2, AllResolve).kicked
  {
    var first := HandleMessage(Empty, ctx, author, t1, AllResolve);
    assert Forget(author, t1) in first.tracker.forgets;
  }

  /** A forget scheduled for an older offence does not erase a newer one. */
  lemma StaleForgetKeepsNewerPing(t: Tracker, ctx: PingContext, author: Id, t1: int, t2: int)
    requires Offends(ctx) && t1 != t2
    ensures var first := HandleMessage(t, ctx, author, t1, AllResolve);
            var second := HandleMessage(first.tracker, ctx, author, t2, AllResolve);
            var after := ForgetFires(second.tracker, Forget(author, t1));
            author in after.last && after.last[author] == t2
  {
    var first := HandleMessage(t, ctx, author, t1, AllResolve);
    var second := HandleMessage(first.tracker, ctx, author, t2, AllResolve);
    assert Forget(author, t1) in second.tracker.forgets;
  }

  /** A warning whose reply was rejected is not remembered: the next offence,
      however soon, is warned again instead of kicked. */
  lemma RejectedWarningIsNotRemembered(ctx: PingContext, author: Id, t1: int, t2: int, calls: Outcomes)
    requires Offends(ctx) && !calls.responseOk
    requires Window <= t1 <= t2 < t1 + Window
    ensures var first := HandleMessage(Empty, ctx, author, t1, calls);
            !first.kicked && !HandleMessage(first.tracker, ctx, author, t2, AllResolve).kicked
  {
  }
}
