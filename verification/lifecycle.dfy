/** Every event the mute engine reacts to after start-up, and a run of them
    in order. Async completions are sequenced as discrete events. */
module Lifecycle {
  import opened Keys
  import opened Roles
  import opened Sinbin
  import Recovery
  import Persistence
  import Pings

  datatype Event =
    | MuteCmd(cfg: Config, cmd: Command, isNumeric: string -> bool, minutes: string -> int, fails: Id -> bool, now: Millis)
    | UnmuteCmd(cfg: Config, cmd: Command, fails: Id -> bool)
    | ExpiryFires(handle: TimerId)
    | MemberRejoins(guildId: Id, userId: Id, now: Millis, sinbinRole: bool)
    | WriteDone
    | Message(ctx: Pings.PingContext, author: Id, now: Millis, calls: Pings.Outcomes)
    | ForgetDue(forget: Pings.Forget)

  /** One event applied to the state. An expiry, write completion or forget
      that has nothing pending in `s` cannot occur and leaves `s` as it is. */
  function Step(s: State, e: Event): State {
    match e
    case MuteCmd(cfg, cmd, isNumeric, minutes, fails, now) => Mute(s, cfg, cmd, isNumeric, minutes, fails, now).state
    case UnmuteCmd(cfg, cmd, fails) => Unmute(s, cfg, cmd, fails).state
    case ExpiryFires(h) => if h in s.timers then TimerFires(s, h) else s
    case MemberRejoins(guildId, userId, now, sinbinRole) => Rejoin(s, guildId, userId, now, sinbinRole).state
    case WriteDone =>
      if s.writer.inFlight > 0 then s.(writer := Persistence.WriteComplete(s.writer, Snapshot(s.muted))) else s
    case Message(ctx, author, now, calls) => s.(pings := Pings.HandleMessage(s.pings, ctx, author, now, calls).tracker)
    case ForgetDue(f) => if f in s.pings.forgets then s.(pings := Pings.ForgetFires(s.pings, f)) else s
  }

  function Run(s: State, events: seq<Event>): State
    decreases |events|
  {
    if |events| == 0 then s else Run(Step(s, events[0]), events[1..])
  }

  /** No sequence of events breaks the invariant: every live timer is the
      one its key's record holds and fires no later than its `endsAt`, and
      at most one write is in flight. */
  lemma {:induction false} RunKeepsValid(s: State, events: seq<Event>)
    requires Valid(s)
    ensures Valid(Run(s, events))
    decreases |events|
  {
    if |events| > 0 {
      var next := Step(s, events[0]);
      assert Valid(next);
      RunKeepsValid(next, events[1..]);
    }
  }

  /** From a process start with well-formed loaded keys, through the
      reconciliation pass, any run of events keeps the invariant. */
  lemma StartupThenRunKeepsValid(loaded: map<Key, Millis>, env: Recovery.Env, now: Millis, rolesFetched: bool,
                                 events: seq<Event>)
    requires forall k :: k in loaded ==> WellFormed(k)
    ensures Valid(Run(Recovery.Reconcile(Recovery.Boot(loaded), env, now, rolesFetched).state, events))
  {
    Recovery.StartupIsValid(loaded, env, now, rolesFetched);
    RunKeepsValid(Recovery.Reconcile(Recovery.Boot(loaded), env, now, rolesFetched).state, events);
  }
}
