/** The mute ("sinbin") state engine: the `muted` map from permanent key to
    its record, the live expiry timers, the `muted.json` writer and the ping
    tracker, with one pure transition per event: `!mute`, `!unmute`, an
    expiry timer firing, and a muted member rejoining. Time (`now`) and every
    platform answer are inputs. */
module Sinbin {
  import opened Wrappers
  import opened Keys
  import opened Roles
  import Persistence
  import Pings

  type Millis = int

  /** Milliseconds per minute of a `!mute` duration. */
  const MinuteMillis: int := 60 * 1000

  /** The longest delay Node.js's `setTimeout` honours, 2^31 - 1 ms. */
  const MaxTimerDelay: int := 2147483647

  /** The delay Node.js actually applies: one above `MaxTimerDelay` (or below
      1) is replaced by 1 ms. */
  function TimerDelay(delay: int): (r: int)
    ensures 1 <= r <= MaxTimerDelay
    ensures r == delay <==> 1 <= delay <= MaxTimerDelay
    ensures delay > MaxTimerDelay ==> r == 1
  {
    if delay > MaxTimerDelay || delay < 1 then 1 else delay
  }

  /** A `setTimeout` handle: the key whose expiry it runs, and the number of
      the event that created it (so handles are never reused). */
  datatype TimerId = TimerId(key: Key, gen: nat)

  /** A `muted` entry: `endsAt`, and the number of the handle kept as
      `timeout` (absent in entries loaded from `muted.json`). The handle a
      record of key `k` holds is always one of `k`'s timers. */
  datatype Record = Record(endsAt: Millis, timeout: Option<nat>)

  /** The handle the record of key `k` holds, if any. */
  function HandleOf(k: Key, record: Record): (h: Option<TimerId>)
    ensures h.Some? <==> record.timeout.Some?
    ensures h.Some? ==> h.value.key == k && h.value.gen == record.timeout.value
  {
    if record.timeout.Some? then Some(TimerId(k, record.timeout.value)) else None
  }

  /** `muted`; the live timers with the time each fires; the number the next
      created handle gets; the writer of `muted.json`; the ping tracker. */
  datatype State = State(
    muted: map<Key, Record>,
    timers: map<TimerId, Millis>,
    gen: nat,
    writer: Persistence.Writer,
    pings: Pings.Tracker)

  /** Every live timer is the one its key's record holds, so a key has at
      most one, and it fires no later than the record's `endsAt`; handles
      in use are older than the next one; at most one write is in flight. */
  predicate Valid(s: State) {
    && (forall h :: h in s.timers ==>
          h.key in s.muted && s.muted[h.key].timeout == Some(h.gen) && s.timers[h] <= s.muted[h.key].endsAt)
    && (forall h :: h in s.timers ==> h.gen < s.gen)
    && (forall k :: k in s.muted && s.muted[k].timeout.Some? ==> s.muted[k].timeout.value < s.gen)
    && Persistence.Sane(s.writer)
  }

  /** Under `Valid` a key never has two live timers. */
  lemma OneTimerPerKey(s: State, h1: TimerId, h2: TimerId)
    requires Valid(s) && h1 in s.timers && h2 in s.timers && h1.key == h2.key
    ensures h1 == h2
  {
  }

  /** What `saveMuted()` writes: each key with its `endsAt` only. */
  function Snapshot(muted: map<Key, Record>): (r: Persistence.Snapshot)
    ensures r.Keys == muted.Keys
    ensures forall k :: k in r ==> r[k] == muted[k].endsAt
  {
    map k | k in muted :: muted[k].endsAt
  }

  /** `saveMuted()` with the current map. */
  function Save(s: State): (r: State)
    ensures r.muted == s.muted && r.timers == s.timers && r.gen == s.gen && r.pings == s.pings
    ensures r.writer == Persistence.RequestSave(s.writer, Snapshot(s.muted))
  {
    s.(writer := Persistence.RequestSave(s.writer, Snapshot(s.muted)))
  }

  /** `clearTimeout(handle)`: the timer stops if it is still live; clearing
      `undefined` or a spent handle does nothing. */
  function ClearTimeout(timers: map<TimerId, Millis>, handle: Option<TimerId>): (r: map<TimerId, Millis>)
    ensures handle.Some? ==> handle.value !in r
    ensures forall h :: h in r <==> h in timers && handle != Some(h)
    ensures forall h :: h in r ==> r[h] == timers[h]
  {
    if handle.Some? then timers - {handle.value} else timers
  }

  /** Key `k` has the same record in `s` and `r`. */
  predicate SameRecord(s: State, r: State, k: Key) {
    && (k in r.muted <==> k in s.muted)
    && (k in s.muted ==> r.muted[k] == s.muted[k])
  }

  /** Timer `h` is live in `r` exactly when in `s`, with the same time. */
  predicate SameTimer(s: State, r: State, h: TimerId) {
    && (h in r.timers <==> h in s.timers)
    && (h in s.timers ==> r.timers[h] == s.timers[h])
  }

  /** Key `k` has the same record and the same timers in `s` and `r`. */
  ghost predicate Untouched(s: State, r: State, k: Key) {
    SameRecord(s, r, k) && forall h: TimerId :: h.key == k ==> SameTimer(s, r, h)
  }

  /** Key `k` has a record ending at `endsAt` whose timer is live and fires
      at `fires`. */
  predicate ArmedWith(s: State, k: Key, endsAt: Millis, fires: Millis) {
    && k in s.muted && s.muted[k].endsAt == endsAt
    && s.muted[k].timeout.Some? && TimerId(k, s.muted[k].timeout.value) in s.timers
    && s.timers[TimerId(k, s.muted[k].timeout.value)] == fires
  }

  /** The only live timer of key `k`, if any, is the one its record holds. */
  predicate SoleTimer(s: State, k: Key) {
    k in s.muted && s.muted[k].timeout.Some?
    && forall h :: h in s.timers && h.key == k ==> h.gen == s.muted[k].timeout.value
  }

  /** Key `k` has no live timer. */
  predicate NoTimer(s: State, k: Key) {
    forall h :: h in s.timers ==> h.key != k
  }

  /** The keys of the given members in one guild. */
  function Targets(guildId: Id, ms: seq<Member>): set<Key> {
    set m | m in ms :: MakeKey(guildId, m.userId)
  }

  /** `h` is the handle held by the record of one of `keys`. */
  predicate HeldBy(s: State, keys: set<Key>, h: TimerId) {
    h.key in keys && h.key in s.muted && s.muted[h.key].timeout == Some(h.gen)
  }

  /** The `!mute` loop over the successful members: clear the timer of the
      key's record if it has one, install a new timer firing at `fires`, and
      store the record with `endsAt` and the new handle. */
  function Arm(s: State, guildId: Id, ms: seq<Member>, endsAt: Millis, fires: Millis): (r: State)
    ensures forall k :: k in Targets(guildId, ms) ==>
              && k in r.muted && r.muted[k] == Record(endsAt, Some(s.gen))
              && TimerId(k, s.gen) in r.timers && r.timers[TimerId(k, s.gen)] == fires
    ensures forall k :: k !in Targets(guildId, ms) ==> SameRecord(s, r, k)
    ensures forall h: TimerId :: h.gen != s.gen || h.key !in Targets(guildId, ms) ==>
              && (h in r.timers <==> h in s.timers && !HeldBy(s, Targets(guildId, ms), h))
              && (h in r.timers ==> r.timers[h] == s.timers[h])
    ensures r.gen == s.gen && r.writer == s.writer && r.pings == s.pings
    decreases |ms|
  {
    if |ms| == 0 then s
    else
      var k := MakeKey(guildId, ms[0].userId);
      var handle := TimerId(k, s.gen);
      var cleared := if k in s.muted then ClearTimeout(s.timers, HandleOf(k, s.muted[k])) else s.timers;
      var next := s.(muted := s.muted[k := Record(endsAt, Some(s.gen))], timers := cleared[handle := fires]);
      var rest := Targets(guildId, ms[1..]);
      assert Targets(guildId, ms) == {k} + rest;
      var r := Arm(next, guildId, ms[1..], endsAt, fires);
      assert forall k' :: k' !in Targets(guildId, ms) ==> SameRecord(s, r, k') by {
        forall k' | k' !in Targets(guildId, ms)
          ensures SameRecord(s, r, k')
        {
          assert k' != k && k' !in rest && SameRecord(next, r, k');
        }
      }
      assert forall h: TimerId :: h.gen != s.gen || h.key !in Targets(guildId, ms) ==>
               (h in r.timers <==> h in s.timers && !HeldBy(s, Targets(guildId, ms), h)) by {
        forall h: TimerId | h.gen != s.gen || h.key !in Targets(guildId, ms)
          ensures h in r.timers <==> h in s.timers && !HeldBy(s, Targets(guildId, ms), h)
        {
          assert h != handle;
          assert h in next.timers <==> h in s.timers && !(h.key == k && k in s.muted && s.muted[k].timeout == Some(h.gen));
          if h.key == k {
            assert !HeldBy(next, rest, h);
          } else {
            assert HeldBy(next, rest, h) <==> HeldBy(s, rest, h);
          }
        }
      }
      r
  }

  /** The `!unmute` loop over the successful members: a key with a record
      has the record's timer cleared and the record deleted; a key without
      one is left alone. */
  function Disarm(s: State, guildId: Id, ms: seq<Member>): (r: State)
    ensures forall k :: k in Targets(guildId, ms) ==> k !in r.muted
    ensures forall k :: k !in Targets(guildId, ms) ==> SameRecord(s, r, k)
    ensures forall h ::
              && (h in r.timers <==> h in s.timers && !HeldBy(s, Targets(guildId, ms), h))
              && (h in r.timers ==> r.timers[h] == s.timers[h])
    ensures r.gen == s.gen && r.writer == s.writer && r.pings == s.pings
    decreases |ms|
  {
    if |ms| == 0 then s
    else
      var k := MakeKey(guildId, ms[0].userId);
      var next :=
        if k in s.muted then s.(muted := s.muted - {k}, timers := ClearTimeout(s.timers, HandleOf(k, s.muted[k])))
        else s;
      var rest := Targets(guildId, ms[1..]);
      assert Targets(guildId, ms) == {k} + rest;
      var r := Disarm(next, guildId, ms[1..]);
      assert forall h: TimerId :: h in r.timers <==> h in s.timers && !HeldBy(s, Targets(guildId, ms), h) by {
        forall h: TimerId
          ensures h in r.timers <==> h in s.timers && !HeldBy(s, Targets(guildId, ms), h)
        {
          assert h in next.timers <==> h in s.timers && !(h.key == k && k in s.muted && s.muted[k].timeout == Some(h.gen));
          if h.key == k {
            assert !HeldBy(next, rest, h);
          } else {
            assert HeldBy(next, rest, h) <==> HeldBy(s, rest, h);
          }
        }
      }
      r
  }

  /** `findFirstNum(parts)`: the first part the numeric test accepts. */
  function FindFirstNum(parts: seq<string>, isNumeric: string -> bool): (r: Option<string>)
    ensures r.None? <==> forall i :: 0 <= i < |parts| ==> !isNumeric(parts[i])
    ensures r.Some? ==> exists i :: 0 <= i < |parts| && parts[i] == r.value && isNumeric(parts[i])
                                  && forall j :: 0 <= j < i ==> !isNumeric(parts[j])
  {
    if |parts| == 0 then None
    else if isNumeric(parts[0]) then Some(parts[0])
    else
      var r := FindFirstNum(parts[1..], isNumeric);
      assert r.Some? ==> exists i :: 1 <= i < |parts| && parts[i] == r.value && isNumeric(parts[i])
                                     && forall j :: 0 <= j < i ==> !isNumeric(parts[j]);
      r
  }

  /** The `!mute` duration in milliseconds: the first numeric token, read as
      a number of minutes, when that number is positive. */
  function MuteMillis(parts: seq<string>, isNumeric: string -> bool, minutes: string -> int): (r: Option<Millis>)
    ensures r.Some? <==> FindFirstNum(parts, isNumeric).Some? && minutes(FindFirstNum(parts, isNumeric).value) > 0
    ensures r.Some? ==> r.value > 0 && r.value % MinuteMillis == 0
    ensures r.Some? ==> r.value / MinuteMillis == minutes(FindFirstNum(parts, isNumeric).value)
  {
    match FindFirstNum(parts, isNumeric)
    case None => None
    case Some(token) =>
      if minutes(token) <= 0 then None else Some(minutes(token) * MinuteMillis)
  }

  /** A `!mute` or `!unmute` message: whether the handler got past its
      prelude (`reached`), whether its author is a moderator, its
      space-separated parts, the guild, whether the guild has the sinbin
      role, and the mentioned members (None when the message has none).
      The prelude aborts the whole handler when, for a moderator, fetching
      a mentioned user or member rejects, and, in a text channel, when the
      message holds a blacklisted link or the link check's fetch rejects. */
  datatype Command = Command(
    reached: bool,
    isMod: bool,
    parts: seq<string>,
    guildId: Id,
    sinbinRole: bool,
    mentions: Option<seq<Member>>)

  /** The new state and the members whose role call was issued. */
  datatype Reply = Reply(state: State, roleCalls: seq<Member>)

  /** The role call returned two lists that are not both empty; only then
      does a command touch the state. */
  predicate Reported(mod: Modification) {
    mod.outcome.Some? && (|mod.outcome.value.successful| > 0 || |mod.outcome.value.errored| > 0)
  }

  /** The checks the handler makes before `!mute`'s role call. */
  predicate MuteAdmitted(cmd: Command, isNumeric: string -> bool, minutes: string -> int) {
    cmd.reached && cmd.isMod && MuteMillis(cmd.parts, isNumeric, minutes).Some? && cmd.sinbinRole && cmd.mentions.Some?
  }

  /** `!mute <duration> @members` at time `now`. `fails(id)` is the platform's
      answer to adding the role to that user. A role call that resolves to
      `undefined` throws when destructured; the handler logs it and nothing
      changes. Each new timer is set with the mute's duration, which Node.js
      clamps (`TimerDelay`); the record's `endsAt` is not clamped. */
  function Mute(s: State, cfg: Config, cmd: Command, isNumeric: string -> bool, minutes: string -> int,
                fails: Id -> bool, now: Millis): (r: Reply)
    ensures !cmd.reached ==> r.state == s && r.roleCalls == []
    ensures !MuteAdmitted(cmd, isNumeric, minutes) ==> r.state == s && r.roleCalls == []
    ensures MuteAdmitted(cmd, isNumeric, minutes) ==>
              var mod := ModifyRole(cfg, cmd.mentions.value, fails);
              r.roleCalls == mod.issued && (!Reported(mod) ==> r.state == s)
    ensures MuteAdmitted(cmd, isNumeric, minutes) && Reported(ModifyRole(cfg, cmd.mentions.value, fails)) ==>
              var ok := ModifyRole(cfg, cmd.mentions.value, fails).outcome.value.successful;
              var d := MuteMillis(cmd.parts, isNumeric, minutes).value;
              && (forall m :: m in ok ==> ArmedWith(r.state, MakeKey(cmd.guildId, m.userId), now + d, now + TimerDelay(d)))
              && (forall k :: k !in Targets(cmd.guildId, ok) ==> Untouched(s, r.state, k))
              && (forall h :: HeldBy(s, Targets(cmd.guildId, ok), h) && h.gen < s.gen ==> h !in r.state.timers)
              && r.state.writer == Persistence.RequestSave(s.writer, Snapshot(r.state.muted))
    ensures Valid(s) && MuteAdmitted(cmd, isNumeric, minutes) && Reported(ModifyRole(cfg, cmd.mentions.value, fails)) ==>
              forall m :: m in ModifyRole(cfg, cmd.mentions.value, fails).outcome.value.successful ==>
                SoleTimer(r.state, MakeKey(cmd.guildId, m.userId))
    ensures r.state.pings == s.pings
    ensures Valid(s) ==> Valid(r.state)
  {
    if !MuteAdmitted(cmd, isNumeric, minutes) then Reply(s, [])
    else
      var mod := ModifyRole(cfg, cmd.mentions.value, fails);
      if !Reported(mod) then Reply(s, mod.issued)
      else
        var ok := mod.outcome.value.successful;
        var d := MuteMillis(cmd.parts, isNumeric, minutes).value;
        Reply(ArmAndSave(s, cmd.guildId, ok, now + d, now + TimerDelay(d)), mod.issued)
  }

  /** The `!mute` loop followed by its `saveMuted()`. */
  function ArmAndSave(s: State, guildId: Id, ok: seq<Member>, endsAt: Millis, fires: Millis): (r: State)
    requires fires <= endsAt
    ensures forall m :: m in ok ==> ArmedWith(r, MakeKey(guildId, m.userId), endsAt, fires)
    ensures forall k :: k !in Targets(guildId, ok) ==> Untouched(s, r, k)
    ensures forall h :: HeldBy(s, Targets(guildId, ok), h) && h.gen < s.gen ==> h !in r.timers
    ensures r.writer == Persistence.RequestSave(s.writer, Snapshot(r.muted)) && r.pings == s.pings
    ensures Valid(s) ==> Valid(r) && forall m :: m in ok ==> SoleTimer(r, MakeKey(guildId, m.userId))
  {
    var armed := Arm(s, guildId, ok, endsAt, fires);
    var r := Save(armed.(gen := s.gen + 1));
    ArmEffect(s, armed, r, guildId, ok, endsAt, fires);
    ArmKeepsValid(s, armed, r, guildId, ok, endsAt, fires);
    r
  }

  /** What `Arm` followed by a save does, key by key: each target's record
      holds a new live timer, the timers its records held before are
      cleared, and every other key keeps its record and its timers. */
  lemma ArmEffect(s: State, armed: State, r: State, guildId: Id, ok: seq<Member>, endsAt: Millis, fires: Millis)
    requires armed == Arm(s, guildId, ok, endsAt, fires)
    requires r == Save(armed.(gen := s.gen + 1))
    ensures forall m :: m in ok ==> ArmedWith(r, MakeKey(guildId, m.userId), endsAt, fires)
    ensures forall k :: k !in Targets(guildId, ok) ==> Untouched(s, r, k)
    ensures forall h :: HeldBy(s, Targets(guildId, ok), h) && h.gen < s.gen ==> h !in r.timers
  {
    var keys := Targets(guildId, ok);
    forall m | m in ok
      ensures ArmedWith(r, MakeKey(guildId, m.userId), endsAt, fires)
    {
      assert MakeKey(guildId, m.userId) in keys;
    }
    forall k | k !in keys
      ensures Untouched(s, r, k)
    {
      assert SameRecord(s, r, k);
      forall h: TimerId | h.key == k
        ensures SameTimer(s, r, h)
      {
        assert !HeldBy(s, keys, h);
      }
    }
  }

  /** The state after `Arm` and a save satisfies `Valid` when the state
      before did, and each target's record holds its key's only timer. */
  lemma ArmKeepsValid(s: State, armed: State, r: State, guildId: Id, ok: seq<Member>, endsAt: Millis, fires: Millis)
    requires fires <= endsAt
    requires armed == Arm(s, guildId, ok, endsAt, fires)
    requires r == Save(armed.(gen := s.gen + 1))
    ensures Valid(s) ==> Valid(r) && forall m :: m in ok ==> SoleTimer(r, MakeKey(guildId, m.userId))
  {
    var keys := Targets(guildId, ok);
    if Valid(s) {
      forall h | h in r.timers
        ensures h.key in r.muted && r.muted[h.key].timeout == Some(h.gen) && r.timers[h] <= r.muted[h.key].endsAt
        ensures h.gen < r.gen
      {
        ArmTimerHeld(s, armed, r, guildId, ok, endsAt, fires, h);
      }
      forall m | m in ok
        ensures SoleTimer(r, MakeKey(guildId, m.userId))
      {
        var k := MakeKey(guildId, m.userId);
        assert k in keys;
      }
    }
  }

  /** One live timer after `Arm` and a save: the one its record holds,
      firing no later than the record's `endsAt`, with an older handle
      number than the next one. */
  lemma ArmTimerHeld(s: State, armed: State, r: State, guildId: Id, ok: seq<Member>, endsAt: Millis, fires: Millis, h: TimerId)
    requires Valid(s) && fires <= endsAt
    requires armed == Arm(s, guildId, ok, endsAt, fires)
    requires r == Save(armed.(gen := s.gen + 1))
    requires h in r.timers
    ensures h.key in r.muted && r.muted[h.key].timeout == Some(h.gen) && r.timers[h] <= r.muted[h.key].endsAt
    ensures h.gen < r.gen
  {
    var keys := Targets(guildId, ok);
    if !(h.key in keys && h.gen == s.gen) {
      assert h in s.timers && !HeldBy(s, keys, h);
    }
  }

  /** The checks the handler makes before `!unmute`'s role call. */
  predicate UnmuteAdmitted(cmd: Command) {
    cmd.reached && cmd.isMod && cmd.sinbinRole && cmd.mentions.Some?
  }

  /** `!unmute @members`. `fails(id)` is the platform's answer to removing
      the role from that user. */
  function Unmute(s: State, cfg: Config, cmd: Command, fails: Id -> bool): (r: Reply)
    ensures !cmd.reached ==> r.state == s && r.roleCalls == []
    ensures !UnmuteAdmitted(cmd) ==> r.state == s && r.roleCalls == []
    ensures UnmuteAdmitted(cmd) ==>
              var mod := ModifyRole(cfg, cmd.mentions.value, fails);
              r.roleCalls == mod.issued && (!Reported(mod) ==> r.state == s)
    ensures UnmuteAdmitted(cmd) && Reported(ModifyRole(cfg, cmd.mentions.value, fails)) ==>
              var ok := ModifyRole(cfg, cmd.mentions.value, fails).outcome.value.successful;
              && (forall k :: k in Targets(cmd.guildId, ok) ==> k !in r.state.muted)
              && (forall h: TimerId :: h.key in Targets(cmd.guildId, ok) ==>
                    (h in r.state.timers <==> h in s.timers && !HeldBy(s, Targets(cmd.guildId, ok), h)))
              && (forall k :: k !in Targets(cmd.guildId, ok) ==> Untouched(s, r.state, k))
              && r.state.writer == Persistence.RequestSave(s.writer, Snapshot(r.state.muted))
    ensures Valid(s) && UnmuteAdmitted(cmd) && Reported(ModifyRole(cfg, cmd.mentions.value, fails)) ==>
              forall m :: m in ModifyRole(cfg, cmd.mentions.value, fails).outcome.value.successful ==>
                NoTimer(r.state, MakeKey(cmd.guildId, m.userId))
    ensures r.state.pings == s.pings
    ensures Valid(s) ==> Valid(r.state)
  {
    if !UnmuteAdmitted(cmd) then Reply(s, [])
    else
      var mod := ModifyRole(cfg, cmd.mentions.value, fails);
      if !Reported(mod) then Reply(s, mod.issued)
      else
        var ok := mod.outcome.value.successful;
        var r := Save(Disarm(s, cmd.guildId, ok));
        DisarmEffect(s, r, cmd.guildId, ok);
        Reply(r, mod.issued)
  }

  /** What `Disarm` followed by a save does, key by key: other keys keep
      their records and timers, and under `Valid` the invariant survives and
      no target keeps a live timer. */
  lemma DisarmEffect(s: State, r: State, guildId: Id, ok: seq<Member>)
    requires r == Save(Disarm(s, guildId, ok))
    ensures forall k :: k !in Targets(guildId, ok) ==> Untouched(s, r, k)
    ensures Valid(s) ==> Valid(r) && forall m :: m in ok ==> NoTimer(r, MakeKey(guildId, m.userId))
  {
    var keys := Targets(guildId, ok);
    forall k | k !in keys
      ensures Untouched(s, r, k)
    {
      assert SameRecord(s, r, k);
      forall h: TimerId | h.key == k
        ensures SameTimer(s, r, h)
      {
        assert !HeldBy(s, keys, h);
      }
    }
    if Valid(s) {
      forall m | m in ok
        ensures NoTimer(r, MakeKey(guildId, m.userId))
      {
        assert MakeKey(guildId, m.userId) in keys;
      }
    }
  }

  /** Timer `h` fires: the member's role removal starts (see
      `Roles.RemoveRoleSafe`), the record of `h`'s key goes, whichever
      timer it holds, and a save is requested. */
  function TimerFires(s: State, h: TimerId): (r: State)
    requires h in s.timers
    ensures h.key !in r.muted && h !in r.timers
    ensures forall k :: k != h.key ==> SameRecord(s, r, k)
    ensures forall other :: other != h ==> SameTimer(s, r, other)
    ensures r.writer == Persistence.RequestSave(s.writer, Snapshot(r.muted))
    ensures r.gen == s.gen && r.pings == s.pings
    ensures Valid(s) ==> Valid(r) && NoTimer(r, h.key)
  {
    Save(s.(muted := s.muted - {h.key}, timers := s.timers - {h}))
  }

  /** `duration && duration >= 0` for `duration = endsAt - now`: the mute
      has time left. */
  predicate StillRunning(endsAt: Millis, now: Millis) {
    var duration := endsAt - now;
    duration != 0 && duration >= 0
  }

  /** The new state, and whether the sinbin role was added again. */
  datatype RejoinReply = RejoinReply(state: State, roleAdded: bool)

  /** A member with a record rejoins at `now`: the record's timer is
      cleared; with time left and a sinbin role in the guild the role is
      added back and a timer for the remaining time (clamped by Node.js)
      stored in the record, without a save; with no time left the record
      goes and a save is requested. Without a sinbin role the record stays,
      holding its cleared handle. */
  function Rejoin(s: State, guildId: Id, userId: Id, now: Millis, sinbinRole: bool): (r: RejoinReply)
    ensures var k := MakeKey(guildId, userId);
            forall other :: other != k ==> SameRecord(s, r.state, other)
    ensures var k := MakeKey(guildId, userId);
            forall h: TimerId :: h.key != k ==> SameTimer(s, r.state, h)
    ensures var k := MakeKey(guildId, userId);
            k !in s.muted ==> r == RejoinReply(s, false)
    ensures var k := MakeKey(guildId, userId);
            k in s.muted ==>
              forall h: TimerId :: h.key == k && h.gen != s.gen ==>
                (h in r.state.timers <==> h in s.timers && s.muted[k].timeout != Some(h.gen))
    ensures var k := MakeKey(guildId, userId);
            k in s.muted && s.muted[k].endsAt > now ==>
              && r.roleAdded == sinbinRole
              && r.state.writer == s.writer
              && (!sinbinRole ==> SameRecord(s, r.state, k))
              && (sinbinRole ==> ArmedWith(r.state, k, s.muted[k].endsAt, now + TimerDelay(s.muted[k].endsAt - now)))
    ensures var k := MakeKey(guildId, userId);
            k in s.muted && s.muted[k].endsAt <= now ==>
              && k !in r.state.muted && !r.roleAdded
              && r.state.writer == Persistence.RequestSave(s.writer, Snapshot(r.state.muted))
    ensures var k := MakeKey(guildId, userId);
            Valid(s) && k in s.muted ==> (if r.roleAdded then SoleTimer(r.state, k) else NoTimer(r.state, k))
    ensures r.state.pings == s.pings
    ensures Valid(s) ==> Valid(r.state)
  {
    var k := MakeKey(guildId, userId);
    if k !in s.muted then RejoinReply(s, false)
    else
      var record := s.muted[k];
      var cleared := s.(timers := ClearTimeout(s.timers, HandleOf(k, record)));
      var duration := record.endsAt - now;
      if StillRunning(record.endsAt, now) then
        if !sinbinRole then RejoinReply(cleared, false)
        else
          var handle := TimerId(k, s.gen);
          RejoinReply(cleared.(muted := s.muted[k := record.(timeout := Some(s.gen))],
                               timers := cleared.timers[handle := now + TimerDelay(duration)],
                               gen := s.gen + 1), true)
      else
        RejoinReply(Save(cleared.(muted := s.muted - {k})), false)
  }

  /** The delay a timer armed at `armedAt` for `endsAt` gets, as Node.js
      applies it: the time it fires is `endsAt` exactly when the remaining
      time fits the limit. */
  lemma ClampedFireTime(armedAt: Millis, endsAt: Millis)
    requires armedAt < endsAt
    ensures armedAt + TimerDelay(endsAt - armedAt) == endsAt <==> endsAt - armedAt <= MaxTimerDelay
    ensures endsAt - armedAt > MaxTimerDelay ==> armedAt + TimerDelay(endsAt - armedAt) == armedAt + 1
  {
  }

  /** A mute longer than `MaxTimerDelay` (35792 minutes or more) arms a timer
      that fires 1 ms later, ending the mute at once although the record's
      `endsAt` lies weeks ahead. */
  lemma LongMuteFiresAtOnce(s: State, cfg: Config, cmd: Command, isNumeric: string -> bool, minutes: string -> int,
                            fails: Id -> bool, now: Millis, m: Member)
    requires MuteAdmitted(cmd, isNumeric, minutes)
    requires MuteMillis(cmd.parts, isNumeric, minutes).value > MaxTimerDelay
    requires forall i :: 0 <= i < |cmd.mentions.value| ==> !Refused(cfg, cmd.mentions.value[i])
    requires m in cmd.mentions.value && !Shielded(cfg, m) && !fails(m.userId)
    ensures var r := Mute(s, cfg, cmd, isNumeric, minutes, fails, now).state;
            var d := MuteMillis(cmd.parts, isNumeric, minutes).value;
            ArmedWith(r, MakeKey(cmd.guildId, m.userId), now + d, now + 1) && now + 1 < now + d
  {
    var mod := ModifyRole(cfg, cmd.mentions.value, fails);
    assert m in mod.outcome.value.successful;
    assert Reported(mod);
  }

  /** Timer `h` fires before its record's `endsAt`: only possible when
      Node.js clamped a delay that did not fit. */
  predicate FiresEarly(s: State, h: TimerId)
    requires h in s.timers
  {
    h.key in s.muted && s.timers[h] < s.muted[h.key].endsAt
  }

  /** The timer callback the clamp calls for: a timer that fires before its
      record's `endsAt` re-arms the key for the time still left (again
      within the limit) and keeps the record; otherwise it does what
      `TimerFires` does. No save is needed on a re-arm, since `endsAt` is
      unchanged. */
  function TimerFiresChained(s: State, h: TimerId): (r: State)
    requires h in s.timers
    ensures h.gen != s.gen ==> h !in r.timers
    ensures forall k :: k != h.key ==> SameRecord(s, r, k)
    ensures forall other: TimerId :: other != h && other.gen != s.gen ==> SameTimer(s, r, other)
    ensures r.pings == s.pings
    ensures FiresEarly(s, h) ==>
              var t := s.timers[h];
              var endsAt := s.muted[h.key].endsAt;
              && ArmedWith(r, h.key, endsAt, t + TimerDelay(endsAt - t))
              && t < t + TimerDelay(endsAt - t) <= endsAt
              && r.muted[h.key].timeout == Some(s.gen)
              && r.writer == s.writer && r.gen == s.gen + 1
    ensures !FiresEarly(s, h) ==> r == TimerFires(s, h)
    ensures h.key !in r.muted ==> h.key !in s.muted || s.timers[h] >= s.muted[h.key].endsAt
    ensures Valid(s) ==> Valid(r)
  {
    if FiresEarly(s, h) then
      var t := s.timers[h];
      var k := h.key;
      var endsAt := s.muted[k].endsAt;
      var r := s.(muted := s.muted[k := Record(endsAt, Some(s.gen))],
                  timers := (s.timers - {h})[TimerId(k, s.gen) := t + TimerDelay(endsAt - t)],
                  gen := s.gen + 1);
      EarlyRearmKeepsValid(s, h, r);
      r
    else TimerFires(s, h)
  }

  /** The corrected callback's re-arm keeps the invariant: the firing timer
      was its key's only one, and the new one fires no later than `endsAt`. */
  lemma EarlyRearmKeepsValid(s: State, h: TimerId, r: State)
    requires h in s.timers && FiresEarly(s, h)
    requires var t := s.timers[h];
             var endsAt := s.muted[h.key].endsAt;
             r == s.(muted := s.muted[h.key := Record(endsAt, Some(s.gen))],
                     timers := (s.timers - {h})[TimerId(h.key, s.gen) := t + TimerDelay(endsAt - t)],
                     gen := s.gen + 1)
    ensures Valid(s) ==> Valid(r)
  {
    if Valid(s) {
      forall g | g in r.timers
        ensures g.key in r.muted && r.muted[g.key].timeout == Some(g.gen) && r.timers[g] <= r.muted[g.key].endsAt
      {
        if g != TimerId(h.key, s.gen) {
          assert g in s.timers && g != h;
          if g.key == h.key {
            OneTimerPerKey(s, g, h);
          }
        }
      }
    }
  }

  /** With the corrected callback, under the invariant a record is deleted
      only by a timer firing exactly at its `endsAt`. */
  lemma ChainedDeletesOnlyAtEndsAt(s: State, h: TimerId)
    requires Valid(s) && h in s.timers
    ensures h.key in s.muted
    ensures h.key !in TimerFiresChained(s, h).muted ==> s.timers[h] == s.muted[h.key].endsAt
  {
  }

  /** The contrast with `LongMuteFiresAtOnce`: with the corrected callback,
      the 1 ms timer of a mute longer than `MaxTimerDelay` keeps the record
      and re-arms the key, still firing no later than `endsAt`. */
  lemma LongMuteSurvivesChained(s: State, cfg: Config, cmd: Command, isNumeric: string -> bool,
                                minutes: string -> int, fails: Id -> bool, now: Millis, m: Member)
    requires MuteAdmitted(cmd, isNumeric, minutes)
    requires MuteMillis(cmd.parts, isNumeric, minutes).value > MaxTimerDelay
    requires forall i :: 0 <= i < |cmd.mentions.value| ==> !Refused(cfg, cmd.mentions.value[i])
    requires m in cmd.mentions.value && !Shielded(cfg, m) && !fails(m.userId)
    ensures var r := Mute(s, cfg, cmd, isNumeric, minutes, fails, now).state;
            var k := MakeKey(cmd.guildId, m.userId);
            var d := MuteMillis(cmd.parts, isNumeric, minutes).value;
            && k in r.muted && r.muted[k].timeout.Some?
            && var h := TimerId(k, r.muted[k].timeout.value);
               && h in r.timers
               && var after := TimerFiresChained(r, h);
                  && k in after.muted && after.muted[k].endsAt == now + d
                  && ArmedWith(after, k, now + d, now + 1 + TimerDelay(d - 1))
  {
    LongMuteFiresAtOnce(s, cfg, cmd, isNumeric, minutes, fails, now, m);
  }

  /** A re-mute resets the clock rather than stacking: whatever the first
      command was, the key ends up with the second mute's `endsAt`, and its
      only live timer is the second mute's. */
  lemma RemuteResets(s: State, cfg: Config, c1: Command, c2: Command, isNumeric: string -> bool, minutes: string -> int,
                     fails: Id -> bool, t1: Millis, t2: Millis, m: Member)
    requires Valid(s)
    requires MuteAdmitted(c2, isNumeric, minutes)
    requires forall i :: 0 <= i < |c2.mentions.value| ==> !Refused(cfg, c2.mentions.value[i])
    requires m in c2.mentions.value && !Shielded(cfg, m) && !fails(m.userId)
    ensures var once := Mute(s, cfg, c1, isNumeric, minutes, fails, t1).state;
            var twice := Mute(once, cfg, c2, isNumeric, minutes, fails, t2).state;
            var k := MakeKey(c2.guildId, m.userId);
            var d := MuteMillis(c2.parts, isNumeric, minutes).value;
            ArmedWith(twice, k, t2 + d, t2 + TimerDelay(d)) && SoleTimer(twice, k)
  {
    var mod := ModifyRole(cfg, c2.mentions.value, fails);
    assert m in mod.outcome.value.successful;
    assert Reported(mod);
  }

  /** An errored member gets no record: its key is untouched by `!mute`. */
  lemma ErroredGetNoRecord(s: State, cfg: Config, cmd: Command, isNumeric: string -> bool, minutes: string -> int,
                           fails: Id -> bool, now: Millis, m: Member)
    requires MuteAdmitted(cmd, isNumeric, minutes)
    requires fails(m.userId)
    ensures Untouched(s, Mute(s, cfg, cmd, isNumeric, minutes, fails, now).state, MakeKey(cmd.guildId, m.userId))
  {
    var mod := ModifyRole(cfg, cmd.mentions.value, fails);
    if Reported(mod) {
      var ok := mod.outcome.value.successful;
      var k := MakeKey(cmd.guildId, m.userId);
      forall m' | m' in ok
        ensures k != MakeKey(cmd.guildId, m'.userId)
      {
        if k == MakeKey(cmd.guildId, m'.userId) {
          MakeKeyInjective(cmd.guildId, m.userId, m'.userId);
        }
      }
      assert k !in Targets(cmd.guildId, ok);
    }
  }

  /** A mute followed by an unmute of the same member leaves no record and no
      live timer for that member's key. */
  lemma UnmuteUndoesMute(s: State, cfg: Config, mute: Command, unmute: Command, isNumeric: string -> bool,
                         minutes: string -> int, addFails: Id -> bool, removeFails: Id -> bool, now: Millis, m: Member)
    requires Valid(s)
    requires MuteAdmitted(mute, isNumeric, minutes) && UnmuteAdmitted(unmute) && unmute.guildId == mute.guildId
    requires forall i :: 0 <= i < |mute.mentions.value| ==> !Refused(cfg, mute.mentions.value[i])
    requires forall i :: 0 <= i < |unmute.mentions.value| ==> !Refused(cfg, unmute.mentions.value[i])
    requires m in mute.mentions.value && m in unmute.mentions.value && !Shielded(cfg, m)
    requires !addFails(m.userId) && !removeFails(m.userId)
    ensures var muted := Mute(s, cfg, mute, isNumeric, minutes, addFails, now).state;
            var unmuted := Unmute(muted, cfg, unmute, removeFails).state;
            var k := MakeKey(mute.guildId, m.userId);
            k !in unmuted.muted && NoTimer(unmuted, k)
  {
    var addMod := ModifyRole(cfg, mute.mentions.value, addFails);
    var removeMod := ModifyRole(cfg, unmute.mentions.value, removeFails);
    assert m in addMod.outcome.value.successful && m in removeMod.outcome.value.successful;
    assert Reported(addMod) && Reported(removeMod);
    var muted := Mute(s, cfg, mute, isNumeric, minutes, addFails, now).state;
    assert Valid(muted);
  }

  /** A bot among the targets, after an ordinary member: the ordinary
      member's role call is issued, yet the state does not change. So when
      the member had no record before, none exists afterwards and no expiry
      timer of theirs is live: only a later `!unmute` or mute can lift the
      role. A member who already had a record keeps it, and its old timer
      still lifts the role at the old `endsAt`. */
  lemma BotTargetLeavesRoleWithoutRecord(s: State, cfg: Config, cmd: Command, isNumeric: string -> bool,
                                         minutes: string -> int, fails: Id -> bool, now: Millis,
                                         user: Member, bot: Member)
    requires !cfg.testing && bot.isBot
    requires !Refused(cfg, user) && !Shielded(cfg, user)
    requires MuteAdmitted(cmd, isNumeric, minutes) && cmd.mentions.value == [user, bot]
    ensures var r := Mute(s, cfg, cmd, isNumeric, minutes, fails, now);
            r.roleCalls == [user] && r.state == s
    ensures var r := Mute(s, cfg, cmd, isNumeric, minutes, fails, now);
            var k := MakeKey(cmd.guildId, user.userId);
            Valid(s) && k !in s.muted ==> k !in r.state.muted && NoTimer(r.state, k)
  {
    RefusedAfterOthersStillIssues(cfg, [user], bot, [], fails);
    assert [user] + [bot] + [] == [user, bot];
  }
}
