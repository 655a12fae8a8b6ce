/** Process start: loading `muted.json` and the first save, then the
    reconciliation pass that runs once the client has logged in. */
module Recovery {
  import opened Wrappers
  import opened Keys
  import opened Sinbin
  import Persistence
  import Pings

  /** The records parsed from `muted.json`: each key with its `endsAt` and no
      timer handle. */
  function Loaded(loaded: map<Key, Millis>): (muted: map<Key, Record>)
    ensures muted.Keys == loaded.Keys
    ensures forall k :: k in muted ==> muted[k] == Record(loaded[k], None)
  {
    map k | k in loaded :: Record(loaded[k], None)
  }

  /** The state right after the module is loaded: the parsed map (empty when
      the file could not be read or parsed), no timers, and the unconditional
      `saveMuted()` of the loaded map already in flight. */
  function Boot(loaded: map<Key, Millis>): (s: State)
    ensures s.muted == Loaded(loaded) && s.timers == map[] && s.pings == Pings.Empty
    ensures s.writer.writing && !s.writer.scheduled && s.writer.inFlight == 1 && s.writer.written == [loaded]
    ensures Valid(s)
  {
    var s := Save(State(Loaded(loaded), map[], 0, Persistence.Idle, Pings.Empty));
    assert Snapshot(Loaded(loaded)) == loaded;
    s
  }

  /** The platform answers the reconciliation pass depends on: whether a
      guild resolves and is available, whether it has the sinbin role, and
      whether fetching the member (by the split-out user id, possibly
      `undefined`) gives a member. */
  datatype Env = Env(
    guildAvailable: string -> bool,
    hasSinbinRole: string -> bool,
    memberFound: (string, Option<string>) -> bool)

  /** Guild, sinbin role and member of key `k` all resolve. */
  predicate Resolves(env: Env, k: Key) {
    var (guildId, userId) := KeyParts(k);
    env.guildAvailable(guildId) && env.hasSinbinRole(guildId) && env.memberFound(guildId, userId)
  }

  /** Resolved keys whose mute has time left: they get a timer. */
  function Rearmed(s: State, env: Env, now: Millis): set<Key> {
    set k | k in s.muted && Resolves(env, k) && StillRunning(s.muted[k].endsAt, now)
  }

  /** Resolved keys whose mute has run out: their role removal starts. */
  function Expired(s: State, env: Env, now: Millis): set<Key> {
    set k | k in s.muted && Resolves(env, k) && !StillRunning(s.muted[k].endsAt, now)
  }

  /** The keys deleted after the loop: each expired key rebuilt from its
      split parts. */
  function Doomed(s: State, env: Env, now: Millis): set<Key> {
    set k | k in Expired(s, env, now) :: Rebuild(k)
  }

  /** The loop's re-arming of `keys`: each gets a new timer for its
      record's remaining time (clamped by Node.js), all numbered with the
      current handle number, and the record stores the new handle
      (`mutedInfo.timeout = setTimeout(...)`); no timer is cleared. */
  function Rearm(s: State, keys: set<Key>, now: Millis): State
    requires keys <= s.muted.Keys
  {
    State(Rehandled(s, keys), Restarted(s, keys, now), s.gen + 1, s.writer, s.pings)
  }

  /** The timers once the pass has started those of `keys`: every timer
      already running is kept, and one new timer per key of `keys` joins
      them. */
  function Restarted(s: State, keys: set<Key>, now: Millis): (t: map<TimerId, Millis>)
    requires keys <= s.muted.Keys
    ensures forall k :: k in keys ==>
              TimerId(k, s.gen) in t && t[TimerId(k, s.gen)] == now + TimerDelay(s.muted[k].endsAt - now)
    ensures forall h: TimerId :: h.gen != s.gen || h.key !in keys ==>
              (h in t <==> h in s.timers) && (h in t ==> t[h] == s.timers[h])
    ensures forall h :: h in t && h !in s.timers ==> h.key in keys && h.gen == s.gen
  {
    s.timers + Started(s, keys, now)
  }

  /** The timers the pass starts: one per key of `keys`, all numbered with
      the current handle number, each firing after its record's remaining
      time as Node.js clamps it. */
  function Started(s: State, keys: set<Key>, now: Millis): (t: map<TimerId, Millis>)
    requires keys <= s.muted.Keys
    ensures forall h :: h in t <==> h.key in keys && h.gen == s.gen
    ensures forall k :: k in keys ==> t[TimerId(k, s.gen)] == now + TimerDelay(s.muted[k].endsAt - now)
  {
    var t := map k | k in keys :: TimerId(k, s.gen) := now + TimerDelay(s.muted[k].endsAt - now);
    assert forall k :: k in keys ==> TimerId(k, s.gen) in t;
    t
  }

  /** The records once the pass has stored the new handle in those of
      `keys`. */
  function Rehandled(s: State, keys: set<Key>): (m: map<Key, Record>)
    ensures m.Keys == s.muted.Keys
    ensures forall k :: k in m && k in keys ==> m[k] == s.muted[k].(timeout := Some(s.gen))
    ensures forall k :: k in m && k !in keys ==> m[k] == s.muted[k]
  {
    map k | k in s.muted :: if k in keys then s.muted[k].(timeout := Some(s.gen)) else s.muted[k]
  }

  /** The new state, and the keys whose role removal (`removeRoleSafe`) was
      started. */
  datatype StartupReply = StartupReply(state: State, removals: set<Key>)

  /** The login-time pass over every record. When fetching the main guild's
      roles (`rolesFetched`) rejects, the whole pass is skipped. Otherwise
      unresolved records are skipped; a resolved record with time left gets
      a new timer for the remaining time (clamped by Node.js) stored in the
      record, without clearing any timer it may already have; a resolved
      record without time left has its role removal started and its rebuilt
      key deleted after the loop. No role is added and no save is
      requested. */
  function Reconcile(s: State, env: Env, now: Millis, rolesFetched: bool): (r: StartupReply)
    ensures !rolesFetched ==> r == StartupReply(s, {})
    ensures r.state.writer == s.writer && r.state.pings == s.pings
    ensures forall k :: k in r.removals <==>
              rolesFetched && k in s.muted && Resolves(env, k) && s.muted[k].endsAt <= now
    ensures forall k :: k in r.state.muted ==> k in s.muted && r.state.muted[k].endsAt == s.muted[k].endsAt
    ensures forall k :: k in s.muted && k !in Doomed(s, env, now) ==> k in r.state.muted
    ensures rolesFetched ==> r.state.timers == Restarted(s, Rearmed(s, env, now), now)
    ensures rolesFetched ==> r.state.muted == Rehandled(s, Rearmed(s, env, now)) - Doomed(s, env, now)
  {
    if !rolesFetched then StartupReply(s, {})
    else
      var armed := Rearm(s, Rearmed(s, env, now), now);
      StartupReply(armed.(muted := armed.muted - Doomed(s, env, now)), Expired(s, env, now))
  }

  /** The timers of the pass: each resolved record with time left gets a
      new timer, numbered with the current handle number and firing after
      the remaining time as Node.js clamps it, which its record holds
      unless its key is deleted after the loop; every other timer is kept
      as it was, and no timer is cleared. */
  lemma ReconcileTimers(s: State, env: Env, now: Millis, rolesFetched: bool)
    ensures var r := Reconcile(s, env, now, rolesFetched).state;
            forall k :: rolesFetched && k in s.muted && Resolves(env, k) && s.muted[k].endsAt > now ==>
              var fires := now + TimerDelay(s.muted[k].endsAt - now);
              && TimerId(k, s.gen) in r.timers && r.timers[TimerId(k, s.gen)] == fires
              && (k !in Doomed(s, env, now) ==> ArmedWith(r, k, s.muted[k].endsAt, fires))
    ensures var r := Reconcile(s, env, now, rolesFetched).state;
            forall h: TimerId :: h.gen != s.gen ==> SameTimer(s, r, h)
    ensures var r := Reconcile(s, env, now, rolesFetched).state;
            forall h :: h in r.timers && h !in s.timers ==> h.key in Rearmed(s, env, now)
  {
    if rolesFetched {
      ReconcileArms(s, env, now);
      ReconcileKeepsTimers(s, env, now);
    }
  }

  /** Each re-armed key gets its new timer, held by its record unless the
      key is deleted after the loop. */
  lemma ReconcileArms(s: State, env: Env, now: Millis)
    ensures var r := Reconcile(s, env, now, true).state;
            forall k :: k in Rearmed(s, env, now) ==>
              var fires := now + TimerDelay(s.muted[k].endsAt - now);
              && TimerId(k, s.gen) in r.timers && r.timers[TimerId(k, s.gen)] == fires
              && (k !in Doomed(s, env, now) ==> ArmedWith(r, k, s.muted[k].endsAt, fires))
  {
    forall k | k in Rearmed(s, env, now)
      ensures var r := Reconcile(s, env, now, true).state;
              var fires := now + TimerDelay(s.muted[k].endsAt - now);
              && TimerId(k, s.gen) in r.timers && r.timers[TimerId(k, s.gen)] == fires
              && (k !in Doomed(s, env, now) ==> ArmedWith(r, k, s.muted[k].endsAt, fires))
    {
      ReconcileArmsKey(s, env, now, k);
    }
  }

  /** One re-armed key's new timer and record. */
  lemma ReconcileArmsKey(s: State, env: Env, now: Millis, k: Key)
    requires k in Rearmed(s, env, now)
    ensures var r := Reconcile(s, env, now, true).state;
            var fires := now + TimerDelay(s.muted[k].endsAt - now);
            && TimerId(k, s.gen) in r.timers && r.timers[TimerId(k, s.gen)] == fires
            && (k !in Doomed(s, env, now) ==> ArmedWith(r, k, s.muted[k].endsAt, fires))
  {
    var m := Rehandled(s, Rearmed(s, env, now));
    assert m[k].timeout == Some(s.gen);
  }

  /** The pass keeps every timer it finds, and the only ones it adds carry
      the current handle number on re-armed keys. */
  lemma ReconcileKeepsTimers(s: State, env: Env, now: Millis)
    ensures var r := Reconcile(s, env, now, true).state;
            && (forall h: TimerId :: h.gen != s.gen ==> SameTimer(s, r, h))
            && (forall h :: h in r.timers && h !in s.timers ==> h.key in Rearmed(s, env, now))
  {
    var keys := Rearmed(s, env, now);
    assert Reconcile(s, env, now, true).state.timers == Restarted(s, keys, now);
  }

  /** With well-formed keys the keys deleted are exactly the expired ones. */
  lemma DoomedIsExpired(s: State, env: Env, now: Millis)
    requires forall k :: k in s.muted ==> WellFormed(k)
    ensures Doomed(s, env, now) == Expired(s, env, now)
  {
    var expired := Expired(s, env, now);
    forall k | k in expired
      ensures Rebuild(k) == k
    {
      RebuildWellFormed(k);
    }
    forall x | x in Doomed(s, env, now)
      ensures x in expired
    {
      var k :| k in expired && Rebuild(k) == x;
    }
    forall k | k in expired
      ensures k in Doomed(s, env, now)
    {
      assert Rebuild(k) == k;
    }
  }

  /** With well-formed keys the pass deletes exactly the resolved records
      without time left. */
  lemma ReconcileDeletesExpired(s: State, env: Env, now: Millis, rolesFetched: bool)
    requires forall k :: k in s.muted ==> WellFormed(k)
    ensures var r := Reconcile(s, env, now, rolesFetched).state;
            forall k :: k in s.muted ==>
              (k !in r.muted <==> rolesFetched && Resolves(env, k) && s.muted[k].endsAt <= now)
  {
    DoomedIsExpired(s, env, now);
  }

  /** With well-formed keys a record whose guild, sinbin role or member does
      not resolve keeps its record and its timers. */
  lemma ReconcileSkipsUnresolved(s: State, env: Env, now: Millis, rolesFetched: bool)
    requires forall k :: k in s.muted ==> WellFormed(k)
    ensures var r := Reconcile(s, env, now, rolesFetched).state;
            forall k :: k in s.muted && !Resolves(env, k) ==> Untouched(s, r, k)
  {
    if rolesFetched {
      DoomedIsExpired(s, env, now);
      var keys := Rearmed(s, env, now);
      var armed := Rearm(s, keys, now);
      var r := Reconcile(s, env, now, rolesFetched).state;
      assert r == armed.(muted := armed.muted - Expired(s, env, now));
      forall k | k in s.muted && !Resolves(env, k)
        ensures Untouched(s, r, k)
      {
        assert k !in Expired(s, env, now) && k !in keys;
        assert SameRecord(s, armed, k);
        forall h: TimerId | h.key == k
          ensures SameTimer(s, r, h)
        {
          assert SameTimer(s, armed, h);
        }
      }
    }
  }

  /** Re-arming keys that have time left and no live timer keeps the
      invariant, and leaves each with exactly one timer. */
  lemma RearmKeepsValid(s: State, keys: set<Key>, now: Millis)
    requires Valid(s) && keys <= s.muted.Keys
    requires forall k :: k in keys ==> s.muted[k].endsAt > now
    requires forall h :: h in s.timers ==> h.key !in keys
    ensures Valid(Rearm(s, keys, now))
    ensures forall k :: k in keys ==> SoleTimer(Rearm(s, keys, now), k)
  {
    RearmTimersHeld(s, keys, now);
    RearmHandlesOlder(s, keys, now);
  }

  /** After re-arming, every live timer is the one its record holds and
      fires no later than the record's `endsAt`. */
  lemma RearmTimersHeld(s: State, keys: set<Key>, now: Millis)
    requires Valid(s) && keys <= s.muted.Keys
    requires forall k :: k in keys ==> s.muted[k].endsAt > now
    requires forall h :: h in s.timers ==> h.key !in keys
    ensures var r := Rearm(s, keys, now);
            forall h :: h in r.timers ==>
              h.key in r.muted && r.muted[h.key].timeout == Some(h.gen) && r.timers[h] <= r.muted[h.key].endsAt
  {
    var r := Rearm(s, keys, now);
    forall h | h in r.timers
      ensures h.key in r.muted && r.muted[h.key].timeout == Some(h.gen) && r.timers[h] <= r.muted[h.key].endsAt
    {
      if h.key !in keys {
        assert SameRecord(s, r, h.key);
      }
    }
  }

  /** After re-arming, every handle in use is older than the next one. */
  lemma RearmHandlesOlder(s: State, keys: set<Key>, now: Millis)
    requires Valid(s) && keys <= s.muted.Keys
    ensures var r := Rearm(s, keys, now);
            && (forall h :: h in r.timers ==> h.gen < r.gen)
            && (forall k :: k in r.muted && r.muted[k].timeout.Some? ==> r.muted[k].timeout.value < r.gen)
  {
    var r := Rearm(s, keys, now);
    forall k | k in r.muted && r.muted[k].timeout.Some?
      ensures r.muted[k].timeout.value < r.gen
    {
      if k !in keys {
        assert SameRecord(s, r, k);
      }
    }
  }

  /** With well-formed keys, and no live timer on a key the pass resolves,
      the pass keeps the invariant: each re-armed record holds its key's
      only timer, firing no later than its `endsAt`. */
  lemma ReconcileKeepsValid(s: State, env: Env, now: Millis, rolesFetched: bool)
    requires forall k :: k in s.muted ==> WellFormed(k)
    requires Valid(s)
    requires forall h :: h in s.timers ==> !Resolves(env, h.key)
    ensures Valid(Reconcile(s, env, now, rolesFetched).state)
  {
    if rolesFetched {
      DoomedIsExpired(s, env, now);
      var keys := Rearmed(s, env, now);
      RearmKeepsValid(s, keys, now);
      ReconcileTimers(s, env, now, rolesFetched);
      var armed := Rearm(s, keys, now);
      var r := Reconcile(s, env, now, rolesFetched).state;
      assert r == armed.(muted := armed.muted - Expired(s, env, now));
      forall h | h in r.timers
        ensures h.key !in Expired(s, env, now)
      {
        if h !in s.timers {
          assert h.key in keys;
        }
      }
    }
  }

  /** The pass never clears a timer: a key it re-arms that already has a
      live timer ends up with two, and when the older one fires it deletes
      the record although the record's own timer is still pending. */
  lemma ReconcileDoubleArms(s: State, env: Env, now: Millis, h: TimerId)
    requires forall k :: k in s.muted ==> WellFormed(k)
    requires h in s.timers && h.gen < s.gen
    requires h.key in s.muted && Resolves(env, h.key) && s.muted[h.key].endsAt > now
    ensures var r := Reconcile(s, env, now, true).state;
            var newer := TimerId(h.key, s.gen);
            && h in r.timers && newer in r.timers && h != newer
            && h.key in r.muted && r.muted[h.key].timeout == Some(s.gen)
            && var after := TimerFires(r, h);
               h.key !in after.muted && newer in after.timers
  {
    ReconcileRearmsLiveKey(s, env, now, h);
  }

  /** A re-armed key that already had a live timer keeps it next to the
      new one its record now holds. */
  lemma ReconcileRearmsLiveKey(s: State, env: Env, now: Millis, h: TimerId)
    requires forall k :: k in s.muted ==> WellFormed(k)
    requires h in s.timers && h.gen < s.gen
    requires h.key in s.muted && Resolves(env, h.key) && s.muted[h.key].endsAt > now
    ensures var r := Reconcile(s, env, now, true).state;
            && h in r.timers && TimerId(h.key, s.gen) in r.timers
            && h.key in r.muted && r.muted[h.key].timeout == Some(s.gen)
  {
    var r := Reconcile(s, env, now, true).state;
    assert h.key in Rearmed(s, env, now);
    DoomedIsExpired(s, env, now);
    assert h.key !in Doomed(s, env, now);
    ReconcileArmsKey(s, env, now, h.key);
    ReconcileKeepsTimers(s, env, now);
    assert SameTimer(s, r, h);
  }

  /** A loaded key with two spaces, `g + ' ' + u + ' ' + v`, whose mute has
      run out keeps its record: the pass deletes the rebuilt key
      `g + ' ' + u` instead. */
  lemma ExtraSpaceKeySurvives(g: Id, u: Id, v: Id, env: Env, endsAt: Millis, now: Millis)
    requires ' ' !in g && ' ' !in u && ' ' !in v
    requires endsAt <= now
    requires env.guildAvailable(g) && env.hasSinbinRole(g) && env.memberFound(g, Some(u))
    ensures var k := MakeKey(g, MakeKey(u, v));
            var r := Reconcile(Boot(map[k := endsAt]), env, now, true);
            k in r.state.muted && k in r.removals
  {
    var k := MakeKey(g, MakeKey(u, v));
    ExtraSpaceRebuildsOtherKey(g, u, v);
    var s := Boot(map[k := endsAt]);
    assert Resolves(env, k);
    assert Expired(s, env, now) == {k};
    assert Doomed(s, env, now) == {MakeKey(g, u)};
  }

  /** A record already expired at start is gone after the pass, no timer
      exists for it, and its role removal was started. */
  lemma ExpiredAtStartIsRetired(guildId: Id, userId: Id, endsAt: Millis, now: Millis, env: Env)
    requires ' ' !in guildId && ' ' !in userId && endsAt <= now
    requires env.guildAvailable(guildId) && env.hasSinbinRole(guildId) && env.memberFound(guildId, Some(userId))
    ensures var k := MakeKey(guildId, userId);
            var r := Reconcile(Boot(map[k := endsAt]), env, now, true);
            k !in r.state.muted && NoTimer(r.state, k) && k in r.removals
  {
    var k := MakeKey(guildId, userId);
    KeyRoundTrip(guildId, userId);
    var s := Boot(map[k := endsAt]);
    assert s.muted == map[k := Record(endsAt, None)];
    assert Resolves(env, k);
    assert k in Expired(s, env, now) && k !in Rearmed(s, env, now);
    ReconcileDeletesExpired(s, env, now, true);
    ReconcileKeepsTimers(s, env, now);
  }

  /** Start-up keeps the invariant: with well-formed loaded keys the state
      after loading and the reconciliation pass is `Valid`, whatever the
      platform answers. */
  lemma StartupIsValid(loaded: map<Key, Millis>, env: Env, now: Millis, rolesFetched: bool)
    requires forall k :: k in loaded ==> WellFormed(k)
    ensures Valid(Reconcile(Boot(loaded), env, now, rolesFetched).state)
  {
    ReconcileKeepsValid(Boot(loaded), env, now, rolesFetched);
  }
}
