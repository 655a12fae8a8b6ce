# Sinbin mute engine — Dafny model

This project models the temporary-mute ("sinbin") engine of a Discord moderation bot (`src/index.js`). A moderator's `!mute <minutes> @members` adds the sinbin role and records, per `"<guildId> <userId>"` key, the time the mute ends (`endsAt`). It also schedules an expiry timer that removes the role again. `!unmute` lifts mutes early. The map of mutes is written to `muted.json` through a coalescing writer. It is reconciled after a restart and re-applied when a muted member rejoins. A separate tracker kicks members with a no-pinging role who ping twice within five minutes.

The model is functional. `Sinbin.State` holds five things:
- the `muted` map from key to record: `endsAt` and the number of the timer handle kept as `timeout`;
- the live expiry timers, each named by its key and handle number, with the time it fires;
- the number the next handle gets, so handles are never reused;
- the writer's `mutedWriting` / `mutedWriteScheduled` flags;
- the ping tracker.

Every event is a pure function of a state. The clock (`now`) and every platform answer are inputs:
- role calls succeed or fail per user id;
- `removeRoleSafe` gets its replies as a sequence;
- guild, role and member lookups at start-up come from an `Env`, and whether the initial role fetch resolved is a flag;
- whether the deletion, kick, announcement or warning of the ping rule resolved is a pair of flags.

`setTimeout` is modelled with Node.js's documented clamp: a delay above 2147483647 ms (2^31 - 1) is replaced by 1 ms (`Sinbin.TimerDelay`).

The "is numeric" test and the minutes parser are opaque function parameters. The model follows the code as written, including its quirks:
- A refused target (the bot itself, or any bot) makes `modifyRole` return `undefined`. This happens after the role calls for the earlier targets have already been issued. The command then throws, so those members keep the role and the state does not change (`Sinbin.BotTargetLeavesRoleWithoutRecord`).
- Start-up reconciliation neither adds the role back nor saves. After the loop it deletes the key rebuilt from the split parts, which is not always the key it examined (`Recovery.ExtraSpaceKeySurvives`).
- Start-up reconciliation stores a new timer in a record without clearing the one the record may already hold (`Recovery.ReconcileDoubleArms`).
- A timer firing deletes its key's record whichever timer that record holds.
- A rejoin with time left, in a guild with no sinbin role, clears the timer but keeps the record, still holding the spent handle. An expired record is deleted and saved whether or not the role exists, because the time-left test comes first.
- Ping escalation stores the new timestamp even when it kicks. It stores nothing when one of its awaited calls rejects (`Pings.RejectedWarningIsNotRemembered`).
- A mute longer than 2147483647 ms ends 1 ms after it starts (see Findings).

Modules: `Wrappers` (Option), `Seqs` (order-preserving filter), `Keys`, `Roles`, `Persistence`, `Pings`, `Sinbin`, `Recovery`, `Lifecycle` (event runs and the global invariant).

Other behaviours of the code that the model keeps:
- saving after a coalesced write (see Findings);
- start-up not re-adding roles or saving;
- the escalation timestamp being refreshed on a kick;
- a refused target aborting the whole role call rather than being skipped;
- `!unmute` issuing role calls for members with no record;
- "not a member" meaning an error code that is missing, 0, or exactly 10000.

## Model

| member | source | states |
|---|---|---|
| Seqs.Filter | src/index.js:80-83 | the result holds only kept elements, every kept element of the input occurs in it, and it is an order-preserving subsequence of the input |
| Seqs.FilterCounts | src/index.js:80-83 | each kept element occurs in the result exactly as often as in the input, and no other element occurs at all |
| Keys.SplitSpace | src/index.js:540 | `split(' ')` yields space-free parts that join back with single spaces to the original key |
| Keys.KeyRoundTrip | src/index.js:539-540 | a key built as `guildId + ' ' + userId` from space-free ids splits back to exactly `[guildId, userId]` and is well formed |
| Keys.RebuildWellFormed | src/index.js:558 | for a key with exactly one space, the key rebuilt from its split parts is the key itself |
| Keys.MakeKeyInjective | src/index.js:217 | within one guild, different users get different keys |
| Keys.ExtraSpaceRebuildsOtherKey | src/index.js:540 | for any space-free `g`, `u`, `v`, the key `g u v` destructures to `g` and `u`, and rebuilds to `g u`, a different key |
| Roles.FirstRefused | src/index.js:52-60 | the loop stops at the first target that is the bot itself or a bot; every earlier target is not refused |
| Roles.ModifyRole | src/index.js:50-84 | returns `undefined` iff some target is refused (never in testing mode); issued calls go only to non-moderator targets from the input; with a result, every unskipped target is attempted and successful / errored hold exactly the issued members whose call succeeded / failed |
| Roles.ShieldedInNeitherList | src/index.js:61-63 | outside testing mode a moderator target is in neither list |
| Roles.PartitionIsExact | src/index.js:61-83 | the issued calls are the non-moderator targets in input order; each list is an order-preserving subsequence of the issued calls; the lists are disjoint and their multisets add up to the issued members |
| Roles.RefusedAfterOthersStillIssues | src/index.js:52-71 | with a refused target after others, the call returns `undefined` but the earlier targets' role calls were issued |
| Roles.RemoveRoleSafe | src/index.js:86-101 | stops at the first reply that is a success or an error with a missing, 0 or 10000 code; every earlier reply was a retryable error, each followed by a 5000 ms sleep; without such a reply it is still retrying |
| Persistence.RequestSave | src/index.js:27-38 | while a write is in flight only the pending flag is set and no write starts; when idle, `writing` is set and one write of the current map starts; at most one write stays in flight |
| Persistence.WriteComplete | src/index.js:39-46 | without the pending flag completion clears `writing`; with it, the re-entrant save sets the flag again and starts no write |
| Persistence.CoalescedSaveStalls | src/index.js:39-46 | a completion that finds the pending flag set leaves `writing` set with no write in flight |
| Persistence.StuckIsForever | src/index.js:27-31 | once stuck, any number of later saves starts no write |
| Persistence.ThreeSavesAsWritten | src/index.js:27-46 | three saves during one write, then its completion: only the first snapshot is ever written |
| Persistence.WriteCompleteIntended | src/index.js:39-46 | corrected completion: with the pending flag set, a fresh write of the current map starts |
| Persistence.IntendedWriterStaysLive | src/index.js:27-46 | with the corrected completion, `writing` holds exactly while one write is in flight |
| Persistence.ThreeSavesIntended | src/index.js:27-46 | with the corrected completion, three saves during one write give exactly two writes, the second holding the third request's state |
| Pings.HandleMessage | src/index.js:159-187 | only an offending message is deleted; a kick is attempted iff the deletion resolved and `now - (last or 0) < 300000`; when every call resolves the stored timestamp becomes `now` (kick or warning) and a forget for `(author, now)` is scheduled; when one rejects the tracker is unchanged; other authors are untouched |
| Pings.ForgetFires | src/index.js:183-187 | the forget deletes the entry only if it still holds the scheduled timestamp; otherwise nothing changes |
| Pings.SecondPingWithinWindowKicks | src/index.js:169-182 | two offences less than five minutes apart: the first does not kick, the second does |
| Pings.PingsOutsideWindowDoNotKick | src/index.js:169-187 | two offences at least five minutes apart: neither kicks, with or without the first one's forget firing in between |
| Pings.StaleForgetKeepsNewerPing | src/index.js:182-187 | a forget scheduled for an older offence does not erase a newer one |
| Pings.RejectedWarningIsNotRemembered | src/index.js:168-182 | an offence whose warning reply rejected is not stored, so the next offence within five minutes is warned, not kicked |
| Sinbin.TimerDelay | src/index.js:221-225 | the delay a timer really gets is between 1 and 2147483647 ms; it equals the requested delay exactly when that lies in this range, and is 1 above it |
| Sinbin.OneTimerPerKey | src/index.js:219-229 | under the invariant two live timers of one key are the same timer |
| Sinbin.Snapshot | src/index.js:33-38 | the written map has exactly the keys of `muted`, each with its `endsAt` only |
| Sinbin.ClearTimeout | src/index.js:219 | clearing a handle stops exactly that timer; clearing `undefined` or a spent handle changes nothing |
| Sinbin.Arm | src/index.js:215-230 | every successful member's record gets `endsAt` and a new handle whose timer fires at the given time; the timers the targets' records held before are cleared; other timers and every other key's record are unchanged |
| Sinbin.Disarm | src/index.js:266-273 | every successful member's key loses its record, and exactly the timers those records held are cleared; every other key's record and every other timer is unchanged |
| Sinbin.ArmAndSave | src/index.js:215-231 | the mute loop and its save: each target is armed with its old timer cleared, every other key is untouched, a save of the new map is requested, and the invariant is kept with each target's record holding its key's only timer |
| Sinbin.ArmEffect | src/index.js:215-231 | after the loop and save each target is armed, the timers its record held are cleared, and every other key keeps its record and timers |
| Sinbin.ArmKeepsValid | src/index.js:215-231 | the loop and save keep the invariant when the new timer fires no later than `endsAt`, and leave each target with one timer |
| Sinbin.ArmTimerHeld | src/index.js:215-231 | after the loop and save, any live timer is the one its record holds, fires no later than its `endsAt` and has an older handle number than the next one |
| Sinbin.FindFirstNum | src/index.js:103-109 | returns the earliest part the numeric test accepts, or nothing iff no part is accepted |
| Sinbin.MuteMillis | src/index.js:195-205 | a duration exists iff the first numeric token reads as a positive number of minutes; it is that number times 60000 |
| Sinbin.Mute | src/index.js:191-231 | nothing changes and no role call is made unless the handler got past its prelude (mention fetches and link check at src/index.js:137-157), the author is a moderator, the duration is positive, the sinbin role exists and there are mentions; no change if the role call returns `undefined` or two empty lists; otherwise each successful member's record gets `endsAt = now + duration` and a live timer firing after the clamped duration, the timer it held before is cleared and, under the invariant, is its only timer; all other keys are unchanged; a save of the new map is requested; the invariant is kept |
| Sinbin.Unmute | src/index.js:249-274 | nothing changes and no role call is made unless the handler got past its prelude (src/index.js:137-157), the author is a moderator, the sinbin role exists and there are mentions; otherwise successful members lose their records and exactly the timers those records held; under the invariant they are left with no timer; all other keys are unchanged; a save is requested when the role call reported anyone; the invariant is kept |
| Sinbin.DisarmEffect | src/index.js:266-274 | after the unmute loop and save every other key keeps its record and timers; under the invariant the invariant survives and no target keeps a live timer |
| Sinbin.TimerFires | src/index.js:221-225 | a firing timer stops and deletes its key's record, whichever timer that record holds; all other records and timers are unchanged; a save is requested; under the invariant the key has no timer left |
| Sinbin.Rejoin | src/index.js:473-504 | a rejoin without a record changes nothing; otherwise the record's timer is cleared; with time left and a sinbin role the role is added and a new timer for the clamped remaining time stored in the record, with no save; with time left and no sinbin role the record is kept as it was; with no time left the record is deleted and a save requested; other keys and their timers are unchanged |
| Sinbin.ClampedFireTime | src/index.js:221-225 | a timer armed for `endsAt` fires at `endsAt` exactly when the remaining time is at most 2147483647 ms, and 1 ms after arming otherwise |
| Sinbin.LongMuteFiresAtOnce | src/index.js:205-228 | a mute of more than 2147483647 ms arms a timer that fires 1 ms later, while its `endsAt` lies further ahead |
| Sinbin.TimerFiresChained | src/index.js:221-225 | corrected timer callback: a timer firing before its record's `endsAt` keeps the record and re-arms the key for the time left, firing later than now and no later than `endsAt`, with no save; otherwise it does exactly what the code's callback does; a record is deleted only by a timer firing at or after its `endsAt`; the invariant is kept |
| Sinbin.EarlyRearmKeepsValid | src/index.js:221-225 | the corrected callback's re-arm keeps the invariant |
| Sinbin.ChainedDeletesOnlyAtEndsAt | src/index.js:221-225 | under the invariant, with the corrected callback a record is deleted only by a timer firing exactly at its `endsAt` |
| Sinbin.LongMuteSurvivesChained | src/index.js:205-228 | with the corrected callback, the 1 ms timer of a mute longer than 2147483647 ms keeps the record and re-arms the key for the time left |
| Sinbin.RemuteResets | src/index.js:215-229 | muting a member again, after any earlier `!mute` (of any duration, the same member or not), leaves the second mute's `endsAt` and its timer as the key's only live timer |
| Sinbin.ErroredGetNoRecord | src/index.js:207-230 | a member whose role add failed keeps whatever record and timers it had |
| Sinbin.UnmuteUndoesMute | src/index.js:215-273 | a successful mute followed by a successful unmute of the same member leaves no record and no live timer for it |
| Sinbin.BotTargetLeavesRoleWithoutRecord | src/index.js:52-60 | `!mute @user @bot` issues the role call for the user but changes no state; a user with no record before has no record and no live timer after, so no expiry lifts the role just added; a user with a record keeps it and its old timer |
| Recovery.Loaded | src/index.js:15-23 | the loaded records have exactly the file's keys, each with its `endsAt` and no handle |
| Recovery.Boot | src/index.js:15-48 | the loaded records with no timers, the initial save of the file's map in flight, and the invariant holding |
| Recovery.Restarted | src/index.js:549-555 | every timer already running is kept unchanged; each re-armed key gains one new timer with the current handle number, firing after its clamped remaining time; no other timer appears |
| Recovery.RearmTimersHeld | src/index.js:549-555 | after re-arming keys with time left and no live timer, every live timer is the one its record holds and fires no later than its `endsAt` |
| Recovery.RearmHandlesOlder | src/index.js:549-555 | after re-arming, every handle in use, live or stored, is older than the next handle number |
| Recovery.Reconcile | src/index.js:528-563 | a rejected role fetch skips the pass; otherwise no save and no role add; role removal starts exactly for resolved records with no time left; records are only deleted or given a new handle; records whose rebuilt key is not deleted survive; the timers are those found plus the ones `Recovery.Restarted` starts |
| Recovery.ReconcileTimers | src/index.js:546-556 | each resolved record with time left gets a new timer for its clamped remaining time, held by its record unless its key is deleted after the loop; every older timer is kept as it was; the only new timers are on re-armed keys |
| Recovery.ReconcileArms | src/index.js:549-555 | every re-armed key gets its new timer for its clamped remaining time, held by its record unless the key is deleted after the loop |
| Recovery.ReconcileArmsKey | src/index.js:549-555 | one re-armed key's new timer fires after the clamped remaining time and, unless the key is deleted after the loop, its record holds it |
| Recovery.ReconcileKeepsTimers | src/index.js:546-556 | the pass clears no timer: every timer with an older handle number is kept unchanged, and new timers appear only on re-armed keys |
| Recovery.DoomedIsExpired | src/index.js:558-562 | with well-formed keys, the keys deleted after the loop are exactly the expired resolved ones |
| Recovery.ReconcileDeletesExpired | src/index.js:549-563 | with well-formed keys, a record is deleted iff the role fetch resolved and the record resolves and has no time left |
| Recovery.ReconcileSkipsUnresolved | src/index.js:541-548 | with well-formed keys, a record whose guild, role or member does not resolve keeps its record and timers |
| Recovery.RearmKeepsValid | src/index.js:549-555 | re-arming keys with time left and no live timer keeps the invariant and leaves each with one timer |
| Recovery.ReconcileKeepsValid | src/index.js:528-563 | with well-formed keys and no live timer on a resolved key, the pass keeps the invariant |
| Recovery.ReconcileDoubleArms | src/index.js:549-555 | a re-armed key that already had a live timer ends up with two; the older one firing deletes the record while the record's own timer stays live |
| Recovery.ReconcileRearmsLiveKey | src/index.js:549-555 | a re-armed key that already had a live timer keeps that timer next to the new one, and its record holds the new one |
| Recovery.ExtraSpaceKeySurvives | src/index.js:539-563 | for any space-free `g`, `u`, `v`, an expired record under key `g u v` keeps its record although its role removal starts |
| Recovery.ExpiredAtStartIsRetired | src/index.js:538-563 | a record already expired at start-up is gone after the pass, with no timer and with its role removal started |
| Recovery.StartupIsValid | src/index.js:15-563 | with well-formed loaded keys, loading and the pass give a state satisfying the invariant, whatever the platform answers |
| Lifecycle.RunKeepsValid | src/index.js:215-230 | over any sequence of events every live timer is the one its key's record holds and fires no later than its `endsAt`, and at most one write is in flight |
| Lifecycle.StartupThenRunKeepsValid | src/index.js:15-563 | from a start with well-formed loaded keys, through the pass, any sequence of events keeps the invariant |

## Findings

| source | as written | input that shows it | evidently intended | confidence | as-written member | corrected member |
|---|---|---|---|---|---|---|
| src/index.js:39-46 | the write callback clears the pending flag and calls `saveMuted()` while `mutedWriting` is still true, so that call only sets the pending flag again | two save requests before the first write completes (e.g. two `!mute` commands in quick succession): after the completion no write is in flight, `mutedWriting` stays true, and no later save ever writes `muted.json` | clear `mutedWriting` before re-calling `saveMuted()`, so a fresh write of the current map starts | high (not executed) | Persistence.WriteComplete, Persistence.CoalescedSaveStalls, Persistence.StuckIsForever | Persistence.WriteCompleteIntended, Persistence.IntendedWriterStaysLive |
| src/index.js:221-225 | the expiry timer is set with the whole mute duration (also at 496-500 and 551-555 with the remaining time); Node.js replaces any delay above 2147483647 ms with 1 ms | `!mute 40000 @member` (40000 minutes = 2400000000 ms): the timer fires 1 ms later and removes the role and the record at once, while `endsAt` is about 28 days ahead | the mute ends at `endsAt`, for example by re-arming in steps of at most 2147483647 ms | high (not executed) | Sinbin.LongMuteFiresAtOnce, Sinbin.ClampedFireTime | Sinbin.TimerFiresChained, Sinbin.ChainedDeletesOnlyAtEndsAt, Sinbin.LongMuteSurvivesChained |

The event transitions only ever request a save. Completing a write is a separate writer event. `Lifecycle.Step` uses the completion as written. Likewise the transitions arm timers as the code does, with Node.js's clamp, and `Lifecycle.Step` fires them with the code's callback. The corrected callback, `Sinbin.TimerFiresChained`, is a separate transition: it keeps the invariant and deletes a record only at its `endsAt`.

## Left out

- Discord client, login, sessions and event wiring: the handlers are pure transitions and message logging is omitted.
- Sinbin.Mute, Sinbin.Unmute: the handler's prelude is a flag, `Command.reached`. It is false when a mentioned user or member fetch rejects (src/index.js:137-141), or when the link check finds a blacklisted link or its fetch rejects (src/index.js:150-157); either aborts the command with no role call and no change. The fetches themselves are not modelled.
- Reply and notice message text (`Muted …`, `Failed to mute …`): formatting only.
- `messageLinkBlacklisted`: regular expressions and a network fetch. For the ping rule its early return, and a rejection of its fetch, are treated as not taken; either would skip the rule. For `!mute`/`!unmute` they are covered by `Command.reached`.
- Homoglyph impersonation detection: it is driven by an external library that is not part of this model.
- The price ticker and `src/prices.js`: HTTP clients and floating-point formatting.
- `!getroleid` and `!enable`/`!disable`: they are not part of the mute engine. They only reuse `modifyRole`, which is modelled.
- Reading and parsing `muted.json`: `Recovery.Boot` takes the parsed map. A failed read is the empty map. A record without a numeric `endsAt` (NaN arithmetic) is not representable.
- `parseFloat`/`isNaN` semantics: the numeric test is an opaque predicate, and the minutes parser is an opaque function to integers. Fractional minutes are not modelled.
- Clocks and `sleep`: `now` is an input and is used for both `endsAt` and the timer deadline, which the source reads at two slightly different moments. Sleeps are counted as milliseconds in `Roles.RemoveRoleSafe`.
- The 1 s and 5 s fallback role-add retries on rejoin: they touch no state.
- Interleavings of async completions inside one handler: each handler is one atomic step, and events are sequenced in `Lifecycle.Run`.
- Sinbin.TimerFires: the role removal it starts is fire-and-forget and is modelled separately by `Roles.RemoveRoleSafe`.
- Timer order: `Lifecycle.Step` lets any live timer fire at any point. The time each timer fires is recorded but not compared with a clock.
- Recovery.Reconcile: the pass is one atomic step. The code awaits each member fetch (src/index.js:547), so a command handled meanwhile can give a key a live timer that the pass then re-arms without clearing. `Recovery.ReconcileDoubleArms` shows the result; `Recovery.ReconcileKeepsValid` and `Lifecycle.StartupThenRunKeepsValid` cover only a pass that finds no live timer on a key it resolves, and `Lifecycle.Step` has no start-up event.
