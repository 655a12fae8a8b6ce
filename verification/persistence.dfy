/** The `muted.json` write coalescer (`saveMuted` and its write callback) as
    a two-flag state machine. The file itself is not modelled: a write is the
    snapshot handed to it, logged in `written`, and its completion is an
    event. */
module Persistence {

  /** What one write puts on disk: key to `endsAt`, nothing else. */
  type Snapshot = map<string, int>

  /** `writing` and `scheduled` are the source's `mutedWriting` and
      `mutedWriteScheduled`; `inFlight` counts the writes started and not yet
      completed; `written` lists every snapshot a write was started with. */
  datatype Writer = Writer(writing: bool, scheduled: bool, inFlight: nat, written: seq<Snapshot>)

  /** Both flags false, nothing written. */
  const Idle := Writer(false, false, 0, [])

  /** At most one write is in flight, and only while `writing` is set. */
  predicate Sane(w: Writer) {
    w.inFlight <= 1 && (w.inFlight == 1 ==> w.writing)
  }

  /** `writing` is set but no write is in flight, so no completion will ever
      clear it. */
  predicate Stuck(w: Writer) {
    w.writing && w.inFlight == 0
  }

  /** `saveMuted()` called while the in-memory map is `current`. */
  function RequestSave(w: Writer, current: Snapshot): (r: Writer)
    ensures w.writing ==>
              r.writing && r.scheduled && r.inFlight == w.inFlight && r.written == w.written
    ensures !w.writing ==>
              && r.writing && r.scheduled == w.scheduled
              && r.inFlight == w.inFlight + 1
              && r.written == w.written + [current]
    ensures Sane(w) ==> Sane(r)
  {
    if w.writing then w.(scheduled := true)
    else w.(writing := true, inFlight := w.inFlight + 1, written := w.written + [current])
  }

  /** The `fs.writeFile` callback as written: with the pending flag set it
      clears the flag and calls `saveMuted()` again, while `writing` is still
      set. `current` is the in-memory map when the callback runs. */
  function WriteComplete(w: Writer, current: Snapshot): (r: Writer)
    requires w.inFlight > 0
    ensures w.writing || !w.scheduled ==> r.inFlight == w.inFlight - 1
    ensures !w.scheduled ==> !r.writing && !r.scheduled && r.written == w.written
    ensures w.scheduled && w.writing ==> r.writing && r.scheduled && r.written == w.written
    ensures Sane(w) ==> Sane(r)
  {
    if w.scheduled then RequestSave(w.(scheduled := false, inFlight := w.inFlight - 1), current)
    else w.(writing := false, inFlight := w.inFlight - 1)
  }

  /** A completion that finds the pending flag set leaves the writer stuck:
      the re-entrant save only sets the flag again. */
  lemma CoalescedSaveStalls(w: Writer, current: Snapshot)
    requires Sane(w) && w.inFlight == 1 && w.scheduled
    ensures Stuck(WriteComplete(w, current))
    ensures WriteComplete(w, current).written == w.written
  {
  }

  /** Once stuck, every later save request only sets the pending flag: no
      write is ever started again. */
  lemma {:induction false} StuckIsForever(w: Writer, requests: seq<Snapshot>)
    requires Stuck(w)
    ensures Stuck(SaveAll(w, requests)) && SaveAll(w, requests).written == w.written
    decreases |requests|
  {
    if |requests| > 0 {
      StuckIsForever(RequestSave(w, requests[0]), requests[1..]);
    }
  }

  /** Save requests issued back to back, with no completion in between. */
  function SaveAll(w: Writer, requests: seq<Snapshot>): Writer
    decreases |requests|
  {
    if |requests| == 0 then w else SaveAll(RequestSave(w, requests[0]), requests[1..])
  }

  /** Three saves during one write, then its completion: as written, only the
      first snapshot is ever written and the writer is stuck. */
  lemma ThreeSavesAsWritten(a: Snapshot, b: Snapshot, c: Snapshot)
    ensures var w := RequestSave(RequestSave(RequestSave(Idle, a), b), c);
            var done := WriteComplete(w, c);
            done.written == [a] && Stuck(done)
  {
  }

  /** The completion the callback evidently means: its call to `saveMuted()`
      after clearing the pending flag is there to start a fresh write of the
      current map, which needs the writing flag cleared as well. */
  function WriteCompleteIntended(w: Writer, current: Snapshot): (r: Writer)
    requires w.inFlight > 0
    ensures !w.scheduled ==> !r.writing && r.inFlight == w.inFlight - 1 && r.written == w.written
    ensures w.scheduled ==>
              r.writing && !r.scheduled && r.inFlight == w.inFlight && r.written == w.written + [current]
  {
    if w.scheduled then RequestSave(w.(writing := false, scheduled := false, inFlight := w.inFlight - 1), current)
    else w.(writing := false, inFlight := w.inFlight - 1)
  }

  /** `writing` holds exactly while one write is in flight. */
  predicate Live(w: Writer) {
    w.inFlight <= 1 && (w.writing <==> w.inFlight == 1)
  }

  /** With the intended completion the writer never gets stuck: requests and
      completions keep it live. */
  lemma IntendedWriterStaysLive(w: Writer, current: Snapshot)
    requires Live(w)
    ensures Live(RequestSave(w, current))
    ensures w.inFlight > 0 ==> Live(WriteCompleteIntended(w, current)) && !Stuck(WriteCompleteIntended(w, current))
  {
  }

  /** Three saves during one write, then its completion: with the intended
      completion exactly two writes happen, the second holding the state of
      the third request. */
  lemma ThreeSavesIntended(a: Snapshot, b: Snapshot, c: Snapshot)
    ensures var w := RequestSave(RequestSave(RequestSave(Idle, a), b), c);
            var done := WriteCompleteIntended(w, c);
            done.written == [a, c] && Live(done)
            && WriteCompleteIntended(done, c).written == [a, c]
            && !WriteCompleteIntended(done, c).writing
  {
  }
}
