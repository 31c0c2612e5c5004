/** Readings of the `job_events` log: what one job's events say about its row. */
module EventLog {
  import opened Jobs

  /** The part of a row that the log determines. */
  datatype LogState = LogState(status: Status, attempts: nat)

  function ReplayKind(prev: Option<LogState>, kind: EventKind): Option<LogState> {
    if kind == EventEnqueued then Some(LogState(StatusQueued, 0))
    else if prev.None? then None
    else if kind == EventClaimed then Some(LogState(StatusRunning, prev.value.attempts + 1))
    else if kind == EventCompleted then Some(LogState(StatusCompleted, prev.value.attempts))
    else if IsRequeue(kind) then Some(LogState(StatusQueued, prev.value.attempts))
    else Some(LogState(StatusFailed, prev.value.attempts))
  }

  /** Folds the events of job `id`, oldest first, by their kind alone. */
  function Replay(log: seq<Event>, id: nat): Option<LogState> {
    if log == [] then None
    else
      var last := log[|log| - 1];
      var prev := Replay(log[..|log| - 1], id);
      if last.jobId == id then ReplayKind(prev, last.kind) else prev
  }

  /** How many events of job `id` have a kind in `kinds`. */
  function Count(log: seq<Event>, id: nat, kinds: set<EventKind>): nat {
    if log == [] then 0
    else
      var last := log[|log| - 1];
      Count(log[..|log| - 1], id, kinds) + if last.jobId == id && last.kind in kinds then 1 else 0
  }

  /** The events of job `id`, in log order. */
  function EventsOf(log: seq<Event>, id: nat): seq<Event> {
    if log == [] then []
    else
      var last := log[|log| - 1];
      EventsOf(log[..|log| - 1], id) + if last.jobId == id then [last] else []
  }

  predicate IsReap(kind: EventKind) {
    kind == EventReapedRetry || kind == EventReapedFailed
  }

  predicate IsRequeue(kind: EventKind) {
    kind == EventRetried || kind == EventReapedRetry
  }

  predicate IsDeparture(kind: EventKind) {
    kind == EventCompleted || kind == EventFailed || kind == EventReapedFailed
  }

  /** The reaper took the claim number `attempts` of job `id` away. */
  predicate ReapedAt(log: seq<Event>, id: nat, attempts: nat) {
    exists i :: 0 <= i < |log| && log[i].jobId == id && log[i].attempts == attempts && IsReap(log[i].kind)
  }

  lemma ReapedAtSnoc(log: seq<Event>, e: Event, id: nat, attempts: nat)
    ensures ReapedAt(log + [e], id, attempts) <==>
            ReapedAt(log, id, attempts) || (e.jobId == id && e.attempts == attempts && IsReap(e.kind))
  {
    var all := log + [e];
    assert all[|log|] == e;
    if ReapedAt(log, id, attempts) {
      var i :| 0 <= i < |log| && log[i].jobId == id && log[i].attempts == attempts && IsReap(log[i].kind);
      assert all[i] == log[i];
    }
  }
}
