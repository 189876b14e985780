/** The save stage of a backup as the worker runs it (internal/pkg/redis/backup/bgsave.go). */
module Saving {
  import opened Text
  import opened Runners

  /** What the select of the polling loop picks next. */
  datatype Tick = Tick(reading: Reply<int>) | ContextDone

  datatype SaveOutcome = Saved | SaveFailed(error: string) | StillPolling

  predicate Exceeds(t: Tick, prev: int) {
    t.Tick? && t.reading.Ok? && t.reading.value > prev
  }

  /** A tick as a move of the worker. */
  function MoveOf(t: Tick): Move {
    if t.Tick? then LastSaveReply(t.reading) else SaveCancelled
  }

  /** The worker of the protocol through these ticks, for as long as it polls. */
  function Poll(w: Worker, ticks: seq<Tick>): Worker
    decreases |ticks|
  {
    if ticks == [] || !w.Polling? then w else Poll(Work(w, MoveOf(ticks[0])), ticks[1..])
  }

  /** The outcome of the save stage, as a state of the worker. */
  function Reached(outcome: SaveOutcome, prev: int): Worker {
    match outcome case Saved => Tagging case SaveFailed(e) => SendingError(e) case StillPolling => Polling(prev)
  }

  /** Runs the save stage against what redis answers and what the ticker and the context do.
      It succeeds exactly when both commands are accepted and some reading exceeds the first
      one before the context ends; transient errors are skipped.  The worker of the protocol does
      the same. */
  method BackgroundSave(lastSave: Reply<int>, bgSave: Option<string>, ticks: seq<Tick>)
    returns (outcome: SaveOutcome, seen: seq<Observation>)
    ensures outcome.Saved? ==> SaveDone(seen)
    ensures outcome.Saved? <==>
            lastSave.Ok? && bgSave.None? &&
            exists k :: 0 <= k < |ticks| && Exceeds(ticks[k], lastSave.value) && ContextDone !in ticks[..k]
    ensures lastSave.Err? ==> outcome == SaveFailed(lastSave.error) && seen == []
    ensures lastSave.Ok? && bgSave.Some? ==> outcome == SaveFailed(bgSave.value) && seen == [LastSave(lastSave.value)]
    ensures outcome.StillPolling? ==> lastSave.Ok? && SavePending(seen, lastSave.value) && ContextDone !in ticks
    ensures lastSave.Ok? && bgSave.None? ==>
              Poll(Polling(lastSave.value), ticks) == Reached(outcome, lastSave.value)
  {
    if lastSave.Err? {
      return SaveFailed(lastSave.error), [];
    }
    var prev := lastSave.value;
    if bgSave.Some? {
      return SaveFailed(bgSave.value), [LastSave(prev)];
    }
    seen := [LastSave(prev), BgSave];
    for k := 0 to |ticks|
      invariant SavePending(seen, prev)
      invariant ContextDone !in ticks[..k]
      invariant forall j :: 0 <= j < k ==> !Exceeds(ticks[j], prev)
      invariant Poll(Polling(prev), ticks) == Poll(Polling(prev), ticks[k..])
    {
      assert ticks[k..][0] == ticks[k] && ticks[k..][1..] == ticks[k + 1..];
      match ticks[k] {
        case Tick(Err(_)) =>
        case Tick(Ok(at)) =>
          seen := seen + [LastSave(at)];
          if at > prev {
            assert Exceeds(ticks[k], prev);
            assert seen[..|seen| - 1] + [LastSave(at)] == seen;
            return Saved, seen;
          }
        case ContextDone =>
          assert forall j :: k < j < |ticks| ==> ticks[k] in ticks[..j];
          return SaveFailed("context cancelled"), seen;
      }
      assert ticks[..k + 1] == ticks[..k] + [ticks[k]];
    }
    assert ticks[..|ticks|] == ticks;
    outcome := StillPolling;
  }
}
