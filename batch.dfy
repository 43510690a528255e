/**
 * The streamed batch download: one URL after another, a progress or error
 * event per item, a cancellation flag polled before each item, and a
 * registry entry that lives exactly as long as the batch.
 */
module Batch {
  import opened Wrappers
  import opened Schemas
  import opened Paths
  import opened Adapter
  import opened Cancellation

  /** The events the batch stream yields, in the order it yields them. */
  datatype Event =
    | Progress(current: nat, total: nat, video: DownloadResult)
    | ItemError(current: nat, total: nat, message: string)
    | Cancelled(current: nat, total: nat, message: string)
    | Completed
  {
    /** The two events that end a stream. */
    predicate IsTerminal()
    {
      Cancelled? || Completed?
    }

    /** The event's `status` field. */
    function Status(): string
    {
      match this
      case Progress(_, _, _) => "progress"
      case ItemError(_, _, _) => "error"
      case Cancelled(_, _, _) => "cancelled"
      case Completed => "completed"
    }
  }

  const CancelMessage: string := "Batch download cancelled by user"

  /** What the library produced for one URL: its metadata and the file it wrote. */
  datatype Fetched = Fetched(info: Fields, finalPath: Path)

  /** One download per URL, in order: what it produced, or the text of the exception it raised. */
  type Oracle = seq<Result<Fetched, string>>

  /**
   * When the stop request lands: never, or just before the flag is checked
   * for the `check`-th time. Checks 1 to N come before items 1 to N; check
   * N + 1 is the final test before `completed`.
   */
  datatype StopPoint = NoStop | StopBeforeCheck(check: nat)

  /** The event for item `i` of `total`, from its download's outcome. */
  function ItemEvent(outcome: Result<Fetched, string>, i: nat, total: nat): Event
  {
    match outcome
    case Success(f) => Progress(i, total, DownloadOne(f.info, f.finalPath))
    case Failure(m) => ItemError(i, total, m)
  }

  /** The events for items 1 to `m`. */
  function ItemEvents(oracle: Oracle, m: nat): (r: seq<Event>)
    requires m <= |oracle|
    ensures |r| == m
  {
    if m == 0 then [] else ItemEvents(oracle, m - 1) + [ItemEvent(oracle[m - 1], m, |oracle|)]
  }

  /** The whole stream of `download_videos_batch_gen` for a given stop point. */
  function BatchEvents(oracle: Oracle, stop: StopPoint): seq<Event>
  {
    var n := |oracle|;
    if stop.StopBeforeCheck? && 1 <= stop.check <= n then
      ItemEvents(oracle, stop.check - 1) + [Cancelled(stop.check - 1, n, CancelMessage)]
    else if stop == StopBeforeCheck(n + 1) then
      ItemEvents(oracle, n)
    else
      ItemEvents(oracle, n) + [Completed]
  }

  /** The stop request reaches the running batch and is seen by one of its checks. */
  predicate Observed(stop: StopPoint, n: nat)
  {
    stop.StopBeforeCheck? && 1 <= stop.check <= n + 1
  }

  /**
   * `download_videos_batch_gen`: register a fresh flag, then per URL poll the
   * flag, download and report; report completion if the flag is still unset;
   * always pop the entry. The stop request, when it lands, sets the flag
   * through the registry just as `stop_batch` does; `stopFound` is what that
   * lookup found, the live entry that makes `stop_batch` answer "success".
   */
  method DownloadVideosBatch(registry: Registry, urls: seq<string>, batchId: string, oracle: Oracle, stop: StopPoint)
    returns (events: seq<Event>, stopFound: bool)
    requires |oracle| == |urls|
    modifies registry
    ensures events == BatchEvents(oracle, stop)
    ensures stopFound <==> Observed(stop, |oracle|)
    ensures registry.flags == old(registry.flags) - {batchId}
  {
    var total := |urls|;
    registry.Register(batchId);
    events := [];
    stopFound := false;
    var i := 1;
    while i <= total
      invariant 1 <= i <= total + 1
      invariant registry.flags == old(registry.flags)[batchId := false]
      invariant events == ItemEvents(oracle, i - 1)
      invariant !(stop.StopBeforeCheck? && 1 <= stop.check < i)
      invariant !stopFound
    {
      if stop == StopBeforeCheck(i) {
        stopFound := registry.Signal(batchId);
      }
      if registry.IsSet(batchId) {
        events := events + [Cancelled(i - 1, total, CancelMessage)];
        break;
      }
      events := events + [ItemEvent(oracle[i - 1], i, total)];
      i := i + 1;
    }
    if stop == StopBeforeCheck(total + 1) {
      stopFound := registry.Signal(batchId);
    }
    if !registry.IsSet(batchId) {
      events := events + [Completed];
    }
    registry.Pop(batchId);
  }

  /** Item `j + 1`'s event sits at position `j` and reports that item's own outcome. */
  lemma {:induction false} ItemEventsAt(oracle: Oracle, m: nat, j: nat)
    requires j < m <= |oracle|
    ensures ItemEvents(oracle, m)[j] == ItemEvent(oracle[j], j + 1, |oracle|)
    decreases m
  {
    if j < m - 1 {
      ItemEventsAt(oracle, m - 1, j);
    }
  }

  /**
   * The shape every batch stream has: the event at position `j` that is not
   * terminal is item `j + 1` of `total`; a terminal event can only be the
   * last; a cancellation counts the items before it.
   */
  ghost predicate WellFormedStream(events: seq<Event>, total: nat)
  {
    && |events| <= total + 1
    && (forall j :: 0 <= j < |events| && !events[j].IsTerminal() ==>
          events[j].current == j + 1 && events[j].total == total)
    && (forall j :: 0 <= j < |events| && events[j].IsTerminal() ==> j == |events| - 1)
    && (forall j :: 0 <= j < |events| && events[j].Cancelled? ==>
          events[j].current == j && events[j].total == total)
  }

  /** Item events are numbered from 1 in order and none of them is terminal. */
  lemma ItemEventsNumbered(oracle: Oracle, m: nat)
    requires m <= |oracle|
    ensures forall j :: 0 <= j < m ==>
              !ItemEvents(oracle, m)[j].IsTerminal() &&
              ItemEvents(oracle, m)[j].current == j + 1 &&
              ItemEvents(oracle, m)[j].total == |oracle|
  {
    forall j | 0 <= j < m
      ensures !ItemEvents(oracle, m)[j].IsTerminal()
      ensures ItemEvents(oracle, m)[j].current == j + 1 && ItemEvents(oracle, m)[j].total == |oracle|
    {
      ItemEventsAt(oracle, m, j);
    }
  }

  /** Whatever the outcomes and whenever the stop lands, the stream is well formed. */
  lemma BatchEventsWellFormed(oracle: Oracle, stop: StopPoint)
    ensures WellFormedStream(BatchEvents(oracle, stop), |oracle|)
  {
    var n := |oracle|;
    if stop.StopBeforeCheck? && 1 <= stop.check <= n {
      ItemEventsNumbered(oracle, stop.check - 1);
    } else {
      ItemEventsNumbered(oracle, n);
    }
  }

  /** With no stop seen, one event per URL, numbered 1 to N, then `completed`. */
  lemma StreamWithoutStop(oracle: Oracle, stop: StopPoint)
    requires !Observed(stop, |oracle|)
    ensures |BatchEvents(oracle, stop)| == |oracle| + 1
    ensures BatchEvents(oracle, stop)[|oracle|] == Completed
    ensures forall j :: 0 <= j < |oracle| ==>
              BatchEvents(oracle, stop)[j] == ItemEvent(oracle[j], j + 1, |oracle|)
  {
    forall j | 0 <= j < |oracle|
      ensures BatchEvents(oracle, stop)[j] == ItemEvent(oracle[j], j + 1, |oracle|)
    {
      ItemEventsAt(oracle, |oracle|, j);
    }
  }

  /** An empty batch streams `completed` alone. */
  lemma EmptyBatchStream(stop: StopPoint)
    requires !Observed(stop, 0)
    ensures BatchEvents([], stop) == [Completed]
  {
  }

  /** A stop seen at check `k <= N`: items 1 to k-1, then `cancelled` with `current = k-1`, and no `completed`. */
  lemma StreamCancelledAt(oracle: Oracle, k: nat)
    requires 1 <= k <= |oracle|
    ensures |BatchEvents(oracle, StopBeforeCheck(k))| == k
    ensures BatchEvents(oracle, StopBeforeCheck(k))[k - 1] == Cancelled(k - 1, |oracle|, CancelMessage)
    ensures forall j :: 0 <= j < k - 1 ==>
              BatchEvents(oracle, StopBeforeCheck(k))[j] == ItemEvent(oracle[j], j + 1, |oracle|)
    ensures Completed !in BatchEvents(oracle, StopBeforeCheck(k))
  {
    var events := BatchEvents(oracle, StopBeforeCheck(k));
    forall j | 0 <= j < k - 1
      ensures events[j] == ItemEvent(oracle[j], j + 1, |oracle|)
    {
      ItemEventsAt(oracle, k - 1, j);
    }
    ItemEventsNumbered(oracle, k - 1);
  }

  /** A stop seen only by the final check: every item's event and no terminal event at all. */
  lemma StreamStoppedAfterLastItem(oracle: Oracle)
    ensures BatchEvents(oracle, StopBeforeCheck(|oracle| + 1)) == ItemEvents(oracle, |oracle|)
    ensures forall j :: 0 <= j < |oracle| ==> !ItemEvents(oracle, |oracle|)[j].IsTerminal()
  {
    ItemEventsNumbered(oracle, |oracle|);
  }

  /** The stream ends in `completed` exactly when no check saw the stop. */
  lemma CompletedIffNotObserved(oracle: Oracle, stop: StopPoint)
    ensures Completed in BatchEvents(oracle, stop) <==> !Observed(stop, |oracle|)
  {
    var n := |oracle|;
    if stop.StopBeforeCheck? && 1 <= stop.check <= n {
      StreamCancelledAt(oracle, stop.check);
    } else {
      ItemEventsNumbered(oracle, n);
      if stop == StopBeforeCheck(n + 1) {
        assert forall j :: 0 <= j < n ==> BatchEvents(oracle, stop)[j] != Completed;
      }
    }
  }

  /** Items from the stop's check on are never attempted: their outcomes cannot change the stream. */
  lemma CancelledStreamIgnoresLaterItems(oracle: Oracle, other: Oracle, k: nat)
    requires 1 <= k <= |oracle| == |other|
    requires oracle[..k - 1] == other[..k - 1]
    ensures BatchEvents(oracle, StopBeforeCheck(k)) == BatchEvents(other, StopBeforeCheck(k))
  {
    var m := k - 1;
    forall j | 0 <= j < m
      ensures ItemEvents(oracle, m)[j] == ItemEvents(other, m)[j]
    {
      ItemEventsAt(oracle, m, j);
      ItemEventsAt(other, m, j);
      assert oracle[j] == oracle[..m][j];
      assert other[j] == other[..m][j];
    }
  }

  /** The statuses of a stream, in order. */
  function Statuses(events: seq<Event>): seq<string>
  {
    seq(|events|, j requires 0 <= j < |events| => events[j].Status())
  }

  /** Five URLs, the third failing, no stop: progress, progress, error, progress, progress, completed. */
  lemma ScenarioThirdOfFiveFails(oracle: Oracle)
    requires |oracle| == 5
    requires oracle[2].Failure?
    requires forall j :: 0 <= j < 5 && j != 2 ==> oracle[j].Success?
    ensures Statuses(BatchEvents(oracle, NoStop)) ==
              ["progress", "progress", "error", "progress", "progress", "completed"]
  {
    StreamWithoutStop(oracle, NoStop);
  }

  /** Six URLs, stop after item 2 and before item 3: progress, progress, cancelled with `current = 2`. */
  lemma ScenarioStopBeforeThirdOfSix(oracle: Oracle)
    requires |oracle| == 6
    requires forall j :: 0 <= j < 6 ==> oracle[j].Success?
    ensures Statuses(BatchEvents(oracle, StopBeforeCheck(3))) == ["progress", "progress", "cancelled"]
    ensures BatchEvents(oracle, StopBeforeCheck(3))[2].current == 2
  {
    StreamCancelledAt(oracle, 3);
  }
}
