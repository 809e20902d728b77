/** The serial poller's status (controller/internal/poller/worker.go). */
module Poller {
  import opened Wrappers
  import opened Topology

  datatype Failure = FetchFailed(message: string) | IngestFailed(message: string)

  datatype CollectionState = Nothing | Ingested | Duplicate

  datatype Status = Status(
    running: bool, lastAttemptAt: Option<nat>, lastSuccessAt: Option<nat>, lastCollectionId: Uuid,
    lastCollectionState: CollectionState, lastError: Option<Failure>, consecutiveFailures: nat)

  const FRESH := Status(false, None, None, NIL_UUID, Nothing, None, 0)

  /** One round: when it began, what the gateway and the store answered, and when it ended. */
  datatype Attempt = Attempt(startedAt: nat, fetched: Result<Snapshot, string>, ingested: Result<bool, string>,
                             endedAt: nat)
  {
    predicate Succeeded() { fetched.Ok? && ingested.Ok? }

    function Problem(): Failure
      requires !Succeeded()
    {
      if fetched.Err? then FetchFailed(fetched.error) else IngestFailed(ingested.error)
    }
  }

  const WRAP: nat := 0x1_0000_0000_0000_0000

  class Worker {
    var running: bool
    var lastAttemptAt: Option<nat>
    var lastSuccessAt: Option<nat>
    var lastCollectionId: Uuid
    var lastCollectionState: CollectionState
    var lastError: Option<Failure>
    var consecutiveFailures: nat

    ghost function State(): Status
      reads this
    {
      Status(running, lastAttemptAt, lastSuccessAt, lastCollectionId, lastCollectionState, lastError,
             consecutiveFailures)
    }

    constructor ()
      ensures State() == FRESH
    {
      running, lastAttemptAt, lastSuccessAt, lastCollectionId := false, None, None, NIL_UUID;
      lastCollectionState, lastError, consecutiveFailures := Nothing, None, 0;
    }

    /** `recordFailure`; the counter is 64 bits wide. */
    method RecordFailure(problem: Failure)
      modifies this
      ensures State() == old(State()).(lastError := Some(problem),
                                       consecutiveFailures := (old(consecutiveFailures) + 1) % WRAP)
    {
      lastError := Some(problem);
      consecutiveFailures := (consecutiveFailures + 1) % WRAP;
    }

    /** `collect`. */
    method Collect(a: Attempt)
      modifies this
      ensures State() == After(old(State()), a)
    {
      running, lastAttemptAt := true, Some(a.startedAt);
      if a.fetched.Err? {
        RecordFailure(FetchFailed(a.fetched.error));
        running := false;
        return;
      }
      if a.ingested.Err? {
        RecordFailure(IngestFailed(a.ingested.error));
        running := false;
        return;
      }
      lastSuccessAt, lastCollectionId := Some(a.endedAt), a.fetched.value.collectionId;
      lastCollectionState := if a.ingested.value then Ingested else Duplicate;
      lastError, consecutiveFailures := None, 0;
      running := false;
    }
  }

  function After(s: Status, a: Attempt): Status {
    if a.Succeeded() then
      Status(false, Some(a.startedAt), Some(a.endedAt), a.fetched.value.collectionId,
             if a.ingested.value then Ingested else Duplicate, None, 0)
    else
      s.(running := false, lastAttemptAt := Some(a.startedAt), lastError := Some(a.Problem()),
         consecutiveFailures := (s.consecutiveFailures + 1) % WRAP)
  }

  function StatusOf(attempts: seq<Attempt>): Status {
    if attempts == [] then FRESH else After(StatusOf(attempts[..|attempts| - 1]), attempts[|attempts| - 1])
  }

  /** `k` is the last success. */
  ghost predicate LastSuccess(attempts: seq<Attempt>, k: nat) {
    k < |attempts| && attempts[k].Succeeded() && forall j :: k < j < |attempts| ==> !attempts[j].Succeeded()
  }

  lemma Bump(n: nat)
    ensures (n % WRAP + 1) % WRAP == (n + 1) % WRAP
  {
  }

  lemma LastSuccessBefore(front: seq<Attempt>, last: Attempt, k: nat)
    requires !last.Succeeded()
    ensures LastSuccess(front + [last], k) <==> LastSuccess(front, k)
  {
    var attempts := front + [last];
    assert forall j :: 0 <= j < |front| ==> attempts[j] == front[j];
    assert attempts[|front|] == last;
  }

  /** After any run the status tells the last success and how many attempts have failed since. */
  lemma {:induction false} StatusTellsTheLastSuccess(attempts: seq<Attempt>, k: nat)
    requires LastSuccess(attempts, k)
    ensures var s := StatusOf(attempts);
            && s.lastSuccessAt == Some(attempts[k].endedAt)
            && s.lastCollectionId == attempts[k].fetched.value.collectionId
            && (s.lastCollectionState == Ingested <==> attempts[k].ingested.value)
            && s.consecutiveFailures == (|attempts| - 1 - k) % WRAP
  {
    if k < |attempts| - 1 {
      var front, last := attempts[..|attempts| - 1], attempts[|attempts| - 1];
      assert attempts == front + [last];
      LastSuccessBefore(front, last, k);
      StatusTellsTheLastSuccess(front, k);
      Bump(|front| - 1 - k);
    }
  }

  /** After any run with an attempt: nothing is running, and the error is there exactly if the last attempt failed, and
      then it says where and how. */
  lemma StatusTellsTheLastAttempt(attempts: seq<Attempt>)
    requires attempts != []
    ensures var s, last := StatusOf(attempts), attempts[|attempts| - 1];
            && !s.running && s.lastAttemptAt == Some(last.startedAt)
            && (s.lastError == None <==> last.fetched.Ok? && last.ingested.Ok?)
            && (last.fetched.Err? ==> s.lastError == Some(FetchFailed(last.fetched.error)))
            && (last.fetched.Ok? && last.ingested.Err? ==> s.lastError == Some(IngestFailed(last.ingested.error)))
  {
  }

  lemma {:induction false} StatusWithoutSuccess(attempts: seq<Attempt>)
    requires forall k :: 0 <= k < |attempts| ==> !attempts[k].Succeeded()
    ensures StatusOf(attempts).lastSuccessAt == None && StatusOf(attempts).consecutiveFailures == |attempts| % WRAP
  {
    if attempts != [] {
      var front := attempts[..|attempts| - 1];
      assert forall k :: 0 <= k < |front| ==> front[k] == attempts[k];
      StatusWithoutSuccess(front);
      Bump(|front|);
      assert !attempts[|attempts| - 1].Succeeded();
    }
  }
}
