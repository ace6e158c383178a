/** The bridge's event journal: a bounded queue drained in batches, with capacity kept for terminal events. */
module Journal {
  import opened Common

  type Id = nat

  /** What the constructor accepts. */
  datatype Limits = Limits(
    maxQueuedEvents: nat, maxQueuedBytes: nat, reserveEvents: nat, reserveBytes: nat,
    maxBatchEvents: nat, maxBatchBytes: nat)
  {
    predicate Valid() {
      && 1 <= maxBatchEvents <= maxQueuedEvents && 1 <= maxBatchBytes <= maxQueuedBytes
      && reserveEvents < maxQueuedEvents && reserveBytes < maxQueuedBytes
    }
  }

  datatype Event = Event(sequence: nat, content: Id)

  /** A queued event with its serialized length; `terminal` records how it was appended. */
  datatype Stored = Stored(event: Event, bytes: nat, terminal: bool)

  /** A batch is identified by its content, of which its id is the digest. */
  datatype Batch = Batch(events: seq<Event>, complete: bool, eventBytes: nat)

  datatype Journal = Journal(
    events: seq<Stored>, queuedBytes: int, nextSequence: nat, activeBatch: Option<Batch>,
    completionRequested: bool, completionAcknowledged: bool, scope: Id)

  datatype JournalError =
    | Closed
    | EventTooLarge
    | CountLimit
    | ByteLimit
    | BatchChanged
    | CompletionTooEarly
    | QueueMismatch
    | ByteUnderflow
    | ScopeSealed
    | ScopeUnchanged

  function Empty(scope: Id): Journal {
    Journal([], 0, 1, None, false, false, scope)
  }

  // Operations

  function Append(l: Limits, j: Journal, content: Id, bytes: nat, terminal: bool): Result<Journal, JournalError> {
    var eventLimit := l.maxQueuedEvents - if terminal then 0 else l.reserveEvents;
    var byteLimit := l.maxQueuedBytes - if terminal then 0 else l.reserveBytes;
    if j.completionRequested then Err(Closed)
    else if bytes > l.maxBatchBytes then Err(EventTooLarge)
    else if |j.events| + 1 > eventLimit then Err(CountLimit)
    else if j.queuedBytes + bytes > byteLimit then Err(ByteLimit)
    else Ok(j.(events := j.events + [Stored(Event(j.nextSequence, content), bytes, terminal)],
               queuedBytes := j.queuedBytes + bytes, nextSequence := j.nextSequence + 1))
  }

  /** How many queued events the next batch takes, given that `taken` events of `bytes` bytes are already in it. */
  function Select(l: Limits, queue: seq<Stored>, taken: nat, bytes: nat): (n: nat)
    ensures n <= |queue|
  {
    if queue == [] || taken >= l.maxBatchEvents then 0
    else if taken > 0 && bytes + queue[0].bytes > l.maxBatchBytes then 0
    else 1 + Select(l, queue[1..], taken + 1, bytes + queue[0].bytes)
  }

  function SumBytes(queue: seq<Stored>): nat {
    if queue == [] then 0 else SumBytes(queue[..|queue| - 1]) + queue[|queue| - 1].bytes
  }

  function EventsOf(queue: seq<Stored>): (r: seq<Event>)
    ensures |r| == |queue|
    ensures forall i :: 0 <= i < |r| ==> r[i] == queue[i].event
  {
    seq(|queue|, i requires 0 <= i < |queue| => queue[i].event)
  }

  function NextBatch(l: Limits, j: Journal): Batch {
    if j.events == [] then Batch([], true, 0)
    else
      var selected := j.events[..Select(l, j.events, 0, 0)];
      Batch(EventsOf(selected), false, SumBytes(selected))
  }

  function Acknowledge(j: Journal, b: Batch): Result<Journal, JournalError> {
    if j.activeBatch != Some(b) then Err(BatchChanged)
    else if b.complete then
      if b.events != [] || j.events != [] || !j.completionRequested then Err(CompletionTooEarly)
      else Ok(j.(completionAcknowledged := true, activeBatch := None))
    else
      var n := |b.events|;
      if n > |j.events| || n == 0 || j.events[0].event.sequence != b.events[0].sequence
         || j.events[n - 1].event.sequence != b.events[n - 1].sequence then Err(QueueMismatch)
      else if j.queuedBytes - b.eventBytes < 0 then Err(ByteUnderflow)
      else Ok(j.(events := j.events[n..], queuedBytes := j.queuedBytes - b.eventBytes, activeBatch := None))
  }

  function RotateScope(j: Journal, scope: Id): Result<Journal, JournalError> {
    if j.completionRequested || j.completionAcknowledged then Err(ScopeSealed)
    else if scope == j.scope then Err(ScopeUnchanged)
    else Ok(j.(scope := scope))
  }

  /** Whether the drain loop goes on. */
  predicate MustDrain(j: Journal) {
    j.events != [] || (j.completionRequested && !j.completionAcknowledged)
  }

  // The journal as an object

  class EventJournal {
    const limits: Limits
    var events: seq<Stored>
    var queuedBytes: int
    var nextSequence: nat
    var activeBatch: Option<Batch>
    var completionRequested: bool
    var completionAcknowledged: bool
    var scope: Id

    function Value(): Journal
      reads this
    {
      Journal(events, queuedBytes, nextSequence, activeBatch, completionRequested, completionAcknowledged, scope)
    }

    constructor (limits: Limits, scope: Id)
      requires limits.Valid()
      ensures Value() == Empty(scope) && this.limits == limits
    {
      this.limits := limits;
      this.scope := scope;
      events, queuedBytes, nextSequence, activeBatch := [], 0, 1, None;
      completionRequested, completionAcknowledged := false, false;
    }

    method AppendEvent(content: Id, bytes: nat, terminal: bool) returns (failure: Option<JournalError>)
      modifies this
      ensures Append(limits, old(Value()), content, bytes, terminal) ==
              if failure.Some? then Err(failure.value) else Ok(Value())
      ensures failure.Some? ==> Value() == old(Value())
    {
      if completionRequested { return Some(Closed); }
      if bytes > limits.maxBatchBytes { return Some(EventTooLarge); }
      var eventLimit := limits.maxQueuedEvents - if terminal then 0 else limits.reserveEvents;
      var byteLimit := limits.maxQueuedBytes - if terminal then 0 else limits.reserveBytes;
      if |events| + 1 > eventLimit { return Some(CountLimit); }
      if queuedBytes + bytes > byteLimit { return Some(ByteLimit); }
      events := events + [Stored(Event(nextSequence, content), bytes, terminal)];
      queuedBytes := queuedBytes + bytes;
      nextSequence := nextSequence + 1;
      failure := None;
    }

    method CreateNextBatch() returns (b: Batch)
      ensures b == NextBatch(limits, Value())
    {
      if events == [] { return Batch([], true, 0); }
      var selected, selectedBytes := 0, 0;
      while selected < |events|
        invariant 0 <= selected <= |events|
        invariant selectedBytes == SumBytes(events[..selected])
        invariant Select(limits, events, 0, 0) == selected + Select(limits, events[selected..], selected, selectedBytes)
      {
        var stored := events[selected];
        assert events[selected..][1..] == events[selected + 1..];
        assert events[..selected + 1][..selected] == events[..selected];
        if selected >= limits.maxBatchEvents { break; }
        if selected > 0 && selectedBytes + stored.bytes > limits.maxBatchBytes { break; }
        selected := selected + 1;
        selectedBytes := selectedBytes + stored.bytes;
      }
      b := Batch(EventsOf(events[..selected]), false, selectedBytes);
    }

    method AcknowledgeBatch(b: Batch) returns (failure: Option<JournalError>)
      modifies this
      ensures Acknowledge(old(Value()), b) == if failure.Some? then Err(failure.value) else Ok(Value())
      ensures failure.Some? && failure != Some(ByteUnderflow) ==> Value() == old(Value())
    {
      if activeBatch != Some(b) { return Some(BatchChanged); }
      if b.complete {
        if b.events != [] || events != [] || !completionRequested { return Some(CompletionTooEarly); }
        completionAcknowledged := true;
        activeBatch := None;
        return None;
      }
      var n := |b.events|;
      if n > |events| || n == 0 || events[0].event.sequence != b.events[0].sequence
         || events[n - 1].event.sequence != b.events[n - 1].sequence {
        return Some(QueueMismatch);
      }
      events := events[n..];
      queuedBytes := queuedBytes - b.eventBytes;
      if queuedBytes < 0 { return Some(ByteUnderflow); }
      activeBatch := None;
      failure := None;
    }

    method ChangeScope(next: Id) returns (failure: Option<JournalError>)
      modifies this`scope
      ensures RotateScope(old(Value()), next) == if failure.Some? then Err(failure.value) else Ok(Value())
    {
      if completionRequested || completionAcknowledged { return Some(ScopeSealed); }
      if next == scope { return Some(ScopeUnchanged); }
      scope := next;
      failure := None;
    }
  }

  // Batches respect their limits

  lemma {:induction false} SumConcat(a: seq<Stored>, b: seq<Stored>)
    ensures SumBytes(a + b) == SumBytes(a) + SumBytes(b)
    decreases |b|
  {
    if b == [] {
      assert a + b == a;
    } else {
      assert (a + b)[..|a + b| - 1] == a + b[..|b| - 1];
      SumConcat(a, b[..|b| - 1]);
    }
  }

  lemma SumCons(first: Stored, rest: seq<Stored>)
    ensures SumBytes([first] + rest) == first.bytes + SumBytes(rest)
  {
    SumConcat([first], rest);
    assert [first][..0] == [];
  }

  lemma {:induction false} SelectWithinLimits(l: Limits, queue: seq<Stored>, taken: nat, bytes: nat)
    requires bytes <= l.maxBatchBytes && taken <= l.maxBatchEvents
    requires forall i :: 0 <= i < |queue| ==> queue[i].bytes <= l.maxBatchBytes
    requires taken == 0 ==> bytes == 0
    ensures var n := Select(l, queue, taken, bytes);
            && taken + n <= l.maxBatchEvents && bytes + SumBytes(queue[..n]) <= l.maxBatchBytes
            && (n < |queue| && 0 < taken + n < l.maxBatchEvents ==> bytes + SumBytes(queue[..n + 1]) > l.maxBatchBytes)
    decreases |queue|
  {
    hide SumBytes;
    SumNone();
    var n := Select(l, queue, taken, bytes);
    if n > 0 {
      SelectWithinLimits(l, queue[1..], taken + 1, bytes + queue[0].bytes);
      assert queue[..n] == [queue[0]] + queue[1..][..n - 1];
      SumCons(queue[0], queue[1..][..n - 1]);
      if n < |queue| {
        assert queue[..n + 1] == [queue[0]] + queue[1..][..n];
        SumCons(queue[0], queue[1..][..n]);
      }
    } else {
      assert queue[..0] == [];
      if queue != [] {
        assert queue[..1] == [queue[0]] + [];
        SumCons(queue[0], []);
      }
    }
  }

  lemma SumNone()
    ensures SumBytes([]) == 0
  {
  }

  /** A batch is within both limits, is not empty while events wait, and one more event would not fit. */
  lemma BatchWithinLimits(l: Limits, j: Journal)
    requires l.Valid() && j.events != []
    requires forall i :: 0 <= i < |j.events| ==> j.events[i].bytes <= l.maxBatchBytes
    ensures var b := NextBatch(l, j);
            && 1 <= |b.events| <= l.maxBatchEvents && b.eventBytes <= l.maxBatchBytes && !b.complete
            && b.events <= EventsOf(j.events) && b.eventBytes == SumBytes(j.events[..|b.events|])
            && (|b.events| < |j.events| ==>
                |b.events| == l.maxBatchEvents || b.eventBytes + j.events[|b.events|].bytes > l.maxBatchBytes)
  {
    SelectWithinLimits(l, j.events, 0, 0);
    var n := Select(l, j.events, 0, 0);
    if n < |j.events| {
      assert j.events[..n + 1][..n] == j.events[..n];
    }
  }

  // The terminal reserve

  function CountOf(queue: seq<Stored>, terminal: bool): nat {
    if queue == [] then 0
    else CountOf(queue[..|queue| - 1], terminal) + if queue[|queue| - 1].terminal == terminal then 1 else 0
  }

  function BytesOf(queue: seq<Stored>, terminal: bool): nat {
    if queue == [] then 0
    else BytesOf(queue[..|queue| - 1], terminal) +
         if queue[|queue| - 1].terminal == terminal then queue[|queue| - 1].bytes else 0
  }

  lemma {:induction false} KindsPartition(queue: seq<Stored>)
    ensures CountOf(queue, true) + CountOf(queue, false) == |queue|
    ensures BytesOf(queue, true) + BytesOf(queue, false) == SumBytes(queue)
  {
    if queue != [] {
      KindsPartition(queue[..|queue| - 1]);
    }
  }

  lemma {:induction false} KindsOfSuffix(queue: seq<Stored>, n: nat, terminal: bool)
    requires n <= |queue|
    ensures CountOf(queue[n..], terminal) <= CountOf(queue, terminal)
    ensures BytesOf(queue[n..], terminal) <= BytesOf(queue, terminal)
  {
    if n < |queue| {
      KindsOfSuffix(queue[..|queue| - 1], n, terminal);
      assert queue[n..][..|queue[n..]| - 1] == queue[..|queue| - 1][n..];
    }
  }

  /** The byte counter is exact, and ordinary events never reach into the reserve. */
  ghost predicate CapacityKept(l: Limits, j: Journal) {
    && j.queuedBytes == SumBytes(j.events)
    && |j.events| <= l.maxQueuedEvents && SumBytes(j.events) <= l.maxQueuedBytes
    && CountOf(j.events, false) <= l.maxQueuedEvents - l.reserveEvents
    && BytesOf(j.events, false) <= l.maxQueuedBytes - l.reserveBytes
    && forall i :: 0 <= i < |j.events| ==> j.events[i].bytes <= l.maxBatchBytes
  }

  lemma AppendKeepsCapacity(l: Limits, j: Journal, content: Id, bytes: nat, terminal: bool)
    requires l.Valid() && CapacityKept(l, j) && Append(l, j, content, bytes, terminal).Ok?
    ensures CapacityKept(l, Append(l, j, content, bytes, terminal).value)
  {
    var next := Append(l, j, content, bytes, terminal).value;
    assert next.events[..|next.events| - 1] == j.events;
    KindsPartition(j.events);
  }

  lemma AcknowledgeKeepsCapacity(l: Limits, j: Journal, b: Batch)
    requires CapacityKept(l, j) && Acknowledge(j, b).Ok?
    requires !b.complete ==> |b.events| <= |j.events| && b.eventBytes == SumBytes(j.events[..|b.events|])
    ensures CapacityKept(l, Acknowledge(j, b).value)
  {
    if !b.complete {
      var n := |b.events|;
      assert j.events == j.events[..n] + j.events[n..];
      SumConcat(j.events[..n], j.events[n..]);
      KindsOfSuffix(j.events, n, false);
    }
  }

  /**
   * A terminal event no larger than a batch is never refused for capacity while the queued terminal
   * events, this one included, stay within the reserved count and bytes.
   */
  lemma TerminalReserve(l: Limits, j: Journal, content: Id, bytes: nat)
    requires CapacityKept(l, j) && !j.completionRequested && bytes <= l.maxBatchBytes
    requires CountOf(j.events, true) + 1 <= l.reserveEvents && BytesOf(j.events, true) + bytes <= l.reserveBytes
    ensures Append(l, j, content, bytes, true).Ok?
  {
    KindsPartition(j.events);
  }
}
