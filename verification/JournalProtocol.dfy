/**
 * The journal, the network and the ingest route together: batches may be lost, repeated, delivered late and
 * out of order, and acknowledgements may be lost or repeated.
 */
module JournalProtocol {
  import opened Common
  import opened Journal

  // The ingest route

  /** What the database holds for one stream: events by sequence number, batches, and whether the binding is live. */
  datatype Receiver = Receiver(rows: map<nat, Event>, batches: set<Batch>, live: bool)

  predicate Conflicts(rows: map<nat, Event>, events: seq<Event>) {
    exists i :: 0 <= i < |events| && events[i].sequence in rows && rows[events[i].sequence] != events[i]
  }

  function Inserted(rows: map<nat, Event>, events: seq<Event>): map<nat, Event> {
    if events == [] then rows
    else
      var last := events[|events| - 1];
      Inserted(rows, events[..|events| - 1])[last.sequence := last]
  }

  /** One ingest transaction, and whether the batch is acknowledged. */
  function Ingest(r: Receiver, b: Batch): (Receiver, bool) {
    if Conflicts(r.rows, b.events) then (r, false)
    else if r.live then (Receiver(Inserted(r.rows, b.events), r.batches + {b}, !b.complete), true)
    else (r, b in r.batches)
  }

  // The world

  /** `history` lists every event ever appended; `sent` and `acks` are the messages the network may still deliver. */
  datatype World = World(
    limits: Limits, j: Journal, r: Receiver, history: seq<Event>, sent: set<Batch>, acks: set<Batch>)

  datatype Action =
    | AppendEvent(content: Id, bytes: nat, terminal: bool)
    | RequestCompletion
    | CreateBatch
    | Send
    | Deliver(batch: Batch)
    | TakeAck(batch: Batch)
    | ChangeScope(scope: Id)
    | StopBinding

  function Step(w: World, a: Action): World {
    match a
    case AppendEvent(content, bytes, terminal) =>
      var next := Append(w.limits, w.j, content, bytes, terminal);
      if next.Err? then w
      else w.(j := next.value, history := w.history + [Event(w.j.nextSequence, content)])
    case RequestCompletion => w.(j := w.j.(completionRequested := true))
    case CreateBatch =>
      if MustDrain(w.j) && w.j.activeBatch.None?
      then w.(j := w.j.(activeBatch := Some(NextBatch(w.limits, w.j)))) else w
    case Send => if w.j.activeBatch.Some? then w.(sent := w.sent + {w.j.activeBatch.value}) else w
    case Deliver(b) =>
      if b !in w.sent then w
      else
        var (r, ok) := Ingest(w.r, b);
        w.(r := r, acks := if ok then w.acks + {b} else w.acks)
    case TakeAck(b) =>
      if b !in w.acks || w.j.activeBatch != Some(b) then w
      else
        var next := Acknowledge(w.j, b);
        if next.Err? then w else w.(j := next.value)
    case ChangeScope(scope) =>
      var next := RotateScope(w.j, scope);
      if next.Err? then w else w.(j := next.value)
    case StopBinding => w.(r := w.r.(live := false))
  }

  function Start(limits: Limits, scope: Id): World {
    World(limits, Empty(scope), Receiver(map[], {}, true), [], {}, {})
  }

  function Run(w: World, actions: seq<Action>): World {
    if actions == [] then w else Step(Run(w, actions[..|actions| - 1]), actions[|actions| - 1])
  }

  // What every reachable world satisfies

  function Acked(w: World): int {
    |w.history| - |w.j.events|
  }

  /** The receiver holds exactly the first `m` appended events. */
  ghost predicate Holds(rows: map<nat, Event>, history: seq<Event>, m: int) {
    && 0 <= m <= |history|
    && (forall k :: k in rows <==> 1 <= k <= m)
    && forall k :: 1 <= k <= m ==> rows[k] == history[k - 1]
  }

  /** The last sequence number of a batch of events. */
  function End(b: Batch): int
    requires b.events != []
  {
    b.events[0].sequence - 1 + |b.events|
  }

  ghost predicate SliceOf(history: seq<Event>, b: Batch) {
    && !b.complete && b.events != [] && 1 <= b.events[0].sequence && End(b) <= |history|
    && b.events == history[b.events[0].sequence - 1..End(b)]
  }

  /** Events are numbered from one on without gaps. */
  ghost predicate Numbered(history: seq<Event>) {
    forall i :: 0 <= i < |history| ==> history[i].sequence == i + 1
  }

  ghost predicate QueueSound(w: World) {
    && Numbered(w.history)
    && w.j.nextSequence == |w.history| + 1
    && |w.j.events| <= |w.history|
    && EventsOf(w.j.events) == w.history[Acked(w)..]
    && w.limits.Valid() && CapacityKept(w.limits, w.j)
  }

  ghost predicate ActiveSound(j: Journal) {
    match j.activeBatch
    case None => true
    case Some(b) =>
      if b.complete
      then b == Batch([], true, 0) && j.events == [] && j.completionRequested && !j.completionAcknowledged
      else && 1 <= |b.events| <= |j.events| && b.events == EventsOf(j.events[..|b.events|])
           && b.eventBytes == SumBytes(j.events[..|b.events|])
  }

  ghost predicate SentSound(w: World) {
    && (forall b <- w.sent :: b.complete ==>
          b == Batch([], true, 0) && w.j.completionRequested && w.j.events == [])
    && (forall b <- w.sent :: !b.complete ==>
          SliceOf(w.history, b) && (w.j.activeBatch == Some(b) || End(b) <= Acked(w)))
  }

  ghost predicate StoredSound(w: World, m: int) {
    && w.acks <= w.r.batches <= w.sent
    && Holds(w.r.rows, w.history, m)
    && (forall b <- w.r.batches :: !b.complete ==> b.events != [] && End(b) <= m)
    && (Batch([], true, 0) in w.r.batches ==> !w.r.live)
    && (w.j.completionAcknowledged ==> Batch([], true, 0) in w.r.batches)
  }

  function ActiveCount(j: Journal): nat {
    if j.activeBatch.Some? then |j.activeBatch.value.events| else 0
  }

  ghost predicate Sound(w: World) {
    && QueueSound(w) && ActiveSound(w.j) && SentSound(w)
    && (StoredSound(w, Acked(w)) || StoredSound(w, Acked(w) + ActiveCount(w.j)))
  }

  /** What an accepted append changes. */
  ghost predicate Appended(w: World, after: World, stored: Stored) {
    && after == w.(j := after.j, history := w.history + [stored.event])
    && after.j == w.j.(events := w.j.events + [stored], queuedBytes := after.j.queuedBytes,
                       nextSequence := w.j.nextSequence + 1)
    && stored.event.sequence == w.j.nextSequence && !w.j.completionRequested
  }

  lemma AppendKeepsQueue(w: World, after: World, stored: Stored)
    requires QueueSound(w) && Appended(w, after, stored) && CapacityKept(after.limits, after.j)
    ensures QueueSound(after) && Acked(after) == Acked(w)
  {
    hide CapacityKept;
    assert EventsOf(after.j.events) == EventsOf(w.j.events) + [stored.event];
    assert after.history[Acked(w)..] == w.history[Acked(w)..] + [stored.event];
  }

  lemma AppendKeepsActive(w: World, after: World, stored: Stored)
    requires ActiveSound(w.j) && Appended(w, after, stored)
    ensures ActiveSound(after.j)
  {
    if w.j.activeBatch.Some? && !w.j.activeBatch.value.complete {
      var n := |w.j.activeBatch.value.events|;
      assert after.j.events[..n] == w.j.events[..n];
    }
  }

  lemma SliceExtends(history: seq<Event>, e: Event, b: Batch)
    requires SliceOf(history, b)
    ensures SliceOf(history + [e], b)
  {
    var first := b.events[0].sequence - 1;
    assert (history + [e])[first..End(b)] == history[first..End(b)];
  }

  lemma AppendKeepsSent(w: World, after: World, stored: Stored)
    requires SentSound(w) && Appended(w, after, stored)
    ensures SentSound(after)
  {
    hide SliceOf;
    forall b <- w.sent | !b.complete ensures SliceOf(after.history, b) {
      SliceExtends(w.history, stored.event, b);
    }
  }

  lemma AppendKeepsStored(w: World, after: World, stored: Stored, m: int)
    requires StoredSound(w, m) && Appended(w, after, stored)
    ensures StoredSound(after, m)
  {
  }

  lemma AppendKeeps(w: World, content: Id, bytes: nat, terminal: bool)
    requires Sound(w)
    ensures Sound(Step(w, AppendEvent(content, bytes, terminal)))
  {
    hide CapacityKept, ActiveSound, SentSound, StoredSound;
    var next := Append(w.limits, w.j, content, bytes, terminal);
    if next.Ok? {
      var after := Step(w, AppendEvent(content, bytes, terminal));
      var stored := Stored(Event(w.j.nextSequence, content), bytes, terminal);
      assert Appended(w, after, stored);
      AppendKeepsCapacity(w.limits, w.j, content, bytes, terminal);
      AppendKeepsQueue(w, after, stored);
      AppendKeepsActive(w, after, stored);
      AppendKeepsSent(w, after, stored);
      if StoredSound(w, Acked(w)) {
        AppendKeepsStored(w, after, stored, Acked(w));
      } else {
        AppendKeepsStored(w, after, stored, Acked(w) + ActiveCount(w.j));
      }
    }
  }

  lemma NextBatchFits(w: World)
    requires QueueSound(w) && MustDrain(w.j)
    ensures ActiveSound(w.j.(activeBatch := Some(NextBatch(w.limits, w.j))))
  {
    if w.j.events != [] {
      BatchWithinLimits(w.limits, w.j);
      var b := NextBatch(w.limits, w.j);
      assert b.events == EventsOf(w.j.events[..|b.events|]);
    }
  }

  lemma CapacityOfQueue(l: Limits, j: Journal, after: Journal)
    requires CapacityKept(l, j) && after.events == j.events && after.queuedBytes == j.queuedBytes
    ensures CapacityKept(l, after)
  {
  }

  lemma CreateBatchKeeps(w: World)
    requires Sound(w)
    ensures Sound(Step(w, CreateBatch))
  {
    hide CapacityKept, SliceOf, Holds, NextBatch, ActiveSound;
    var after := Step(w, CreateBatch);
    if MustDrain(w.j) && w.j.activeBatch.None? {
      NextBatchFits(w);
      CapacityOfQueue(w.limits, w.j, after.j);
      assert StoredSound(after, Acked(w));
    }
  }

  lemma SendKeepsSent(w: World, b: Batch)
    requires QueueSound(w) && ActiveSound(w.j) && SentSound(w) && w.j.activeBatch == Some(b)
    ensures SentSound(w.(sent := w.sent + {b}))
  {
    hide QueueSound, SliceOf;
    if !b.complete {
      ActiveIsSlice(w, b);
    }
  }

  lemma SendKeeps(w: World)
    requires Sound(w)
    ensures Sound(Step(w, Send))
  {
    hide CapacityKept, ActiveSound, SentSound, Holds;
    if w.j.activeBatch.Some? {
      SendKeepsSent(w, w.j.activeBatch.value);
    }
  }

  lemma ActiveIsSlice(w: World, b: Batch)
    requires QueueSound(w) && ActiveSound(w.j) && w.j.activeBatch == Some(b) && !b.complete
    ensures SliceOf(w.history, b) && b.events[0].sequence == Acked(w) + 1 && End(b) == Acked(w) + |b.events|
  {
    var a, n := Acked(w), |b.events|;
    assert b.events[0] == EventsOf(w.j.events)[0] == w.history[a..][0];
    assert b.events == w.history[a..a + n] by {
      forall i | 0 <= i < n ensures b.events[i] == w.history[a + i] {
        assert b.events[i] == EventsOf(w.j.events)[i] == w.history[a..][i];
      }
    }
  }

  // Delivery

  /** Storing an event that is next or already there. */
  lemma HoldsOneMore(rows: map<nat, Event>, history: seq<Event>, m: int, i: nat)
    requires Holds(rows, history, m) && i <= m && i < |history| && history[i].sequence == i + 1
    ensures Holds(rows[i + 1 := history[i]], history, if i + 1 <= m then m else i + 1)
  {
  }

  /** The events lie in the history from a position on. */
  ghost predicate LiesAt(history: seq<Event>, from: nat, events: seq<Event>) {
    && from + |events| <= |history|
    && forall i :: 0 <= i < |events| ==> events[i] == history[from + i] && events[i].sequence == from + i + 1
  }

  lemma LiesBefore(history: seq<Event>, from: nat, events: seq<Event>)
    requires LiesAt(history, from, events) && events != []
    ensures var n := |events| - 1;
            && LiesAt(history, from, events[..n]) && from + n < |history|
            && events[n] == history[from + n] && events[n].sequence == from + n + 1
  {
  }

  lemma {:induction false} InsertedHolds(rows: map<nat, Event>, history: seq<Event>, m: int, from: nat,
                                         events: seq<Event>)
    requires Holds(rows, history, m) && from <= m && LiesAt(history, from, events)
    ensures Holds(Inserted(rows, events), history, if from + |events| <= m then m else from + |events|)
  {
    if events != [] {
      hide Holds, LiesAt;
      var n := |events| - 1;
      var before := if from + n <= m then m else from + n;
      LiesBefore(history, from, events);
      InsertedHolds(rows, history, m, from, events[..n]);
      HoldsOneMore(Inserted(rows, events[..n]), history, before, from + n);
    }
  }

  lemma NoConflict(w: World, m: int, b: Batch)
    requires QueueSound(w) && Holds(w.r.rows, w.history, m) && SliceOf(w.history, b)
    ensures !Conflicts(w.r.rows, b.events)
  {
    forall i | 0 <= i < |b.events| && b.events[i].sequence in w.r.rows
      ensures w.r.rows[b.events[i].sequence] == b.events[i]
    {
      assert b.events[i] == w.history[b.events[0].sequence - 1 + i];
    }
  }

  /** Where the receiver stands after storing a batch. */
  function Reached(m: int, b: Batch): int {
    if b.events != [] && End(b) > m then End(b) else m
  }

  lemma SliceLies(history: seq<Event>, b: Batch)
    requires Numbered(history) && SliceOf(history, b)
    ensures LiesAt(history, b.events[0].sequence - 1, b.events)
  {
    var from := b.events[0].sequence - 1;
    forall i | 0 <= i < |b.events|
      ensures b.events[i] == history[from + i] && b.events[i].sequence == from + i + 1
    {
      assert b.events[i] == history[from..from + |b.events|][i];
    }
  }

  lemma IngestHolds(w: World, m: int, b: Batch)
    requires QueueSound(w) && ActiveSound(w.j) && SentSound(w) && Holds(w.r.rows, w.history, m) && b in w.sent
    requires Acked(w) <= m
    ensures !Conflicts(w.r.rows, b.events)
    ensures Holds(Inserted(w.r.rows, b.events), w.history, Reached(m, b))
  {
    hide CapacityKept, SumBytes, Holds, LiesAt, Numbered;
    if b.complete {
      assert Inserted(w.r.rows, b.events) == w.r.rows;
    } else {
      NoConflict(w, m, b);
      if w.j.activeBatch == Some(b) {
        ActiveIsSlice(w, b);
      }
      SliceLies(w.history, b);
      InsertedHolds(w.r.rows, w.history, m, b.events[0].sequence - 1, b.events);
    }
  }

  lemma DeliverStored(w: World, m: int, b: Batch)
    requires QueueSound(w) && ActiveSound(w.j) && SentSound(w) && StoredSound(w, m) && b in w.sent
    requires Acked(w) <= m
    ensures var after := Step(w, Deliver(b)); StoredSound(after, if after.r == w.r then m else Reached(m, b))
  {
    hide QueueSound, ActiveSound, Conflicts, Inserted, Holds;
    IngestHolds(w, m, b);
  }

  lemma ReachedStands(w: World, m: int, b: Batch)
    requires QueueSound(w) && ActiveSound(w.j) && SentSound(w) && b in w.sent
    requires m == Acked(w) || m == Acked(w) + ActiveCount(w.j)
    ensures Reached(m, b) == Acked(w) || Reached(m, b) == Acked(w) + ActiveCount(w.j)
  {
    if w.j.activeBatch == Some(b) && !b.complete {
      ActiveIsSlice(w, b);
    }
  }

  lemma DeliverKeeps(w: World, b: Batch)
    requires Sound(w)
    ensures Sound(Step(w, Deliver(b)))
  {
    hide CapacityKept, SumBytes, StoredSound, Ingest, SliceOf, Reached;
    if b in w.sent {
      var m := if StoredSound(w, Acked(w)) then Acked(w) else Acked(w) + ActiveCount(w.j);
      DeliverStored(w, m, b);
      ReachedStands(w, m, b);
      var after := Step(w, Deliver(b));
      assert Acked(after) == Acked(w);
    }
  }

  // Acknowledgement

  /** The state errors of the acknowledgement step never occur. */
  lemma AcknowledgeNeverFails(w: World, b: Batch)
    requires QueueSound(w) && ActiveSound(w.j) && w.j.activeBatch == Some(b)
    ensures Acknowledge(w.j, b).Ok?
  {
    hide SumBytes, Numbered;
    if !b.complete {
      var n := |b.events|;
      assert b.events[0] == w.j.events[0].event && b.events[n - 1] == w.j.events[n - 1].event;
      assert w.j.events == w.j.events[..n] + w.j.events[n..];
      SumConcat(w.j.events[..n], w.j.events[n..]);
    }
  }

  lemma AcknowledgeChanges(j: Journal, b: Batch)
    requires Acknowledge(j, b).Ok?
    ensures var next := Acknowledge(j, b).value;
            && next.activeBatch.None? && next.completionRequested == j.completionRequested
            && next.completionAcknowledged == (j.completionAcknowledged || b.complete)
            && next.nextSequence == j.nextSequence
            && |b.events| <= |j.events| && next.events == j.events[|b.events|..]
  {
  }

  lemma AckedEvents(w: World, next: Journal, b: Batch)
    requires QueueSound(w) && ActiveSound(w.j) && w.j.activeBatch == Some(b) && Acknowledge(w.j, b) == Ok(next)
    ensures var after := w.(j := next); QueueSound(after) && Acked(after) == Acked(w) + |b.events|
  {
    hide CapacityKept, SumBytes, Acknowledge;
    AcknowledgeKeepsCapacity(w.limits, w.j, b);
    AcknowledgeChanges(w.j, b);
    var after := w.(j := next);
    var n := |b.events|;
    assert EventsOf(after.j.events) == EventsOf(w.j.events)[n..];
    assert w.history[Acked(after)..] == w.history[Acked(w)..][n..];
  }

  lemma TakeAckKeeps(w: World, b: Batch)
    requires Sound(w)
    ensures Sound(Step(w, TakeAck(b)))
    ensures b in w.acks && w.j.activeBatch == Some(b) ==> Acked(Step(w, TakeAck(b))) == Acked(w) + |b.events|
  {
    hide CapacityKept, SumBytes, Acknowledge;
    if b in w.acks && w.j.activeBatch == Some(b) {
      AcknowledgeNeverFails(w, b);
      var next := Acknowledge(w.j, b).value;
      var after := Step(w, TakeAck(b));
      assert after == w.(j := next);
      AckedEvents(w, next, b);
      AcknowledgeChanges(w.j, b);
      AckKeepsMessages(w, next, b);
    }
  }

  lemma AckKeepsMessages(w: World, next: Journal, b: Batch)
    requires Sound(w) && b in w.acks && w.j.activeBatch == Some(b) && Acknowledge(w.j, b) == Ok(next)
    ensures SentSound(w.(j := next)) && StoredSound(w.(j := next), Acked(w) + |b.events|)
  {
    hide CapacityKept, SumBytes, Acknowledge;
    AcknowledgeChanges(w.j, b);
    if !b.complete {
      ActiveIsSlice(w, b);
      assert StoredSound(w, Acked(w) + |b.events|);
    }
  }

  /** Completion requests, scope changes and stopped bindings touch no queue, batch or row. */
  lemma ControlKeeps(w: World, after: World)
    requires Sound(w)
    requires after.r == w.r.(live := after.r.live) && (after.r.live ==> w.r.live)
    requires after.j == w.j.(completionRequested := after.j.completionRequested, scope := after.j.scope)
    requires w.j.completionRequested ==> after.j.completionRequested
    requires after == w.(r := after.r, j := after.j)
    ensures Sound(after)
  {
    hide CapacityKept, SliceOf, Holds;
    CapacityOfQueue(w.limits, w.j, after.j);
  }

  lemma StepKeeps(w: World, a: Action)
    requires Sound(w)
    ensures Sound(Step(w, a))
  {
    hide Sound, Ingest, Append, NextBatch, Acknowledge;
    match a
    case AppendEvent(content, bytes, terminal) => AppendKeeps(w, content, bytes, terminal);
    case CreateBatch => CreateBatchKeeps(w);
    case Send => SendKeeps(w);
    case Deliver(b) => DeliverKeeps(w, b);
    case TakeAck(b) => TakeAckKeeps(w, b);
    case RequestCompletion => ControlKeeps(w, Step(w, a));
    case ChangeScope(_) => ControlKeeps(w, Step(w, a));
    case StopBinding => ControlKeeps(w, Step(w, a));
  }

  lemma StartSound(limits: Limits, scope: Id)
    requires limits.Valid()
    ensures Sound(Start(limits, scope))
  {
  }

  lemma {:induction false} RunSound(limits: Limits, scope: Id, actions: seq<Action>)
    requires limits.Valid()
    ensures Sound(Run(Start(limits, scope), actions))
  {
    if actions == [] {
      StartSound(limits, scope);
    } else {
      hide Sound, Step, Start;
      RunSound(limits, scope, actions[..|actions| - 1]);
      StepKeeps(Run(Start(limits, scope), actions[..|actions| - 1]), actions[|actions| - 1]);
    }
  }

  // Main results

  /**
   * On every run the receiver holds exactly the first m events appended, in their order and without a gap, where
   * m is the number acknowledged or that plus the batch in flight.  The completion marker is stored only after
   * every event appended, and nothing is appended after it.
   */
  lemma ReliableDelivery(limits: Limits, scope: Id, actions: seq<Action>)
    requires limits.Valid()
    ensures var w := Run(Start(limits, scope), actions);
            && (Holds(w.r.rows, w.history, Acked(w)) || Holds(w.r.rows, w.history, Acked(w) + ActiveCount(w.j)))
            && (Batch([], true, 0) in w.r.batches ==>
                  Holds(w.r.rows, w.history, |w.history|) && w.j.completionRequested && w.j.events == [])
            && (w.j.completionAcknowledged ==> Batch([], true, 0) in w.r.batches)
  {
    hide Run, Step;
    RunSound(limits, scope, actions);
    CompletionIsLast(Run(Start(limits, scope), actions));
  }

  lemma CompletionIsLast(w: World)
    requires Sound(w)
    ensures Batch([], true, 0) in w.r.batches ==>
            Holds(w.r.rows, w.history, |w.history|) && w.j.completionRequested && w.j.events == []
  {
    hide CapacityKept, SumBytes, Holds;
    if Batch([], true, 0) in w.r.batches {
      assert Batch([], true, 0) in w.sent;
      assert ActiveCount(w.j) == 0;
    }
  }

  /** No delivery order makes the route report a conflict: a late or repeated batch changes no stored event. */
  lemma LateDeliveryIsHarmless(limits: Limits, scope: Id, actions: seq<Action>, b: Batch)
    requires limits.Valid()
    requires var w := Run(Start(limits, scope), actions); b in w.sent && w.j.activeBatch != Some(b)
    ensures var w := Run(Start(limits, scope), actions);
            && !Conflicts(w.r.rows, b.events)
            && Step(w, Deliver(b)).r.rows == w.r.rows
            && Step(w, Deliver(b)).j == w.j
  {
    hide Run, Step;
    RunSound(limits, scope, actions);
    LateDelivery(Run(Start(limits, scope), actions), b);
  }

  lemma LateDelivery(w: World, b: Batch)
    requires Sound(w) && b in w.sent && w.j.activeBatch != Some(b)
    ensures !Conflicts(w.r.rows, b.events)
    ensures Step(w, Deliver(b)).r.rows == w.r.rows && Step(w, Deliver(b)).j == w.j
  {
    hide CapacityKept, SumBytes, Holds, Conflicts, Inserted, ActiveSound;
    var m := if StoredSound(w, Acked(w)) then Acked(w) else Acked(w) + ActiveCount(w.j);
    IngestHolds(w, m, b);
    assert Reached(m, b) == m;
    HoldsUnique(w.r.rows, Inserted(w.r.rows, b.events), w.history, m);
  }

  lemma HoldsUnique(rows: map<nat, Event>, other: map<nat, Event>, history: seq<Event>, m: int)
    requires Holds(rows, history, m) && Holds(other, history, m)
    ensures rows == other
  {
  }

  /**
   * While the binding is live, one exchange that is not lost stores the batch in flight and acknowledges exactly
   * its events, whatever was delivered before.
   */
  lemma DeliveryProgress(limits: Limits, scope: Id, actions: seq<Action>, b: Batch)
    requires limits.Valid()
    requires var w := Run(Start(limits, scope), actions); w.j.activeBatch == Some(b) && w.r.live
    ensures var w := Run(Start(limits, scope), actions);
            var after := Step(Step(Step(w, Send), Deliver(b)), TakeAck(b));
            && Holds(after.r.rows, after.history, Acked(after))
            && Acked(after) == Acked(w) + |b.events|
            && after.j.activeBatch.None?
            && (b.complete ==> after.j.completionAcknowledged)
  {
    hide Run, Step;
    RunSound(limits, scope, actions);
    Exchange(Run(Start(limits, scope), actions), b);
  }

  lemma LiveDelivery(w: World, b: Batch)
    requires Sound(w) && w.r.live && b in w.sent
    ensures b in Step(w, Deliver(b)).acks && Step(w, Deliver(b)).j == w.j
  {
    hide CapacityKept, SumBytes, Holds, Conflicts, Inserted, ActiveSound;
    var m := if StoredSound(w, Acked(w)) then Acked(w) else Acked(w) + ActiveCount(w.j);
    IngestHolds(w, m, b);
  }

  lemma TakenAck(w: World, b: Batch)
    requires Sound(w) && b in w.acks && w.j.activeBatch == Some(b)
    ensures var after := Step(w, TakeAck(b));
            after.j.activeBatch.None? && (b.complete ==> after.j.completionAcknowledged)
  {
    hide CapacityKept, SumBytes, Acknowledge, StoredSound, SentSound;
    AcknowledgeNeverFails(w, b);
    AcknowledgeChanges(w.j, b);
  }

  lemma Exchange(w: World, b: Batch)
    requires Sound(w) && w.j.activeBatch == Some(b) && w.r.live
    ensures var after := Step(Step(Step(w, Send), Deliver(b)), TakeAck(b));
            && Holds(after.r.rows, after.history, Acked(after))
            && Acked(after) == Acked(w) + |b.events|
            && after.j.activeBatch.None?
            && (b.complete ==> after.j.completionAcknowledged)
  {
    hide QueueSound, SentSound, ActiveSound, Ingest, Acknowledge, Holds;
    SendKeeps(w);
    var sent := Step(w, Send);
    DeliverKeeps(sent, b);
    LiveDelivery(sent, b);
    var stored := Step(sent, Deliver(b));
    TakeAckKeeps(stored, b);
    TakenAck(stored, b);
  }

  /** A terminal event within the reserve is accepted in every reachable state before completion is requested. */
  lemma TerminalAlwaysFits(limits: Limits, scope: Id, actions: seq<Action>, content: Id, bytes: nat)
    requires limits.Valid() && bytes <= limits.maxBatchBytes
    requires var j := Run(Start(limits, scope), actions).j;
             && !j.completionRequested && CountOf(j.events, true) + 1 <= limits.reserveEvents
             && BytesOf(j.events, true) + bytes <= limits.reserveBytes
    ensures Append(limits, Run(Start(limits, scope), actions).j, content, bytes, true).Ok?
  {
    RunSound(limits, scope, actions);
    RunKeepsLimits(Start(limits, scope), actions);
    TerminalReserve(limits, Run(Start(limits, scope), actions).j, content, bytes);
  }

  lemma {:induction false} RunKeepsLimits(w: World, actions: seq<Action>)
    ensures Run(w, actions).limits == w.limits
  {
    if actions != [] {
      RunKeepsLimits(w, actions[..|actions| - 1]);
    }
  }

  // When an event is accepted

  lemma StepRequests(w: World, a: Action)
    ensures Step(w, a).j.completionRequested <==> w.j.completionRequested || a == RequestCompletion
    ensures Step(w, a).limits == w.limits
  {
    hide NextBatch, Ingest, MustDrain;
  }

  lemma {:induction false} RequestedIff(limits: Limits, scope: Id, actions: seq<Action>)
    ensures Run(Start(limits, scope), actions).j.completionRequested <==> RequestCompletion in actions
    ensures Run(Start(limits, scope), actions).limits == limits
  {
    if actions != [] {
      hide Step;
      var n := |actions| - 1;
      RequestedIff(limits, scope, actions[..n]);
      StepRequests(Run(Start(limits, scope), actions[..n]), actions[n]);
      assert actions == actions[..n] + [actions[n]];
    }
  }

  /** Completion was not requested, the event fits a batch, and the queue has room for it beside the reserve. */
  ghost predicate HasRoom(limits: Limits, actions: seq<Action>, queue: seq<Stored>, bytes: nat, terminal: bool) {
    && RequestCompletion !in actions && bytes <= limits.maxBatchBytes
    && |queue| < limits.maxQueuedEvents - (if terminal then 0 else limits.reserveEvents)
    && SumBytes(queue) + bytes <= limits.maxQueuedBytes - (if terminal then 0 else limits.reserveBytes)
  }

  /**
   * At any point of any run an event is appended exactly when there is room for it: it then takes the number behind
   * every event appended before it and goes to the end of the queue. Otherwise nothing changes.
   */
  lemma AppendedExactly(limits: Limits, scope: Id, actions: seq<Action>, content: Id, bytes: nat, terminal: bool)
    requires limits.Valid()
    ensures var w := Run(Start(limits, scope), actions);
            var after := Run(Start(limits, scope), actions + [AppendEvent(content, bytes, terminal)]);
            if HasRoom(limits, actions, w.j.events, bytes, terminal)
            then var event := Event(|w.history| + 1, content);
                 && after.history == w.history + [event]
                 && after.j.events == w.j.events + [Stored(event, bytes, terminal)]
                 && after == w.(history := after.history, j := w.j.(events := after.j.events,
                              queuedBytes := SumBytes(after.j.events), nextSequence := |after.history| + 1))
            else after == w
  {
    hide Run, Start;
    var w := Run(Start(limits, scope), actions);
    RunSound(limits, scope, actions);
    RequestedIff(limits, scope, actions);
    RunOnce(Start(limits, scope), actions, AppendEvent(content, bytes, terminal));
    AppendDoes(w, content, bytes, terminal);
  }

  lemma RunOnce(w: World, actions: seq<Action>, a: Action)
    ensures Run(w, actions + [a]) == Step(Run(w, actions), a)
  {
    hide Step;
    assert (actions + [a])[..|actions|] == actions;
  }

  lemma AppendDoes(w: World, content: Id, bytes: nat, terminal: bool)
    requires Sound(w)
    ensures var after := Step(w, AppendEvent(content, bytes, terminal));
            var event := Event(|w.history| + 1, content);
            var events := w.j.events + [Stored(event, bytes, terminal)];
            after == if !w.j.completionRequested && HasRoom(w.limits, [], w.j.events, bytes, terminal)
                     then w.(history := w.history + [event], j := w.j.(events := events,
                            queuedBytes := SumBytes(events), nextSequence := |w.history| + 2))
                     else w
  {
    var event := Event(|w.history| + 1, content);
    var events := w.j.events + [Stored(event, bytes, terminal)];
    assert events[..|events| - 1] == w.j.events;
    hide ActiveSound, SentSound, StoredSound;
  }

  // The rest of the journal's life

  /** The scope the journal was last given before its completion was requested. */
  function LastScope(scope: Id, actions: seq<Action>): Id {
    if actions == [] then scope
    else
      var n := |actions| - 1;
      if actions[n].ChangeScope? && RequestCompletion !in actions[..n] then actions[n].scope
      else LastScope(scope, actions[..n])
  }

  lemma StepScope(w: World, a: Action)
    requires w.j.completionAcknowledged ==> w.j.completionRequested
    ensures Step(w, a).j.scope == if a.ChangeScope? && !w.j.completionRequested then a.scope else w.j.scope
  {
    hide NextBatch, Ingest, MustDrain;
  }

  lemma AcknowledgedWasRequested(w: World)
    requires Sound(w)
    ensures w.j.completionAcknowledged ==> w.j.completionRequested
  {
    hide CapacityKept, SumBytes, Holds;
    if w.j.completionAcknowledged {
      assert Batch([], true, 0) in w.sent;
    }
  }

  /** On every run the journal carries the scope it was last given while open. */
  lemma {:induction false} ScopeIsLast(limits: Limits, scope: Id, actions: seq<Action>)
    requires limits.Valid()
    ensures Run(Start(limits, scope), actions).j.scope == LastScope(scope, actions)
  {
    if actions != [] {
      hide Step, Sound;
      var n := |actions| - 1;
      var w := Run(Start(limits, scope), actions[..n]);
      ScopeIsLast(limits, scope, actions[..n]);
      RequestedIff(limits, scope, actions[..n]);
      RunSound(limits, scope, actions[..n]);
      AcknowledgedWasRequested(w);
      StepScope(w, actions[n]);
    }
  }

  /**
   * At any point of any run a batch is put in flight exactly when none is and either events wait or completion was
   * requested and not acknowledged: then the longest front of the queue that fits, or the completion marker.
   */
  lemma BatchedExactly(limits: Limits, scope: Id, actions: seq<Action>)
    requires limits.Valid()
    ensures var w := Run(Start(limits, scope), actions);
            var after := Run(Start(limits, scope), actions + [CreateBatch]);
            && after == w.(j := w.j.(activeBatch := after.j.activeBatch))
            && (w.j.activeBatch.Some? ==> after == w)
            && (w.j.activeBatch.None? ==>
                  if w.j.events != [] then after.j.activeBatch == Some(NextBatch(limits, w.j))
                  else after.j.activeBatch == if RequestCompletion in actions && !w.j.completionAcknowledged
                                              then Some(Batch([], true, 0)) else None)
  {
    hide Run, Start;
    RequestedIff(limits, scope, actions);
    RunOnce(Start(limits, scope), actions, CreateBatch);
  }

  /** A batch that was sent is acknowledged while the binding is live, and afterwards if it was stored before. */
  lemma AcknowledgedExactly(limits: Limits, scope: Id, actions: seq<Action>, b: Batch)
    requires limits.Valid() && b in Run(Start(limits, scope), actions).sent
    ensures var w := Run(Start(limits, scope), actions);
            var after := Run(Start(limits, scope), actions + [Deliver(b)]);
            && (b in after.acks <==> b in w.acks || w.r.live || b in w.r.batches)
            && (b in after.r.batches <==> w.r.live || b in w.r.batches)
  {
    hide Run, Start;
    var w := Run(Start(limits, scope), actions);
    RunSound(limits, scope, actions);
    RunOnce(Start(limits, scope), actions, Deliver(b));
    SentIsSound(w, b);
  }

  lemma SentIsSound(w: World, b: Batch)
    requires Sound(w) && b in w.sent
    ensures !Conflicts(w.r.rows, b.events)
  {
    hide CapacityKept, SumBytes;
    var m := if StoredSound(w, Acked(w)) then Acked(w) else Acked(w) + ActiveCount(w.j);
    hide StoredSound;
    if !b.complete {
      HoldsOf(w, m);
      NoConflict(w, m, b);
    }
  }

  lemma HoldsOf(w: World, m: int)
    requires StoredSound(w, m)
    ensures Holds(w.r.rows, w.history, m)
  {
    hide Holds;
  }
}
