/**
 * Optimistic transactions over a shared durable log. Any number of callers load the log, plan
 * events from it and compare-and-append them; replies get lost and callers crash.
 */
module Runtime {
  import opened Common
  import opened Kernel
  import opened KernelLog

  const MAX_BATCH_EVENTS := 64

  datatype Planned = Planned(idempotencyKey: Id, draft: Draft)

  datatype Head = Head(sequence: nat, hash: Hash)

  function HeadOf(log: Log): Head {
    Head(|log.events|, HeadHash(log.events))
  }

  function PlannedDrafts(plan: seq<Planned>): (r: seq<Draft>)
    ensures |r| == |plan|
    ensures forall i :: 0 <= i < |r| ==> r[i] == plan[i].draft
  {
    seq(|plan|, i requires 0 <= i < |plan| => plan[i].draft)
  }

  // The durable store

  datatype Row = Row(idempotencyKey: Id, event: Event)

  datatype Store = Store(conversationId: Id, rows: seq<Row>)

  datatype StoreError =
    | HeadConflict
    | IdempotencyConflict
    | IdentityConflict
    | MixedReplay
    | ReplayInvalid
    | ChainInvalid

  function EventsOf(rows: seq<Row>): (r: seq<Event>)
    ensures |r| == |rows|
    ensures forall i :: 0 <= i < |r| ==> r[i] == rows[i].event
  {
    seq(|rows|, i requires 0 <= i < |rows| => rows[i].event)
  }

  function LogOf(store: Store): Log {
    Log(store.conversationId, EventsOf(store.rows))
  }

  /** The rows a plan becomes on top of a head: each event names and hashes its predecessor. */
  function Chain(conversationId: Id, sequence: nat, previous: Hash, plan: seq<Planned>): (r: seq<Row>)
    ensures |r| == |plan|
    decreases |plan|
  {
    if plan == [] then []
    else
      var event := MakeEvent(conversationId, sequence + 1, previous, plan[0].draft);
      [Row(plan[0].idempotencyKey, event)] + Chain(conversationId, sequence + 1, event.hash, plan[1..])
  }

  predicate HasKey(rows: seq<Row>, key: Id) {
    exists i :: 0 <= i < |rows| && rows[i].idempotencyKey == key
  }

  predicate HasEventId(rows: seq<Row>, eventId: Id) {
    exists i :: 0 <= i < |rows| && rows[i].event.draft.eventId == eventId
  }

  /** How many rows of a batch are already stored, or the first row that collides with a stored one. */
  function Scan(rows: seq<Row>, batch: seq<Row>): Result<nat, StoreError>
    decreases |batch|
  {
    if batch == [] then Ok(0)
    else
      var item := batch[0];
      if HasKey(rows, item.idempotencyKey) then
        if item !in rows then Err(IdempotencyConflict)
        else match Scan(rows, batch[1..])
          case Err(e) => Err(e)
          case Ok(n) => Ok(n + 1)
      else if HasEventId(rows, item.event.draft.eventId) then Err(IdentityConflict)
      else Scan(rows, batch[1..])
  }

  /** An exact retry is the stored range that follows the head the caller names. */
  predicate StoredRange(rows: seq<Row>, head: Head, batch: seq<Row>) {
    && head.sequence + |batch| <= |rows|
    && rows[head.sequence..head.sequence + |batch|] == batch
    && HeadHash(EventsOf(rows[..head.sequence])) == head.hash
  }

  datatype Appended = Appended(store: Store, persisted: seq<Row>)

  /** One locked transaction: exact-retry replay, then compare heads, then append. */
  function StoreAppend(store: Store, head: Head, plan: seq<Planned>): Result<Appended, StoreError> {
    var batch := Chain(store.conversationId, head.sequence, head.hash, plan);
    match Scan(store.rows, batch)
    case Err(e) => Err(e)
    case Ok(existing) =>
      if existing > 0 then
        if existing != |batch| then Err(MixedReplay)
        else if StoredRange(store.rows, head, batch) then Ok(Appended(store, batch))
        else Err(ReplayInvalid)
      else if HeadHash(EventsOf(store.rows)) != head.hash then Err(HeadConflict)
      else if head.sequence != |store.rows| then Err(ChainInvalid)
      else Ok(Appended(store.(rows := store.rows + batch), batch))
  }

  lemma {:induction false} ChainSnoc(conversationId: Id, sequence: nat, previous: Hash, plan: seq<Planned>,
                                     last: Planned)
    ensures var before := Chain(conversationId, sequence, previous, plan);
            var rolling := if before == [] then previous else before[|before| - 1].event.hash;
            Chain(conversationId, sequence, previous, plan + [last]) ==
            before + [Row(last.idempotencyKey, MakeEvent(conversationId, sequence + |plan| + 1, rolling, last.draft))]
    decreases |plan|
  {
    if plan == [] {
      assert plan + [last] == [last];
      var event := MakeEvent(conversationId, sequence + 1, previous, last.draft);
      assert Chain(conversationId, sequence + 1, event.hash, [last][1..]) == [];
    } else {
      var event := MakeEvent(conversationId, sequence + 1, previous, plan[0].draft);
      assert (plan + [last])[1..] == plan[1..] + [last];
      ChainSnoc(conversationId, sequence + 1, event.hash, plan[1..], last);
    }
  }

  /** The event table of one conversation. */
  class EventStore {
    const conversationId: Id
    var rows: seq<Row>

    function Value(): Store
      reads this
    {
      Store(conversationId, rows)
    }

    constructor (conversationId: Id)
      ensures Value() == Store(conversationId, [])
    {
      this.conversationId := conversationId;
      rows := [];
    }

    /** Hashes the batch event by event, each on the rolling hash of the one before. */
    method BuildBatch(head: Head, plan: seq<Planned>) returns (batch: seq<Row>)
      ensures batch == Chain(conversationId, head.sequence, head.hash, plan)
    {
      var rollingHash := head.hash;
      batch := [];
      for i := 0 to |plan|
        invariant batch == Chain(conversationId, head.sequence, head.hash, plan[..i])
        invariant rollingHash == if batch == [] then head.hash else batch[|batch| - 1].event.hash
      {
        ChainSnoc(conversationId, head.sequence, head.hash, plan[..i], plan[i]);
        assert plan[..i + 1] == plan[..i] + [plan[i]];
        var event := MakeEvent(conversationId, head.sequence + i + 1, rollingHash, plan[i].draft);
        batch := batch + [Row(plan[i].idempotencyKey, event)];
        rollingHash := event.hash;
      }
      assert plan[..|plan|] == plan;
    }

    method CountExisting(batch: seq<Row>) returns (r: Result<nat, StoreError>)
      ensures r == Scan(rows, batch)
    {
      var existing, i := 0, 0;
      while i < |batch|
        invariant 0 <= i <= |batch|
        invariant Scan(rows, batch) == match Scan(rows, batch[i..]) case Err(e) => Err(e) case Ok(n) => Ok(existing + n)
      {
        assert batch[i..][1..] == batch[i + 1..];
        if HasKey(rows, batch[i].idempotencyKey) {
          if batch[i] !in rows { return Err(IdempotencyConflict); }
          existing := existing + 1;
        } else if HasEventId(rows, batch[i].event.draft.eventId) {
          return Err(IdentityConflict);
        }
        i := i + 1;
      }
      r := Ok(existing);
    }

    method Append(head: Head, plan: seq<Planned>) returns (r: Result<seq<Row>, StoreError>)
      modifies this
      ensures match StoreAppend(old(Value()), head, plan)
              case Ok(done) => r == Ok(done.persisted) && Value() == done.store
              case Err(e) => r == Err(e) && Value() == old(Value())
    {
      hide Chain, Scan;
      var batch := BuildBatch(head, plan);
      var existing := CountExisting(batch);
      if existing.Err? { return Err(existing.error); }
      if existing.value > 0 {
        if existing.value != |batch| { return Err(MixedReplay); }
        if !StoredRange(rows, head, batch) { return Err(ReplayInvalid); }
        return Ok(batch);
      }
      if HeadHash(EventsOf(rows)) != head.hash { return Err(HeadConflict); }
      if head.sequence != |rows| { return Err(ChainInvalid); }
      rows := rows + batch;
      r := Ok(batch);
    }
  }

  // Normalizing a plan

  datatype RuntimeError =
    | PlanSize
    | DuplicateKeys
    | DuplicateIds
    | PlanConflict(eventId: Id)

  datatype Normalized = Normalized(newEvents: seq<Planned>, replayed: seq<Event>)

  predicate UniqueKeys(plan: seq<Planned>) {
    forall i, j :: 0 <= i < j < |plan| ==> plan[i].idempotencyKey != plan[j].idempotencyKey
  }

  predicate UniqueIds(plan: seq<Planned>) {
    forall i, j :: 0 <= i < j < |plan| ==> plan[i].draft.eventId != plan[j].draft.eventId
  }

  /** Splits a plan into events the log lacks and events it already holds unchanged. */
  function Partition(events: seq<Event>, plan: seq<Planned>): Result<Normalized, RuntimeError> {
    if plan == [] then Ok(Normalized([], []))
    else match Partition(events, plan[..|plan| - 1])
      case Err(e) => Err(e)
      case Ok(n) =>
        var last := plan[|plan| - 1];
        match Lookup(events, last.draft.eventId)
        case None => Ok(n.(newEvents := n.newEvents + [last]))
        case Some(existing) =>
          if existing.draft != last.draft then Err(PlanConflict(last.draft.eventId))
          else Ok(n.(replayed := n.replayed + [existing]))
  }

  function Normalize(events: seq<Event>, plan: seq<Planned>): Result<Normalized, RuntimeError> {
    if |plan| < 1 || |plan| > MAX_BATCH_EVENTS then Err(PlanSize)
    else if !UniqueKeys(plan) then Err(DuplicateKeys)
    else if !UniqueIds(plan) then Err(DuplicateIds)
    else Partition(events, plan)
  }

  lemma {:induction false} PartitionStops(events: seq<Event>, plan: seq<Planned>, k: nat)
    requires k <= |plan| && Partition(events, plan[..k]).Err?
    ensures Partition(events, plan) == Partition(events, plan[..k])
  {
    if k == |plan| {
      assert plan[..k] == plan;
    } else {
      assert plan[..|plan| - 1][..k] == plan[..k];
      PartitionStops(events, plan[..|plan| - 1], k);
    }
  }

  method NormalizePlan(log: Log, plan: seq<Planned>) returns (r: Result<Normalized, RuntimeError>)
    ensures r == Normalize(log.events, plan)
  {
    if |plan| < 1 || |plan| > MAX_BATCH_EVENTS { return Err(PlanSize); }
    if !UniqueKeys(plan) { return Err(DuplicateKeys); }
    if !UniqueIds(plan) { return Err(DuplicateIds); }
    var newEvents: seq<Planned>, replayed: seq<Event> := [], [];
    for i := 0 to |plan|
      invariant Partition(log.events, plan[..i]) == Ok(Normalized(newEvents, replayed))
    {
      assert plan[..i + 1][..i] == plan[..i];
      var existing := Lookup(log.events, plan[i].draft.eventId);
      if existing.None? {
        newEvents := newEvents + [plan[i]];
      } else if existing.value.draft != plan[i].draft {
        PartitionStops(log.events, plan, i + 1);
        return Err(PlanConflict(plan[i].draft.eventId));
      } else {
        replayed := replayed + [existing.value];
      }
    }
    assert plan[..|plan|] == plan;
    r := Ok(Normalized(newEvents, replayed));
  }

  /** What a normalized plan is: new ids absent from the log, the rest present, each planned event one of the two. */
  ghost predicate Partitioned(events: seq<Event>, plan: seq<Planned>, n: Normalized) {
    && |n.newEvents| <= |plan|
    && (forall p :: p in n.newEvents ==> p in plan)
    && (forall i :: 0 <= i < |n.newEvents| ==> Lookup(events, n.newEvents[i].draft.eventId).None?)
    && (forall i :: 0 <= i < |plan| ==> plan[i] in n.newEvents || Holds(events, plan[i].draft))
    && (UniqueIds(plan) ==> UniqueIds(n.newEvents))
    && (UniqueKeys(plan) ==> UniqueKeys(n.newEvents))
  }

  lemma NewIdsUnique(shorter: seq<Planned>, last: Planned, added: seq<Planned>)
    requires UniqueIds(shorter + [last]) && forall p <- added :: p in shorter
    ensures UniqueIds(shorter) && (UniqueIds(added) ==> UniqueIds(added + [last]))
  {
    var plan := shorter + [last];
    assert forall i :: 0 <= i < |shorter| ==> plan[i] == shorter[i];
    forall i | 0 <= i < |added| ensures added[i].draft.eventId != last.draft.eventId {
      assert added[i] in added;
      var k :| 0 <= k < |shorter| && shorter[k] == added[i];
      assert plan[k] == added[i] && plan[|shorter|] == last;
    }
  }

  lemma NewKeysUnique(shorter: seq<Planned>, last: Planned, added: seq<Planned>)
    requires UniqueKeys(shorter + [last]) && forall p <- added :: p in shorter
    ensures UniqueKeys(shorter) && (UniqueKeys(added) ==> UniqueKeys(added + [last]))
  {
    var plan := shorter + [last];
    assert forall i :: 0 <= i < |shorter| ==> plan[i] == shorter[i];
    forall i | 0 <= i < |added| ensures added[i].idempotencyKey != last.idempotencyKey {
      assert added[i] in added;
      var k :| 0 <= k < |shorter| && shorter[k] == added[i];
      assert plan[k] == added[i] && plan[|shorter|] == last;
    }
  }

  lemma PartitionOneMore(events: seq<Event>, shorter: seq<Planned>, last: Planned, m: Normalized)
    requires Partitioned(events, shorter, m)
    requires Lookup(events, last.draft.eventId).None?
    ensures Partitioned(events, shorter + [last], m.(newEvents := m.newEvents + [last]))
  {
    hide UniqueIds, UniqueKeys, Lookup;
    var plan, n := shorter + [last], m.(newEvents := m.newEvents + [last]);
    assert last in n.newEvents && last in plan;
    forall i | 0 <= i < |plan| ensures plan[i] in n.newEvents || Holds(events, plan[i].draft) {
      assert i < |shorter| ==> plan[i] == shorter[i];
    }
    if UniqueIds(plan) {
      NewIdsUnique(shorter, last, m.newEvents);
    }
    if UniqueKeys(plan) {
      NewKeysUnique(shorter, last, m.newEvents);
    }
  }

  lemma PartitionSame(events: seq<Event>, shorter: seq<Planned>, last: Planned, m: Normalized, n: Normalized)
    requires Partitioned(events, shorter, m) && n.newEvents == m.newEvents && Holds(events, last.draft)
    ensures Partitioned(events, shorter + [last], n)
  {
    var plan := shorter + [last];
    assert forall i :: 0 <= i < |shorter| ==> plan[i] == shorter[i];
    forall p | p in n.newEvents ensures p in plan {
    }
    assert UniqueIds(plan) ==> UniqueIds(shorter);
    assert UniqueKeys(plan) ==> UniqueKeys(shorter);
  }

  lemma {:induction false} PartitionMeaning(events: seq<Event>, plan: seq<Planned>)
    requires Partition(events, plan).Ok?
    ensures Partitioned(events, plan, Partition(events, plan).value)
  {
    hide Partitioned;
    if plan == [] {
      EmptyPartition(events);
    } else {
      var shorter, last := plan[..|plan| - 1], plan[|plan| - 1];
      assert plan == shorter + [last];
      PartitionMeaning(events, shorter);
      var m, n := Partition(events, shorter).value, Partition(events, plan).value;
      var found := Lookup(events, last.draft.eventId);
      if found.None? {
        PartitionOneMore(events, shorter, last, m);
      } else {
        var i :| 0 <= i < |events| && events[i] == found.value;
        assert events[i].draft == last.draft;
        PartitionSame(events, shorter, last, m, n);
      }
    }
  }

  lemma EmptyPartition(events: seq<Event>)
    ensures Partitioned(events, [], Normalized([], []))
  {
  }

  // Chains

  lemma StillAbsent(events: seq<Event>, event: Event, plan: seq<Planned>)
    requires plan != [] && UniqueIds(plan) && event.draft == plan[0].draft
    requires forall i :: 0 <= i < |plan| ==> Lookup(events, plan[i].draft.eventId).None?
    ensures UniqueIds(plan[1..])
    ensures forall i :: 0 <= i < |plan[1..]| ==> Lookup(events + [event], plan[1..][i].draft.eventId).None?
  {
    forall i | 0 <= i < |plan[1..]| ensures Lookup(events + [event], plan[1..][i].draft.eventId).None? {
      assert plan[1..][i] == plan[i + 1];
      assert Lookup(events, plan[i + 1].draft.eventId).None?;
    }
  }

  lemma AppendOneNew(bytes: Event -> nat, at: Folded, draft: Draft)
    requires Lookup(at.log.events, draft.eventId).None? && AppendOne(bytes, at, draft).Ok?
    ensures var event := MakeEvent(at.log.conversationId, |at.log.events| + 1, HeadHash(at.log.events), draft);
            AppendOne(bytes, at, draft).value.log == Log(at.log.conversationId, at.log.events + [event])
  {
    hide Apply, WellFormedPayload, Lookup;
  }

  lemma ChainCons(conversationId: Id, sequence: nat, previous: Hash, plan: seq<Planned>)
    requires plan != []
    ensures var event := MakeEvent(conversationId, sequence + 1, previous, plan[0].draft);
            EventsOf(Chain(conversationId, sequence, previous, plan)) ==
            [event] + EventsOf(Chain(conversationId, sequence + 1, event.hash, plan[1..]))
  {
  }

  /** Appending distinct new drafts yields exactly the chained rows. */
  lemma {:induction false} AppendIsChain(bytes: Event -> nat, at: Folded, plan: seq<Planned>)
    requires UniqueIds(plan)
    requires forall i :: 0 <= i < |plan| ==> Lookup(at.log.events, plan[i].draft.eventId).None?
    requires AppendAll(bytes, at, PlannedDrafts(plan)).Ok?
    ensures var end := AppendAll(bytes, at, PlannedDrafts(plan)).value;
            && end.log.conversationId == at.log.conversationId
            && end.log.events == at.log.events +
                 EventsOf(Chain(at.log.conversationId, |at.log.events|, HeadHash(at.log.events), plan))
    decreases |plan|
  {
    hide AppendOne, Lookup, Chain, UniqueIds;
    if plan != [] {
      var drafts := PlannedDrafts(plan);
      var next := AppendOne(bytes, at, drafts[0]).value;
      assert drafts[1..] == PlannedDrafts(plan[1..]);
      var event := MakeEvent(at.log.conversationId, |at.log.events| + 1, HeadHash(at.log.events), plan[0].draft);
      AppendOneNew(bytes, at, drafts[0]);
      StillAbsent(at.log.events, event, plan);
      AppendIsChain(bytes, next, plan[1..]);
      ChainCons(at.log.conversationId, |at.log.events|, HeadHash(at.log.events), plan);
      assert HeadHash(next.log.events) == event.hash;
      var tail := EventsOf(Chain(at.log.conversationId, |at.log.events| + 1, event.hash, plan[1..]));
      assert at.log.events + [event] + tail == at.log.events + ([event] + tail);
    } else {
      assert EventsOf(Chain(at.log.conversationId, |at.log.events|, HeadHash(at.log.events), plan)) == [];
    }
  }

  lemma {:induction false} ChainDrafts(conversationId: Id, sequence: nat, previous: Hash, plan: seq<Planned>, i: nat)
    requires i < |plan|
    ensures var row := Chain(conversationId, sequence, previous, plan)[i];
            row.idempotencyKey == plan[i].idempotencyKey && row.event.draft == plan[i].draft
    decreases |plan|
  {
    if i > 0 {
      var event := MakeEvent(conversationId, sequence + 1, previous, plan[0].draft);
      ChainDrafts(conversationId, sequence + 1, event.hash, plan[1..], i - 1);
      assert plan[1..][i - 1] == plan[i];
    }
  }

  // Callers and the world they share

  /** One `transact` call: where it is in its loop. */
  datatype Caller =
    | Loading(attempt: nat)
    | Planning(attempt: nat, log: Log)
    | Appending(attempt: nat, log: Log, plan: seq<Planned>, newEvents: seq<Planned>, candidate: Log)
    | Succeeded(plan: seq<Planned>, log: Log)
    | Gone

  datatype World = World(store: Store, callers: map<nat, Caller>)

  datatype Action =
    | Begin(id: nat)
    | Load(id: nat)
    | Plan(id: nat, plan: seq<Planned>)
    | Commit(id: nat, replyArrives: bool)
    | Crash(id: nat)

  /** What the caller does with its plan before it touches the store. */
  function PlanStep(bytes: Event -> nat, attempt: nat, log: Log, plan: seq<Planned>): Caller {
    match Normalize(log.events, plan)
    case Err(_) => Gone
    case Ok(n) =>
      if n.newEvents == [] then Succeeded(plan, log)
      else match Append(bytes, log, PlannedDrafts(n.newEvents))
        case Err(_) => Gone
        case Ok(candidate) => Appending(attempt, log, plan, n.newEvents, candidate)
  }

  /** How the caller goes on after the store answered. */
  function AfterReply(maximumAttempts: nat, c: Caller, reply: Result<Appended, StoreError>): Caller
    requires c.Appending?
  {
    match reply
    case Err(HeadConflict) => if c.attempt >= maximumAttempts then Gone else Loading(c.attempt + 1)
    case Err(_) => Gone
    case Ok(done) =>
      var known := if |c.log.events| <= |c.candidate.events| then |c.log.events| else 0;
      if EventsOf(done.persisted) != c.candidate.events[known..] then Gone
      else Succeeded(c.plan, c.candidate)
  }

  function Step(bytes: Event -> nat, maximumAttempts: nat, w: World, a: Action): World {
    if a.Begin? then if a.id in w.callers then w else w.(callers := w.callers[a.id := Loading(1)])
    else if a.id !in w.callers then w
    else
      var c := w.callers[a.id];
      match a
      case Load(_) =>
        if !c.Loading? then w
        else w.(callers := w.callers[a.id :=
               if FoldLog(LogOf(w.store)).Err? then Gone else Planning(c.attempt, LogOf(w.store))])
      case Plan(_, plan) =>
        if !c.Planning? then w
        else w.(callers := w.callers[a.id := PlanStep(bytes, c.attempt, c.log, plan)])
      case Commit(_, replyArrives) =>
        if !c.Appending? then w
        else
          var reply := StoreAppend(w.store, HeadOf(c.log), c.newEvents);
          World(if reply.Ok? then reply.value.store else w.store,
                w.callers[a.id := if replyArrives then AfterReply(maximumAttempts, c, reply) else Gone])
      case Crash(_) => w.(callers := w.callers[a.id := Gone])
      case Begin(_) => w
  }

  function Run(bytes: Event -> nat, maximumAttempts: nat, w: World, actions: seq<Action>): World {
    if actions == [] then w
    else Step(bytes, maximumAttempts, Run(bytes, maximumAttempts, w, actions[..|actions| - 1]), actions[|actions| - 1])
  }

  // Invariants

  ghost predicate StoreSound(store: Store) {
    && ValidLog(LogOf(store)) && Fold(DraftsOf(EventsOf(store.rows))).Ok?
    && forall i, j :: 0 <= i < j < |store.rows| ==> store.rows[i].idempotencyKey != store.rows[j].idempotencyKey
  }

  /** A log this caller loaded is a valid prefix of the durable one. */
  ghost predicate Snapshot(store: Store, log: Log) {
    log.conversationId == store.conversationId && log.events <= EventsOf(store.rows) && FoldLog(log).Ok?
  }

  ghost predicate AllHeld(events: seq<Event>, plan: seq<Planned>) {
    forall i :: 0 <= i < |plan| ==> Holds(events, plan[i].draft)
  }

  ghost predicate CallerSound(bytes: Event -> nat, store: Store, c: Caller) {
    match c
    case Planning(_, log) => Snapshot(store, log)
    case Appending(_, log, plan, newEvents, candidate) =>
      && Snapshot(store, log)
      && 1 <= |newEvents| && UniqueIds(newEvents) && UniqueKeys(newEvents)
      && (forall i :: 0 <= i < |newEvents| ==> Lookup(log.events, newEvents[i].draft.eventId).None?)
      && (forall i :: 0 <= i < |plan| ==> plan[i] in newEvents || Holds(log.events, plan[i].draft))
      && Append(bytes, log, PlannedDrafts(newEvents)) == Ok(candidate)
    case Succeeded(plan, log) => log.events <= EventsOf(store.rows) && AllHeld(EventsOf(store.rows), plan)
    case _ => true
  }

  ghost predicate WorldSound(bytes: Event -> nat, w: World) {
    StoreSound(w.store) && forall id :: id in w.callers ==> CallerSound(bytes, w.store, w.callers[id])
  }

  ghost predicate Grows(a: Store, b: Store) {
    a.conversationId == b.conversationId && a.rows <= b.rows
  }

  lemma GrowsEvents(a: Store, b: Store)
    requires Grows(a, b)
    ensures EventsOf(a.rows) <= EventsOf(b.rows)
  {
  }

  lemma AllHeldExtends(a: seq<Event>, b: seq<Event>, plan: seq<Planned>)
    requires a <= b && AllHeld(a, plan)
    ensures AllHeld(b, plan)
  {
    forall i | 0 <= i < |plan| ensures Holds(b, plan[i].draft) {
      HoldsExtends(a, b, plan[i].draft);
    }
  }

  lemma CallerSoundGrows(bytes: Event -> nat, a: Store, b: Store, c: Caller)
    requires Grows(a, b) && CallerSound(bytes, a, c)
    ensures CallerSound(bytes, b, c)
  {
    hide Append, Lookup, UniqueIds, UniqueKeys, FoldLog, AllHeld;
    GrowsEvents(a, b);
    if c.Succeeded? {
      AllHeldExtends(EventsOf(a.rows), EventsOf(b.rows), c.plan);
    }
  }

  lemma PlanKeeps(bytes: Event -> nat, store: Store, attempt: nat, log: Log, plan: seq<Planned>)
    requires Snapshot(store, log)
    ensures CallerSound(bytes, store, PlanStep(bytes, attempt, log, plan))
  {
    hide Append, FoldLog, Partition, Lookup, UniqueIds, UniqueKeys;
    if Normalize(log.events, plan).Ok? {
      var n := Normalize(log.events, plan).value;
      PartitionMeaning(log.events, plan);
      if n.newEvents == [] {
        forall i | 0 <= i < |plan| ensures Holds(log.events, plan[i].draft) {
        }
        AllHeldExtends(log.events, EventsOf(store.rows), plan);
      }
    }
  }

  /** The candidate a caller validated is its snapshot followed by the chained batch. */
  lemma CandidateShape(bytes: Event -> nat, store: Store, c: Caller)
    requires c.Appending? && CallerSound(bytes, store, c)
    ensures c.candidate == Log(store.conversationId, c.log.events +
              EventsOf(Chain(store.conversationId, |c.log.events|, HeadHash(c.log.events), c.newEvents)))
    ensures ValidLog(c.log) && c.log.events <= EventsOf(store.rows)
  {
    hide AppendAll, Lookup, Chain, WellFormedPayload, Fold;
    StartSound(c.log);
    AppendIsChain(bytes, Folded(c.log, FoldLog(c.log).value), c.newEvents);
  }

  /** The rows appended on a matching head are the candidate the caller had validated. */
  lemma CandidateOnHead(bytes: Event -> nat, store: Store, c: Caller)
    requires StoreSound(store) && c.Appending? && CallerSound(bytes, store, c)
    requires HeadHash(EventsOf(store.rows)) == HeadHash(c.log.events)
    ensures c.log.events == EventsOf(store.rows)
    ensures var batch := Chain(store.conversationId, |store.rows|, HeadHash(EventsOf(store.rows)), c.newEvents);
            c.candidate == Log(store.conversationId, EventsOf(store.rows + batch))
  {
    hide CallerSound, Chain, ValidLog, Fold;
    CandidateShape(bytes, store, c);
    HeadDeterminesLog(c.log, LogOf(store));
    var batch := Chain(store.conversationId, |store.rows|, HeadHash(EventsOf(store.rows)), c.newEvents);
    assert EventsOf(store.rows + batch) == EventsOf(store.rows) + EventsOf(batch);
  }

  lemma {:induction false} ScanFresh(rows: seq<Row>, batch: seq<Row>, i: nat)
    requires Scan(rows, batch) == Ok(0) && i < |batch|
    ensures !HasKey(rows, batch[i].idempotencyKey)
    decreases |batch|
  {
    if i > 0 {
      ScanFresh(rows, batch[1..], i - 1);
      assert batch[1..][i - 1] == batch[i];
    }
  }

  lemma AppendedKeys(rows: seq<Row>, batch: seq<Row>, plan: seq<Planned>)
    requires Scan(rows, batch) == Ok(0) && |batch| == |plan| && UniqueKeys(plan)
    requires forall i :: 0 <= i < |plan| ==> batch[i].idempotencyKey == plan[i].idempotencyKey
    requires forall i, j :: 0 <= i < j < |rows| ==> rows[i].idempotencyKey != rows[j].idempotencyKey
    ensures forall i, j :: 0 <= i < j < |rows + batch| ==>
              (rows + batch)[i].idempotencyKey != (rows + batch)[j].idempotencyKey
  {
    hide Scan;
    var all := rows + batch;
    forall i, j | 0 <= i < j < |all| ensures all[i].idempotencyKey != all[j].idempotencyKey {
      if j >= |rows| {
        var k := j - |rows|;
        assert all[j] == batch[k];
        ScanFresh(rows, batch, k);
        if i >= |rows| {
          assert all[i] == batch[i - |rows|];
        } else {
          assert all[i] == rows[i];
        }
      }
    }
  }

  lemma ChainKeys(conversationId: Id, sequence: nat, previous: Hash, plan: seq<Planned>)
    ensures var batch := Chain(conversationId, sequence, previous, plan);
            && |batch| == |plan|
            && forall i :: 0 <= i < |batch| ==> batch[i].idempotencyKey == plan[i].idempotencyKey
  {
    var batch := Chain(conversationId, sequence, previous, plan);
    forall i | 0 <= i < |batch| ensures batch[i].idempotencyKey == plan[i].idempotencyKey {
      ChainDrafts(conversationId, sequence, previous, plan, i);
    }
  }

  /** A transaction that changes the store adds a chained batch of new keys at the head it names. */
  lemma AppendShape(store: Store, head: Head, plan: seq<Planned>)
    requires StoreAppend(store, head, plan).Ok? && StoreAppend(store, head, plan).value.store != store
    ensures var batch := Chain(store.conversationId, |store.rows|, HeadHash(EventsOf(store.rows)), plan);
            && HeadHash(EventsOf(store.rows)) == head.hash && Scan(store.rows, batch) == Ok(0)
            && StoreAppend(store, head, plan).value.store == store.(rows := store.rows + batch)
  {
    hide Chain, Scan;
  }

  lemma CandidateSound(bytes: Event -> nat, store: Store, c: Caller)
    requires c.Appending? && CallerSound(bytes, store, c)
    ensures ValidLog(c.candidate) && Fold(DraftsOf(c.candidate.events)).Ok? && UniqueKeys(c.newEvents)
  {
    hide Chain, Fold, ValidLog, Append, WellFormedPayload;
    AppendSound(bytes, c.log, PlannedDrafts(c.newEvents));
  }

  /** A store transaction keeps the store sound and only adds rows. */
  lemma StoreStep(bytes: Event -> nat, store: Store, c: Caller)
    requires StoreSound(store) && c.Appending? && CallerSound(bytes, store, c)
    ensures var reply := StoreAppend(store, HeadOf(c.log), c.newEvents);
            reply.Ok? ==> StoreSound(reply.value.store) && Grows(store, reply.value.store)
  {
    hide Chain, Scan, Fold, ValidLog, StoreAppend, CallerSound, UniqueKeys;
    var reply := StoreAppend(store, HeadOf(c.log), c.newEvents);
    if reply.Ok? && reply.value.store != store {
      AppendShape(store, HeadOf(c.log), c.newEvents);
      CandidateOnHead(bytes, store, c);
      CandidateSound(bytes, store, c);
      ChainKeys(store.conversationId, |store.rows|, HeadHash(EventsOf(store.rows)), c.newEvents);
      var batch := Chain(store.conversationId, |store.rows|, HeadHash(EventsOf(store.rows)), c.newEvents);
      AppendedKeys(store.rows, batch, c.newEvents);
    }
  }

  /** After a successful append the log holds the chained batch at the named head. */
  lemma PersistedRange(store: Store, head: Head, plan: seq<Planned>)
    requires StoreAppend(store, head, plan).Ok?
    ensures var done := StoreAppend(store, head, plan).value;
            && done.persisted == Chain(store.conversationId, head.sequence, head.hash, plan)
            && head.sequence + |done.persisted| <= |done.store.rows|
            && done.store.rows[head.sequence..head.sequence + |done.persisted|] == done.persisted
            && HeadHash(EventsOf(done.store.rows[..head.sequence])) == head.hash
  {
    hide Scan, Chain;
    var done := StoreAppend(store, head, plan).value;
    if done.store != store {
      assert done.store.rows[..head.sequence] == store.rows;
    }
  }

  /** So a successful reply means the whole candidate is a prefix of the durable log. */
  lemma ReplyMeansCandidate(bytes: Event -> nat, store: Store, c: Caller)
    requires StoreSound(store) && c.Appending? && CallerSound(bytes, store, c)
    requires StoreAppend(store, HeadOf(c.log), c.newEvents).Ok?
    ensures var done := StoreAppend(store, HeadOf(c.log), c.newEvents).value;
            && |c.log.events| <= |c.candidate.events|
            && c.candidate.events <= EventsOf(done.store.rows)
            && EventsOf(done.persisted) == c.candidate.events[|c.log.events|..]
  {
    hide StoreAppend, CallerSound, StoreSound, Chain, ValidLog, HeadHash, EventsOf;
    var done := StoreAppend(store, HeadOf(c.log), c.newEvents).value;
    PersistedRange(store, HeadOf(c.log), c.newEvents);
    StoreStep(bytes, store, c);
    CandidateShape(bytes, store, c);
    GrowsEvents(store, done.store);
    PrefixOfPrefix(c.log.events, EventsOf(store.rows), EventsOf(done.store.rows));
    RangeIsPrefix(done.store.rows, c.log.events, done.persisted, c.candidate.events);
  }

  lemma PrefixOfPrefix(a: seq<Event>, b: seq<Event>, c: seq<Event>)
    requires a <= b && b <= c
    ensures a <= c
  {
  }

  lemma RangeIsPrefix(rows: seq<Row>, log: seq<Event>, batch: seq<Row>, candidate: seq<Event>)
    requires log <= EventsOf(rows) && |log| + |batch| <= |rows| && rows[|log|..|log| + |batch|] == batch
    requires candidate == log + EventsOf(batch)
    ensures candidate <= EventsOf(rows)
    ensures EventsOf(batch) == candidate[|log|..]
  {
    forall k | 0 <= k < |batch| ensures EventsOf(rows)[|log| + k] == EventsOf(batch)[k] {
      assert rows[|log| + k] == rows[|log|..|log| + |batch|][k];
    }
  }

  lemma CommitKeepsCaller(bytes: Event -> nat, maximumAttempts: nat, store: Store, c: Caller)
    requires StoreSound(store) && c.Appending? && CallerSound(bytes, store, c)
    ensures var reply := StoreAppend(store, HeadOf(c.log), c.newEvents);
            var after := if reply.Ok? then reply.value.store else store;
            CallerSound(bytes, after, AfterReply(maximumAttempts, c, reply))
  {
    var reply := StoreAppend(store, HeadOf(c.log), c.newEvents);
    hide StoreAppend, StoreSound, Append, ValidLog, Fold, Lookup;
    if reply.Ok? {
      ReplyMeansCandidate(bytes, store, c);
      AppendSound(bytes, c.log, PlannedDrafts(c.newEvents));
      PlanInCandidate(c.log.events, c.candidate.events, c.plan, c.newEvents);
      AllHeldExtends(c.candidate.events, EventsOf(reply.value.store.rows), c.plan);
    }
  }

  lemma PlanInCandidate(log: seq<Event>, candidate: seq<Event>, plan: seq<Planned>, newEvents: seq<Planned>)
    requires log <= candidate
    requires forall i :: 0 <= i < |plan| ==> plan[i] in newEvents || Holds(log, plan[i].draft)
    requires forall k :: 0 <= k < |newEvents| ==> Holds(candidate, PlannedDrafts(newEvents)[k])
    ensures AllHeld(candidate, plan)
  {
    forall i | 0 <= i < |plan| ensures Holds(candidate, plan[i].draft) {
      if plan[i] in newEvents {
        var k :| 0 <= k < |newEvents| && newEvents[k] == plan[i];
        assert Holds(candidate, PlannedDrafts(newEvents)[k]);
      } else {
        HoldsExtends(log, candidate, plan[i].draft);
      }
    }
  }

  /** The check that the store returned the expected batch never fails. */
  lemma StoreNeverReturnsADifferentBatch(bytes: Event -> nat, maximumAttempts: nat, store: Store, c: Caller)
    requires StoreSound(store) && c.Appending? && CallerSound(bytes, store, c)
    requires StoreAppend(store, HeadOf(c.log), c.newEvents).Ok?
    ensures AfterReply(maximumAttempts, c, StoreAppend(store, HeadOf(c.log), c.newEvents)) ==
            Succeeded(c.plan, c.candidate)
  {
    hide StoreAppend, CallerSound, StoreSound;
    ReplyMeansCandidate(bytes, store, c);
  }

  lemma OthersKeep(bytes: Event -> nat, w: World, store: Store, id: nat, c: Caller)
    requires WorldSound(bytes, w) && Grows(w.store, store) && StoreSound(store) && CallerSound(bytes, store, c)
    ensures WorldSound(bytes, World(store, w.callers[id := c]))
  {
    hide StoreSound, CallerSound;
    forall other | other in w.callers ensures CallerSound(bytes, store, w.callers[other]) {
      CallerSoundGrows(bytes, w.store, store, w.callers[other]);
    }
  }

  lemma StepKeeps(bytes: Event -> nat, maximumAttempts: nat, w: World, a: Action)
    requires WorldSound(bytes, w)
    ensures WorldSound(bytes, Step(bytes, maximumAttempts, w, a))
    ensures Grows(w.store, Step(bytes, maximumAttempts, w, a).store)
  {
    var id := a.id;
    if a.Begin? {
      OthersKeep(bytes, w, w.store, id, Loading(1));
    } else if id in w.callers {
      var c := w.callers[id];
      assert CallerSound(bytes, w.store, c);
      match a
      case Load(_) =>
        OthersKeep(bytes, w, w.store, id, Gone);
        if FoldLog(LogOf(w.store)).Ok? {
          OthersKeep(bytes, w, w.store, id, Planning(if c.Loading? then c.attempt else 0, LogOf(w.store)));
        }
      case Plan(_, plan) =>
        if c.Planning? {
          PlanKeeps(bytes, w.store, c.attempt, c.log, plan);
          OthersKeep(bytes, w, w.store, id, PlanStep(bytes, c.attempt, c.log, plan));
        }
      case Commit(_, replyArrives) =>
        if c.Appending? {
          var reply := StoreAppend(w.store, HeadOf(c.log), c.newEvents);
          StoreStep(bytes, w.store, c);
          CommitKeepsCaller(bytes, maximumAttempts, w.store, c);
          hide StoreAppend, StoreSound, CallerSound, AfterReply;
          var after := if reply.Ok? then reply.value.store else w.store;
          GoneSound(bytes, after);
          OthersKeep(bytes, w, after, id, if replyArrives then AfterReply(maximumAttempts, c, reply) else Gone);
        }
      case Crash(_) => OthersKeep(bytes, w, w.store, id, Gone);
      case Begin(_) =>
    }
  }

  lemma GoneSound(bytes: Event -> nat, store: Store)
    ensures CallerSound(bytes, store, Gone)
  {
  }

  /** Every run of any number of callers keeps the store and every caller sound. */
  lemma {:induction false} TransactionsSafe(bytes: Event -> nat, maximumAttempts: nat, w: World, actions: seq<Action>)
    requires WorldSound(bytes, w)
    ensures WorldSound(bytes, Run(bytes, maximumAttempts, w, actions))
    ensures Grows(w.store, Run(bytes, maximumAttempts, w, actions).store)
  {
    hide Step, WorldSound;
    if actions != [] {
      TransactionsSafe(bytes, maximumAttempts, w, actions[..|actions| - 1]);
      StepKeeps(bytes, maximumAttempts, Run(bytes, maximumAttempts, w, actions[..|actions| - 1]),
                actions[|actions| - 1]);
    }
  }

  // Where stored rows come from

  /** A caller that holds a snapshot takes the plan it is given; to any other caller the action does nothing. */
  predicate TakesPlan(w: World, a: Action) {
    a.Plan? && a.id in w.callers && w.callers[a.id].Planning?
  }

  function PlannedNow(w: World, a: Action): set<Planned> {
    if TakesPlan(w, a) then set p | p in a.plan else {}
  }

  /** Everything any caller planned during a run. */
  function PlannedIn(bytes: Event -> nat, maximumAttempts: nat, w: World, actions: seq<Action>): set<Planned> {
    if actions == [] then {}
    else
      var before := actions[..|actions| - 1];
      PlannedIn(bytes, maximumAttempts, w, before) +
      PlannedNow(Run(bytes, maximumAttempts, w, before), actions[|actions| - 1])
  }

  /** Every stored row, and every row a caller is about to store, was planned. */
  ghost predicate Provenance(w: World, planned: set<Planned>) {
    && (forall row <- w.store.rows :: Planned(row.idempotencyKey, row.event.draft) in planned)
    && (forall id <- w.callers :: w.callers[id].Appending? ==> forall p <- w.callers[id].newEvents :: p in planned)
  }

  lemma ChainPlanned(conversationId: Id, sequence: nat, previous: Hash, plan: seq<Planned>, row: Row)
    requires row in Chain(conversationId, sequence, previous, plan)
    ensures Planned(row.idempotencyKey, row.event.draft) in plan
  {
    var i :| 0 <= i < |plan| && Chain(conversationId, sequence, previous, plan)[i] == row;
    ChainDrafts(conversationId, sequence, previous, plan, i);
    assert plan[i] == Planned(row.idempotencyKey, row.event.draft);
  }

  /** A store transaction adds only rows of the batch it was given. */
  lemma StoredRows(store: Store, head: Head, plan: seq<Planned>, row: Row)
    requires StoreAppend(store, head, plan).Ok? && row in StoreAppend(store, head, plan).value.store.rows
    ensures row in store.rows || Planned(row.idempotencyKey, row.event.draft) in plan
  {
    hide Scan, Chain;
    if row !in store.rows {
      ChainPlanned(store.conversationId, head.sequence, head.hash, plan, row);
    }
  }

  lemma PlanStepPlanned(bytes: Event -> nat, attempt: nat, log: Log, plan: seq<Planned>)
    ensures var c := PlanStep(bytes, attempt, log, plan); c.Appending? ==> forall p <- c.newEvents :: p in plan
  {
    hide Append;
    if Partition(log.events, plan).Ok? {
      PartitionMeaning(log.events, plan);
    }
  }

  lemma AfterReplyNotAppending(maximumAttempts: nat, c: Caller, reply: Result<Appended, StoreError>)
    requires c.Appending?
    ensures !AfterReply(maximumAttempts, c, reply).Appending?
  {
  }

  lemma StepProvenance(bytes: Event -> nat, maximumAttempts: nat, w: World, a: Action, planned: set<Planned>)
    requires Provenance(w, planned)
    ensures Provenance(Step(bytes, maximumAttempts, w, a), planned + PlannedNow(w, a))
  {
    hide StoreAppend, AfterReply, PlanStep, FoldLog;
    if a.id in w.callers {
      var c := w.callers[a.id];
      if a.Plan? && c.Planning? {
        PlanStepPlanned(bytes, c.attempt, c.log, a.plan);
      } else if a.Commit? && c.Appending? {
        var reply := StoreAppend(w.store, HeadOf(c.log), c.newEvents);
        AfterReplyNotAppending(maximumAttempts, c, reply);
        if reply.Ok? {
          forall row <- reply.value.store.rows ensures Planned(row.idempotencyKey, row.event.draft) in planned {
            StoredRows(w.store, HeadOf(c.log), c.newEvents, row);
          }
        }
      }
    }
  }

  lemma {:induction false} RowsPlanned(bytes: Event -> nat, maximumAttempts: nat, w: World, actions: seq<Action>)
    requires Provenance(w, {})
    ensures Provenance(Run(bytes, maximumAttempts, w, actions), PlannedIn(bytes, maximumAttempts, w, actions))
  {
    if actions != [] {
      hide Step, Provenance, PlannedNow;
      var n := |actions| - 1;
      RowsPlanned(bytes, maximumAttempts, w, actions[..n]);
      StepProvenance(bytes, maximumAttempts, Run(bytes, maximumAttempts, w, actions[..n]), actions[n],
                     PlannedIn(bytes, maximumAttempts, w, actions[..n]));
    }
  }

  /** At action `j` of the run a caller took a plan with this event in it. */
  predicate PlannedAt(bytes: Event -> nat, maximumAttempts: nat, w: World, actions: seq<Action>, j: nat, p: Planned)
    requires j < |actions|
  {
    TakesPlan(Run(bytes, maximumAttempts, w, actions[..j]), actions[j]) && p in actions[j].plan
  }

  lemma {:induction false} PlannedByAction(bytes: Event -> nat, maximumAttempts: nat, w: World, actions: seq<Action>,
                                           p: Planned)
    requires p in PlannedIn(bytes, maximumAttempts, w, actions)
    ensures exists j :: 0 <= j < |actions| && PlannedAt(bytes, maximumAttempts, w, actions, j, p)
  {
    hide Run, TakesPlan;
    var n := |actions| - 1;
    var before := actions[..n];
    if p in PlannedIn(bytes, maximumAttempts, w, before) {
      PlannedByAction(bytes, maximumAttempts, w, before, p);
      var j :| 0 <= j < n && PlannedAt(bytes, maximumAttempts, w, before, j, p);
      assert before[..j] == actions[..j];
      assert PlannedAt(bytes, maximumAttempts, w, actions, j, p);
    } else {
      assert PlannedAt(bytes, maximumAttempts, w, actions, n, p);
    }
  }

  /**
   * From an empty conversation, at the end of any run: the durable log validates and folds; no event
   * id or idempotency key occurs twice; every planned event of every successful call is in the
   * log with its planned content, and no other content under its id; and every row, also one whose
   * caller crashed or never saw the reply, carries a key and a content of a plan that some caller took.
   */
  lemma DurableLog(bytes: Event -> nat, maximumAttempts: nat, conversationId: Id, actions: seq<Action>, id: nat, i: nat)
    ensures var end := Run(bytes, maximumAttempts, World(Store(conversationId, []), map[]), actions);
            && StoreSound(end.store)
            && (id in end.callers && end.callers[id].Succeeded? && i < |end.callers[id].plan| ==>
                var draft := end.callers[id].plan[i].draft;
                Holds(EventsOf(end.store.rows), draft) &&
                forall k :: 0 <= k < |end.store.rows| && end.store.rows[k].event.draft.eventId == draft.eventId ==>
                  end.store.rows[k].event.draft == draft)
            && (forall row <- end.store.rows ::
                  exists j :: 0 <= j < |actions| &&
                    PlannedAt(bytes, maximumAttempts, World(Store(conversationId, []), map[]), actions, j,
                              Planned(row.idempotencyKey, row.event.draft)))
  {
    PlannedRows(bytes, maximumAttempts, conversationId, actions);
    hide PlannedAt;
    var start := World(Store(conversationId, []), map[]);
    EmptyStoreSound(conversationId);
    TransactionsSafe(bytes, maximumAttempts, start, actions);
    var end := Run(bytes, maximumAttempts, start, actions);
    hide Run, Fold, WellFormedPayload;
    if id in end.callers && end.callers[id].Succeeded? && i < |end.callers[id].plan| {
      assert CallerSound(bytes, end.store, end.callers[id]);
      var draft := end.callers[id].plan[i].draft;
      assert Holds(EventsOf(end.store.rows), draft);
      forall k | 0 <= k < |end.store.rows| && end.store.rows[k].event.draft.eventId == draft.eventId
        ensures end.store.rows[k].event.draft == draft
      {
        var events := EventsOf(end.store.rows);
        assert events[k].draft == end.store.rows[k].event.draft;
        assert Holds(events, events[k].draft);
        BoundDraft(LogOf(end.store), events[k].draft, draft);
      }
    }
  }

  lemma PlannedRows(bytes: Event -> nat, maximumAttempts: nat, conversationId: Id, actions: seq<Action>)
    ensures var start := World(Store(conversationId, []), map[]);
            forall row <- Run(bytes, maximumAttempts, start, actions).store.rows ::
              exists j :: 0 <= j < |actions| && PlannedAt(bytes, maximumAttempts, start, actions, j,
                                                          Planned(row.idempotencyKey, row.event.draft))
  {
    var start := World(Store(conversationId, []), map[]);
    RowsPlanned(bytes, maximumAttempts, start, actions);
    hide Run, PlannedAt, PlannedIn;
    forall row <- Run(bytes, maximumAttempts, start, actions).store.rows
      ensures exists j :: 0 <= j < |actions| && PlannedAt(bytes, maximumAttempts, start, actions, j,
                                                          Planned(row.idempotencyKey, row.event.draft))
    {
      PlannedByAction(bytes, maximumAttempts, start, actions, Planned(row.idempotencyKey, row.event.draft));
    }
  }

  lemma EmptyStoreSound(conversationId: Id)
    ensures StoreSound(Store(conversationId, []))
  {
    assert DraftsOf(EventsOf([])) == [];
  }
}
