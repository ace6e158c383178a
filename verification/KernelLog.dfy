/** The hash-chained event log: validation, and appending drafts one by one or in batches. */
module KernelLog {
  import opened Common
  import opened Kernel
  import opened KernelRuns

  const MAX_EVENT_BYTES := 32_768

  datatype Log = Log(conversationId: Id, events: seq<Event>)

  function HeadHash(events: seq<Event>): Hash {
    if events == [] then Genesis else events[|events| - 1].hash
  }

  function MakeEvent(conversationId: Id, sequence: nat, previous: Hash, draft: Draft): Event {
    Event(conversationId, sequence, previous, draft, Digest(conversationId, sequence, previous, draft))
  }

  function DraftsOf(events: seq<Event>): (r: seq<Draft>)
    ensures |r| == |events|
    ensures forall i :: 0 <= i < |r| ==> r[i] == events[i].draft
  {
    seq(|events|, i requires 0 <= i < |events| => events[i].draft)
  }

  function IdsBefore(events: seq<Event>, i: nat): set<Id>
    requires i <= |events|
  {
    set j | 0 <= j < i :: events[j].draft.eventId
  }

  /** The first check that event `i` fails, in the order of the validation loop. */
  function EventFault(log: Log, i: nat): Option<KernelError>
    requires i < |log.events|
  {
    var event := log.events[i];
    var eventId := event.draft.eventId;
    if !WellFormedPayload(event.draft.payload) then Some(InvalidSchema)
    else if event.conversationId != log.conversationId then Some(ForeignEvent(eventId))
    else if event.sequence != i + 1 then Some(SequenceGap(eventId))
    else if event.previousHash != HeadHash(log.events[..i]) then Some(BrokenChain(eventId))
    else if eventId in IdsBefore(log.events, i) then Some(DuplicateEvent(eventId))
    else if event.hash != Digest(event.conversationId, event.sequence, event.previousHash, event.draft) then
      Some(InvalidHash(eventId))
    else None
  }

  function LogFault(log: Log, i: nat): Option<KernelError>
    requires i <= |log.events|
    decreases |log.events| - i
  {
    if i == |log.events| then None
    else match EventFault(log, i)
      case Some(e) => Some(e)
      case None => LogFault(log, i + 1)
  }

  /** What a valid log is: every event is the one its draft and its predecessors determine. */
  ghost predicate ValidLog(log: Log) {
    && (forall i :: 0 <= i < |log.events| ==>
        && log.events[i] == MakeEvent(log.conversationId, i + 1, HeadHash(log.events[..i]), log.events[i].draft)
        && WellFormedPayload(log.events[i].draft.payload))
    && (forall i, j :: 0 <= i < j < |log.events| ==> log.events[i].draft.eventId != log.events[j].draft.eventId)
  }

  lemma EventFaultMeaning(log: Log, i: nat)
    requires i < |log.events|
    ensures EventFault(log, i).None? <==>
      && log.events[i] == MakeEvent(log.conversationId, i + 1, HeadHash(log.events[..i]), log.events[i].draft)
      && WellFormedPayload(log.events[i].draft.payload)
      && forall j :: 0 <= j < i ==> log.events[j].draft.eventId != log.events[i].draft.eventId
  {
    hide WellFormedPayload;
    var id := log.events[i].draft.eventId;
    assert id in IdsBefore(log.events, i) <==> exists j :: 0 <= j < i && log.events[j].draft.eventId == id;
  }

  lemma {:induction false} LogFaultMeaning(log: Log, i: nat)
    requires i <= |log.events|
    ensures LogFault(log, i).None? <==> forall k :: i <= k < |log.events| ==> EventFault(log, k).None?
    decreases |log.events| - i
  {
    hide EventFault;
    if i < |log.events| {
      LogFaultMeaning(log, i + 1);
    }
  }

  /** Validation accepts exactly the valid logs. */
  lemma ValidationExact(log: Log)
    ensures LogFault(log, 0).None? <==> ValidLog(log)
  {
    hide EventFault, WellFormedPayload, MakeEvent;
    LogFaultMeaning(log, 0);
    forall i | 0 <= i < |log.events|
      ensures EventFault(log, i).None? <==>
        && log.events[i] == MakeEvent(log.conversationId, i + 1, HeadHash(log.events[..i]), log.events[i].draft)
        && WellFormedPayload(log.events[i].draft.payload)
        && forall j :: 0 <= j < i ==> log.events[j].draft.eventId != log.events[i].draft.eventId
    {
      EventFaultMeaning(log, i);
    }
  }

  lemma LastEvent(log: Log)
    requires ValidLog(log) && log.events != []
    ensures var n := |log.events|;
            log.events[n - 1] ==
            MakeEvent(log.conversationId, n, HeadHash(log.events[..n - 1]), log.events[n - 1].draft)
  {
    hide WellFormedPayload;
  }

  /** Two valid logs with the same head hash are the same log: the chain fixes every event. */
  lemma {:induction false} HeadDeterminesLog(a: Log, b: Log)
    requires ValidLog(a) && ValidLog(b)
    requires HeadHash(a.events) == HeadHash(b.events)
    ensures a.events == b.events
    decreases |a.events|
  {
    hide ValidLog;
    if b.events != [] {
      LastEvent(b);
    }
    if a.events != [] {
      LastEvent(a);
      var n := |a.events|;
      assert |b.events| == n;
      ValidPrefix(a, n - 1);
      ValidPrefix(b, n - 1);
      HeadDeterminesLog(a.(events := a.events[..n - 1]), b.(events := b.events[..n - 1]));
      assert a.events == a.events[..n - 1] + [a.events[n - 1]];
      assert b.events == b.events[..n - 1] + [b.events[n - 1]];
    }
  }

  lemma ValidPrefix(log: Log, k: nat)
    requires ValidLog(log) && k <= |log.events|
    ensures ValidLog(log.(events := log.events[..k]))
  {
    hide WellFormedPayload;
    forall i | 0 <= i < k ensures log.events[..k][..i] == log.events[..i] {
    }
  }

  // Appending

  /** The log entry with a given event id, as the `eventsById` map finds it. */
  function Lookup(events: seq<Event>, eventId: Id): (r: Option<Event>)
    ensures r.None? <==> forall i :: 0 <= i < |events| ==> events[i].draft.eventId != eventId
    ensures r.Some? ==> r.value in events && r.value.draft.eventId == eventId
  {
    if events == [] then None
    else if events[|events| - 1].draft.eventId == eventId then Some(events[|events| - 1])
    else Lookup(events[..|events| - 1], eventId)
  }

  datatype Folded = Folded(log: Log, state: State)

  /** `bytes` is the serialized length of an event. */
  function AppendOne(bytes: Event -> nat, at: Folded, draft: Draft): Result<Folded, KernelError> {
    var events := at.log.events;
    if !WellFormedPayload(draft.payload) then Err(InvalidSchema)
    else match Lookup(events, draft.eventId)
      case Some(existing) => if existing.draft == draft then Ok(at) else Err(ConflictingReplay(draft.eventId))
      case None =>
        var event := MakeEvent(at.log.conversationId, |events| + 1, HeadHash(events), draft);
        if bytes(event) > MAX_EVENT_BYTES then Err(EventTooLarge(draft.eventId))
        else match Apply(at.state, |events| + 1, draft)
          case Err(e) => Err(e)
          case Ok(state) => Ok(Folded(at.log.(events := events + [event]), state))
  }

  function AppendAll(bytes: Event -> nat, at: Folded, drafts: seq<Draft>): Result<Folded, KernelError>
    decreases |drafts|
  {
    if drafts == [] then Ok(at)
    else match AppendOne(bytes, at, drafts[0])
      case Err(e) => Err(e)
      case Ok(next) => AppendAll(bytes, next, drafts[1..])
  }

  /** The first error of validating and folding a log, or the folded state. */
  function FoldLog(log: Log): Result<State, KernelError> {
    match LogFault(log, 0)
    case Some(e) => Err(e)
    case None => Fold(DraftsOf(log.events))
  }

  function Append(bytes: Event -> nat, log: Log, drafts: seq<Draft>): Result<Log, KernelError> {
    match FoldLog(log)
    case Err(e) => Err(e)
    case Ok(state) =>
      match AppendAll(bytes, Folded(log, state), drafts)
      case Err(e) => Err(e)
      case Ok(result) => Ok(result.log)
  }

  /** A log that validates, together with the state it folds to. */
  ghost predicate Sound(at: Folded) {
    ValidLog(at.log) && Fold(DraftsOf(at.log.events)) == Ok(at.state)
  }

  lemma ExtendValid(log: Log, draft: Draft)
    requires ValidLog(log) && WellFormedPayload(draft.payload)
    requires forall i :: 0 <= i < |log.events| ==> log.events[i].draft.eventId != draft.eventId
    ensures var event := MakeEvent(log.conversationId, |log.events| + 1, HeadHash(log.events), draft);
            ValidLog(log.(events := log.events + [event]))
  {
    hide WellFormedPayload;
    var event := MakeEvent(log.conversationId, |log.events| + 1, HeadHash(log.events), draft);
    var longer := log.events + [event];
    forall i | 0 <= i < |longer|
      ensures longer[i] == MakeEvent(log.conversationId, i + 1, HeadHash(longer[..i]), longer[i].draft)
    {
      assert longer[..i] == log.events[..i];
      assert log.events[..|log.events|] == log.events;
    }
  }

  lemma AppendOneSound(bytes: Event -> nat, at: Folded, draft: Draft)
    requires Sound(at) && AppendOne(bytes, at, draft).Ok?
    ensures var next := AppendOne(bytes, at, draft).value;
            && Sound(next) && next.log.conversationId == at.log.conversationId
            && at.log.events <= next.log.events
            && exists i :: 0 <= i < |next.log.events| && next.log.events[i].draft == draft
  {
    hide Apply, WellFormedPayload, ValidLog, Lookup;
    var next := AppendOne(bytes, at, draft).value;
    var events := at.log.events;
    if Lookup(events, draft.eventId).None? {
      ExtendValid(at.log, draft);
      var drafts := DraftsOf(next.log.events);
      assert drafts[..|drafts| - 1] == DraftsOf(events);
      assert next.log.events[|events|].draft == draft;
    }
  }

  lemma {:induction false} AppendAllSound(bytes: Event -> nat, at: Folded, drafts: seq<Draft>)
    requires Sound(at) && AppendAll(bytes, at, drafts).Ok?
    ensures var end := AppendAll(bytes, at, drafts).value;
            && Sound(end) && end.log.conversationId == at.log.conversationId
            && at.log.events <= end.log.events
            && forall k :: 0 <= k < |drafts| ==> Holds(end.log.events, drafts[k])
    decreases |drafts|
  {
    hide AppendOne, Sound;
    if drafts != [] {
      var next := AppendOne(bytes, at, drafts[0]).value;
      AppendOneSound(bytes, at, drafts[0]);
      AppendAllSound(bytes, next, drafts[1..]);
      var end := AppendAll(bytes, at, drafts).value;
      assert Holds(next.log.events, drafts[0]);
      forall k | 0 <= k < |drafts| ensures Holds(end.log.events, drafts[k]) {
        if k == 0 {
          HoldsExtends(next.log.events, end.log.events, drafts[0]);
        } else {
          assert drafts[k] == drafts[1..][k - 1];
        }
      }
    }
  }

  /** The log contains exactly this draft. */
  ghost predicate Holds(events: seq<Event>, draft: Draft) {
    exists i :: 0 <= i < |events| && events[i].draft == draft
  }

  lemma HoldsExtends(a: seq<Event>, b: seq<Event>, draft: Draft)
    requires a <= b && Holds(a, draft)
    ensures Holds(b, draft)
  {
    var i :| 0 <= i < |a| && a[i].draft == draft;
    assert b[i].draft == draft;
  }

  /**
   * A successful append yields a valid log that folds, extends the old one, keeps its
   * conversation, and holds every draft that was handed in.
   */
  lemma AppendSound(bytes: Event -> nat, log: Log, drafts: seq<Draft>)
    requires Append(bytes, log, drafts).Ok?
    ensures var result := Append(bytes, log, drafts).value;
            && ValidLog(log) && ValidLog(result) && Fold(DraftsOf(result.events)).Ok?
            && result.conversationId == log.conversationId && log.events <= result.events
            && forall k :: 0 <= k < |drafts| ==> Holds(result.events, drafts[k])
  {
    hide AppendAll;
    ValidationExact(log);
    AppendAllSound(bytes, Folded(log, FoldLog(log).value), drafts);
  }

  lemma SoundRefolds(at: Folded)
    requires Sound(at)
    ensures FoldLog(at.log) == Ok(at.state)
  {
    ValidationExact(at.log);
  }

  lemma {:induction false} AppendAllConcat(bytes: Event -> nat, at: Folded, xs: seq<Draft>, ys: seq<Draft>)
    ensures AppendAll(bytes, at, xs + ys) ==
            match AppendAll(bytes, at, xs)
            case Err(e) => Err(e)
            case Ok(mid) => AppendAll(bytes, mid, ys)
    decreases |xs|
  {
    hide AppendOne;
    if xs == [] {
      assert xs + ys == ys;
    } else {
      assert (xs + ys)[0] == xs[0] && (xs + ys)[1..] == xs[1..] + ys;
      if AppendOne(bytes, at, xs[0]).Ok? {
        AppendAllConcat(bytes, AppendOne(bytes, at, xs[0]).value, xs[1..], ys);
      }
    }
  }

  /**
   * Appending a batch is appending its parts in turn: the same log, or the same failure,
   * although the second call validates and folds its log from scratch.
   */
  lemma AppendConcat(bytes: Event -> nat, log: Log, xs: seq<Draft>, ys: seq<Draft>)
    ensures Append(bytes, log, xs + ys) ==
            match Append(bytes, log, xs)
            case Err(e) => Err(e)
            case Ok(mid) => Append(bytes, mid, ys)
  {
    hide AppendAll, Sound;
    if FoldLog(log).Ok? {
      var start := Folded(log, FoldLog(log).value);
      StartSound(log);
      AppendAllConcat(bytes, start, xs, ys);
      if AppendAll(bytes, start, xs).Ok? {
        AppendAllSound(bytes, start, xs);
        SoundRefolds(AppendAll(bytes, start, xs).value);
      }
    }
  }

  lemma StartSound(log: Log)
    requires FoldLog(log).Ok?
    ensures Sound(Folded(log, FoldLog(log).value))
  {
    ValidationExact(log);
  }

  lemma {:induction false} ReplayAll(bytes: Event -> nat, at: Folded, drafts: seq<Draft>)
    requires Sound(at) && forall k :: 0 <= k < |drafts| ==> Holds(at.log.events, drafts[k])
    ensures AppendAll(bytes, at, drafts) == Ok(at)
    decreases |drafts|
  {
    hide Apply, WellFormedPayload;
    if drafts != [] {
      assert Holds(at.log.events, drafts[0]);
      var i :| 0 <= i < |at.log.events| && at.log.events[i].draft == drafts[0];
      var found := Lookup(at.log.events, drafts[0].eventId);
      var j :| 0 <= j < |at.log.events| && at.log.events[j] == found.value;
      assert i == j;
      forall k | 0 <= k < |drafts[1..]| ensures Holds(at.log.events, drafts[1..][k]) {
        assert drafts[1..][k] == drafts[k + 1];
      }
      ReplayAll(bytes, at, drafts[1..]);
    }
  }

  /** Re-appending drafts that a valid log already holds returns that very log. */
  lemma ReplayIsIdentity(bytes: Event -> nat, log: Log, drafts: seq<Draft>)
    requires FoldLog(log).Ok? && forall k :: 0 <= k < |drafts| ==> Holds(log.events, drafts[k])
    ensures Append(bytes, log, drafts) == Ok(log)
  {
    hide AppendAll;
    StartSound(log);
    ReplayAll(bytes, Folded(log, FoldLog(log).value), drafts);
  }

  /** So repeating a batch that succeeded changes nothing. */
  lemma AppendIdempotent(bytes: Event -> nat, log: Log, drafts: seq<Draft>)
    requires Append(bytes, log, drafts).Ok?
    ensures var once := Append(bytes, log, drafts).value; Append(bytes, once, drafts) == Ok(once)
  {
    AppendSound(bytes, log, drafts);
    var once := Append(bytes, log, drafts).value;
    hide AppendAll, Append;
    ValidationExact(once);
    ReplayIsIdentity(bytes, once, drafts);
  }

  /** An event id is bound to one draft for good. */
  lemma BoundDraft(log: Log, a: Draft, b: Draft)
    requires ValidLog(log) && Holds(log.events, a) && Holds(log.events, b) && a.eventId == b.eventId
    ensures a == b
  {
    hide WellFormedPayload;
    var i :| 0 <= i < |log.events| && log.events[i].draft == a;
    var j :| 0 <= j < |log.events| && log.events[j].draft == b;
    assert i == j;
  }

  lemma ValidDrafts(log: Log)
    requires ValidLog(log)
    ensures AllWellFormed(DraftsOf(log.events))
  {
    hide WellFormedPayload;
    forall i | 0 <= i < |log.events| ensures WellFormedPayload(DraftsOf(log.events)[i].payload) {
    }
  }
}
