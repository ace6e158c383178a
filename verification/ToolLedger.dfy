/** The provider adapter's ledgers: which responses, items and calls a provider has named, and what became of them. */
module ToolLedger {
  import opened Common

  type Id = nat

  const MAX_TRACKED_IDENTITIES: nat := 10_000
  const MAX_PENDING_CALLS: nat := 128
  const MAX_CALLS_PER_RESPONSE: nat := 64
  const MAX_PENDING_ARGUMENT_BYTES: nat := 0x10_0000
  const MAX_ARGUMENT_BYTES: nat := 0x4_0000
  const MAX_OUTPUT_ITEMS: nat := 256

  /** Declared tools, the byte length of an argument text, and whether it decodes to an object within the limits. */
  datatype Config = Config(declared: set<Id>, bytes: Id -> nat, decodes: Id -> bool)

  // Wire events, after parsing

  datatype Kind = FunctionCall | OtherItem(name: Id) | ForbiddenItem(name: Id)

  datatype ItemStatus = StatusCompleted | StatusOther

  /** `Garbled` stands for an item that is not an object or has an identity, name or type of the wrong shape. */
  datatype Item =
    | Garbled
    | Item(id: Option<Id>, kind: Kind, callId: Option<Id>, name: Option<Id>, args: Option<Id>,
           status: Option<ItemStatus>)

  datatype Status = Completed | Cancelled | Failed | Incomplete | Unknown

  datatype Wire =
    | Malformed
    | SessionUpdated(ack: Id, accepted: bool)
    | ResponseCreated(rid: Id, content: Id)
    | ItemEvent(rid: Id, item: Item, done: bool)
    | ArgumentsDone(rid: Id, itemId: Option<Id>, callId: Id, name: Id, args: Id)
    | ArgumentsCancelled(rid: Id, callId: Id)
    | ResponseCancelled(rid: Id)
    | ResponseDone(rid: Id, status: Status, output: Option<seq<Item>>, content: Id)
    | ResponseOther(response: Option<Id>, itemId: Option<Id>, needsResponse: bool)
    | Truncated(response: Option<Id>, itemId: Option<Id>, content: Id)
    | InputEvent(response: Option<Id>, itemId: Option<Id>, needsSession: bool)

  // Ledgers

  datatype Terminal = CancelledMark | DoneMark(status: Status, output: Option<seq<Item>>, content: Id)

  datatype Identity = Identity(rid: Id, kind: Kind, callId: Option<Id>, name: Option<Id>)

  datatype ItemKey = ItemKey(done: bool, rid: Id, itemId: Id)

  datatype Signature = Signature(rid: Id, itemId: Option<Id>, name: Id, args: Id)

  datatype PendingCall = PendingCall(
    callId: Id, rid: Id, itemId: Option<Id>, name: Option<Id>, args: Option<Id>, order: nat,
    terminal: bool, cancelled: bool, conflicted: bool)

  /** `pending` is in insertion order; an authorization is true once its output was submitted. */
  datatype Ledger = Ledger(
    sessionAck: Option<Id>, sessionReady: bool, poisoned: bool,
    preAckResponses: set<Id>, preAckItems: set<Id>,
    starts: map<Id, Id>, terminals: map<Id, Terminal>,
    itemResponses: map<Id, Id>, identities: map<Id, Identity>,
    outputItems: map<ItemKey, Item>, argumentDone: map<Id, Signature>,
    pending: seq<PendingCall>, nextOrder: nat, retired: map<Id, Id>, rejected: map<Id, Id>,
    pendingBytes: int, authorizations: map<Id, bool>, truncations: map<Id, Id>)

  function NewLedger(): Ledger {
    Ledger(None, false, false, {}, {}, map[], map[], map[], map[], map[], map[], [], 0, map[], map[], 0, map[], map[])
  }

  datatype ReadyCall = ReadyCall(callId: Id, itemId: Option<Id>, name: Id, args: Id)

  datatype Output =
    | Ready(rid: Id, calls: seq<ReadyCall>)
    | CallsCancelled(rid: Id, callIds: seq<Id>)
    | ArgumentsNoted(rid: Id, callId: Id)
    | ResponseStarted(rid: Id)
    | ResponseInterrupted(rid: Id)
    | ResponseEnded(rid: Id, status: Status, executable: bool)
    | SessionAcknowledged
    | PlaybackTruncated(itemId: Id)
    | ProtocolError(fatal: bool)

  /** An operation that may throw, leaving what it had already written. */
  datatype Attempt<T> = Done(ledger: Ledger, value: T) | Thrown(ledger: Ledger)

  // Calls

  function CallsOf(pending: seq<PendingCall>, rid: Id): (r: seq<PendingCall>)
    ensures |r| <= |pending|
    ensures forall p :: p in r <==> p in pending && p.rid == rid
  {
    if pending == [] then []
    else
      var last := pending[|pending| - 1];
      CallsOf(pending[..|pending| - 1], rid) + if last.rid == rid then [last] else []
  }

  function Others(pending: seq<PendingCall>, rid: Id): (r: seq<PendingCall>)
    ensures |r| <= |pending|
    ensures forall p :: p in r <==> p in pending && p.rid != rid
  {
    if pending == [] then []
    else
      var last := pending[|pending| - 1];
      Others(pending[..|pending| - 1], rid) + if last.rid != rid then [last] else []
  }

  function Find(pending: seq<PendingCall>, callId: Id): (r: Option<nat>)
    ensures r.Some? ==> r.value < |pending| && pending[r.value].callId == callId
    ensures r.None? ==> forall i :: 0 <= i < |pending| ==> pending[i].callId != callId
  {
    if pending == [] then None
    else if pending[|pending| - 1].callId == callId then Some(|pending| - 1)
    else Find(pending[..|pending| - 1], callId)
  }

  function ArgsBytes(cfg: Config, args: Option<Id>): nat {
    if args.Some? then cfg.bytes(args.value) else 0
  }

  function Reject(s: Ledger, callId: Id, rid: Id): Ledger {
    if callId in s.rejected || |s.pending| + |s.retired| + |s.rejected| >= MAX_TRACKED_IDENTITIES then s
    else s.(rejected := s.rejected[callId := rid])
  }

  predicate Differ(current: Option<Id>, next: Option<Id>) {
    current.Some? && next.Some? && current != next
  }

  function Joined(current: Option<Id>, next: Option<Id>): Option<Id> {
    if current.None? then next else current
  }

  /** What is said of a call: its parts so far, whether it is complete, and whether it is withdrawn. */
  datatype Update = Update(
    callId: Id, rid: Id, itemId: Option<Id>, name: Option<Id>, args: Option<Id>, ends: bool, cancels: bool)

  function Plain(u: Update): Update {
    u.(ends := false, cancels := false)
  }

  /** What admitting or extending a call changes: the pending calls, their numbering and their byte count. */
  ghost predicate Upserted(s: Ledger, next: Ledger, u: Update, i: nat) {
    && next == s.(pending := next.pending, nextOrder := next.nextOrder, pendingBytes := next.pendingBytes)
    && i < |next.pending| && next.pendingBytes <= MAX_PENDING_ARGUMENT_BYTES
    && (if i < |s.pending| then Extended(s, next, u, i, next.pending[i]) else Admitted(s, next, u, next.pending[i]))
  }

  predicate Agrees(known: Option<Id>, said: Option<Id>) {
    said.Some? ==> known == said
  }

  /** The call carries everything an update said about it. */
  predicate Carries(p: PendingCall, u: Update) {
    && p.callId == u.callId && p.rid == u.rid
    && Agrees(p.itemId, u.itemId) && Agrees(p.name, u.name) && Agrees(p.args, u.args)
    && (u.ends ==> p.terminal || p.cancelled) && (u.cancels ==> p.cancelled)
  }

  /** Nothing already known about the call was changed. */
  predicate KeepsKnown(before: PendingCall, after: PendingCall) {
    && after.callId == before.callId && after.rid == before.rid && after.order == before.order
    && after.conflicted == before.conflicted
    && Agrees(after.itemId, before.itemId) && Agrees(after.name, before.name) && Agrees(after.args, before.args)
    && (before.terminal ==> after.terminal || after.cancelled) && (before.cancelled ==> after.cancelled)
  }

  ghost predicate Extended(s: Ledger, next: Ledger, u: Update, i: nat, p: PendingCall)
    requires i < |s.pending|
  {
    && next.pending == s.pending[i := p] && next.nextOrder == s.nextOrder
    && Carries(p, u) && KeepsKnown(s.pending[i], p)
    && p.itemId == Joined(s.pending[i].itemId, u.itemId)
    && p.name == Joined(s.pending[i].name, u.name) && p.args == Joined(s.pending[i].args, u.args)
    && (p.terminal ==> s.pending[i].terminal || u.ends) && (p.cancelled ==> s.pending[i].cancelled || u.cancels)
  }

  ghost predicate Admitted(s: Ledger, next: Ledger, u: Update, p: PendingCall) {
    && next.pending == s.pending + [p] && next.nextOrder == s.nextOrder + 1
    && Carries(p, u) && p.itemId == u.itemId && p.name == u.name && p.args == u.args
    && p.order == s.nextOrder && !p.conflicted
    && (p.terminal ==> u.ends) && (p.cancelled ==> u.cancels)
    && (forall k :: 0 <= k < |s.pending| ==> s.pending[k].callId != u.callId) && u.callId !in s.retired
    && |s.pending| < MAX_PENDING_CALLS && |CallsOf(s.pending, u.rid)| < MAX_CALLS_PER_RESPONSE
  }

  /** The byte count follows the argument text of the call at `i`. */
  ghost predicate Charged(cfg: Config, s: Ledger, next: Ledger, i: nat)
    requires i < |next.pending|
  {
    var before := if i < |s.pending| then ArgsBytes(cfg, s.pending[i].args) else 0;
    next.pendingBytes == s.pendingBytes - before + ArgsBytes(cfg, next.pending[i].args)
  }

  /** Admits a call not heard of before, within the limits. */
  function AdmitCall(cfg: Config, s: Ledger, u: Update): Attempt<nat> {
    if |s.pending| + |s.retired| + |s.rejected| >= MAX_TRACKED_IDENTITIES then Thrown(s)
    else if |s.pending| >= MAX_PENDING_CALLS then Thrown(Reject(s, u.callId, u.rid))
    else if |CallsOf(s.pending, u.rid)| >= MAX_CALLS_PER_RESPONSE then Thrown(Reject(s, u.callId, u.rid))
    else if s.pendingBytes + ArgsBytes(cfg, u.args) > MAX_PENDING_ARGUMENT_BYTES
    then Thrown(Reject(s, u.callId, u.rid))
    else
      var call := PendingCall(u.callId, u.rid, u.itemId, u.name, u.args, s.nextOrder, false, false, false);
      Done(s.(pending := s.pending + [call], nextOrder := s.nextOrder + 1,
              pendingBytes := s.pendingBytes + ArgsBytes(cfg, u.args)),
           |s.pending|)
  }

  /** Adds what is said of a pending call; what contradicts it marks a conflict. */
  function ExtendCall(cfg: Config, s: Ledger, i: nat, u: Update): Attempt<nat>
    requires i < |s.pending|
  {
    var current := s.pending[i];
    if u.rid != current.rid || Differ(current.itemId, u.itemId) || Differ(current.name, u.name)
       || Differ(current.args, u.args)
    then Thrown(s.(pending := s.pending[i := current.(conflicted := true)]))
    else
      var extra := if current.args.None? then ArgsBytes(cfg, u.args) else 0;
      if s.pendingBytes + extra > MAX_PENDING_ARGUMENT_BYTES then Thrown(s)
      else
        var merged := current.(itemId := Joined(current.itemId, u.itemId), name := Joined(current.name, u.name),
                               args := Joined(current.args, u.args));
        Done(s.(pending := s.pending[i := merged], pendingBytes := s.pendingBytes + extra), i)
  }

  function Upsert(cfg: Config, s: Ledger, u: Update): (r: Attempt<nat>)
    ensures r.Done? ==> Upserted(s, r.ledger, Plain(u), r.value) && Charged(cfg, s, r.ledger, r.value)
  {
    if u.callId in s.rejected || u.callId in s.retired then Thrown(s)
    else match Find(s.pending, u.callId)
      case None => AdmitUpserts(cfg, s, u); AdmitCall(cfg, s, u)
      case Some(i) => ExtendUpserts(cfg, s, i, u); ExtendCall(cfg, s, i, u)
  }

  lemma AdmitUpserts(cfg: Config, s: Ledger, u: Update)
    requires u.callId !in s.retired && forall i :: 0 <= i < |s.pending| ==> s.pending[i].callId != u.callId
    ensures var r := AdmitCall(cfg, s, u);
            r.Done? ==> Upserted(s, r.ledger, Plain(u), r.value) && Charged(cfg, s, r.ledger, r.value)
  {
    hide CallsOf, Reject;
    var r := AdmitCall(cfg, s, u);
    if r.Done? {
      assert Admitted(s, r.ledger, Plain(u), r.ledger.pending[r.value]);
    }
  }

  lemma ExtendUpserts(cfg: Config, s: Ledger, i: nat, u: Update)
    requires i < |s.pending| && s.pending[i].callId == u.callId
    ensures var r := ExtendCall(cfg, s, i, u);
            r.Done? ==> Upserted(s, r.ledger, Plain(u), r.value) && Charged(cfg, s, r.ledger, r.value)
  {
    hide CallsOf;
    var r := ExtendCall(cfg, s, i, u);
    if r.Done? {
      assert Extended(s, r.ledger, Plain(u), i, r.ledger.pending[i]);
    }
  }

  predicate NameDeclared(cfg: Config, name: Option<Id>) {
    name.Some? ==> name.value in cfg.declared
  }

  predicate EndedWell(item: Item)
    requires item.Item?
  {
    item.status.None? || item.status == Some(StatusCompleted)
  }

  function UpdateOf(item: Item, rid: Id, terminal: bool): Update
    requires item.Item? && item.callId.Some?
  {
    Update(item.callId.value, rid, item.id, item.name, item.args,
           terminal && EndedWell(item), terminal && !EndedWell(item))
  }

  function Ingest(cfg: Config, s: Ledger, item: Item, rid: Id, terminal: bool): (r: Attempt<nat>)
    requires item.Item?
    ensures r.Done? ==> item.callId.Some? && NameDeclared(cfg, item.name)
    ensures r.Done? ==>
              Upserted(s, r.ledger, UpdateOf(item, rid, terminal), r.value) && Charged(cfg, s, r.ledger, r.value)
  {
    if item.callId.None? then Thrown(s)
    else if !NameDeclared(cfg, item.name) then Thrown(Reject(s, item.callId.value, rid))
    else if ArgsBytes(cfg, item.args) > MAX_ARGUMENT_BYTES then Thrown(s)
    else
      var callId := item.callId.value;
      var r := Upsert(cfg, s, UpdateOf(item, rid, terminal));
      if r.Thrown? then
        Thrown(if Find(r.ledger.pending, callId).None? && callId !in r.ledger.retired
               then Reject(r.ledger, callId, rid) else r.ledger)
      else if !terminal then r
      else
        var p := r.ledger.pending[r.value];
        var marked := p.(terminal := EndedWell(item), cancelled := p.cancelled || !EndedWell(item));
        Done(r.ledger.(pending := r.ledger.pending[r.value := marked]), r.value)
  }

  function SumArgs(cfg: Config, calls: seq<PendingCall>): nat {
    if calls == [] then 0
    else SumArgs(cfg, calls[..|calls| - 1]) + ArgsBytes(cfg, calls[|calls| - 1].args)
  }

  /** Moves every pending call of a response to the retired ledger. */
  function Retire(cfg: Config, s: Ledger, rid: Id): Ledger {
    var calls := CallsOf(s.pending, rid);
    var left := s.pendingBytes - SumArgs(cfg, calls);
    s.(pending := Others(s.pending, rid), retired := RetiredWith(s.retired, calls),
       pendingBytes := if left < 0 then 0 else left)
  }

  function RetiredWith(retired: map<Id, Id>, calls: seq<PendingCall>): (r: map<Id, Id>)
    ensures forall c :: c in r <==> c in retired || exists i :: 0 <= i < |calls| && calls[i].callId == c
  {
    if calls == [] then retired
    else
      var last := calls[|calls| - 1];
      RetiredWith(retired, calls[..|calls| - 1])[last.callId := last.rid]
  }

  function CallIds(calls: seq<PendingCall>): (r: seq<Id>)
    ensures |r| == |calls| && forall i :: 0 <= i < |r| ==> r[i] == calls[i].callId
  {
    seq(|calls|, i requires 0 <= i < |calls| => calls[i].callId)
  }

  // Items

  /** Fixes what an item is the first time it is seen, and refuses any later change. */
  function BindIdentity(s: Ledger, itemId: Id, item: Item, rid: Id): (r: Attempt<()>)
    requires item.Item?
    ensures r.Done? ==> r.ledger == s.(identities := r.ledger.identities)
  {
    var next := Identity(rid, item.kind, item.callId, item.name);
    if itemId !in s.identities then
      if |s.identities| >= MAX_TRACKED_IDENTITIES then Thrown(s)
      else Done(s.(identities := s.identities[itemId := next]), ())
    else
      var current := s.identities[itemId];
      var joined := current.(callId := Joined(current.callId, next.callId));
      if current.rid != next.rid || current.kind != next.kind || Differ(current.callId, next.callId) then Thrown(s)
      else if Differ(current.name, next.name) then Thrown(s.(identities := s.identities[itemId := joined]))
      else
        Done(s.(identities := s.identities[itemId := joined.(name := Joined(current.name, next.name))]), ())
  }

  /** Binds an item to the response that named it. */
  function BindResponse(s: Ledger, itemId: Id, rid: Id): (r: Attempt<()>)
    ensures r.Done? ==> r.ledger == s.(itemResponses := r.ledger.itemResponses)
  {
    if itemId in s.itemResponses then
      if s.itemResponses[itemId] != rid then Thrown(s) else Done(s, ())
    else if |s.itemResponses| >= MAX_TRACKED_IDENTITIES then Thrown(s)
    else Done(s.(itemResponses := s.itemResponses[itemId := rid]), ())
  }

  // Handlers

  /** A handler that ends no response leaves the retired, terminal and authorization ledgers and releases nothing. */
  ghost predicate Quiet(s: Ledger, r: Attempt<seq<Output>>) {
    r.Done? ==>
      && r.ledger.retired == s.retired && r.ledger.authorizations == s.authorizations
      && r.ledger.terminals == s.terminals && r.ledger.poisoned == s.poisoned
      && forall i :: 0 <= i < |r.value| ==> !r.value[i].Ready? && !r.value[i].ProtocolError?
  }

  function SessionAck(s: Ledger, ack: Id, accepted: bool): (r: Attempt<seq<Output>>)
    ensures r.Done? ==> |r.value| <= 1 && (|r.value| == 1 ==> r.value[0] == SessionAcknowledged)
    ensures r.Done? ==> r.ledger == s.(sessionAck := r.ledger.sessionAck, sessionReady := r.ledger.sessionReady)
  {
    if s.sessionAck == Some(ack) then Done(s, [])
    else if s.sessionAck.Some? then Thrown(s)
    else if !accepted then Thrown(s.(sessionAck := Some(ack)))
    else Done(s.(sessionAck := Some(ack), sessionReady := true), [SessionAcknowledged])
  }

  function StartResponse(s: Ledger, rid: Id, content: Id): (r: Attempt<seq<Output>>)
    ensures r.Done? ==> |r.value| <= 1 && (|r.value| == 1 ==> r.value[0] == ResponseStarted(rid))
    ensures r.Done? ==> r.ledger == s.(starts := r.ledger.starts)
  {
    if rid in s.starts then
      if s.starts[rid] == content then Done(s, []) else Thrown(s)
    else if |s.starts| >= MAX_TRACKED_IDENTITIES then Thrown(s)
    else Done(s.(starts := s.starts[rid := content]), [ResponseStarted(rid)])
  }

  function NoteItem(cfg: Config, s: Ledger, rid: Id, item: Item, done: bool): (r: Attempt<seq<Output>>)
    ensures Quiet(s, r) && (r.Done? ==> r.ledger.starts == s.starts)
    ensures r.Done? ==> item.Item? && item.id.Some?
  {
    if item.Garbled? || item.id.None? then Thrown(s)
    else
      var key := ItemKey(done, rid, item.id.value);
      if key in s.outputItems then
        if s.outputItems[key] == item then Done(s, []) else Thrown(s)
      else if |s.outputItems| >= MAX_TRACKED_IDENTITIES then Thrown(s)
      else
        var bound := BindIdentity(s.(outputItems := s.outputItems[key := item]), item.id.value, item, rid);
        if bound.Thrown? || item.kind.ForbiddenItem? then Thrown(bound.ledger)
        else if !item.kind.FunctionCall? then Done(bound.ledger, [])
        else
          var r := Ingest(cfg, bound.ledger, item, rid, done);
          if r.Thrown? then Thrown(r.ledger) else Done(r.ledger, [])
  }

  function ArgumentsUpdate(w: Wire): Update
    requires w.ArgumentsDone?
  {
    Update(w.callId, w.rid, w.itemId, Some(w.name), Some(w.args), true, false)
  }

  function CancelUpdate(callId: Id, rid: Id): Update {
    Update(callId, rid, None, None, None, false, true)
  }

  function CompleteArguments(cfg: Config, s: Ledger, w: Wire): (r: Attempt<seq<Output>>)
    requires w.ArgumentsDone?
    ensures Quiet(s, r) && (r.Done? ==> r.ledger.starts == s.starts)
  {
    var signature := Signature(w.rid, w.itemId, w.name, w.args);
    if w.name !in cfg.declared then Thrown(Reject(s, w.callId, w.rid))
    else if cfg.bytes(w.args) > MAX_ARGUMENT_BYTES then Thrown(s)
    else if w.callId in s.argumentDone then
      if s.argumentDone[w.callId] == signature then Done(s, []) else Thrown(Conflict(s, w.callId))
    else if |s.argumentDone| >= MAX_TRACKED_IDENTITIES then Thrown(s)
    else
      var noted := s.(argumentDone := s.argumentDone[w.callId := signature]);
      var r := Upsert(cfg, noted, ArgumentsUpdate(w));
      if r.Thrown? then Thrown(r.ledger)
      else
        var p := r.ledger.pending[r.value].(terminal := true, args := Some(w.args));
        Done(r.ledger.(pending := r.ledger.pending[r.value := p]), [ArgumentsNoted(w.rid, w.callId)])
  }

  function CancelArguments(cfg: Config, s: Ledger, rid: Id, callId: Id): (r: Attempt<seq<Output>>)
    ensures Quiet(s, r) && (r.Done? ==> r.ledger.starts == s.starts)
  {
    var r := Upsert(cfg, s, CancelUpdate(callId, rid));
    if r.Thrown? then Thrown(r.ledger)
    else
      var p := r.ledger.pending[r.value].(cancelled := true);
      Done(r.ledger.(pending := r.ledger.pending[r.value := p]), [CallsCancelled(rid, [callId])])
  }

  function Conflict(s: Ledger, callId: Id): Ledger {
    match Find(s.pending, callId)
    case None => s
    case Some(i) => s.(pending := s.pending[i := s.pending[i].(conflicted := true)])
  }

  /** The cancellation of calls reported when a response ends without releasing them. */
  function Dropped(rid: Id, calls: seq<PendingCall>): seq<Output> {
    if calls == [] then [] else [CallsCancelled(rid, CallIds(calls))]
  }

  function CancelResponse(cfg: Config, s: Ledger, rid: Id): Attempt<seq<Output>> {
    if rid in s.terminals then
      if s.terminals[rid] == CancelledMark then Done(s, []) else Thrown(s)
    else if |s.terminals| >= MAX_TRACKED_IDENTITIES then Thrown(s)
    else
      Done(Retire(cfg, s.(terminals := s.terminals[rid := CancelledMark]), rid),
           Dropped(rid, CallsOf(s.pending, rid)) +
           [ResponseInterrupted(rid), ResponseEnded(rid, Cancelled, false)])
  }

  function AcknowledgeTruncation(s: Ledger, w: Wire): (r: Attempt<seq<Output>>)
    requires w.Truncated?
    ensures r.Done? ==> |r.value| <= 1 && (|r.value| == 1 ==> r.value[0].PlaybackTruncated?)
    ensures r.Done? ==> r.ledger == s.(truncations := r.ledger.truncations)
  {
    if w.itemId.None? then Thrown(s)
    else if w.itemId.value in s.truncations then
      if s.truncations[w.itemId.value] == w.content then Done(s, []) else Thrown(s)
    else if |s.truncations| >= MAX_TRACKED_IDENTITIES then Thrown(s)
    else Done(s.(truncations := s.truncations[w.itemId.value := w.content]), [PlaybackTruncated(w.itemId.value)])
  }

  // The terminal event of a response

  /** What the pass over the terminal output has established so far. */
  datatype Scan = Scan(
    ledger: Ledger, itemIds: set<Id>, members: map<Id, Option<Id>>, invalid: bool, errors: seq<Output>)

  function Fault(scan: Scan, ledger: Ledger): Scan {
    scan.(ledger := ledger.(poisoned := true), invalid := true, errors := scan.errors + [ProtocolError(true)])
  }

  /** Binds the identity of one terminal output item; None when the item is refused. */
  function BindTerminal(s: Ledger, item: Item, rid: Id): (r: Attempt<()>)
    requires item.Item?
    ensures r.Done? ==> r.ledger == s.(itemResponses := r.ledger.itemResponses, identities := r.ledger.identities)
  {
    if item.id.None? then Done(s, ())
    else
      var bound := BindResponse(s, item.id.value, rid);
      if bound.Thrown? then Thrown(bound.ledger)
      else BindIdentity(bound.ledger, item.id.value, item, rid)
  }

  function ScanFunction(cfg: Config, scan: Scan, item: Item, rid: Id): Scan
    requires item.Item?
  {
    var r := if item.id.None? then Thrown(scan.ledger) else Ingest(cfg, scan.ledger, item, rid, true);
    match r
    case Thrown(l) => Fault(scan, if item.callId.Some? then Conflict(l, item.callId.value) else l)
    case Done(l, i) =>
      scan.(ledger := l, members := scan.members[l.pending[i].callId := l.pending[i].itemId])
  }

  function ScanItem(cfg: Config, scan: Scan, item: Item, rid: Id): (r: Scan)
    ensures r.errors == scan.errors + (if r.errors == scan.errors then [] else [ProtocolError(true)])
    ensures scan.invalid == scan.ledger.poisoned ==> r.invalid == r.ledger.poisoned
    ensures (scan.errors != [] ==> scan.ledger.poisoned) ==> (r.errors != [] ==> r.ledger.poisoned)
  {
    if item.Garbled? || (item.id.Some? && item.id.value in scan.itemIds) then Fault(scan, scan.ledger)
    else
      var seen := if item.id.Some? then scan.(itemIds := scan.itemIds + {item.id.value}) else scan;
      var bound := BindTerminal(seen.ledger, item, rid);
      if bound.Thrown? || item.kind.ForbiddenItem? then Fault(seen, bound.ledger)
      else if !item.kind.FunctionCall? then seen.(ledger := bound.ledger)
      else ScanFunction(cfg, seen.(ledger := bound.ledger), item, rid)
  }

  function ScanItems(cfg: Config, scan: Scan, output: seq<Item>, rid: Id): Scan {
    if output == [] then scan
    else ScanItem(cfg, ScanItems(cfg, scan, output[..|output| - 1], rid), output[|output| - 1], rid)
  }

  datatype Verdict = ReadyToRun | Unfinished | NotInOutput | BadArguments

  function Judge(cfg: Config, call: PendingCall, members: map<Id, Option<Id>>): Verdict {
    if call.conflicted || call.cancelled || !call.terminal || call.name.None? || call.args.None? then Unfinished
    else if call.callId !in members || members[call.callId] != call.itemId then NotInOutput
    else if !cfg.decodes(call.args.value) then BadArguments
    else ReadyToRun
  }

  /** The errors reported for calls that may not run: a call missing from the output is fatal, bad arguments are not. */
  function CallErrors(cfg: Config, calls: seq<PendingCall>, members: map<Id, Option<Id>>): (r: seq<Output>)
    ensures forall o <- r :: o.ProtocolError?
    ensures ProtocolError(true) in r ==>
              exists i :: 0 <= i < |calls| && Judge(cfg, calls[i], members) == NotInOutput
  {
    if calls == [] then []
    else
      CallErrors(cfg, calls[..|calls| - 1], members) +
      match Judge(cfg, calls[|calls| - 1], members)
      case NotInOutput => [ProtocolError(true)]
      case BadArguments => [ProtocolError(false)]
      case _ => []
  }

  predicate AllReady(cfg: Config, calls: seq<PendingCall>, members: map<Id, Option<Id>>) {
    forall i :: 0 <= i < |calls| ==> Judge(cfg, calls[i], members) == ReadyToRun
  }

  function Release(calls: seq<PendingCall>): (r: seq<ReadyCall>)
    requires forall i :: 0 <= i < |calls| ==> calls[i].name.Some? && calls[i].args.Some?
    ensures |r| == |calls|
    ensures forall i :: 0 <= i < |r| ==>
              r[i] == ReadyCall(calls[i].callId, calls[i].itemId, calls[i].name.value, calls[i].args.value)
  {
    seq(|calls|, i requires 0 <= i < |calls| =>
      ReadyCall(calls[i].callId, calls[i].itemId, calls[i].name.value, calls[i].args.value))
  }

  function Authorized(authorizations: map<Id, bool>, calls: seq<PendingCall>): (r: map<Id, bool>)
    ensures forall c :: c in r <==> c in authorizations || exists i :: 0 <= i < |calls| && calls[i].callId == c
    ensures forall c :: c in r && (forall i :: 0 <= i < |calls| ==> calls[i].callId != c) ==> r[c] == authorizations[c]
  {
    if calls == [] then authorizations
    else Authorized(authorizations, calls[..|calls| - 1])[calls[|calls| - 1].callId := false]
  }

  function TerminalOf(w: Wire): Terminal
    requires w.ResponseDone?
  {
    if w.status == Cancelled then CancelledMark else DoneMark(w.status, w.output, w.content)
  }

  /** A response that did not complete, or whose output is no array of permitted length, releases nothing. */
  function EndWithoutRelease(cfg: Config, s: Ledger, w: Wire, fatal: bool): Attempt<seq<Output>>
    requires w.ResponseDone?
  {
    var calls := CallsOf(s.pending, w.rid);
    Done(Retire(cfg, s, w.rid).(poisoned := s.poisoned || fatal),
         (if fatal then [ProtocolError(true)] else []) + Dropped(w.rid, calls) +
         [ResponseEnded(w.rid, w.status, false)])
  }

  /** Decides, once the terminal output was scanned, whether the calls of the response may run. */
  function Decide(cfg: Config, scan: Scan, rid: Id): Attempt<seq<Output>> {
    var calls := CallsOf(scan.ledger.pending, rid);
    var released := !scan.invalid && calls != [] && AllReady(cfg, calls, scan.members);
    var missing := exists i :: 0 <= i < |calls| && Judge(cfg, calls[i], scan.members) == NotInOutput;
    var retired := Retire(cfg, scan.ledger, rid);
    var after := retired.(
      poisoned := scan.ledger.poisoned || missing,
      authorizations := if released then Authorized(retired.authorizations, calls) else retired.authorizations);
    Done(after,
         scan.errors + CallErrors(cfg, calls, scan.members) +
         (if released then [Ready(rid, Release(calls))] else Dropped(rid, calls)) +
         [ResponseEnded(rid, Completed, released)])
  }

  function EndResponse(cfg: Config, marked: Ledger, w: Wire): Attempt<seq<Output>>
    requires w.ResponseDone?
  {
    if w.output.None? || |w.output.value| > MAX_OUTPUT_ITEMS then EndWithoutRelease(cfg, marked, w, true)
    else if w.status != Completed then EndWithoutRelease(cfg, marked, w, w.status == Unknown)
    else Decide(cfg, ScanItems(cfg, Scan(marked, {}, map[], false, []), w.output.value, w.rid), w.rid)
  }

  function CompleteResponse(cfg: Config, s: Ledger, w: Wire): Attempt<seq<Output>>
    requires w.ResponseDone?
  {
    if w.rid in s.terminals then
      if s.terminals[w.rid] == TerminalOf(w) then Done(s, []) else Thrown(s)
    else if |s.terminals| >= MAX_TRACKED_IDENTITIES then Thrown(s)
    else EndResponse(cfg, s.(terminals := s.terminals[w.rid := TerminalOf(w)]), w)
  }

  // One event

  function ResponseOf(w: Wire): Option<Id> {
    match w
    case ResponseCreated(rid, _) => Some(rid)
    case ItemEvent(rid, _, _) => Some(rid)
    case ArgumentsDone(rid, _, _, _, _) => Some(rid)
    case ArgumentsCancelled(rid, _) => Some(rid)
    case ResponseCancelled(rid) => Some(rid)
    case ResponseDone(rid, _, _, _) => Some(rid)
    case ResponseOther(rid, _, _) => rid
    case Truncated(rid, _, _) => rid
    case InputEvent(rid, _, _) => rid
    case _ => None
  }

  function ItemOf(w: Wire): Option<Id> {
    match w
    case ItemEvent(_, item, _) => if item.Item? then item.id else None
    case ArgumentsDone(_, itemId, _, _, _) => itemId
    case ResponseOther(_, itemId, _) => itemId
    case Truncated(_, itemId, _) => itemId
    case InputEvent(_, itemId, _) => itemId
    case _ => None
  }

  function With(s: set<Id>, x: Option<Id>): set<Id> {
    if x.Some? && |s| < MAX_TRACKED_IDENTITIES then s + {x.value} else s
  }

  predicate NeedsStart(w: Wire) {
    !w.SessionUpdated? && !w.ResponseCreated? && !w.Truncated? && !w.InputEvent?
  }

  /** Events that mean nothing once their response is terminal. */
  predicate GoesStale(w: Wire) {
    !w.SessionUpdated? && !w.ResponseDone? && !w.ResponseCancelled? && !w.Truncated? && !w.InputEvent?
  }

  /** The checks every event passes first; the value says whether the event is handled or ignored. */
  function Admit(s: Ledger, w: Wire): (r: Attempt<bool>)
    ensures r.Done? ==> r.ledger == s.(itemResponses := r.ledger.itemResponses)
    ensures r.Done? && ResponseOf(w).Some? && GoesStale(w) ==> (r.value <==> ResponseOf(w).value !in s.terminals)
    ensures r.Done? && ResponseOf(w).Some? && NeedsStart(w) ==> s.sessionReady && ResponseOf(w).value in s.starts
    ensures r.Done? && !r.value ==> GoesStale(w)
  {
    var rid, itemId := ResponseOf(w), ItemOf(w);
    if w.Malformed? then Thrown(s)
    else if w.SessionUpdated? then Done(s, true)
    else if !s.sessionReady && !(w.InputEvent? && !w.needsSession) then
      Thrown(s.(preAckResponses := With(s.preAckResponses, rid), preAckItems := With(s.preAckItems, itemId)))
    else if (rid.Some? && rid.value in s.preAckResponses) || (itemId.Some? && itemId.value in s.preAckItems)
    then Thrown(s)
    else
      var bound := if rid.Some? && itemId.Some? then BindResponse(s, itemId.value, rid.value) else Done(s, ());
      if bound.Thrown? then Thrown(bound.ledger)
      else
        var l := bound.ledger;
        var scoped := if rid.Some? then rid
                      else if itemId.Some? && itemId.value in l.itemResponses then Some(l.itemResponses[itemId.value])
                      else None;
        if scoped.Some? && NeedsStart(w) && scoped.value !in l.starts then Thrown(l)
        else if scoped.Some? && scoped.value in l.terminals && GoesStale(w) then
          if l.terminals[scoped.value] == CancelledMark then Done(l, false) else Thrown(l)
        else if w.ResponseOther? && w.needsResponse && scoped.None? then Thrown(l)
        else if w.Truncated? && (scoped.None? || itemId.None?) then Thrown(l)
        else Done(l, true)
  }

  function Handle(cfg: Config, s: Ledger, w: Wire): Attempt<seq<Output>> {
    match w
    case Malformed => Thrown(s)
    case SessionUpdated(ack, accepted) => SessionAck(s, ack, accepted)
    case ResponseCreated(rid, content) => StartResponse(s, rid, content)
    case ItemEvent(rid, item, done) => NoteItem(cfg, s, rid, item, done)
    case ArgumentsDone(_, _, _, _, _) => CompleteArguments(cfg, s, w)
    case ArgumentsCancelled(rid, callId) => CancelArguments(cfg, s, rid, callId)
    case ResponseCancelled(rid) => CancelResponse(cfg, s, rid)
    case ResponseDone(_, _, _, _) => CompleteResponse(cfg, s, w)
    case ResponseOther(_, _, _) => Done(s, [])
    case Truncated(_, _, _) => AcknowledgeTruncation(s, w)
    case InputEvent(_, _, _) => Done(s, [])
  }

  /** One event against the ledgers: anything thrown seals the adapter. */
  function Process(cfg: Config, s: Ledger, w: Wire): (Ledger, seq<Output>) {
    var admitted := Admit(s, w);
    if admitted.Thrown? then (admitted.ledger.(poisoned := true), [ProtocolError(true)])
    else if !admitted.value then (admitted.ledger, [])
    else
      match Handle(cfg, admitted.ledger, w)
      case Done(l, outputs) => (l, outputs)
      case Thrown(l) => (l.(poisoned := true), [ProtocolError(true)])
  }

  // The adapter: ledgers behind a sliding window of event ids

  datatype Seen = Seen(eventId: Id, wire: Wire)

  datatype Adapter = Adapter(window: seq<Seen>, ledger: Ledger)

  datatype Input =
    | Frame(eventId: Option<Id>, wire: Wire)
    | Interrupt(rid: Id)
    | SubmitOutputs(callIds: seq<Id>)

  function Recorded(window: seq<Seen>, eventId: Id): (r: Option<Wire>)
    ensures r.Some? ==> Seen(eventId, r.value) in window
  {
    if window == [] then None
    else if window[|window| - 1].eventId == eventId then Some(window[|window| - 1].wire)
    else Recorded(window[..|window| - 1], eventId)
  }

  function Slid(size: nat, window: seq<Seen>, entry: Seen): (r: seq<Seen>)
    ensures forall e :: e in r ==> e in window || e == entry
  {
    (if |window| >= size && window != [] then window[1..] else window) + [entry]
  }

  function Normalize(cfg: Config, size: nat, a: Adapter, eventId: Option<Id>, w: Wire): (Adapter, seq<Output>) {
    if a.ledger.poisoned then (a, [ProtocolError(true)])
    else if w.Malformed? then (a.(ledger := a.ledger.(poisoned := true)), [ProtocolError(true)])
    else if eventId.None? then
      var (l, outputs) := Process(cfg, a.ledger, w);
      (a.(ledger := l), outputs)
    else
      var previous := Recorded(a.window, eventId.value);
      if previous == Some(w) then (a, [])
      else if previous.Some? then (a.(ledger := a.ledger.(poisoned := true)), [ProtocolError(true)])
      else
        var (l, outputs) := Process(cfg, a.ledger, w);
        (Adapter(Slid(size, a.window, Seen(eventId.value, w)), l), outputs)
  }

  /** Local interruption: an active response is sealed exactly as a provider cancellation would seal it. */
  function InterruptResponse(cfg: Config, s: Ledger, rid: Id): Attempt<seq<Output>> {
    if !s.sessionReady || s.poisoned || rid !in s.starts || rid in s.terminals then Thrown(s)
    else CancelResponse(cfg, s, rid)
  }

  predicate Distinct(ids: seq<Id>) {
    forall i, k :: 0 <= i < k < |ids| ==> ids[i] != ids[k]
  }

  function Submitted(authorizations: map<Id, bool>, ids: seq<Id>): (r: map<Id, bool>)
    ensures forall c :: c in r <==> c in authorizations || c in ids
    ensures forall c :: c in r ==> r[c] == (c in ids || authorizations[c])
  {
    if ids == [] then authorizations
    else Submitted(authorizations, ids[..|ids| - 1])[ids[|ids| - 1] := true]
  }

  /** A batch of tool outputs is accepted when it is not empty, repeats no call, and each call awaits its output. */
  function Submit(s: Ledger, ids: seq<Id>): Attempt<seq<Output>> {
    if !s.sessionReady || s.poisoned || ids == [] || |ids| > MAX_CALLS_PER_RESPONSE || !Distinct(ids)
       || exists i :: 0 <= i < |ids| && (ids[i] !in s.authorizations || s.authorizations[ids[i]])
    then Thrown(s)
    else Done(s.(authorizations := Submitted(s.authorizations, ids)), [])
  }

  function Next(cfg: Config, size: nat, a: Adapter, input: Input): (Adapter, seq<Output>) {
    match input
    case Frame(eventId, w) => Normalize(cfg, size, a, eventId, w)
    case Interrupt(rid) =>
      var r := InterruptResponse(cfg, a.ledger, rid);
      if r.Thrown? then (a, []) else (a.(ledger := r.ledger), r.value)
    case SubmitOutputs(ids) =>
      var r := Submit(a.ledger, ids);
      if r.Thrown? then (a, []) else (a.(ledger := r.ledger), r.value)
  }
}
