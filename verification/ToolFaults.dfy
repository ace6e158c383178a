/** Which frames are fatal: the exact condition, over what the inputs before a frame said first and said at all. */
module ToolFaults {
  import opened Common
  import opened ToolLedger
  import opened ToolRelease
  import opened ToolRuns
  import opened ToolTerminal
  import opened ToolHistory
  import opened ToolClean
  import opened ToolVerdict
  import opened ToolMemory

  // Admission

  /** The response a frame is about: the one it names, or else the one its item was named for. */
  ghost predicate About(p: Past, w: Wire, rid: Id) {
    || ResponseOf(w) == Some(rid)
    || (ResponseOf(w).None? && ItemOf(w).Some? && Binding(ItemOf(w).value, rid) in p.bindings)
  }

  /** The item of a frame was named for no other response, and a new item finds room. */
  ghost predicate Placeable(p: Past, w: Wire) {
    ResponseOf(w).Some? && ItemOf(w).Some? ==>
      && (forall b <- p.bindings :: b.itemId == ItemOf(w).value ==> b.rid == ResponseOf(w).value)
      && (ItemOf(w).value !in BoundItems(p) ==> |BoundItems(p)| < MAX_TRACKED_IDENTITIES)
  }

  /** The frame comes too late to mean anything. */
  ghost predicate Stale(p: Past, m: Memo, w: Wire) {
    GoesStale(w) && exists rid: Id :: About(p, w, rid) && rid in m.marks
  }

  /**
   * A frame is admitted when the session was acknowledged, its item is in place, its response was started, and a
   * response that is closed was cancelled.
   */
  ghost predicate Admissible(p: Past, m: Memo, w: Wire) {
    && !w.Malformed?
    && (!w.SessionUpdated? ==>
          && (m.ack.Some? || (w.InputEvent? && !w.needsSession)) && Placeable(p, w)
          && (NeedsStart(w) ==> forall rid: Id :: About(p, w, rid) ==> rid in m.starts)
          && (GoesStale(w) ==> forall rid: Id :: About(p, w, rid) && rid in m.marks ==> m.marks[rid] == CancelledMark)
          && (w.ResponseOther? && w.needsResponse ==> exists rid: Id :: About(p, w, rid))
          && (w.Truncated? ==> w.itemId.Some? && exists rid: Id :: About(p, w, rid)))
  }

  function ScopeIn(s: Ledger, w: Wire): Option<Id> {
    if ResponseOf(w).Some? then ResponseOf(w)
    else if ItemOf(w).Some? && ItemOf(w).value in s.itemResponses then Some(s.itemResponses[ItemOf(w).value])
    else None
  }

  lemma ScopeIs(s: Ledger, p: Past, w: Wire, rid: Id)
    requires Binds(s.itemResponses, p.bindings)
    ensures About(p, w, rid) <==> ScopeIn(s, w) == Some(rid)
  {
    if ResponseOf(w).None? && ItemOf(w).Some? && ItemOf(w).value in s.itemResponses {
      assert Binding(ItemOf(w).value, s.itemResponses[ItemOf(w).value]) in p.bindings;
    }
  }

  predicate BindsNow(s: Ledger, w: Wire) {
    ResponseOf(w).Some? && ItemOf(w).Some? ==> BindResponse(s, ItemOf(w).value, ResponseOf(w).value).Done?
  }

  lemma PlaceableIff(s: Ledger, p: Past, w: Wire)
    requires Remembers(s, p)
    ensures BindsNow(s, w) <==> Placeable(p, w)
  {
    hide BindResponse, Shapes, ItemsDescribed, SessionKept, BoundItems, ShapedItems;
    if ResponseOf(w).Some? && ItemOf(w).Some? {
      BindResponseIff(s, ItemOf(w).value, ResponseOf(w).value);
      BindingConsistent(s, p.bindings, ItemOf(w).value, ResponseOf(w).value);
      BoundKeys(s, p);
      assert |s.itemResponses| == |s.itemResponses.Keys|;
    }
  }

  lemma WireFacts(w: Wire)
    ensures w.SessionUpdated? || w.Truncated? ==> !GoesStale(w)
    ensures w.Truncated? ==> ItemOf(w) == w.itemId
  {
  }

  /** The frame is let through to the checks on its response. */
  predicate Entered(s: Ledger, w: Wire) {
    && !w.Malformed? && !w.SessionUpdated? && (s.sessionReady || (w.InputEvent? && !w.needsSession)) && BindsNow(s, w)
  }

  lemma EnteredIff(s: Ledger, w: Wire)
    requires s.preAckResponses == {} && s.preAckItems == {}
    ensures Admit(s, w).Done? ==> w.SessionUpdated? || Entered(s, w)
    ensures w.SessionUpdated? ==> Admit(s, w) == Done(s, true)
  {
    hide BindResponse, ResponseOf, ItemOf, GoesStale, NeedsStart, With;
  }

  /** The frame comes after the end of the response it is about. */
  predicate TooLate(s: Ledger, w: Wire) {
    var scope := ScopeIn(s, w); scope.Some? && GoesStale(w) && scope.value in s.terminals
  }

  /** The checks on the response of a frame. */
  predicate Scoped(s: Ledger, w: Wire) {
    var scope := ScopeIn(s, w);
    && (scope.Some? && NeedsStart(w) ==> scope.value in s.starts)
    && (TooLate(s, w) ==> s.terminals[scope.value] == CancelledMark)
    && (w.ResponseOther? && w.needsResponse ==> scope.Some?)
    && (w.Truncated? ==> scope.Some? && w.itemId.Some?)
  }

  /** The last checks of admission, on the response the frame is about. */
  function CheckScope(l: Ledger, w: Wire, scope: Option<Id>): Attempt<bool> {
    if scope.Some? && NeedsStart(w) && scope.value !in l.starts then Thrown(l)
    else if scope.Some? && scope.value in l.terminals && GoesStale(w) then
      if l.terminals[scope.value] == CancelledMark then Done(l, false) else Thrown(l)
    else if (w.ResponseOther? && w.needsResponse && scope.None?)
            || (w.Truncated? && (scope.None? || w.itemId.None?)) then Thrown(l)
    else Done(l, true)
  }

  lemma AdmitChecks(s: Ledger, w: Wire)
    requires s.preAckResponses == {} && s.preAckItems == {} && Entered(s, w)
    ensures var rid, itemId := ResponseOf(w), ItemOf(w);
            var l := if rid.Some? && itemId.Some? then BindResponse(s, itemId.value, rid.value).ledger else s;
            Admit(s, w) == CheckScope(l, w, ScopeIn(s, w))
  {
    WireFacts(w);
    hide BindResponse, ResponseOf, ItemOf, GoesStale, NeedsStart, With;
  }

  lemma ScopedIff(s: Ledger, w: Wire)
    requires s.preAckResponses == {} && s.preAckItems == {} && Entered(s, w)
    ensures Admit(s, w).Done? <==> Scoped(s, w)
    ensures Admit(s, w).Done? ==> (Admit(s, w).value <==> !TooLate(s, w))
  {
    WireFacts(w);
    AdmitChecks(s, w);
    hide Admit, BindResponse, ResponseOf, ItemOf, GoesStale, NeedsStart, ScopeIn;
  }

  lemma AdmitIff(s: Ledger, p: Past, m: Memo, w: Wire)
    requires Remembers(s, p) && Recalls(s, m)
    ensures Admit(s, w).Done? <==> Admissible(p, m, w)
    ensures Admit(s, w).Done? ==> (Admit(s, w).value <==> !Stale(p, m, w))
  {
    EnteredIff(s, w);
    WireFacts(w);
    if Entered(s, w) {
      ScopedIff(s, w);
    }
    PlaceableIff(s, p, w);
    assert Binds(s.itemResponses, p.bindings);
    var scope := ScopeIn(s, w);
    hide Admit, BindsNow, Placeable, About, ScopeIn, Remembers, NeedsStart, GoesStale;
    forall rid: Id ensures About(p, w, rid) <==> scope == Some(rid) {
      ScopeIs(s, p, w, rid);
    }
    if scope.Some? {
      assert About(p, w, scope.value);
    }
  }

  // What is said of a call

  /** The item that would say as much of a call. */
  function ItemFor(u: Update): Item {
    Item(u.itemId, FunctionCall, Some(u.callId), u.name, u.args, None)
  }

  /** A new call finds room among those open, those of its response and those ever named, and its arguments do. */
  ghost predicate UpdateRoom(cfg: Config, p: Past, u: Update) {
    && (u.callId !in OpenCalls(p) ==>
          && |OpenCalls(p)| + |p.retired| < MAX_TRACKED_IDENTITIES && |OpenCalls(p)| < MAX_PENDING_CALLS
          && |CallsNamed(p.said, {u.rid})| < MAX_CALLS_PER_RESPONSE)
    && TotalBytes(cfg, Arguments(p.said + {u}, p.closed)) <= MAX_PENDING_ARGUMENT_BYTES
  }

  /** What is said of a call contradicts nothing said of it, the call is not over, and there is room for it. */
  ghost predicate UpdateFits(cfg: Config, p: Past, u: Update) {
    && u.callId !in p.retired
    && (forall v <- p.said :: v.callId == u.callId && v.rid !in p.closed ==> SaidAgrees(v, ItemFor(u), u.rid))
    && UpdateRoom(cfg, p, u)
  }

  /** The ledger's own reading of the same. */
  predicate UpdateAccepted(cfg: Config, s: Ledger, u: Update) {
    var known := Find(s.pending, u.callId);
    && u.callId !in s.retired && u.callId !in s.rejected
    && (known.Some? ==> CallAgrees(s.pending[known.value], ItemFor(u), u.rid))
    && (known.None? ==>
          && |s.pending| + |s.retired| + |s.rejected| < MAX_TRACKED_IDENTITIES
          && |s.pending| < MAX_PENDING_CALLS && |CallsOf(s.pending, u.rid)| < MAX_CALLS_PER_RESPONSE)
    && s.pendingBytes + ExtraBytes(cfg, s, ItemFor(u)) <= MAX_PENDING_ARGUMENT_BYTES
  }

  lemma UpsertAccepts(cfg: Config, s: Ledger, u: Update)
    ensures Upsert(cfg, s, u).Done? <==> UpdateAccepted(cfg, s, u)
  {
    hide CallsOf, Find, Reject, Upserted, Charged;
  }

  /** The pending calls are the open ones. */
  lemma OpenCounts(cfg: Config, s: Ledger, p: Past, u: Update)
    requires CallsKept(cfg, s, p.said, p.closed) && u.rid !in p.closed
    ensures |s.pending| == |OpenCalls(p)| && |CallsOf(s.pending, u.rid)| == |CallsNamed(p.said, {u.rid})|
    ensures Find(s.pending, u.callId).Some? <==> u.callId in OpenCalls(p)
  {
    OpenIds(cfg, s, p);
    ResponseIds(cfg, s, p, u.rid);
    SizeOfIds(s.pending);
    FilteredOrdered(s.pending, u.rid);
    SizeOfIds(CallsOf(s.pending, u.rid));
    NewCallIff(s, ItemFor(u));
    hide CallsKept, CallsOf, CallIdsOf, OpenCalls, CallsNamed, Find;
  }

  /** A pending call that agrees has the argument text exactly when some frame said it. */
  lemma TextKnown(cfg: Config, s: Ledger, p: Past, u: Update)
    requires CallsKept(cfg, s, p.said, p.closed) && u.args.Some?
    requires var known := Find(s.pending, u.callId);
             known.Some? ==> CallAgrees(s.pending[known.value], ItemFor(u), u.rid)
    ensures Argument(u.callId, u.args.value) in Arguments(p.said, p.closed) <==>
            var known := Find(s.pending, u.callId); known.Some? && s.pending[known.value].args.Some?
  {
    ArgumentsKnown(cfg, s, p);
    assert Ordered(s.pending);
    hide CallsKept, Arguments, Find, Ordered;
    var known, x := Find(s.pending, u.callId), Argument(u.callId, u.args.value);
    if x in PendingArguments(s.pending) {
      var q :| q in s.pending && q.args.Some? && Argument(q.callId, q.args.value) == x;
      if s.pending[known.value] != q {
        DistinctCalls(s.pending, s.pending[known.value], q);
      }
    }
    if known.Some? && s.pending[known.value].args.Some? {
      assert s.pending[known.value] in s.pending;
    }
  }

  lemma OneMoreText(said: set<Update>, closed: set<Id>, u: Update)
    requires u.rid !in closed
    ensures Arguments(said + {u}, closed) ==
            Arguments(said, closed) + if u.args.Some? then {Argument(u.callId, u.args.value)} else {}
  {
    ArgumentsUnion(said, {u}, closed);
    assert Arguments({u}, closed) == if u.args.Some? then {Argument(u.callId, u.args.value)} else {};
  }

  lemma TextBytes(cfg: Config, s: Ledger, p: Past, u: Update)
    requires CallsKept(cfg, s, p.said, p.closed) && WithinBudget(cfg, s) && u.rid !in p.closed
    requires var known := Find(s.pending, u.callId);
             known.Some? ==> CallAgrees(s.pending[known.value], ItemFor(u), u.rid)
    ensures s.pendingBytes + ExtraBytes(cfg, s, ItemFor(u)) ==
            TotalBytes(cfg, Arguments(p.said + {u}, p.closed))
  {
    ArgumentsKnown(cfg, s, p);
    SumIsTotal(cfg, s.pending);
    OneMoreText(p.said, p.closed, u);
    hide TotalBytes, Arguments, CallsKept, CallsOf, PendingArguments, Find;
    if u.args.Some? {
      TextKnown(cfg, s, p, u);
      TotalWith(cfg, Arguments(p.said, p.closed), Argument(u.callId, u.args.value));
    } else {
      assert Arguments(p.said, p.closed) + {} == Arguments(p.said, p.closed);
    }
  }

  lemma UpdateAgrees(cfg: Config, s: Ledger, p: Past, u: Update)
    requires CallsKept(cfg, s, p.said, p.closed)
    ensures (var known := Find(s.pending, u.callId);
             known.Some? ==> CallAgrees(s.pending[known.value], ItemFor(u), u.rid)) <==>
            forall v <- p.said :: v.callId == u.callId && v.rid !in p.closed ==> SaidAgrees(v, ItemFor(u), u.rid)
  {
    hide CallsKept, CallAgrees, SaidAgrees, Find;
    var known := Find(s.pending, u.callId);
    if known.Some? {
      CallConsistentIff(cfg, s, p.said, p.closed, known.value, ItemFor(u), u.rid);
    } else {
      PendingUnknown(cfg, s, p.said, p.closed, u.callId);
    }
  }

  /** The ledger holds the calls of the past, and refused none. */
  ghost predicate CallsKnown(cfg: Config, s: Ledger, p: Past) {
    CallsKept(cfg, s, p.said, p.closed) && WithinBudget(cfg, s) && s.rejected == map[] && s.retired.Keys == p.retired
  }

  lemma UpsertFits(cfg: Config, s: Ledger, p: Past, u: Update)
    requires CallsKnown(cfg, s, p) && u.rid !in p.closed
    ensures Upsert(cfg, s, u).Done? <==> UpdateFits(cfg, p, u)
  {
    hide CallsKept, WithinBudget, Upsert, CallAgrees, SaidAgrees, CallsOf, Find, OpenCalls, CallsNamed, TotalBytes;
    hide Arguments, ExtraBytes;
    UpsertAccepts(cfg, s, u);
    OpenCounts(cfg, s, p, u);
    UpdateAgrees(cfg, s, p, u);
    assert |s.retired| == |s.retired.Keys|;
    var known := Find(s.pending, u.callId);
    if known.Some? ==> CallAgrees(s.pending[known.value], ItemFor(u), u.rid) {
      TextBytes(cfg, s, p, u);
    }
    hide Upserted, Charged;
  }

  // Handlers

  /** What is said first of a key stands; a new key finds room. */
  predicate Stands<K, V(==)>(m: map<K, V>, k: K, v: V) {
    if k in m then m[k] == v else |m| < MAX_TRACKED_IDENTITIES
  }

  /** A function item names its call, asks for nothing undeclared or oversized, and says what fits of the call. */
  ghost predicate CallFitsPast(cfg: Config, p: Past, item: Item, rid: Id, done: bool)
    requires item.Item?
  {
    && item.callId.Some? && NameDeclared(cfg, item.name) && ArgsBytes(cfg, item.args) <= MAX_ARGUMENT_BYTES
    && UpdateFits(cfg, p, UpdateOf(item, rid, done))
  }

  /** A new item is permitted, was never said to be anything else, and finds room. */
  ghost predicate NewItemFits(cfg: Config, p: Past, item: Item, rid: Id, done: bool)
    requires item.Item? && item.id.Some?
  {
    && !item.kind.ForbiddenItem?
    && (forall h <- p.shapes :: h.itemId == item.id.value ==> SameShape(h.identity, item, rid))
    && (item.id.value !in ShapedItems(p) ==> |ShapedItems(p)| < MAX_TRACKED_IDENTITIES)
    && (item.kind.FunctionCall? ==> CallFitsPast(cfg, p, item, rid, done))
  }

  /** An admitted frame agrees with what was said first, and what it says anew fits and finds room. */
  ghost predicate Fits(cfg: Config, p: Past, m: Memo, w: Wire) {
    match w
    case Malformed => false
    case SessionUpdated(ack, accepted) => m.ack == Some(ack) || (m.ack.None? && accepted)
    case ResponseCreated(rid, content) => Stands(m.starts, rid, content)
    case ItemEvent(rid, item, done) =>
      && item.Item? && item.id.Some?
      && var key := ItemKey(done, rid, item.id.value);
         Stands(m.items, key, item) && (key !in m.items ==> NewItemFits(cfg, p, item, rid, done))
    case ArgumentsDone(rid, itemId, callId, name, args) =>
      && name in cfg.declared && cfg.bytes(args) <= MAX_ARGUMENT_BYTES
      && Stands(m.arguments, callId, Signature(rid, itemId, name, args))
      && (callId !in m.arguments ==> UpdateFits(cfg, p, ArgumentsUpdate(w)))
    case ArgumentsCancelled(rid, callId) => UpdateFits(cfg, p, CancelUpdate(callId, rid))
    case ResponseCancelled(rid) => Stands(m.marks, rid, CancelledMark)
    case ResponseDone(rid, _, _, _) => Stands(m.marks, rid, TerminalOf(w))
    case Truncated(_, itemId, content) => itemId.Some? && Stands(m.cuts, itemId.value, content)
    case _ => true
  }

  lemma IngestFits(cfg: Config, s: Ledger, p: Past, item: Item, rid: Id, done: bool)
    requires CallsKnown(cfg, s, p) && rid !in p.closed && item.Item?
    ensures Ingest(cfg, s, item, rid, done).Done? <==> CallFitsPast(cfg, p, item, rid, done)
  {
    hide CallsKnown, Upsert, Upserted, Charged, Find, Reject, UpdateFits;
    if item.callId.Some? {
      UpsertFits(cfg, s, p, UpdateOf(item, rid, done));
    }
  }

  lemma IdentityFits(s: Ledger, p: Past, id: Id, item: Item, rid: Id)
    requires Remembers(s, p) && item.Item?
    ensures BindIdentity(s, id, item, rid).Done? <==>
            && (forall h <- p.shapes :: h.itemId == id ==> SameShape(h.identity, item, rid))
            && (id !in ShapedItems(p) ==> |ShapedItems(p)| < MAX_TRACKED_IDENTITIES)
  {
    BindIdentityIff(s, id, item, rid);
    ShapeAgrees(s.identities, p.shapes, id, item, rid);
    BoundKeys(s, p);
    assert |s.identities| == |s.identities.Keys|;
    hide BindIdentity, Remembers, ShapedItems, BoundItems, SameShape;
  }

  lemma CallsKnownFrame(cfg: Config, s: Ledger, t: Ledger, p: Past)
    requires CallsKnown(cfg, s, p) && SameCalls(s, t) && t.rejected == s.rejected
    ensures CallsKnown(cfg, t, p)
  {
    CallsFrame(cfg, s, t, p.said, p.closed);
    hide CallsKept;
  }

  lemma IdentitiesFit(s: Ledger, t: Ledger, id: Id, item: Item, rid: Id)
    requires item.Item? && t.identities == s.identities
    ensures BindIdentity(t, id, item, rid).Done? <==> BindIdentity(s, id, item, rid).Done?
  {
  }

  /** What noting a new item asks of its identity and of its call. */
  predicate NewItemTaken(cfg: Config, s: Ledger, item: Item, rid: Id, done: bool)
    requires item.Item? && item.id.Some?
  {
    var bound := BindIdentity(s, item.id.value, item, rid);
    && bound.Done? && !item.kind.ForbiddenItem?
    && (item.kind.FunctionCall? ==> Ingest(cfg, bound.ledger, item, rid, done).Done?)
  }

  lemma NoteItemIs(cfg: Config, s: Ledger, rid: Id, item: Item, done: bool)
    requires item.Item? && item.id.Some?
    ensures var key := ItemKey(done, rid, item.id.value);
            NoteItem(cfg, s, rid, item, done).Done? <==>
              && Stands(s.outputItems, key, item)
              && (key !in s.outputItems ==>
                    NewItemTaken(cfg, s.(outputItems := s.outputItems[key := item]), item, rid, done))
  {
    hide BindIdentity, Ingest, Quiet, Upserted, Charged;
  }

  lemma NewItemFitsIff(cfg: Config, s: Ledger, p: Past, key: ItemKey, item: Item)
    requires CallsKnown(cfg, s, p) && Remembers(s, p) && key.rid !in p.closed
    requires item.Item? && item.id == Some(key.itemId)
    ensures NewItemTaken(cfg, s.(outputItems := s.outputItems[key := item]), item, key.rid, key.done) <==>
            NewItemFits(cfg, p, item, key.rid, key.done)
  {
    hide CallsKnown, Remembers, BindIdentity, Ingest, CallFitsPast, SameShape, ShapedItems, Upserted, Charged;
    var id, noted := item.id.value, s.(outputItems := s.outputItems[key := item]);
    IdentityFits(s, p, id, item, key.rid);
    IdentitiesFit(s, noted, id, item, key.rid);
    var bound := BindIdentity(noted, id, item, key.rid);
    if bound.Done? {
      CallsKnownFrame(cfg, s, bound.ledger, p);
      IngestFits(cfg, bound.ledger, p, item, key.rid, key.done);
    }
  }

  lemma NoteItemFits(cfg: Config, s: Ledger, p: Past, m: Memo, w: Wire)
    requires w.ItemEvent? && CallsKnown(cfg, s, p) && Remembers(s, p) && Recalls(s, m) && w.rid !in p.closed
    ensures NoteItem(cfg, s, w.rid, w.item, w.done).Done? <==> Fits(cfg, p, m, w)
  {
    hide CallsKnown, Remembers, NoteItem, Quiet, NewItemTaken, NewItemFits;
    if w.item.Item? && w.item.id.Some? {
      NoteItemIs(cfg, s, w.rid, w.item, w.done);
      NewItemFitsIff(cfg, s, p, ItemKey(w.done, w.rid, w.item.id.value), w.item);
    }
  }

  lemma ArgumentsFit(cfg: Config, s: Ledger, p: Past, m: Memo, w: Wire)
    requires w.ArgumentsDone? && CallsKnown(cfg, s, p) && Recalls(s, m) && w.rid !in p.closed
    ensures CompleteArguments(cfg, s, w).Done? <==> Fits(cfg, p, m, w)
  {
    hide CallsKnown, Upsert, Upserted, Charged, Quiet, UpdateFits, Conflict, Reject;
    var noted := s.(argumentDone := s.argumentDone[w.callId := Signature(w.rid, w.itemId, w.name, w.args)]);
    CallsKnownFrame(cfg, s, noted, p);
    UpsertFits(cfg, noted, p, ArgumentsUpdate(w));
  }

  lemma CancelFits(cfg: Config, s: Ledger, p: Past, m: Memo, w: Wire)
    requires w.ArgumentsCancelled? && CallsKnown(cfg, s, p) && w.rid !in p.closed
    ensures CancelArguments(cfg, s, w.rid, w.callId).Done? <==> Fits(cfg, p, m, w)
  {
    hide CallsKnown, Upsert, Upserted, Charged, Quiet, UpdateFits;
    UpsertFits(cfg, s, p, CancelUpdate(w.callId, w.rid));
  }

  lemma HandleFits(cfg: Config, s: Ledger, p: Past, m: Memo, w: Wire)
    requires CallsKnown(cfg, s, p) && Remembers(s, p) && Recalls(s, m)
    requires w.ItemEvent? || w.ArgumentsDone? || w.ArgumentsCancelled? ==> w.rid !in p.closed
    requires w.ResponseDone? ==> w.rid in s.terminals
    ensures Handle(cfg, s, w).Done? <==> Fits(cfg, p, m, w)
  {
    hide CallsKnown, Remembers, NoteItem, CompleteArguments, CancelArguments, EndResponse, Retire, CallsOf, Dropped;
    hide UpdateFits, NewItemFits;
    match w
    case ItemEvent(_, _, _) => NoteItemFits(cfg, s, p, m, w);
    case ArgumentsDone(_, _, _, _, _) => ArgumentsFit(cfg, s, p, m, w);
    case ArgumentsCancelled(_, _) => CancelFits(cfg, s, p, m, w);
    case _ =>
  }

  // One frame

  /** The frame is admitted, and too late or in agreement. */
  ghost predicate FrameFits(cfg: Config, p: Past, m: Memo, w: Wire) {
    Admissible(p, m, w) && (Stale(p, m, w) || Fits(cfg, p, m, w))
  }

  lemma HandleSilent(cfg: Config, s: Ledger, w: Wire)
    requires Handle(cfg, s, w).Done? && (w.ResponseDone? ==> w.rid in s.terminals)
    ensures ProtocolError(true) !in Handle(cfg, s, w).value
  {
    if w.ResponseCancelled? {
      hide Retire, CallsOf;
    } else if !w.ResponseDone? {
      hide Handle;
      QuietHandle(cfg, s, w);
    }
  }

  lemma AdmittedKnows(cfg: Config, s: Ledger, p: Past, m: Memo, w: Wire)
    requires Informed(cfg, s, p) && Recalls(s, m) && Admit(s, w).Done?
    ensures var l := Admit(s, w).ledger;
            && CallsKnown(cfg, l, p) && Remembers(l, p.(bindings := p.bindings + NamedBinding(w))) && Recalls(l, m)
            && l.terminals == s.terminals
  {
    assert CallsKnown(cfg, s, p) by {
      hide CallsKept, WithinBudget, Binds, Shapes, ItemsDescribed, SessionKept;
    }
    hide Informed, Kept, Remembers, CallsKnown, NamedBinding, Admit;
    assert Remembers(s, p);
    AdmitRemembers(s, w, p);
    CallsKnownFrame(cfg, s, Admit(s, w).ledger, p);
  }

  /** Which response an item was bound to does not matter to a frame that is handled. */
  lemma FitsBound(cfg: Config, p: Past, q: Past, m: Memo, w: Wire)
    requires q == p.(bindings := q.bindings)
    ensures Fits(cfg, p, m, w) <==> Fits(cfg, q, m, w)
  {
  }

  lemma ProcessFits(cfg: Config, s: Ledger, p: Past, m: Memo, w: Wire)
    requires Informed(cfg, s, p) && Recalls(s, m) && s.terminals.Keys == p.closed
    requires w.ResponseDone? ==> w.rid in s.terminals
    ensures ProtocolError(true) !in Process(cfg, s, w).1 <==> FrameFits(cfg, p, m, w)
  {
    hide Informed, Recalls, Remembers, Admit, Handle, Admissible, Stale, Fits, CallsKnown, NamedBinding;
    InformedParts(cfg, s, p);
    AdmitIff(s, p, m, w);
    var admitted := Admit(s, w);
    assert ProtocolError(true) in [ProtocolError(true)];
    if admitted.Done? {
      AdmittedKnows(cfg, s, p, m, w);
      if admitted.value {
        var q := p.(bindings := p.bindings + NamedBinding(w));
        FitsBound(cfg, p, q, m, w);
        CallsBound(cfg, admitted.ledger, p, q);
        HandleFits(cfg, admitted.ledger, q, m, w);
        if Handle(cfg, admitted.ledger, w).Done? {
          HandleSilent(cfg, admitted.ledger, w);
        }
      }
    }
  }

  lemma InformedParts(cfg: Config, s: Ledger, p: Past)
    requires Informed(cfg, s, p)
    ensures Remembers(s, p)
  {
  }

  lemma CallsBound(cfg: Config, s: Ledger, p: Past, q: Past)
    requires CallsKnown(cfg, s, p) && q == p.(bindings := q.bindings)
    ensures CallsKnown(cfg, s, q)
  {
  }

  // Main result

  lemma FreshFits(cfg: Config, size: nat, a: Adapter, eventId: Option<Id>, w: Wire)
    requires !a.ledger.poisoned && (eventId.Some? ==> Recorded(a.window, eventId.value).None?)
    ensures ProtocolError(true) in Normalize(cfg, size, a, eventId, w).1 <==>
            ProtocolError(true) in Process(cfg, a.ledger, w).1
  {
    hide Handle;
    assert w.Malformed? ==> Admit(a.ledger, w).Thrown?;
    hide Admit;
  }

  /**
   * A frame that is new to the replay window, other than the terminal of an open response, raises no fatal error
   * exactly when none came before it, the session was acknowledged, its item was named for no other response, its
   * response was started and, if closed, cancelled, and either that makes it stale or it agrees with what was first
   * said of its session, response, item, call or truncation, and what it says anew is declared, contradicts nothing
   * said of an open call and stays within the limits.
   */
  lemma FaultlessExactly(cfg: Config, size: nat, inputs: seq<Input>, k: nat)
    requires k < |inputs| && inputs[k].Frame? && FreshId(cfg, size, inputs, k)
    requires inputs[k].wire.ResponseDone? ==> inputs[k].wire.rid in ClosedBy(cfg, size, inputs[..k])
    ensures ProtocolError(true) !in OutputsAt(cfg, size, inputs, k) <==>
            && Unsealed(cfg, size, inputs, k)
            && FrameFits(cfg, PastOf(cfg, size, inputs[..k]), MemoOf(cfg, size, inputs[..k]), inputs[k].wire)
  {
    var a, p, w := After(cfg, size, inputs[..k]), PastOf(cfg, size, inputs[..k]), inputs[k].wire;
    hide After, Unsealed, Normalize, ClosedBy, PastOf, MemoOf, FrameFits, Kept, Remembers, Recalls, Process;
    UnsealedIff(cfg, size, inputs, k);
    PastIs(cfg, size, inputs[..k]);
    if a.ledger.poisoned {
      PoisonStays(cfg, size, a, inputs[k].eventId, w);
      assert ProtocolError(true) in [ProtocolError(true)];
    } else {
      RunRemembers(cfg, size, inputs[..k]);
      RunRecalls(cfg, size, inputs[..k]);
      FreshFits(cfg, size, a, inputs[k].eventId, w);
      ProcessFits(cfg, a.ledger, p, MemoOf(cfg, size, inputs[..k]), w);
    }
  }
}
