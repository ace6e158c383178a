/** The adapter's other answers: repeated frames, submitted outputs, and what a frame that ends nothing announces. */
module ToolReplies {
  import opened Common
  import opened ToolLedger
  import opened ToolRelease
  import opened ToolRuns
  import opened ToolHistory
  import opened ToolVerdict
  import opened ToolNaming
  import opened ToolDropped

  // The replay window

  /** The last frames of a list, as many as the window holds. */
  function Recent(frames: seq<Seen>, size: nat): seq<Seen> {
    var n := if size == 0 then 1 else size;
    if |frames| <= n then frames else frames[|frames| - n..]
  }

  predicate NoneWith(frames: seq<Seen>, eventId: Id) {
    forall e <- frames :: e.eventId != eventId
  }

  /** The frames with an event id that were new when they came, before the adapter was sealed. */
  ghost function Taken(cfg: Config, size: nat, inputs: seq<Input>): seq<Seen> {
    if inputs == [] then []
    else
      var n := |inputs| - 1;
      var before := Taken(cfg, size, inputs[..n]);
      if inputs[n].Frame? && inputs[n].eventId.Some? && !inputs[n].wire.Malformed?
         && Unsealed(cfg, size, inputs, n) && NoneWith(Recent(before, size), inputs[n].eventId.value)
      then before + [Seen(inputs[n].eventId.value, inputs[n].wire)] else before
  }

  lemma SlidIsRecent(frames: seq<Seen>, size: nat, e: Seen)
    ensures Slid(size, Recent(frames, size), e) == Recent(frames + [e], size)
  {
  }

  lemma RecordedNone(window: seq<Seen>, eventId: Id)
    ensures Recorded(window, eventId).None? <==> NoneWith(window, eventId)
  {
    if window != [] {
      var n := |window| - 1;
      RecordedNone(window[..n], eventId);
      assert window == window[..n] + [window[n]];
    }
  }

  lemma FrameWindow(cfg: Config, size: nat, a: Adapter, eventId: Option<Id>, w: Wire)
    ensures Normalize(cfg, size, a, eventId, w).0.window ==
            if !a.ledger.poisoned && !w.Malformed? && eventId.Some? && NoneWith(a.window, eventId.value)
            then Slid(size, a.window, Seen(eventId.value, w)) else a.window
  {
    hide Process, Slid;
    if eventId.Some? {
      RecordedNone(a.window, eventId.value);
    }
  }

  lemma NextWindow(cfg: Config, size: nat, a: Adapter, input: Input)
    ensures Next(cfg, size, a, input).0.window ==
            if input.Frame? && !a.ledger.poisoned && !input.wire.Malformed? && input.eventId.Some?
               && NoneWith(a.window, input.eventId.value)
            then Slid(size, a.window, Seen(input.eventId.value, input.wire)) else a.window
  {
    hide Normalize, InterruptResponse, Submit, Slid;
    if input.Frame? {
      FrameWindow(cfg, size, a, input.eventId, input.wire);
    }
  }

  lemma {:induction false} WindowIsRecent(cfg: Config, size: nat, inputs: seq<Input>)
    ensures After(cfg, size, inputs).window == Recent(Taken(cfg, size, inputs), size)
  {
    if inputs != [] {
      hide Next, Slid, NoneWith, Unsealed, Recent;
      var n := |inputs| - 1;
      WindowIsRecent(cfg, size, inputs[..n]);
      NextWindow(cfg, size, After(cfg, size, inputs[..n]), inputs[n]);
      UnsealedIff(cfg, size, inputs, n);
      if inputs[n].Frame? && inputs[n].eventId.Some? {
        SlidIsRecent(Taken(cfg, size, inputs[..n]), size, Seen(inputs[n].eventId.value, inputs[n].wire));
      }
    } else {
      NothingRecent(size);
    }
  }

  lemma NothingRecent(size: nat)
    ensures Recent([], size) == []
  {
  }

  predicate OneEach(window: seq<Seen>) {
    forall i, j :: 0 <= i < j < |window| ==> window[i].eventId != window[j].eventId
  }

  lemma RecordedOne(window: seq<Seen>, e: Seen)
    requires OneEach(window) && e in window
    ensures Recorded(window, e.eventId) == Some(e.wire)
  {
    var n := |window| - 1;
    if window[n] != e {
      RecordedOne(window[..n], e);
      var i :| 0 <= i < n && window[i] == e;
      assert window[i].eventId != window[n].eventId;
    }
  }

  lemma NextOneEach(cfg: Config, size: nat, a: Adapter, input: Input)
    requires OneEach(a.window)
    ensures OneEach(Next(cfg, size, a, input).0.window)
  {
    hide Next;
    NextWindow(cfg, size, a, input);
    if input.Frame? && input.eventId.Some? && NoneWith(a.window, input.eventId.value) {
      var e := Seen(input.eventId.value, input.wire);
      var window := Slid(size, a.window, e);
      forall i, j | 0 <= i < j < |window| ensures window[i].eventId != window[j].eventId {
        assert window[i] in a.window;
      }
    }
  }

  lemma {:induction false} WindowOneEach(cfg: Config, size: nat, inputs: seq<Input>)
    ensures OneEach(After(cfg, size, inputs).window)
  {
    if inputs != [] {
      hide Next, OneEach;
      var n := |inputs| - 1;
      WindowOneEach(cfg, size, inputs[..n]);
      NextOneEach(cfg, size, After(cfg, size, inputs[..n]), inputs[n]);
    }
  }

  /**
   * A frame under the event id of one of the frames last taken changes nothing and puts out nothing when it is that
   * frame again, and is a fatal error when it is another.
   */
  lemma RepeatedFrame(cfg: Config, size: nat, inputs: seq<Input>, k: nat, e: Seen)
    requires k < |inputs| && inputs[k].Frame? && inputs[k].eventId == Some(e.eventId) && !inputs[k].wire.Malformed?
    requires Unsealed(cfg, size, inputs, k) && e in Recent(Taken(cfg, size, inputs[..k]), size)
    ensures inputs[k].wire == e.wire ==>
              && OutputsAt(cfg, size, inputs, k) == []
              && After(cfg, size, inputs[..k + 1]) == After(cfg, size, inputs[..k])
    ensures inputs[k].wire != e.wire ==>
              OutputsAt(cfg, size, inputs, k) == [ProtocolError(true)] && !Unsealed(cfg, size, inputs, k + 1)
  {
    var a := After(cfg, size, inputs[..k]);
    UnsealedIff(cfg, size, inputs, k);
    WindowIsRecent(cfg, size, inputs[..k]);
    WindowOneEach(cfg, size, inputs[..k]);
    RecordedOne(a.window, e);
    assert inputs[..k + 1][..k] == inputs[..k];
    if inputs[k].wire != e.wire {
      assert ProtocolError(true) in OutputsAt(cfg, size, inputs, k);
    }
    hide Process, Recorded, Slid, Recent, Taken, OneEach;
  }

  // Submitted outputs

  ghost predicate WasReleased(cfg: Config, size: nat, inputs: seq<Input>, c: Id) {
    exists i :: 0 <= i < |inputs| && ReleasedIn(OutputsAt(cfg, size, inputs, i), c)
  }

  ghost predicate WasAnswered(cfg: Config, size: nat, inputs: seq<Input>, c: Id) {
    exists i :: 0 <= i < |inputs| && Accepts(cfg, size, inputs, i, c)
  }

  /** What one step does to an authorization: it appears at its release and is used by an accepted submission. */
  ghost predicate AuthorizedBy(before: map<Id, bool>, after: map<Id, bool>, released: bool, used: bool, c: Id) {
    && (c in after <==> c in before || released)
    && (c in after ==> (after[c] <==> (c in before && before[c]) || used))
  }

  lemma NothingReleased(before: map<Id, bool>, outputs: seq<Output>, c: Id)
    requires forall o <- outputs :: !o.Ready?
    ensures !ReleasedIn(outputs, c) && AuthorizedBy(before, before, false, false, c)
  {
  }

  lemma AuthorizedAre(before: map<Id, bool>, calls: seq<PendingCall>, c: Id)
    requires forall i :: 0 <= i < |calls| ==> calls[i].callId !in before
    ensures var released := exists i :: 0 <= i < |calls| && calls[i].callId == c;
            AuthorizedBy(before, Authorized(before, calls), released, false, c)
  {
    if calls != [] {
      var n := |calls| - 1;
      AuthorizedAre(before, calls[..n], c);
    }
  }

  lemma DecideReleased(cfg: Config, scan: Scan, rid: Id, c: Id)
    requires (forall o <- scan.errors :: !o.Ready?) && !scan.invalid && CallsOf(scan.ledger.pending, rid) != []
    requires AllReady(cfg, CallsOf(scan.ledger.pending, rid), scan.members)
    ensures var calls := CallsOf(scan.ledger.pending, rid);
            && (ReleasedIn(Decide(cfg, scan, rid).value, c) <==> exists i :: 0 <= i < |calls| && calls[i].callId == c)
            && Decide(cfg, scan, rid).ledger.authorizations ==
               Authorized(Retire(cfg, scan.ledger, rid).authorizations, calls)
  {
    var calls, r := CallsOf(scan.ledger.pending, rid), Decide(cfg, scan, rid);
    hide CallsOf, Retire, CallErrors, Authorized, ReleasedIn;
    assert Ready(rid, Release(calls)) in r.value;
    ReleasedAre(calls, rid, r.value, c);
  }

  lemma DecideUnreleased(cfg: Config, scan: Scan, rid: Id, c: Id)
    requires forall o <- scan.errors :: !o.Ready?
    requires var calls := CallsOf(scan.ledger.pending, rid);
             !(!scan.invalid && calls != [] && AllReady(cfg, calls, scan.members))
    ensures !ReleasedIn(Decide(cfg, scan, rid).value, c)
    ensures Decide(cfg, scan, rid).ledger.authorizations == Retire(cfg, scan.ledger, rid).authorizations
  {
    DroppedIs(scan.ledger.pending, rid);
    hide CallsOf, Retire, CallErrors, Authorized, Dropped, AllReady, Judge, ReleasedIn, Names;
    NothingReleased(map[], Decide(cfg, scan, rid).value, c);
  }

  lemma DecideAuthorizes(cfg: Config, scan: Scan, rid: Id, c: Id)
    requires (forall o <- scan.errors :: !o.Ready?) && Unretired(scan.ledger)
    requires forall x <- scan.ledger.authorizations :: x in scan.ledger.retired
    ensures var r := Decide(cfg, scan, rid);
            && r.Done?
            && AuthorizedBy(scan.ledger.authorizations, r.ledger.authorizations, ReleasedIn(r.value, c), false, c)
  {
    var calls := CallsOf(scan.ledger.pending, rid);
    RetireGrows(cfg, scan.ledger, rid);
    hide CallsOf, Retire, ReleasedIn, Authorized, Judge;
    if !scan.invalid && calls != [] && AllReady(cfg, calls, scan.members) {
      DecideReleased(cfg, scan, rid, c);
      forall i | 0 <= i < |calls| ensures calls[i].callId !in scan.ledger.authorizations {
        assert calls[i] in calls;
      }
      AuthorizedAre(scan.ledger.authorizations, calls, c);
    } else {
      DecideUnreleased(cfg, scan, rid, c);
    }
    hide AllReady, CallErrors, AuthorizedBy;
  }

  lemma ReleasedAre(calls: seq<PendingCall>, rid: Id, outputs: seq<Output>, c: Id)
    requires forall i :: 0 <= i < |calls| ==> calls[i].name.Some? && calls[i].args.Some?
    requires Ready(rid, Release(calls)) in outputs
    requires forall x <- outputs :: x.Ready? ==> x == Ready(rid, Release(calls))
    ensures ReleasedIn(outputs, c) <==> exists i :: 0 <= i < |calls| && calls[i].callId == c
  {
    var o := Ready(rid, Release(calls));
    if i :| 0 <= i < |calls| && calls[i].callId == c {
      assert o.calls[i] in o.calls;
    }
  }

  lemma EndAuthorizes(cfg: Config, marked: Ledger, w: Wire, c: Id)
    requires w.ResponseDone? && Unretired(marked) && forall x <- marked.authorizations :: x in marked.retired
    ensures var r := EndResponse(cfg, marked, w);
            AuthorizedBy(marked.authorizations, r.ledger.authorizations, ReleasedIn(r.value, c), false, c)
  {
    hide ScanItems, Decide, Unretired, NamedWithin, Names, AuthorizedBy, ReleasedIn;
    if w.output.Some? && |w.output.value| <= MAX_OUTPUT_ITEMS && w.status == Completed {
      var start, scan := Scan(marked, {}, map[], false, []), Scanned(cfg, marked, w);
      PassNames(cfg, start, w.output.value, w.rid);
      PassRest(cfg, start, w.output.value, w.rid);
      FatalErrors(cfg, start, w.output.value, w.rid);
      DecideAuthorizes(cfg, scan, w.rid, c);
    } else {
      UnreleasedAuthorizes(cfg, marked, w, true, c);
      UnreleasedAuthorizes(cfg, marked, w, w.status == Unknown, c);
    }
  }

  lemma UnreleasedAuthorizes(cfg: Config, marked: Ledger, w: Wire, fatal: bool, c: Id)
    requires w.ResponseDone?
    ensures var r := EndWithoutRelease(cfg, marked, w, fatal);
            AuthorizedBy(marked.authorizations, r.ledger.authorizations, ReleasedIn(r.value, c), false, c)
  {
    EndGrows(cfg, marked, w, fatal);
    DroppedIs(marked.pending, w.rid);
    hide Retire, CallsOf, Dropped, Names;
    NothingReleased(marked.authorizations, EndWithoutRelease(cfg, marked, w, fatal).value, c);
  }

  /** What a pass over terminal items leaves alone. */
  ghost predicate SameRest(s: Ledger, t: Ledger) {
    && t.authorizations == s.authorizations && t.argumentDone == s.argumentDone && t.truncations == s.truncations
    && t.sessionAck == s.sessionAck && t.sessionReady == s.sessionReady && t.starts == s.starts
    && t.terminals == s.terminals && t.retired == s.retired && t.outputItems == s.outputItems
  }

  lemma CallsRest(s: Ledger, pending: seq<PendingCall>, nextOrder: nat, pendingBytes: int)
    ensures SameRest(s, s.(pending := pending, nextOrder := nextOrder, pendingBytes := pendingBytes))
  {
  }

  lemma AdmitRest(cfg: Config, s: Ledger, u: Update)
    ensures SameRest(s, AdmitCall(cfg, s, u).ledger)
  {
    var r := AdmitCall(cfg, s, u);
    CallsRest(s, r.ledger.pending, r.ledger.nextOrder, r.ledger.pendingBytes);
    RejectRest(s, u.callId, u.rid);
    hide CallsOf, Reject, SameRest;
    assert s == s.(pending := s.pending, nextOrder := s.nextOrder, pendingBytes := s.pendingBytes);
  }

  lemma ExtendRest(cfg: Config, s: Ledger, i: nat, u: Update)
    requires i < |s.pending|
    ensures SameRest(s, ExtendCall(cfg, s, i, u).ledger)
  {
    var r := ExtendCall(cfg, s, i, u);
    CallsRest(s, r.ledger.pending, r.ledger.nextOrder, r.ledger.pendingBytes);
    hide SameRest;
    assert r.ledger == s.(pending := r.ledger.pending, nextOrder := s.nextOrder, pendingBytes := r.ledger.pendingBytes);
  }

  lemma UpsertRest(cfg: Config, s: Ledger, u: Update)
    ensures SameRest(s, Upsert(cfg, s, u).ledger)
  {
    hide Find, AdmitCall, ExtendCall, Upserted, Charged, SameRest;
    CallsRest(s, s.pending, s.nextOrder, s.pendingBytes);
    assert s == s.(pending := s.pending, nextOrder := s.nextOrder, pendingBytes := s.pendingBytes);
    if u.callId !in s.rejected && u.callId !in s.retired {
      var found := Find(s.pending, u.callId);
      if found.None? {
        AdmitRest(cfg, s, u);
      } else {
        ExtendRest(cfg, s, found.value, u);
      }
    }
  }

  lemma RejectRest(s: Ledger, c: Id, rid: Id)
    ensures SameRest(s, Reject(s, c, rid))
  {
    SelfRest(s);
    SelfRest(s.(rejected := s.rejected[c := rid]));
  }

  lemma SelfRest(s: Ledger)
    ensures SameRest(s, s)
  {
  }

  lemma ThroughRest(s: Ledger, t: Ledger, c: Id, rid: Id)
    requires SameRest(s, t)
    ensures SameRest(s, Reject(t, c, rid))
  {
    RejectRest(t, c, rid);
    hide Reject;
  }

  lemma PendingRest(s: Ledger, t: Ledger, pending: seq<PendingCall>)
    requires SameRest(s, t)
    ensures SameRest(s, t.(pending := pending))
  {
  }

  lemma IngestRest(cfg: Config, s: Ledger, item: Item, rid: Id, terminal: bool)
    requires item.Item?
    ensures SameRest(s, Ingest(cfg, s, item, rid, terminal).ledger)
  {
    hide Find, Upserted, Charged, Upsert, Reject, SameRest;
    SelfRest(s);
    if item.callId.Some? {
      var r := Upsert(cfg, s, UpdateOf(item, rid, terminal));
      ThroughRest(s, s, item.callId.value, rid);
      UpsertRest(cfg, s, UpdateOf(item, rid, terminal));
      ThroughRest(s, r.ledger, item.callId.value, rid);
      PendingRest(s, r.ledger, Ingest(cfg, s, item, rid, terminal).ledger.pending);
    }
  }

  lemma ConflictRest(s: Ledger, c: Id)
    ensures SameRest(s, Conflict(s, c))
  {
    var pending := Conflict(s, c).pending;
    assert Conflict(s, c) == s.(pending := pending) by {
      hide Find;
    }
    CallsRest(s, pending, s.nextOrder, s.pendingBytes);
    hide Conflict, SameRest;
    assert s.(pending := pending) == s.(pending := pending, nextOrder := s.nextOrder, pendingBytes := s.pendingBytes);
  }

  lemma ItemsRest(s: Ledger, itemResponses: map<Id, Id>, identities: map<Id, Identity>)
    ensures SameRest(s, s.(itemResponses := itemResponses, identities := identities))
  {
  }

  lemma BindResponseItems(s: Ledger, itemId: Id, rid: Id)
    ensures var r := BindResponse(s, itemId, rid).ledger; r == s.(itemResponses := r.itemResponses)
  {
  }

  lemma SameItems(s: Ledger)
    ensures s == s.(identities := s.identities) && s == s.(itemResponses := s.itemResponses)
  {
  }

  lemma BindIdentityItems(s: Ledger, itemId: Id, item: Item, rid: Id)
    requires item.Item?
    ensures var r := BindIdentity(s, itemId, item, rid).ledger; r == s.(identities := r.identities)
  {
    SameItems(s);
    var r := BindIdentity(s, itemId, item, rid).ledger;
    if itemId !in s.identities {
      assert r == s || r == s.(identities := s.identities[itemId := Identity(rid, item.kind, item.callId, item.name)]);
    } else {
      var current := s.identities[itemId];
      var joined := current.(callId := Joined(current.callId, item.callId));
      var named := joined.(name := Joined(current.name, item.name));
      assert || r == s || r == s.(identities := s.identities[itemId := joined])
             || r == s.(identities := s.identities[itemId := named]);
    }
  }

  lemma BindTerminalRest(s: Ledger, item: Item, rid: Id)
    requires item.Item?
    ensures SameRest(s, BindTerminal(s, item, rid).ledger)
  {
    hide BindResponse, BindIdentity, SameRest;
    var r := BindTerminal(s, item, rid).ledger;
    if item.id.Some? {
      BindResponseItems(s, item.id.value, rid);
      BindIdentityItems(BindResponse(s, item.id.value, rid).ledger, item.id.value, item, rid);
    }
    ItemsRest(s, r.itemResponses, r.identities);
    assert r == s.(itemResponses := r.itemResponses, identities := r.identities);
  }

  lemma ScanFunctionRest(cfg: Config, scan: Scan, item: Item, rid: Id)
    requires item.Item?
    ensures SameRest(scan.ledger, ScanFunction(cfg, scan, item, rid).ledger)
  {
    hide Ingest, Conflict, Upserted, Charged;
    IngestRest(cfg, scan.ledger, item, rid, true);
    if item.callId.Some? {
      ConflictRest(scan.ledger, item.callId.value);
      ConflictRest(Ingest(cfg, scan.ledger, item, rid, true).ledger, item.callId.value);
    }
  }

  lemma ScanItemRest(cfg: Config, scan: Scan, item: Item, rid: Id)
    ensures SameRest(scan.ledger, ScanItem(cfg, scan, item, rid).ledger)
  {
    hide ScanFunction, BindTerminal;
    if item.Item? {
      var seen := if item.id.Some? then scan.(itemIds := scan.itemIds + {item.id.value}) else scan;
      BindTerminalRest(seen.ledger, item, rid);
      ScanFunctionRest(cfg, seen.(ledger := BindTerminal(seen.ledger, item, rid).ledger), item, rid);
    }
  }

  lemma {:induction false} PassRest(cfg: Config, scan: Scan, items: seq<Item>, rid: Id)
    ensures SameRest(scan.ledger, ScanItems(cfg, scan, items, rid).ledger)
  {
    hide ScanItem;
    if items != [] {
      var n := |items| - 1;
      PassRest(cfg, scan, items[..n], rid);
      ScanItemRest(cfg, ScanItems(cfg, scan, items[..n], rid), items[n], rid);
    }
  }

  lemma HandleAuthorizes(cfg: Config, s: Ledger, w: Wire, seen: set<Update>, c: Id)
    requires Kept(cfg, s, seen, s.terminals.Keys) && Handle(cfg, s, w).Done?
    ensures var r := Handle(cfg, s, w);
            AuthorizedBy(s.authorizations, r.ledger.authorizations, ReleasedIn(r.value, c), false, c)
  {
    KeptUnretired(cfg, s, seen, s.terminals.Keys);
    KeptAuthorized(cfg, s, seen, s.terminals.Keys);
    hide Kept, Unretired, CancelResponse, EndResponse, AuthorizedBy, ReleasedIn;
    if w.ResponseDone? {
      NothingReleased(s.authorizations, [], c);
      var marked := s.(terminals := s.terminals[w.rid := TerminalOf(w)]);
      MarkedUnretired(s, w.rid, TerminalOf(w));
      EndAuthorizes(cfg, marked, w, c);
    } else if w.ResponseCancelled? {
      CancelGrows(cfg, s, w.rid);
      NothingReleased(s.authorizations, CancelResponse(cfg, s, w.rid).value, c);
    } else {
      hide Handle;
      QuietHandle(cfg, s, w);
      NothingReleased(s.authorizations, Handle(cfg, s, w).value, c);
    }
  }

  lemma KeptAuthorized(cfg: Config, s: Ledger, seen: set<Update>, closed: set<Id>)
    requires Kept(cfg, s, seen, closed)
    ensures forall x <- s.authorizations :: x in s.retired
  {
    hide CallsKept, WithinBudget;
  }

  lemma ProcessAuthorizes(cfg: Config, s: Ledger, w: Wire, seen: set<Update>, c: Id)
    requires Kept(cfg, s, seen, s.terminals.Keys) && !s.poisoned && !Process(cfg, s, w).0.poisoned
    ensures var (next, outputs) := Process(cfg, s, w);
            AuthorizedBy(s.authorizations, next.authorizations, ReleasedIn(outputs, c), false, c)
  {
    hide Kept, Admit, Handle, AuthorizedBy, ReleasedIn;
    var admitted := Admit(s, w).ledger;
    KeptFrame(cfg, s, admitted, seen, s.terminals.Keys);
    if Admit(s, w).value {
      HandleAuthorizes(cfg, admitted, w, seen, c);
    } else {
      NothingReleased(s.authorizations, [], c);
    }
  }

  lemma SubmitAuthorizes(s: Ledger, ids: seq<Id>, c: Id)
    requires Submit(s, ids).Done?
    ensures AuthorizedBy(s.authorizations, Submit(s, ids).ledger.authorizations, false, c in ids, c)
    ensures Submit(s, ids).value == []
  {
    hide Distinct;
    if c in ids {
      var i :| 0 <= i < |ids| && ids[i] == c;
    }
  }

  lemma NextAuthorizes(cfg: Config, size: nat, a: Adapter, input: Input, seen: set<Update>, c: Id)
    requires Kept(cfg, a.ledger, seen, a.ledger.terminals.Keys)
    requires !a.ledger.poisoned && !Next(cfg, size, a, input).0.ledger.poisoned
    ensures var (next, outputs) := Next(cfg, size, a, input);
            AuthorizedBy(a.ledger.authorizations, next.ledger.authorizations, ReleasedIn(outputs, c),
                         input.SubmitOutputs? && c in input.callIds && Submit(a.ledger, input.callIds).Done?, c)
  {
    hide Kept, Normalize, CancelResponse, Submit, AuthorizedBy, ReleasedIn;
    NothingReleased(a.ledger.authorizations, [], c);
    match input
    case Frame(eventId, w) => FrameAuthorizes(cfg, size, a, eventId, w, seen, c);
    case Interrupt(rid) =>
      if InterruptResponse(cfg, a.ledger, rid).Done? {
        CancelGrows(cfg, a.ledger, rid);
        NothingReleased(a.ledger.authorizations, CancelResponse(cfg, a.ledger, rid).value, c);
      }
    case SubmitOutputs(ids) =>
      if Submit(a.ledger, ids).Done? {
        SubmitAuthorizes(a.ledger, ids, c);
      }
  }

  /** A frame that leaves the adapter unsealed is ignored or processed. */
  lemma IgnoredOrProcessed(cfg: Config, size: nat, a: Adapter, eventId: Option<Id>, w: Wire)
    requires !a.ledger.poisoned && !Normalize(cfg, size, a, eventId, w).0.ledger.poisoned
    ensures var r, p := Normalize(cfg, size, a, eventId, w), Process(cfg, a.ledger, w);
            (r.0.ledger == a.ledger && r.1 == []) || (r.0.ledger == p.0 && r.1 == p.1 && !p.0.poisoned)
  {
    hide Process, Recorded, Slid;
  }

  lemma FrameAuthorizes(cfg: Config, size: nat, a: Adapter, eventId: Option<Id>, w: Wire, seen: set<Update>, c: Id)
    requires Kept(cfg, a.ledger, seen, a.ledger.terminals.Keys)
    requires !a.ledger.poisoned && !Normalize(cfg, size, a, eventId, w).0.ledger.poisoned
    ensures var r := Normalize(cfg, size, a, eventId, w);
            AuthorizedBy(a.ledger.authorizations, r.0.ledger.authorizations, ReleasedIn(r.1, c), false, c)
  {
    hide Kept, Normalize, Process, AuthorizedBy, ReleasedIn;
    NothingReleased(a.ledger.authorizations, [], c);
    IgnoredOrProcessed(cfg, size, a, eventId, w);
    if !Process(cfg, a.ledger, w).0.poisoned {
      ProcessAuthorizes(cfg, a.ledger, w, seen, c);
    }
  }

  /** A call is authorized once it was released, until an output for it was accepted. */
  lemma {:induction false} RunAuthorizes(cfg: Config, size: nat, inputs: seq<Input>, c: Id)
    requires !After(cfg, size, inputs).ledger.poisoned
    ensures AuthorizedBy(map[], After(cfg, size, inputs).ledger.authorizations, WasReleased(cfg, size, inputs, c),
                         WasAnswered(cfg, size, inputs, c), c)
  {
    if inputs != [] {
      var n := |inputs| - 1;
      var a := After(cfg, size, inputs[..n]);
      RunGrows(cfg, size, inputs, n);
      RunFaithful(cfg, size, inputs[..n]);
      hide Next, Kept, SaidBy, ClosedBy, Submit, ReleasedIn;
      RunAuthorizes(cfg, size, inputs[..n], c);
      NextAuthorizes(cfg, size, a, inputs[n], SaidBy(inputs[..n]), c);
      ReleasedSnoc(cfg, size, inputs, c);
      AnsweredSnoc(cfg, size, inputs, c);
      AnsweredWasReleased(cfg, size, inputs[..n], c);
    }
  }

  lemma ReleasedSnoc(cfg: Config, size: nat, inputs: seq<Input>, c: Id)
    requires inputs != []
    ensures var n := |inputs| - 1;
            WasReleased(cfg, size, inputs, c) <==>
            WasReleased(cfg, size, inputs[..n], c) || ReleasedIn(OutputsAt(cfg, size, inputs, n), c)
  {
    hide OutputsAt, ReleasedIn;
    var n := |inputs| - 1;
    forall i: nat | i < n ensures OutputsAt(cfg, size, inputs[..n], i) == OutputsAt(cfg, size, inputs, i) {
      SameOutputs(cfg, size, inputs, n, i);
    }
  }

  lemma AnsweredSnoc(cfg: Config, size: nat, inputs: seq<Input>, c: Id)
    requires inputs != []
    ensures var n := |inputs| - 1;
            WasAnswered(cfg, size, inputs, c) <==>
            WasAnswered(cfg, size, inputs[..n], c) || Accepts(cfg, size, inputs, n, c)
  {
    hide After, Submit;
    var n := |inputs| - 1;
    forall i: nat | i < n ensures Accepts(cfg, size, inputs[..n], i, c) == Accepts(cfg, size, inputs, i, c) {
      assert inputs[..n][..i] == inputs[..i];
    }
  }

  lemma AnsweredWasReleased(cfg: Config, size: nat, inputs: seq<Input>, c: Id)
    ensures WasAnswered(cfg, size, inputs, c) ==> WasReleased(cfg, size, inputs, c)
  {
    hide Accepts, ReleasedIn, OutputsAt;
    if WasAnswered(cfg, size, inputs, c) {
      var i :| 0 <= i < |inputs| && Accepts(cfg, size, inputs, i, c);
      SubmittedAfterRelease(cfg, size, inputs, i, c);
    }
  }

  /**
   * A submission is accepted exactly when no fatal error came before, it names one to 64 calls, none of them twice,
   * and each was released before and had no output accepted yet.
   */
  lemma SubmittedExactly(cfg: Config, size: nat, inputs: seq<Input>, k: nat, c: Id)
    requires k < |inputs| && inputs[k].SubmitOutputs? && c in inputs[k].callIds
    ensures Accepts(cfg, size, inputs, k, c) <==>
            && Unsealed(cfg, size, inputs, k) && |inputs[k].callIds| <= 64 && Distinct(inputs[k].callIds)
            && forall x <- inputs[k].callIds ::
                 WasReleased(cfg, size, inputs[..k], x) && !WasAnswered(cfg, size, inputs[..k], x)
  {
    var s, ids := After(cfg, size, inputs[..k]).ledger, inputs[k].callIds;
    hide After, Unsealed, WasReleased, WasAnswered, Distinct, Submit;
    UnsealedIff(cfg, size, inputs, k);
    SubmitIff(s, ids);
    if !s.poisoned {
      forall x <- ids
        ensures x in s.authorizations && !s.authorizations[x] <==>
                WasReleased(cfg, size, inputs[..k], x) && !WasAnswered(cfg, size, inputs[..k], x)
      {
        RunAuthorizes(cfg, size, inputs[..k], x);
      }
      if c in s.authorizations {
        ReleasedIsReady(cfg, size, inputs[..k], c);
      }
    }
  }

  lemma SubmitIff(s: Ledger, ids: seq<Id>)
    ensures Submit(s, ids).Done? <==>
            && s.sessionReady && !s.poisoned && 1 <= |ids| <= 64 && Distinct(ids)
            && forall x <- ids :: x in s.authorizations && !s.authorizations[x]
  {
    hide Distinct, Submitted;
    assert forall i :: 0 <= i < |ids| ==> ids[i] in ids;
  }

  lemma ReleasedIsReady(cfg: Config, size: nat, inputs: seq<Input>, c: Id)
    requires !After(cfg, size, inputs).ledger.poisoned && c in After(cfg, size, inputs).ledger.authorizations
    ensures After(cfg, size, inputs).ledger.sessionReady
  {
    var s := After(cfg, size, inputs).ledger;
    LedgerKnows(cfg, size, inputs);
    AuthorizedWasReleased(cfg, size, inputs, c);
    hide After, ClosedBy, StartedBy, SessionKept;
    var i :| 0 <= i < |inputs| && ReleasedIn(OutputsAt(cfg, size, inputs, i), c);
    var o :| o in OutputsAt(cfg, size, inputs, i) && o.Ready?;
    hide OutputsAt, ReleasedIn;
    ReadyWasStarted(cfg, size, inputs, i, o);
    StartedIsReady(s, o.rid);
  }

  lemma ReadyWasStarted(cfg: Config, size: nat, inputs: seq<Input>, i: nat, o: Output)
    requires i < |inputs| && o.Ready? && o in OutputsAt(cfg, size, inputs, i)
    ensures o.rid in StartedBy(inputs)
  {
    ReleaseIsExact(cfg, size, inputs, i, o.rid, o.calls);
    hide OutputsAt, Released, ClosedBy, SaidBy;
    var j :| 0 <= j < i && StartsAt(inputs[j], o.rid);
    StartedHolds(inputs, j, o.rid);
  }

  lemma {:induction false} StartedHolds(inputs: seq<Input>, j: nat, rid: Id)
    requires j < |inputs| && StartsAt(inputs[j], rid)
    ensures rid in StartedBy(inputs)
  {
    var n := |inputs| - 1;
    if j < n {
      StartedHolds(inputs[..n], j, rid);
    }
  }

  // What a frame that ends no response announces

  ghost predicate Acknowledged(inputs: seq<Input>) {
    exists i :: 0 <= i < |inputs| && inputs[i].Frame? && inputs[i].wire.SessionUpdated?
  }

  /** The calls whose arguments a frame completed while their response was open. */
  function Finalized(cfg: Config, size: nat, inputs: seq<Input>): set<Id> {
    if inputs == [] then {}
    else
      var n := |inputs| - 1;
      Finalized(cfg, size, inputs[..n]) +
      if inputs[n].Frame? && inputs[n].wire.ArgumentsDone? && inputs[n].wire.rid !in ClosedBy(cfg, size, inputs[..n])
      then {inputs[n].wire.callId} else {}
  }

  /** The items whose playback a frame confirmed as truncated. */
  function Cut(inputs: seq<Input>): set<Id> {
    if inputs == [] then {}
    else
      var n := |inputs| - 1;
      Cut(inputs[..n]) + if inputs[n].Frame? then CutBy(inputs[n].wire) else {}
  }

  function CutBy(w: Wire): set<Id> {
    if w.Truncated? && w.itemId.Some? then {w.itemId.value} else {}
  }

  function FinalizedBy(w: Wire): set<Id> {
    if w.ArgumentsDone? then {w.callId} else {}
  }

  /** What a handled frame adds to these notes. */
  ghost predicate NotesGrow(s: Ledger, t: Ledger, w: Wire) {
    && t.argumentDone.Keys == s.argumentDone.Keys + FinalizedBy(w)
    && t.truncations.Keys == s.truncations.Keys + CutBy(w)
    && (t.sessionAck.Some? <==> s.sessionAck.Some? || w.SessionUpdated?)
  }

  /** The notes as they were. */
  ghost predicate SameNoted(s: Ledger, t: Ledger) {
    t.argumentDone == s.argumentDone && t.truncations == s.truncations && t.sessionAck == s.sessionAck
  }

  lemma RestGrows(s: Ledger, t: Ledger, w: Wire)
    requires SameNoted(s, t)
    requires !w.ArgumentsDone? && !w.Truncated? && !w.SessionUpdated?
    ensures NotesGrow(s, t, w)
  {
  }

  lemma NoteItemNotes(cfg: Config, s: Ledger, w: Wire)
    requires w.ItemEvent? && NoteItem(cfg, s, w.rid, w.item, w.done).Done?
    ensures NotesGrow(s, NoteItem(cfg, s, w.rid, w.item, w.done).ledger, w)
  {
    hide NoteItem, NotesGrow, Quiet;
    var next := NoteItem(cfg, s, w.rid, w.item, w.done).ledger;
    if ItemKey(w.done, w.rid, w.item.id.value) in s.outputItems {
      NoteItemAgain(cfg, s, w.rid, w.item, w.done);
    } else {
      NoteItemLedger(cfg, s, w.rid, w.item, w.done);
      hide BindIdentity;
    }
    RestGrows(s, next, w);
  }

  lemma PutKeys<V>(m: map<Id, V>, k: Id, v: V)
    ensures m[k := v].Keys == m.Keys + {k}
  {
  }

  lemma ArgumentsAnnounced(cfg: Config, s: Ledger, w: Wire)
    requires w.ArgumentsDone? && CompleteArguments(cfg, s, w).Done?
    ensures CompleteArguments(cfg, s, w).value ==
            if w.callId in s.argumentDone then [] else [ArgumentsNoted(w.rid, w.callId)]
    ensures w.callId in s.argumentDone ==> CompleteArguments(cfg, s, w).ledger == s
  {
    hide Upsert, Quiet;
  }

  lemma NotesPut(s: Ledger, t: Ledger, w: Wire, signature: Signature)
    requires w.ArgumentsDone? && SameNoted(s.(argumentDone := s.argumentDone[w.callId := signature]), t)
    ensures NotesGrow(s, t, w)
  {
    PutKeys(s.argumentDone, w.callId, signature);
  }

  lemma ArgumentsNotes(cfg: Config, s: Ledger, w: Wire)
    requires w.ArgumentsDone? && CompleteArguments(cfg, s, w).Done?
    ensures NotesGrow(s, CompleteArguments(cfg, s, w).ledger, w)
  {
    ArgumentsAnnounced(cfg, s, w);
    hide Upserted, Charged, Quiet, CompleteArguments;
    if w.callId !in s.argumentDone {
      hide NotesGrow;
      var signature := Signature(w.rid, w.itemId, w.name, w.args);
      var noted := s.(argumentDone := s.argumentDone[w.callId := signature]);
      var i := CompletedCall(cfg, s, w, noted, ArgumentsUpdate(w));
      UpsertFrame(noted, CompleteArguments(cfg, s, w).ledger, ArgumentsUpdate(w), i);
      NotesPut(s, CompleteArguments(cfg, s, w).ledger, w, signature);
    }
  }

  lemma CancelNotes(cfg: Config, s: Ledger, w: Wire)
    requires w.ArgumentsCancelled? && CancelArguments(cfg, s, w.rid, w.callId).Done?
    ensures NotesGrow(s, CancelArguments(cfg, s, w.rid, w.callId).ledger, w)
  {
    hide CancelArguments, Upserted, Charged, NotesGrow;
    var i := CancelledCall(cfg, s, w.rid, w.callId);
    UpsertFrame(s, CancelArguments(cfg, s, w.rid, w.callId).ledger, CancelUpdate(w.callId, w.rid), i);
    RestGrows(s, CancelArguments(cfg, s, w.rid, w.callId).ledger, w);
  }

  lemma DecideNotes(cfg: Config, scan: Scan, rid: Id)
    ensures SameNoted(scan.ledger, Decide(cfg, scan, rid).ledger)
  {
    RetireGrows(cfg, scan.ledger, rid);
    hide Retire, CallsOf, AllReady, Judge, Dropped, CallErrors, Authorized;
  }

  lemma UnreleasedNotes(cfg: Config, marked: Ledger, w: Wire, fatal: bool)
    requires w.ResponseDone?
    ensures SameNoted(marked, EndWithoutRelease(cfg, marked, w, fatal).ledger)
  {
    RetireGrows(cfg, marked, w.rid);
    hide Retire, CallsOf, Dropped;
  }

  lemma EndResponseNotes(cfg: Config, marked: Ledger, w: Wire)
    requires w.ResponseDone?
    ensures SameNoted(marked, EndResponse(cfg, marked, w).ledger)
  {
    hide ScanItems, Decide, EndWithoutRelease;
    if w.output.Some? && |w.output.value| <= MAX_OUTPUT_ITEMS && w.status == Completed {
      PassRest(cfg, Scan(marked, {}, map[], false, []), w.output.value, w.rid);
      DecideNotes(cfg, Scanned(cfg, marked, w), w.rid);
    } else {
      UnreleasedNotes(cfg, marked, w, true);
      UnreleasedNotes(cfg, marked, w, w.status == Unknown);
    }
  }

  lemma EndNotes(cfg: Config, s: Ledger, w: Wire)
    requires w.ResponseDone? && CompleteResponse(cfg, s, w).Done?
    ensures SameNoted(s, CompleteResponse(cfg, s, w).ledger)
  {
    hide EndResponse;
    EndResponseNotes(cfg, s.(terminals := s.terminals[w.rid := TerminalOf(w)]), w);
  }

  lemma CancelResponseNotes(cfg: Config, s: Ledger, rid: Id)
    requires CancelResponse(cfg, s, rid).Done?
    ensures SameNoted(s, CancelResponse(cfg, s, rid).ledger)
  {
    RetireGrows(cfg, s.(terminals := s.terminals[rid := CancelledMark]), rid);
    hide Retire, CallsOf;
  }

  lemma SessionNotes(s: Ledger, w: Wire)
    requires w.SessionUpdated? && SessionAck(s, w.ack, w.accepted).Done?
    ensures NotesGrow(s, SessionAck(s, w.ack, w.accepted).ledger, w)
  {
  }

  lemma TruncationNotes(s: Ledger, w: Wire)
    requires w.Truncated? && AcknowledgeTruncation(s, w).Done?
    ensures NotesGrow(s, AcknowledgeTruncation(s, w).ledger, w)
  {
    if w.itemId.value !in s.truncations {
      PutKeys(s.truncations, w.itemId.value, w.content);
    }
  }

  lemma HandleNotes(cfg: Config, s: Ledger, w: Wire)
    requires Handle(cfg, s, w).Done?
    ensures NotesGrow(s, Handle(cfg, s, w).ledger, w)
  {
    hide NoteItem, CompleteArguments, CancelArguments, CompleteResponse, CancelResponse, SessionAck, NotesGrow;
    hide AcknowledgeTruncation, Quiet, StartResponse;
    var t := Handle(cfg, s, w).ledger;
    match w
    case SessionUpdated(_, _) => SessionNotes(s, w);
    case ItemEvent(_, _, _) => NoteItemNotes(cfg, s, w);
    case ArgumentsDone(_, _, _, _, _) => ArgumentsNotes(cfg, s, w);
    case ArgumentsCancelled(_, _) => CancelNotes(cfg, s, w);
    case Truncated(_, _, _) => TruncationNotes(s, w);
    case ResponseCancelled(rid) =>
      CancelResponseNotes(cfg, s, rid);
      RestGrows(s, t, w);
    case ResponseDone(_, _, _, _) =>
      EndNotes(cfg, s, w);
      RestGrows(s, t, w);
    case _ => RestGrows(s, t, w);
  }

  /** What the ledgers note is what the frames said, and a frame in the window has been noted. */
  ghost predicate NotesTold(cfg: Config, size: nat, inputs: seq<Input>, a: Adapter) {
    && a.ledger.argumentDone.Keys == Finalized(cfg, size, inputs) && a.ledger.truncations.Keys == Cut(inputs)
    && (a.ledger.sessionAck.Some? <==> Acknowledged(inputs))
    && forall e <- a.window :: WasNoted(a.ledger, e.wire)
  }

  ghost predicate WasNoted(s: Ledger, w: Wire) {
    && (w.ArgumentsDone? && w.rid !in s.terminals ==> w.callId in s.argumentDone)
    && CutBy(w) <= s.truncations.Keys && (w.SessionUpdated? ==> s.sessionAck.Some?)
  }

  /** The notes after an input: those before, and what a frame for an open response adds. */
  ghost predicate NotesStep(a: Adapter, t: Adapter, added: set<Id>, cut: set<Id>, acks: bool) {
    && t.ledger.argumentDone.Keys == a.ledger.argumentDone.Keys + added
    && t.ledger.truncations.Keys == a.ledger.truncations.Keys + cut
    && (t.ledger.sessionAck.Some? <==> a.ledger.sessionAck.Some? || acks)
  }

  lemma ProcessNotes(cfg: Config, s: Ledger, w: Wire)
    requires !s.poisoned && !Process(cfg, s, w).0.poisoned
    ensures var t := Process(cfg, s, w).0;
            && t.argumentDone.Keys ==
               s.argumentDone.Keys + (if w.ArgumentsDone? && w.rid in s.terminals then {} else FinalizedBy(w))
            && t.truncations.Keys == s.truncations.Keys + CutBy(w)
            && (t.sessionAck.Some? <==> s.sessionAck.Some? || w.SessionUpdated?)
  {
    hide Admit, Handle;
    var admitted := Admit(s, w).ledger;
    if Admit(s, w).value {
      HandleNotes(cfg, admitted, w);
    }
  }

  lemma FrameNotes(cfg: Config, size: nat, a: Adapter, eventId: Option<Id>, w: Wire)
    requires !a.ledger.poisoned && !Normalize(cfg, size, a, eventId, w).0.ledger.poisoned
    requires forall e <- a.window :: WasNoted(a.ledger, e.wire)
    ensures NotesStep(a, Normalize(cfg, size, a, eventId, w).0,
                      if w.ArgumentsDone? && w.rid in a.ledger.terminals then {} else FinalizedBy(w), CutBy(w),
                      w.SessionUpdated?)
  {
    hide Process;
    if eventId.Some? && Recorded(a.window, eventId.value) == Some(w) {
      assert WasNoted(a.ledger, w);
    } else {
      ProcessNotes(cfg, a.ledger, w);
    }
  }

  lemma NextNotes(cfg: Config, size: nat, a: Adapter, input: Input)
    requires !a.ledger.poisoned && !Next(cfg, size, a, input).0.ledger.poisoned
    requires forall e <- a.window :: WasNoted(a.ledger, e.wire)
    ensures var frame := input.Frame?;
            NotesStep(a, Next(cfg, size, a, input).0,
                      if frame && !(input.wire.ArgumentsDone? && input.wire.rid in a.ledger.terminals)
                      then FinalizedBy(input.wire) else {},
                      if frame then CutBy(input.wire) else {}, frame && input.wire.SessionUpdated?)
  {
    hide Normalize, CancelResponse, Submit, WasNoted;
    match input
    case Frame(eventId, w) => FrameNotes(cfg, size, a, eventId, w);
    case Interrupt(rid) =>
      if InterruptResponse(cfg, a.ledger, rid).Done? {
        CancelResponseNotes(cfg, a.ledger, rid);
      }
    case SubmitOutputs(ids) => SubmitNotes(a.ledger, ids);
  }

  lemma SubmitNotes(s: Ledger, ids: seq<Id>)
    ensures SameNoted(s, Submit(s, ids).ledger)
  {
    hide Distinct;
  }

  /** What is in the window after a step was noted before it, or by it. */
  lemma WindowNoted(cfg: Config, size: nat, a: Adapter, input: Input, added: set<Id>, cut: set<Id>, acks: bool)
    requires forall e <- a.window :: WasNoted(a.ledger, e.wire)
    requires NotesStep(a, Next(cfg, size, a, input).0, added, cut, acks)
    requires a.ledger.terminals.Keys <= Next(cfg, size, a, input).0.ledger.terminals.Keys
    requires input.Frame? && !(input.wire.ArgumentsDone? && input.wire.rid in a.ledger.terminals) ==>
               FinalizedBy(input.wire) <= added
    requires input.Frame? ==> CutBy(input.wire) <= cut && (input.wire.SessionUpdated? ==> acks)
    ensures var t := Next(cfg, size, a, input).0; forall e <- t.window :: WasNoted(t.ledger, e.wire)
  {
    var t := Next(cfg, size, a, input).0;
    NextWindow(cfg, size, a, input);
    hide Next;
    forall e <- t.window ensures WasNoted(t.ledger, e.wire) {
      if e in a.window {
        assert WasNoted(a.ledger, e.wire);
      } else {
        assert input.Frame? && e.wire == input.wire;
      }
    }
  }

  lemma AcknowledgedSnoc(inputs: seq<Input>)
    requires inputs != []
    ensures var n := |inputs| - 1;
            Acknowledged(inputs) <==>
            Acknowledged(inputs[..n]) || (inputs[n].Frame? && inputs[n].wire.SessionUpdated?)
  {
    var n := |inputs| - 1;
    assert forall i :: 0 <= i < n ==> inputs[..n][i] == inputs[i];
  }

  lemma NotesSnoc(cfg: Config, size: nat, inputs: seq<Input>, a: Adapter, t: Adapter, added: set<Id>, cut: set<Id>)
    requires inputs != [] && NotesTold(cfg, size, inputs[..|inputs| - 1], a)
    requires a.ledger.terminals.Keys == ClosedBy(cfg, size, inputs[..|inputs| - 1])
    requires var input := inputs[|inputs| - 1];
             && added == (if input.Frame? && !(input.wire.ArgumentsDone? && input.wire.rid in a.ledger.terminals)
                          then FinalizedBy(input.wire) else {})
             && cut == (if input.Frame? then CutBy(input.wire) else {})
             && NotesStep(a, t, added, cut, input.Frame? && input.wire.SessionUpdated?)
    requires forall e <- t.window :: WasNoted(t.ledger, e.wire)
    ensures NotesTold(cfg, size, inputs, t)
  {
    hide WasNoted, Acknowledged, ClosedBy;
    AcknowledgedSnoc(inputs);
  }

  lemma {:induction false} RunNotes(cfg: Config, size: nat, inputs: seq<Input>)
    requires !After(cfg, size, inputs).ledger.poisoned
    ensures NotesTold(cfg, size, inputs, After(cfg, size, inputs))
  {
    hide Next, WasNoted, Acknowledged, ClosedBy, StartedBy, SessionKept, OutputsAt, CutBy, FinalizedBy, NotesStep;
    if inputs == [] {
      NothingAcknowledged();
    } else {
      var n := |inputs| - 1;
      var a, input := After(cfg, size, inputs[..n]), inputs[n];
      RunGrows(cfg, size, inputs, n);
      RunNotes(cfg, size, inputs[..n]);
      LedgerKnows(cfg, size, inputs[..n]);
      hide Finalized, Cut;
      var frame := input.Frame?;
      var added := if frame && !(input.wire.ArgumentsDone? && input.wire.rid in a.ledger.terminals)
                   then FinalizedBy(input.wire) else {};
      var cut := if frame then CutBy(input.wire) else {};
      NextNotes(cfg, size, a, input);
      WindowNoted(cfg, size, a, input, added, cut, frame && input.wire.SessionUpdated?);
      NotesSnoc(cfg, size, inputs, a, After(cfg, size, inputs), added, cut);
    }
  }

  lemma NothingAcknowledged()
    ensures !Acknowledged([])
  {
  }

  /** What a handled frame that ends no response puts out, from what was said before it. */
  ghost function Announcement(cfg: Config, size: nat, inputs: seq<Input>, w: Wire): seq<Output> {
    match w
    case SessionUpdated(_, _) => if Acknowledged(inputs) then [] else [SessionAcknowledged]
    case ResponseCreated(rid, _) => if rid in StartedBy(inputs) then [] else [ResponseStarted(rid)]
    case ArgumentsDone(rid, _, callId, _, _) =>
      if callId in Finalized(cfg, size, inputs) then [] else [ArgumentsNoted(rid, callId)]
    case ArgumentsCancelled(rid, callId) => [CallsCancelled(rid, [callId])]
    case Truncated(_, Some(itemId), _) => if itemId in Cut(inputs) then [] else [PlaybackTruncated(itemId)]
    case _ => []
  }

  function LedgerAnnounces(s: Ledger, w: Wire): seq<Output> {
    match w
    case SessionUpdated(_, _) => if s.sessionAck.Some? then [] else [SessionAcknowledged]
    case ResponseCreated(rid, _) => if rid in s.starts then [] else [ResponseStarted(rid)]
    case ArgumentsDone(rid, _, callId, _, _) =>
      if callId in s.argumentDone then [] else [ArgumentsNoted(rid, callId)]
    case ArgumentsCancelled(rid, callId) => [CallsCancelled(rid, [callId])]
    case Truncated(_, Some(itemId), _) => if itemId in s.truncations then [] else [PlaybackTruncated(itemId)]
    case _ => []
  }

  lemma HandleAnnounces(cfg: Config, s: Ledger, w: Wire)
    requires Ends(w) == {} && Handle(cfg, s, w).Done?
    ensures Handle(cfg, s, w).value == LedgerAnnounces(s, w)
  {
    hide CompleteResponse, CancelResponse, Upsert, BindIdentity, Ingest, Quiet, CompleteArguments;
    if w.ArgumentsDone? {
      ArgumentsAnnounced(cfg, s, w);
    }
  }

  /**
   * A frame that ends no response, is new to the replay window, is about no closed response and raises no fatal error
   * puts out exactly its announcement: the first acknowledgement of the session, the first start of a response, the
   * first completion of a call's arguments, each withdrawn call, the first truncation of an item, and nothing else.
   */
  lemma AnnouncedExactly(cfg: Config, size: nat, inputs: seq<Input>, k: nat)
    requires k < |inputs| && inputs[k].Frame? && Ends(inputs[k].wire) == {} && FreshId(cfg, size, inputs, k)
    requires ResponseOf(inputs[k].wire).Some? ==> ResponseOf(inputs[k].wire).value !in ClosedBy(cfg, size, inputs[..k])
    requires Unsealed(cfg, size, inputs, k) && ProtocolError(true) !in OutputsAt(cfg, size, inputs, k)
    ensures OutputsAt(cfg, size, inputs, k) == Announcement(cfg, size, inputs[..k], inputs[k].wire)
  {
    hide After, ClosedBy, StartedBy, SessionKept, Unsealed, WasNoted, Finalized, Cut, Acknowledged, Process;
    var a, w := After(cfg, size, inputs[..k]), inputs[k].wire;
    UnsealedIff(cfg, size, inputs, k);
    LedgerKnows(cfg, size, inputs[..k]);
    RunNotes(cfg, size, inputs[..k]);
    FreshAnnounces(cfg, size, a, inputs[k].eventId, w);
  }

  lemma FreshAnnounces(cfg: Config, size: nat, a: Adapter, eventId: Option<Id>, w: Wire)
    requires !a.ledger.poisoned && (eventId.Some? ==> Recorded(a.window, eventId.value).None?) && Ends(w) == {}
    requires ProtocolError(true) !in Normalize(cfg, size, a, eventId, w).1
    requires ResponseOf(w).Some? ==> ResponseOf(w).value !in a.ledger.terminals
    ensures Normalize(cfg, size, a, eventId, w).1 == LedgerAnnounces(a.ledger, w)
  {
    hide Process, LedgerAnnounces;
    ProcessAnnounces(cfg, a.ledger, w);
    assert ProtocolError(true) in [ProtocolError(true)];
  }

  lemma ProcessAnnounces(cfg: Config, s: Ledger, w: Wire)
    requires Ends(w) == {} && (ResponseOf(w).Some? ==> ResponseOf(w).value !in s.terminals)
    ensures Process(cfg, s, w).1 == [ProtocolError(true)] || Process(cfg, s, w).1 == LedgerAnnounces(s, w)
  {
    hide Admit, Handle;
    var admitted := Admit(s, w);
    if admitted.Done? && admitted.value && Handle(cfg, admitted.ledger, w).Done? {
      HandleAnnounces(cfg, admitted.ledger, w);
    }
  }
}
