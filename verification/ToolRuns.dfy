/** Tool release over whole runs of the provider adapter. */
module ToolRuns {
  import opened Common
  import opened ToolLedger
  import opened ToolRelease

  // The terminal event

  /** What holds of the calls a frame releases: each fit to run, and together all that was ever said of the response. */
  ghost predicate Released(cfg: Config, retired: map<Id, Id>, w: Wire, seen: set<Update>, calls: seq<ReadyCall>)
    requires w.ResponseDone?
  {
    && calls != []
    && (forall i, k :: 0 <= i < k < |calls| ==> calls[i].callId != calls[k].callId)
    && (forall c <- calls :: FitToRun(cfg, retired, Mentions(w), c))
    && (forall u <- seen + Mentions(w) :: u.rid == w.rid ==> Answers(calls, u))
  }

  ghost predicate FitToRun(cfg: Config, retired: map<Id, Id>, said: set<Update>, c: ReadyCall) {
    c.callId !in retired && c.name in cfg.declared && cfg.decodes(c.args) && InOutput(said, c.callId, c.itemId)
  }

  /** Some released call is the one the update named, with everything the update said of it. */
  ghost predicate Answers(calls: seq<ReadyCall>, u: Update) {
    exists i :: 0 <= i < |calls| && calls[i].callId == u.callId
      && Agrees(calls[i].itemId, u.itemId) && Agrees(Some(calls[i].name), u.name) && Agrees(Some(calls[i].args), u.args)
  }

  ghost predicate AllNamed(calls: seq<PendingCall>) {
    forall i :: 0 <= i < |calls| ==> calls[i].name.Some? && calls[i].args.Some?
  }

  lemma AnswersHeld(pending: seq<PendingCall>, u: Update)
    requires Held(pending, u) && AllNamed(CallsOf(pending, u.rid))
    ensures Answers(Release(CallsOf(pending, u.rid)), u)
  {
    var calls := CallsOf(pending, u.rid);
    var k :| 0 <= k < |pending| && Carries(pending[k], u);
    assert pending[k] in calls;
    var i :| 0 <= i < |calls| && calls[i] == pending[k];
    assert Release(calls)[i].callId == u.callId;
  }

  lemma FitCall(cfg: Config, scan: Scan, start: Ledger, p: PendingCall, seen: set<Update>, said: set<Update>,
                closed: set<Id>)
    requires ScanKept(cfg, start, scan, seen, said, closed) && p in scan.ledger.pending
    requires Judge(cfg, p, scan.members) == ReadyToRun
    ensures FitToRun(cfg, start.retired, said, ReadyCall(p.callId, p.itemId, p.name.value, p.args.value))
  {
    hide WithinBudget, NotesKept, AllHeld, Ordered, Sourced, InOutput;
    assert Live(cfg, scan.ledger, seen + said, closed, p);
  }

  lemma FitCalls(cfg: Config, scan: Scan, start: Ledger, rid: Id, seen: set<Update>, said: set<Update>,
                 closed: set<Id>)
    requires ScanKept(cfg, start, scan, seen, said, closed)
    requires AllReady(cfg, CallsOf(scan.ledger.pending, rid), scan.members)
    ensures forall c <- Release(CallsOf(scan.ledger.pending, rid)) :: FitToRun(cfg, start.retired, said, c)
  {
    hide ScanKept, FitToRun;
    var calls := CallsOf(scan.ledger.pending, rid);
    forall c <- Release(calls) ensures FitToRun(cfg, start.retired, said, c) {
      var i :| 0 <= i < |calls| && Release(calls)[i] == c;
      assert calls[i] in scan.ledger.pending;
      FitCall(cfg, scan, start, calls[i], seen, said, closed);
    }
  }

  lemma ReleasedCalls(cfg: Config, scan: Scan, start: Ledger, w: Wire, seen: set<Update>, closed: set<Id>)
    requires w.ResponseDone? && w.rid !in closed
    requires ScanKept(cfg, start, scan, seen, Mentions(w), closed)
    requires var calls := CallsOf(scan.ledger.pending, w.rid); calls != [] && AllReady(cfg, calls, scan.members)
    ensures Released(cfg, start.retired, w, seen, Release(CallsOf(scan.ledger.pending, w.rid)))
  {
    hide NotesKept, WithinBudget, Live, Mentions, FitToRun, Answers, Held, InOutput;
    var calls := CallsOf(scan.ledger.pending, w.rid);
    FitCalls(cfg, scan, start, w.rid, seen, Mentions(w), closed);
    assert Ordered(calls) by { FilteredOrdered(scan.ledger.pending, w.rid); }
    forall u <- seen + Mentions(w) | u.rid == w.rid ensures Answers(Release(calls), u) {
      AnswersHeld(scan.ledger.pending, u);
    }
  }

  /** The two ways a terminal event can end: nothing released, or every call of the response. */
  lemma DecideKeeps(cfg: Config, scan: Scan, start: Ledger, rid: Id, seen: set<Update>, said: set<Update>,
                    closed: set<Id>)
    requires ScanKept(cfg, start, scan, seen, said, closed) && start.terminals.Keys == closed + {rid}
    requires !Decide(cfg, scan, rid).ledger.poisoned
    ensures var next := Decide(cfg, scan, rid).ledger;
            Kept(cfg, next, seen + said, next.terminals.Keys)
  {
    hide WithinBudget, CallsKept, AllReady, Judge, SumArgs;
    var next := Decide(cfg, scan, rid).ledger;
    var retired := Retire(cfg, scan.ledger, rid);
    RetireKeeps(cfg, scan.ledger, rid, seen + said, closed);
    CallsFrame(cfg, retired, next, seen + said, closed + {rid});
  }

  lemma EndKeeps(cfg: Config, marked: Ledger, w: Wire, seen: set<Update>, closed: set<Id>)
    requires w.ResponseDone? && Kept(cfg, marked, seen, closed) && marked.terminals.Keys == closed + {w.rid}
    ensures var next := EndWithoutRelease(cfg, marked, w, false).ledger; Kept(cfg, next, seen, next.terminals.Keys)
  {
    hide Kept;
    RetireKeeps(cfg, marked, w.rid, seen, closed);
    KeptFrame(cfg, Retire(cfg, marked, w.rid), EndWithoutRelease(cfg, marked, w, false).ledger, seen, closed + {w.rid});
  }

  function Scanned(cfg: Config, marked: Ledger, w: Wire): Scan
    requires w.ResponseDone? && w.output.Some?
  {
    ScanItems(cfg, Scan(marked, {}, map[], false, []), w.output.value, w.rid)
  }

  lemma CompletedKeeps(cfg: Config, marked: Ledger, w: Wire, seen: set<Update>, closed: set<Id>)
    requires w.ResponseDone? && w.output.Some? && w.status == Completed && w.rid !in closed
    requires Kept(cfg, marked, seen, closed) && marked.terminals.Keys == closed + {w.rid}
    requires !Decide(cfg, Scanned(cfg, marked, w), w.rid).ledger.poisoned
    ensures ScanKept(cfg, marked, Scanned(cfg, marked, w), seen, Mentions(w), closed)
    ensures var next := Decide(cfg, Scanned(cfg, marked, w), w.rid).ledger;
            Kept(cfg, next, seen + Mentions(w), next.terminals.Keys)
  {
    hide Kept, Decide, ScanItems, OutputMentions, ScanKept;
    var scan := Scanned(cfg, marked, w);
    ScanItemsKeeps(cfg, marked, w.output.value, w.rid, seen, closed);
    DecidePoison(cfg, scan, w.rid);
    DecideKeeps(cfg, scan, marked, w.rid, seen, Mentions(w), closed);
  }

  lemma EndResponseKeeps(cfg: Config, marked: Ledger, w: Wire, seen: set<Update>, closed: set<Id>)
    requires w.ResponseDone? && Kept(cfg, marked, seen, closed) && marked.terminals.Keys == closed + {w.rid}
    requires w.rid !in closed && !EndResponse(cfg, marked, w).ledger.poisoned
    ensures var next := EndResponse(cfg, marked, w).ledger; Kept(cfg, next, seen + Mentions(w), next.terminals.Keys)
  {
    hide Kept, Decide, ScanItems, OutputMentions, ScanKept, Retire;
    if w.status == Completed {
      CompletedKeeps(cfg, marked, w, seen, closed);
    } else {
      EndKeeps(cfg, marked, w, seen, closed);
      assert seen + {} == seen;
    }
  }

  lemma CompleteResponseKeeps(cfg: Config, s: Ledger, w: Wire, seen: set<Update>)
    requires w.ResponseDone? && Kept(cfg, s, seen, s.terminals.Keys)
    requires CompleteResponse(cfg, s, w).Done? && !CompleteResponse(cfg, s, w).ledger.poisoned
    ensures var next := CompleteResponse(cfg, s, w).ledger;
            Kept(cfg, next, seen + Mentions(w), next.terminals.Keys)
  {
    hide Kept, EndResponse, OutputMentions;
    var closed := s.terminals.Keys;
    if w.rid in s.terminals {
      SeenGrows(cfg, s, seen, Mentions(w), closed);
    } else {
      var marked := s.(terminals := s.terminals[w.rid := TerminalOf(w)]);
      assert marked.terminals.Keys == closed + {w.rid};
      KeptFrame(cfg, s, marked, seen, closed);
      EndResponseKeeps(cfg, marked, w, seen, closed);
    }
  }

  lemma DecidePoison(cfg: Config, scan: Scan, rid: Id)
    ensures scan.ledger.poisoned ==> Decide(cfg, scan, rid).ledger.poisoned
  {
  }

  lemma {:induction false} ScanClean(cfg: Config, scan: Scan, output: seq<Item>, rid: Id)
    requires scan.invalid == scan.ledger.poisoned && forall o <- scan.errors :: o.ProtocolError?
    ensures var after := ScanItems(cfg, scan, output, rid);
            after.invalid == after.ledger.poisoned && forall o <- after.errors :: o.ProtocolError?
  {
    if output != [] {
      ScanClean(cfg, scan, output[..|output| - 1], rid);
      ScanItemClean(cfg, ScanItems(cfg, scan, output[..|output| - 1], rid), output[|output| - 1], rid);
    }
  }

  lemma ScanItemClean(cfg: Config, scan: Scan, item: Item, rid: Id)
    requires scan.invalid == scan.ledger.poisoned && forall o <- scan.errors :: o.ProtocolError?
    ensures var after := ScanItem(cfg, scan, item, rid);
            after.invalid == after.ledger.poisoned && forall o <- after.errors :: o.ProtocolError?
  {
    hide ScanItem;
  }

  lemma EndResponseReleases(cfg: Config, marked: Ledger, w: Wire, seen: set<Update>, closed: set<Id>, rid: Id,
                            calls: seq<ReadyCall>)
    requires w.ResponseDone? && Kept(cfg, marked, seen, closed) && marked.terminals.Keys == closed + {w.rid}
    requires w.rid !in closed && !marked.poisoned && Ready(rid, calls) in EndResponse(cfg, marked, w).value
    ensures rid == w.rid && w.status == Completed && !EndResponse(cfg, marked, w).ledger.poisoned
    ensures Released(cfg, marked.retired, w, seen, calls)
    ensures forall c <- calls :: c.callId in EndResponse(cfg, marked, w).ledger.retired
  {
    hide Kept, Decide, ScanItems, ScanKept, Mentions, Retire, CallsOf, AllReady, Released, Release;
    var scan := Scanned(cfg, marked, w);
    ScanClean(cfg, Scan(marked, {}, map[], false, []), w.output.value, w.rid);
    DecideReleases(cfg, scan, w.rid, rid, calls);
    CompletedKeeps(cfg, marked, w, seen, closed);
    ReleasedCalls(cfg, scan, marked, w, seen, closed);
  }

  /** Calls are released only by a completed terminal of an open response, and then exactly as Released says. */
  lemma CompleteResponseReleases(cfg: Config, s: Ledger, w: Wire, seen: set<Update>, rid: Id, calls: seq<ReadyCall>)
    requires w.ResponseDone? && Kept(cfg, s, seen, s.terminals.Keys) && !s.poisoned
    requires CompleteResponse(cfg, s, w).Done? && Ready(rid, calls) in CompleteResponse(cfg, s, w).value
    ensures rid == w.rid && w.status == Completed && rid !in s.terminals
    ensures !CompleteResponse(cfg, s, w).ledger.poisoned
    ensures Released(cfg, s.retired, w, seen, calls)
    ensures forall c <- calls :: c.callId in CompleteResponse(cfg, s, w).ledger.retired
  {
    hide Kept, EndResponse, Released;
    var marked := s.(terminals := s.terminals[w.rid := TerminalOf(w)]);
    KeptFrame(cfg, s, marked, seen, s.terminals.Keys);
    assert marked.terminals.Keys == s.terminals.Keys + {w.rid};
    EndResponseReleases(cfg, marked, w, seen, s.terminals.Keys, rid, calls);
  }

  lemma DecideReleases(cfg: Config, scan: Scan, rid: Id, readyRid: Id, calls: seq<ReadyCall>)
    requires Ready(readyRid, calls) in Decide(cfg, scan, rid).value && Ready(readyRid, calls) !in scan.errors
    ensures readyRid == rid && !scan.invalid
    ensures CallsOf(scan.ledger.pending, rid) != [] && AllReady(cfg, CallsOf(scan.ledger.pending, rid), scan.members)
    ensures calls == Release(CallsOf(scan.ledger.pending, rid))
    ensures Decide(cfg, scan, rid).ledger.poisoned == scan.ledger.poisoned
    ensures forall c <- calls :: c.callId in Decide(cfg, scan, rid).ledger.retired
  {
    hide CallsOf, Retire, CallErrors, Authorized;
    var o := Ready(readyRid, calls);
    var pending := CallsOf(scan.ledger.pending, rid);
    var released := !scan.invalid && pending != [] && AllReady(cfg, pending, scan.members);
    var middle := if released then [Ready(rid, Release(pending))] else Dropped(rid, pending);
    assert Decide(cfg, scan, rid).value ==
           scan.errors + CallErrors(cfg, pending, scan.members) + middle + [ResponseEnded(rid, Completed, released)];
    assert o !in CallErrors(cfg, pending, scan.members);
    assert o in middle;
    RetiredReleased(cfg, scan.ledger, rid);
  }

  lemma RetiredReleased(cfg: Config, s: Ledger, rid: Id)
    ensures forall p <- CallsOf(s.pending, rid) :: p.callId in Retire(cfg, s, rid).retired
  {
    hide CallsOf, Others, SumArgs;
    var calls := CallsOf(s.pending, rid);
    forall p <- calls ensures p.callId in Retire(cfg, s, rid).retired {
      var i :| 0 <= i < |calls| && calls[i] == p;
    }
  }

  // One event

  /** Retired calls stay retired; an authorization stays, and stays submitted. */
  ghost predicate Grew(s: Ledger, next: Ledger) {
    && (forall c <- s.retired :: c in next.retired)
    && (forall c <- s.authorizations :: c in next.authorizations && (s.authorizations[c] ==> next.authorizations[c]))
    && (forall rid <- s.terminals :: rid in next.terminals)
  }

  /** Every authorization that appears is for a call released by these outputs. */
  ghost predicate Accounted(s: Ledger, next: Ledger, outputs: seq<Output>) {
    forall c <- next.authorizations :: c in s.authorizations || ReleasedIn(outputs, c)
  }

  ghost predicate ReleasedIn(outputs: seq<Output>, callId: Id) {
    exists o :: o in outputs && o.Ready? && exists r :: r in o.calls && r.callId == callId
  }

  /** The responses a frame closes. */
  function Ends(w: Wire): set<Id> {
    if w.ResponseDone? || w.ResponseCancelled? then {w.rid} else {}
  }

  lemma QuietHandle(cfg: Config, s: Ledger, w: Wire)
    requires Ends(w) == {}
    ensures Quiet(s, Handle(cfg, s, w))
  {
    hide SessionAck, StartResponse, NoteItem, CompleteArguments, CancelArguments, AcknowledgeTruncation;
    hide CancelResponse, CompleteResponse;
    match w
    case SessionUpdated(ack, accepted) => assert Handle(cfg, s, w) == SessionAck(s, ack, accepted);
    case ResponseCreated(rid, content) => assert Handle(cfg, s, w) == StartResponse(s, rid, content);
    case Truncated(_, _, _) => assert Handle(cfg, s, w) == AcknowledgeTruncation(s, w);
    case _ =>
  }

  lemma HandleCallKeeps(cfg: Config, s: Ledger, w: Wire, seen: set<Update>)
    requires w.ItemEvent? || w.ArgumentsDone? || w.ArgumentsCancelled?
    requires Kept(cfg, s, seen, s.terminals.Keys) && Handle(cfg, s, w).Done? && w.rid !in s.terminals
    ensures Kept(cfg, Handle(cfg, s, w).ledger, seen + Mentions(w), s.terminals.Keys)
  {
    hide Kept, NoteItem, CompleteArguments, CancelArguments, ItemMentions, Quiet;
    match w
    case ItemEvent(rid, item, done) => NoteItemKeeps(cfg, s, rid, item, done, seen, s.terminals.Keys);
    case ArgumentsDone(_, _, _, _, _) => CompleteArgumentsKeeps(cfg, s, w, seen, s.terminals.Keys);
    case ArgumentsCancelled(rid, callId) => CancelArgumentsKeeps(cfg, s, rid, callId, seen, s.terminals.Keys);
  }

  lemma HandleOtherKeeps(cfg: Config, s: Ledger, w: Wire, seen: set<Update>)
    requires Ends(w) == {} && !w.ItemEvent? && !w.ArgumentsDone? && !w.ArgumentsCancelled?
    requires Kept(cfg, s, seen, s.terminals.Keys) && Handle(cfg, s, w).Done?
    ensures Kept(cfg, Handle(cfg, s, w).ledger, seen + Mentions(w), s.terminals.Keys)
  {
    hide Kept, Quiet, SessionAck, StartResponse, AcknowledgeTruncation;
    hide NoteItem, CompleteArguments, CancelArguments, CancelResponse, CompleteResponse;
    var next := Handle(cfg, s, w).ledger;
    assert SameCalls(s, next) && SameNotes(s, next);
    KeptFrame(cfg, s, next, seen, s.terminals.Keys);
    assert seen + Mentions(w) == seen;
  }

  lemma HandleKeeps(cfg: Config, s: Ledger, w: Wire, seen: set<Update>)
    requires Kept(cfg, s, seen, s.terminals.Keys) && Handle(cfg, s, w).Done?
    requires !Handle(cfg, s, w).ledger.poisoned
    requires GoesStale(w) && ResponseOf(w).Some? ==> ResponseOf(w).value !in s.terminals
    ensures var next := Handle(cfg, s, w).ledger; Kept(cfg, next, seen + Mentions(w), next.terminals.Keys)
  {
    hide Kept, CancelResponse, CompleteResponse;
    if w.ResponseDone? {
      CompleteResponseKeeps(cfg, s, w, seen);
    } else if w.ResponseCancelled? {
      CancelResponseKeeps(cfg, s, w.rid, seen);
      assert seen + {} == seen;
    } else {
      hide Handle;
      QuietHandle(cfg, s, w);
      if w.ItemEvent? || w.ArgumentsDone? || w.ArgumentsCancelled? {
        HandleCallKeeps(cfg, s, w, seen);
      } else {
        HandleOtherKeeps(cfg, s, w, seen);
      }
    }
  }

  lemma RetireGrows(cfg: Config, s: Ledger, rid: Id)
    ensures var next := Retire(cfg, s, rid);
            && (forall c <- s.retired :: c in next.retired)
            && next == s.(pending := next.pending, retired := next.retired, pendingBytes := next.pendingBytes)
  {
    hide SumArgs, CallsOf, Others;
  }

  lemma CancelGrows(cfg: Config, s: Ledger, rid: Id)
    requires CancelResponse(cfg, s, rid).Done?
    ensures var next := CancelResponse(cfg, s, rid).ledger;
            && Grew(s, next) && rid in next.terminals && next.authorizations == s.authorizations
            && next.poisoned == s.poisoned
    ensures forall o <- CancelResponse(cfg, s, rid).value :: !o.Ready? && !o.ProtocolError?
  {
    hide Retire, CallsOf;
    if rid !in s.terminals {
      RetireGrows(cfg, s.(terminals := s.terminals[rid := CancelledMark]), rid);
    }
  }

  lemma FreshCalls(cfg: Config, s: Ledger, rid: Id, seen: set<Update>, closed: set<Id>)
    requires CallsKept(cfg, s, seen, closed)
    ensures forall p <- CallsOf(s.pending, rid) :: p.callId !in s.retired
  {
    forall p <- CallsOf(s.pending, rid) ensures p.callId !in s.retired {
      assert Live(cfg, s, seen, closed, p);
    }
  }

  lemma DecideGrows(cfg: Config, scan: Scan, start: Ledger, rid: Id, seen: set<Update>, said: set<Update>,
                    closed: set<Id>)
    requires ScanKept(cfg, start, scan, seen, said, closed)
    ensures Grew(start, Decide(cfg, scan, rid).ledger)
  {
    hide CallsKept, WithinBudget, SumArgs, Others, AllReady, Judge;
    FreshCalls(cfg, scan.ledger, rid, seen + said, closed);
  }

  lemma DecideAccounts(cfg: Config, scan: Scan, rid: Id)
    ensures Accounted(scan.ledger, Decide(cfg, scan, rid).ledger, Decide(cfg, scan, rid).value)
  {
    hide SumArgs, Others;
    var calls := CallsOf(scan.ledger.pending, rid);
    var next, outputs := Decide(cfg, scan, rid).ledger, Decide(cfg, scan, rid).value;
    forall c <- next.authorizations | c !in scan.ledger.authorizations ensures ReleasedIn(outputs, c) {
      var i :| 0 <= i < |calls| && calls[i].callId == c;
      var o := Ready(rid, Release(calls));
      assert o in outputs;
      assert o.calls[i] in o.calls && o.calls[i].callId == c;
    }
  }

  lemma EndGrows(cfg: Config, marked: Ledger, w: Wire, fatal: bool)
    requires w.ResponseDone?
    ensures var next := EndWithoutRelease(cfg, marked, w, fatal).ledger;
            Grew(marked, next) && next.authorizations == marked.authorizations
            && (ProtocolError(true) in EndWithoutRelease(cfg, marked, w, fatal).value ==> next.poisoned)
  {
    hide SumArgs, CallsOf, Others;
  }

  lemma EndResponseGrows(cfg: Config, marked: Ledger, w: Wire, seen: set<Update>, closed: set<Id>)
    requires w.ResponseDone? && Kept(cfg, marked, seen, closed) && marked.terminals.Keys == closed + {w.rid}
    requires w.rid !in closed && !EndResponse(cfg, marked, w).ledger.poisoned
    ensures var next := EndResponse(cfg, marked, w).ledger;
            Grew(marked, next) && Accounted(marked, next, EndResponse(cfg, marked, w).value)
  {
    hide Kept, Decide, ScanItems, Mentions, EndWithoutRelease, Grew;
    if w.output.None? || |w.output.value| > MAX_OUTPUT_ITEMS || w.status != Completed {
      EndGrows(cfg, marked, w, w.output.None? || |w.output.value| > MAX_OUTPUT_ITEMS || w.status == Unknown);
    } else {
      CompletedKeeps(cfg, marked, w, seen, closed);
      var scan := Scanned(cfg, marked, w);
      DecideGrows(cfg, scan, marked, w.rid, seen, Mentions(w), closed);
      DecideAccounts(cfg, scan, w.rid);
    }
  }

  lemma CompleteResponseGrows(cfg: Config, s: Ledger, w: Wire, seen: set<Update>)
    requires w.ResponseDone? && Kept(cfg, s, seen, s.terminals.Keys)
    requires CompleteResponse(cfg, s, w).Done? && !CompleteResponse(cfg, s, w).ledger.poisoned
    ensures var next := CompleteResponse(cfg, s, w).ledger;
            Grew(s, next) && Accounted(s, next, CompleteResponse(cfg, s, w).value) && w.rid in next.terminals
  {
    hide Kept, EndResponse;
    if w.rid !in s.terminals {
      var marked := s.(terminals := s.terminals[w.rid := TerminalOf(w)]);
      KeptFrame(cfg, s, marked, seen, s.terminals.Keys);
      assert marked.terminals.Keys == s.terminals.Keys + {w.rid};
      EndResponseGrows(cfg, marked, w, seen, s.terminals.Keys);
      assert Grew(marked, EndResponse(cfg, marked, w).ledger);
    }
  }

  lemma HandleGrows(cfg: Config, s: Ledger, w: Wire, seen: set<Update>)
    requires Kept(cfg, s, seen, s.terminals.Keys) && Handle(cfg, s, w).Done?
    requires !Handle(cfg, s, w).ledger.poisoned
    ensures var next := Handle(cfg, s, w).ledger;
            Grew(s, next) && Accounted(s, next, Handle(cfg, s, w).value) && Ends(w) <= next.terminals.Keys
  {
    hide Kept, CancelResponse, CompleteResponse, Grew;
    if w.ResponseDone? {
      CompleteResponseGrows(cfg, s, w, seen);
    } else if w.ResponseCancelled? {
      CancelGrows(cfg, s, w.rid);
    } else {
      hide Handle;
      QuietHandle(cfg, s, w);
      QuietGrows(s, Handle(cfg, s, w));
    }
  }

  lemma QuietGrows(s: Ledger, r: Attempt<seq<Output>>)
    requires r.Done? && Quiet(s, r)
    ensures Grew(s, r.ledger)
  {
  }

  /** A fatal protocol error seals the adapter. */
  lemma HandleSeals(cfg: Config, s: Ledger, w: Wire)
    requires Handle(cfg, s, w).Done? && ProtocolError(true) in Handle(cfg, s, w).value
    ensures Handle(cfg, s, w).ledger.poisoned
  {
    hide CancelResponse, Decide, ScanItems, EndWithoutRelease, NoteItem, CompleteArguments, CancelArguments;
    if w.ResponseDone? {
      var marked := s.(terminals := s.terminals[w.rid := TerminalOf(w)]);
      if w.output.None? || |w.output.value| > MAX_OUTPUT_ITEMS || w.status != Completed {
        EndGrows(cfg, marked, w, w.output.None? || |w.output.value| > MAX_OUTPUT_ITEMS || w.status == Unknown);
      } else {
        ScanSeals(cfg, Scan(marked, {}, map[], false, []), w.output.value, w.rid);
        DecideSeals(cfg, Scanned(cfg, marked, w), w.rid);
      }
    } else if w.ResponseCancelled? {
      CancelGrows(cfg, s, w.rid);
    } else {
      QuietHandle(cfg, s, w);
    }
  }

  lemma {:induction false} ScanSeals(cfg: Config, scan: Scan, output: seq<Item>, rid: Id)
    requires scan.errors != [] ==> scan.ledger.poisoned
    ensures var after := ScanItems(cfg, scan, output, rid); after.errors != [] ==> after.ledger.poisoned
  {
    hide ScanItem;
    if output != [] {
      ScanSeals(cfg, scan, output[..|output| - 1], rid);
    }
  }

  lemma DecideSeals(cfg: Config, scan: Scan, rid: Id)
    requires scan.errors != [] ==> scan.ledger.poisoned
    ensures ProtocolError(true) in Decide(cfg, scan, rid).value ==> Decide(cfg, scan, rid).ledger.poisoned
  {
    hide SumArgs, CallsOf, Others, Judge;
  }

  // One event against the ledgers

  lemma ProcessKeeps(cfg: Config, s: Ledger, w: Wire, seen: set<Update>)
    requires Kept(cfg, s, seen, s.terminals.Keys) && !s.poisoned && !Process(cfg, s, w).0.poisoned
    ensures var (next, outputs) := Process(cfg, s, w);
            && Kept(cfg, next, seen + Mentions(w), next.terminals.Keys)
            && Grew(s, next) && Accounted(s, next, outputs) && Ends(w) <= next.terminals.Keys
            && ProtocolError(true) !in outputs
  {
    hide Kept, Admit, Handle;
    var admitted := Admit(s, w).ledger;
    KeptFrame(cfg, s, admitted, seen, s.terminals.Keys);
    if Admit(s, w).value {
      HandleKeeps(cfg, admitted, w, seen);
      HandleGrows(cfg, admitted, w, seen);
      if ProtocolError(true) in Handle(cfg, admitted, w).value {
        HandleSeals(cfg, admitted, w);
      }
    } else {
      SeenGrows(cfg, admitted, seen, Mentions(w), s.terminals.Keys);
    }
  }

  lemma ProcessReleases(cfg: Config, s: Ledger, w: Wire, seen: set<Update>, rid: Id, calls: seq<ReadyCall>)
    requires Kept(cfg, s, seen, s.terminals.Keys) && !s.poisoned && Ready(rid, calls) in Process(cfg, s, w).1
    ensures w.ResponseDone? && rid == w.rid && w.status == Completed
    ensures s.sessionReady && rid in s.starts && rid !in s.terminals
    ensures Released(cfg, s.retired, w, seen, calls)
    ensures !Process(cfg, s, w).0.poisoned && forall c <- calls :: c.callId in Process(cfg, s, w).0.retired
  {
    hide Kept, Admit, Released, CompleteResponse, CancelResponse;
    var admitted := Admit(s, w).ledger;
    KeptFrame(cfg, s, admitted, seen, s.terminals.Keys);
    if w.ResponseDone? {
      CompleteResponseReleases(cfg, admitted, w, seen, rid, calls);
    } else if w.ResponseCancelled? {
      CancelGrows(cfg, admitted, w.rid);
    } else {
      hide Handle;
      QuietHandle(cfg, admitted, w);
    }
  }

  // Whole runs

  function After(cfg: Config, size: nat, inputs: seq<Input>): Adapter {
    if inputs == [] then Adapter([], NewLedger())
    else Next(cfg, size, After(cfg, size, inputs[..|inputs| - 1]), inputs[|inputs| - 1]).0
  }

  function OutputsAt(cfg: Config, size: nat, inputs: seq<Input>, i: nat): seq<Output>
    requires i < |inputs|
  {
    Next(cfg, size, After(cfg, size, inputs[..i]), inputs[i]).1
  }

  function Said(input: Input): set<Update> {
    if input.Frame? then Mentions(input.wire) else {}
  }

  /** Everything the frames so far said about calls. */
  function SaidBy(inputs: seq<Input>): set<Update> {
    if inputs == [] then {} else SaidBy(inputs[..|inputs| - 1]) + Said(inputs[|inputs| - 1])
  }

  /** The responses an input closes: a terminal or cancelling frame, or an accepted local interruption. */
  function Closes(cfg: Config, a: Adapter, input: Input): set<Id> {
    match input
    case Frame(_, w) => Ends(w)
    case Interrupt(rid) => if InterruptResponse(cfg, a.ledger, rid).Done? then {rid} else {}
    case SubmitOutputs(_) => {}
  }

  function ClosedBy(cfg: Config, size: nat, inputs: seq<Input>): set<Id> {
    if inputs == [] then {}
    else
      var n := |inputs| - 1;
      ClosedBy(cfg, size, inputs[..n]) + Closes(cfg, After(cfg, size, inputs[..n]), inputs[n])
  }

  /** What an adapter that is not sealed has kept of everything it was sent. */
  ghost predicate Faithful(cfg: Config, a: Adapter, seen: set<Update>, ended: set<Id>) {
    && Kept(cfg, a.ledger, seen, a.ledger.terminals.Keys)
    && ended <= a.ledger.terminals.Keys
    && forall e <- a.window :: Mentions(e.wire) <= seen && Ends(e.wire) <= a.ledger.terminals.Keys
  }

  /** What one input does to an adapter that it leaves unsealed. */
  ghost predicate Advances(a: Adapter, next: Adapter, outputs: seq<Output>) {
    && !a.ledger.poisoned && Grew(a.ledger, next.ledger) && Accounted(a.ledger, next.ledger, outputs)
    && ProtocolError(true) !in outputs
  }

  lemma FrameKeeps(cfg: Config, size: nat, a: Adapter, eventId: Option<Id>, w: Wire, seen: set<Update>, ended: set<Id>)
    requires Faithful(cfg, a, seen, ended) && !a.ledger.poisoned
    requires !Normalize(cfg, size, a, eventId, w).0.ledger.poisoned
    ensures var (next, outputs) := Normalize(cfg, size, a, eventId, w);
            Faithful(cfg, next, seen + Mentions(w), ended + Ends(w)) && Advances(a, next, outputs)
  {
    hide Kept, Process, Mentions;
    if eventId.Some? && Recorded(a.window, eventId.value) == Some(w) {
      assert Mentions(w) <= seen;
      assert seen + Mentions(w) == seen;
    } else {
      ProcessKeeps(cfg, a.ledger, w, seen);
    }
  }

  lemma InterruptKeeps(cfg: Config, s: Ledger, rid: Id, seen: set<Update>)
    requires Kept(cfg, s, seen, s.terminals.Keys) && InterruptResponse(cfg, s, rid).Done?
    ensures var next := InterruptResponse(cfg, s, rid).ledger;
            && Kept(cfg, next, seen, next.terminals.Keys) && Grew(s, next) && rid in next.terminals
            && next.authorizations == s.authorizations && !next.poisoned
    ensures forall o <- InterruptResponse(cfg, s, rid).value :: !o.Ready? && !o.ProtocolError?
  {
    hide Kept, CancelResponse;
    CancelResponseKeeps(cfg, s, rid, seen);
    CancelGrows(cfg, s, rid);
  }

  lemma SubmitKeeps(cfg: Config, s: Ledger, ids: seq<Id>, seen: set<Update>)
    requires Kept(cfg, s, seen, s.terminals.Keys) && Submit(s, ids).Done?
    ensures var next := Submit(s, ids).ledger;
            && Kept(cfg, next, seen, next.terminals.Keys) && Grew(s, next)
            && next == s.(authorizations := next.authorizations)
            && next.authorizations.Keys == s.authorizations.Keys && Submit(s, ids).value == []
    ensures forall c <- ids :: c in s.authorizations && !s.authorizations[c] && Submit(s, ids).ledger.authorizations[c]
  {
    hide CallsKept, WithinBudget;
    CallsFrame(cfg, s, Submit(s, ids).ledger, seen, s.terminals.Keys);
  }

  lemma NextKeeps(cfg: Config, size: nat, a: Adapter, input: Input, seen: set<Update>, ended: set<Id>)
    requires !a.ledger.poisoned ==> Faithful(cfg, a, seen, ended)
    requires !Next(cfg, size, a, input).0.ledger.poisoned
    ensures var (next, outputs) := Next(cfg, size, a, input);
            Faithful(cfg, next, seen + Said(input), ended + Closes(cfg, a, input)) && Advances(a, next, outputs)
  {
    hide Kept, Normalize, InterruptResponse, Submit, Grew;
    match input
    case Frame(eventId, w) =>
      PoisonStays(cfg, size, a, eventId, w);
      FrameKeeps(cfg, size, a, eventId, w, seen, ended);
    case Interrupt(rid) =>
      assert seen + {} == seen && ended + {} == ended;
      GrewSame(a.ledger);
      if InterruptResponse(cfg, a.ledger, rid).Done? {
        InterruptNeedsOpen(cfg, a.ledger, rid);
        InterruptKeeps(cfg, a.ledger, rid, seen);
        GrewTerminals(a.ledger, InterruptResponse(cfg, a.ledger, rid).ledger);
      }
    case SubmitOutputs(ids) =>
      assert seen + {} == seen && ended + {} == ended;
      GrewSame(a.ledger);
      if Submit(a.ledger, ids).Done? {
        SubmitNeedsOpen(a.ledger, ids);
        SubmitKeeps(cfg, a.ledger, ids, seen);
      }
  }

  lemma InterruptNeedsOpen(cfg: Config, s: Ledger, rid: Id)
    ensures InterruptResponse(cfg, s, rid).Done? ==> !s.poisoned
  {
  }

  lemma SubmitNeedsOpen(s: Ledger, ids: seq<Id>)
    ensures Submit(s, ids).Done? ==> !s.poisoned
  {
  }

  lemma PoisonStays(cfg: Config, size: nat, a: Adapter, eventId: Option<Id>, w: Wire)
    ensures a.ledger.poisoned ==> Normalize(cfg, size, a, eventId, w) == (a, [ProtocolError(true)])
  {
  }

  lemma GrewSame(s: Ledger)
    ensures Grew(s, s)
  {
  }

  lemma GrewTerminals(s: Ledger, next: Ledger)
    requires Grew(s, next)
    ensures s.terminals.Keys <= next.terminals.Keys
  {
  }

  lemma {:induction false} RunFaithful(cfg: Config, size: nat, inputs: seq<Input>)
    requires !After(cfg, size, inputs).ledger.poisoned
    ensures Faithful(cfg, After(cfg, size, inputs), SaidBy(inputs), ClosedBy(cfg, size, inputs))
  {
    if inputs != [] {
      hide Faithful, Next, Said, Closes;
      var n := |inputs| - 1;
      var a := After(cfg, size, inputs[..n]);
      if !a.ledger.poisoned {
        RunFaithful(cfg, size, inputs[..n]);
      }
      NextKeeps(cfg, size, a, inputs[n], SaidBy(inputs[..n]), ClosedBy(cfg, size, inputs[..n]));
    }
  }

  lemma GrewFurther(a: Ledger, b: Ledger, c: Ledger)
    requires Grew(a, b) && Grew(b, c)
    ensures Grew(a, c)
  {
  }

  lemma LastStep(cfg: Config, size: nat, inputs: seq<Input>)
    requires inputs != [] && !After(cfg, size, inputs).ledger.poisoned
    ensures var n := |inputs| - 1;
            Advances(After(cfg, size, inputs[..n]), After(cfg, size, inputs), OutputsAt(cfg, size, inputs, n))
  {
    hide Faithful, Next, Said, Closes, Advances;
    var n := |inputs| - 1;
    var a := After(cfg, size, inputs[..n]);
    if !a.ledger.poisoned {
      RunFaithful(cfg, size, inputs[..n]);
    }
    NextKeeps(cfg, size, a, inputs[n], SaidBy(inputs[..n]), ClosedBy(cfg, size, inputs[..n]));
  }

  /** A run that ends unsealed was never sealed, reported no fatal error, and only added to its ledgers. */
  lemma {:induction false} RunGrows(cfg: Config, size: nat, inputs: seq<Input>, i: nat)
    requires i <= |inputs| && !After(cfg, size, inputs).ledger.poisoned
    ensures !After(cfg, size, inputs[..i]).ledger.poisoned
    ensures Grew(After(cfg, size, inputs[..i]).ledger, After(cfg, size, inputs).ledger)
    ensures i < |inputs| ==> ProtocolError(true) !in OutputsAt(cfg, size, inputs, i)
  {
    hide After, Grew, OutputsAt, Accounted;
    if i == |inputs| {
      assert inputs[..i] == inputs;
      GrewSame(After(cfg, size, inputs).ledger);
    } else {
      var n := |inputs| - 1;
      LastStep(cfg, size, inputs);
      RunGrows(cfg, size, inputs[..n], i);
      assert inputs[..n][..i] == inputs[..i];
      if i < n {
        SameOutputs(cfg, size, inputs, n, i);
      }
      GrewFurther(After(cfg, size, inputs[..i]).ledger, After(cfg, size, inputs[..n]).ledger,
                  After(cfg, size, inputs).ledger);
    }
  }

  lemma SameOutputs(cfg: Config, size: nat, inputs: seq<Input>, n: nat, i: nat)
    requires i < n <= |inputs|
    ensures OutputsAt(cfg, size, inputs[..n], i) == OutputsAt(cfg, size, inputs, i)
  {
    hide Next, After;
    assert inputs[..n][..i] == inputs[..i];
  }

  // Which responses were started and closed

  /** The responses a frame starts. */
  function Starts(w: Wire): set<Id> {
    if w.ResponseCreated? then {w.rid} else {}
  }

  function StartedBy(inputs: seq<Input>): (r: set<Id>)
    ensures forall rid <- r :: exists i :: 0 <= i < |inputs| && StartsAt(inputs[i], rid)
  {
    if inputs == [] then {}
    else
      var n := |inputs| - 1;
      StartedBy(inputs[..n]) + if inputs[n].Frame? then Starts(inputs[n].wire) else {}
  }

  predicate StartsAt(input: Input, rid: Id) {
    input.Frame? && input.wire.ResponseCreated? && input.wire.rid == rid
  }

  /** Responses are started and closed by the given ones only. */
  ghost predicate Opened(s: Ledger, next: Ledger, started: set<Id>, ended: set<Id>) {
    next.starts.Keys <= s.starts.Keys + started && next.terminals.Keys <= s.terminals.Keys + ended
  }

  lemma DecideResponses(cfg: Config, scan: Scan, rid: Id)
    ensures var next := Decide(cfg, scan, rid).ledger;
            next.starts == scan.ledger.starts && next.terminals == scan.ledger.terminals
  {
    hide CallsOf, Others, SumArgs, AllReady, Judge, RetiredWith, CallErrors;
  }

  lemma EndResponses(cfg: Config, marked: Ledger, w: Wire, seen: set<Update>, closed: set<Id>)
    requires w.ResponseDone? && Kept(cfg, marked, seen, closed) && marked.terminals.Keys == closed + {w.rid}
    requires w.rid !in closed && !EndResponse(cfg, marked, w).ledger.poisoned
    ensures var next := EndResponse(cfg, marked, w).ledger;
            next.starts == marked.starts && next.terminals == marked.terminals
  {
    hide Kept, Decide, ScanItems, Mentions, CallsOf, Others, SumArgs, RetiredWith;
    if w.output.Some? && |w.output.value| <= MAX_OUTPUT_ITEMS && w.status == Completed {
      CompletedKeeps(cfg, marked, w, seen, closed);
      DecideResponses(cfg, Scanned(cfg, marked, w), w.rid);
    }
  }

  lemma CompleteResponses(cfg: Config, s: Ledger, w: Wire, seen: set<Update>)
    requires w.ResponseDone? && Kept(cfg, s, seen, s.terminals.Keys)
    requires CompleteResponse(cfg, s, w).Done? && !CompleteResponse(cfg, s, w).ledger.poisoned
    ensures Opened(s, CompleteResponse(cfg, s, w).ledger, {}, {w.rid})
  {
    hide Kept, EndResponse;
    if w.rid !in s.terminals {
      var marked := s.(terminals := s.terminals[w.rid := TerminalOf(w)]);
      KeptFrame(cfg, s, marked, seen, s.terminals.Keys);
      assert marked.terminals.Keys == s.terminals.Keys + {w.rid};
      EndResponses(cfg, marked, w, seen, s.terminals.Keys);
    }
  }

  lemma CancelResponses(cfg: Config, s: Ledger, rid: Id)
    ensures Opened(s, CancelResponse(cfg, s, rid).ledger, {}, {rid})
  {
    hide Retire, CallsOf;
    RetireGrows(cfg, s.(terminals := s.terminals[rid := CancelledMark]), rid);
  }

  lemma QuietResponses(cfg: Config, s: Ledger, w: Wire)
    requires Ends(w) == {} && Handle(cfg, s, w).Done?
    ensures Opened(s, Handle(cfg, s, w).ledger, Starts(w), {})
  {
    hide NoteItem, CompleteArguments, CancelArguments, CompleteResponse, CancelResponse, SessionAck;
    hide AcknowledgeTruncation;
    QuietHandle(cfg, s, w);
    if w.ResponseCreated? {
      hide Quiet;
      assert Handle(cfg, s, w).ledger.starts.Keys <= s.starts.Keys + {w.rid};
    } else {
      hide StartResponse, Quiet;
      assert Handle(cfg, s, w).ledger.starts == s.starts;
    }
  }

  lemma HandleResponses(cfg: Config, s: Ledger, w: Wire, seen: set<Update>)
    requires Kept(cfg, s, seen, s.terminals.Keys) && Handle(cfg, s, w).Done? && !Handle(cfg, s, w).ledger.poisoned
    ensures Opened(s, Handle(cfg, s, w).ledger, Starts(w), Ends(w))
  {
    hide Kept, CompleteResponse, CancelResponse;
    if w.ResponseDone? {
      CompleteResponses(cfg, s, w, seen);
    } else if w.ResponseCancelled? {
      CancelResponses(cfg, s, w.rid);
    } else {
      hide Handle;
      QuietResponses(cfg, s, w);
    }
  }

  lemma ProcessResponses(cfg: Config, s: Ledger, w: Wire, seen: set<Update>)
    requires Kept(cfg, s, seen, s.terminals.Keys) && !Process(cfg, s, w).0.poisoned
    ensures Opened(s, Process(cfg, s, w).0, Starts(w), Ends(w))
  {
    hide Kept, Admit, Handle;
    var admitted := Admit(s, w).ledger;
    KeptFrame(cfg, s, admitted, seen, s.terminals.Keys);
    if Admit(s, w).value {
      HandleResponses(cfg, admitted, w, seen);
    }
  }

  lemma FrameResponses(cfg: Config, size: nat, a: Adapter, eventId: Option<Id>, w: Wire, seen: set<Update>)
    requires Kept(cfg, a.ledger, seen, a.ledger.terminals.Keys)
    requires !Normalize(cfg, size, a, eventId, w).0.ledger.poisoned
    ensures Opened(a.ledger, Normalize(cfg, size, a, eventId, w).0.ledger, Starts(w), Ends(w))
  {
    hide Kept, Process, Starts, Ends, Opened;
    if eventId.Some? && Recorded(a.window, eventId.value) == Some(w) {
      OpenedSame(a.ledger, Starts(w), Ends(w));
    } else {
      ProcessResponses(cfg, a.ledger, w, seen);
    }
  }

  lemma OpenedSame(s: Ledger, started: set<Id>, ended: set<Id>)
    ensures Opened(s, s, started, ended)
  {
  }

  lemma NextResponses(cfg: Config, size: nat, a: Adapter, input: Input, seen: set<Update>)
    requires Kept(cfg, a.ledger, seen, a.ledger.terminals.Keys) && !Next(cfg, size, a, input).0.ledger.poisoned
    ensures Opened(a.ledger, Next(cfg, size, a, input).0.ledger,
                   if input.Frame? then Starts(input.wire) else {}, Closes(cfg, a, input))
  {
    hide Kept, Normalize, CancelResponse, Starts, Ends;
    match input
    case Frame(eventId, w) => FrameResponses(cfg, size, a, eventId, w, seen);
    case Interrupt(rid) => CancelResponses(cfg, a.ledger, rid);
    case SubmitOutputs(_) =>
  }

  /** Only frames start responses, and only terminal frames and interruptions close them. */
  lemma {:induction false} RunResponses(cfg: Config, size: nat, inputs: seq<Input>)
    requires !After(cfg, size, inputs).ledger.poisoned
    ensures After(cfg, size, inputs).ledger.starts.Keys <= StartedBy(inputs)
    ensures After(cfg, size, inputs).ledger.terminals.Keys <= ClosedBy(cfg, size, inputs)
  {
    if inputs != [] {
      hide Next, Closes, Starts, Kept;
      var n := |inputs| - 1;
      RunGrows(cfg, size, inputs, n);
      RunFaithful(cfg, size, inputs[..n]);
      RunResponses(cfg, size, inputs[..n]);
      NextResponses(cfg, size, After(cfg, size, inputs[..n]), inputs[n], SaidBy(inputs[..n]));
    }
  }

  // Main results

  /**
   * Over every sequence of frames, interruptions and submissions, and for a replay window of any size: function calls
   * are released only by the completed terminal of a started response that no earlier frame or interruption closed,
   * after no fatal protocol error; and the release carries every call any frame named for that response, once, with
   * everything said of it, each present in the terminal output, declared and decodable.
   */
  lemma ReleaseIsExact(cfg: Config, size: nat, inputs: seq<Input>, k: nat, rid: Id, calls: seq<ReadyCall>)
    requires k < |inputs| && Ready(rid, calls) in OutputsAt(cfg, size, inputs, k)
    ensures inputs[k].Frame? && inputs[k].wire.ResponseDone?
    ensures inputs[k].wire.rid == rid && inputs[k].wire.status == Completed
    ensures rid !in ClosedBy(cfg, size, inputs[..k]) && exists i :: 0 <= i < k && StartsAt(inputs[i], rid)
    ensures Released(cfg, After(cfg, size, inputs[..k]).ledger.retired, inputs[k].wire, SaidBy(inputs[..k]), calls)
    ensures forall i :: 0 <= i <= k ==> ProtocolError(true) !in OutputsAt(cfg, size, inputs, i)
  {
    hide Released, Faithful, Next;
    var a := After(cfg, size, inputs[..k]);
    ReadyStep(cfg, size, a, inputs[k], rid, calls);
    RunFaithful(cfg, size, inputs[..k]);
    ReleaseStep(cfg, size, a, inputs[k], SaidBy(inputs[..k]), ClosedBy(cfg, size, inputs[..k]), rid, calls);
    EarlierStart(cfg, size, inputs, k, rid);
    forall i | 0 <= i <= k ensures ProtocolError(true) !in OutputsAt(cfg, size, inputs, i) {
      assert inputs[..k + 1][..k] == inputs[..k];
      assert inputs[..k + 1][..i] == inputs[..i];
      RunGrows(cfg, size, inputs[..k + 1], i);
    }
  }

  lemma EarlierStart(cfg: Config, size: nat, inputs: seq<Input>, k: nat, rid: Id)
    requires k <= |inputs| && !After(cfg, size, inputs[..k]).ledger.poisoned
    requires rid in After(cfg, size, inputs[..k]).ledger.starts
    ensures exists i :: 0 <= i < k && StartsAt(inputs[i], rid)
  {
    hide After, StartsAt;
    RunResponses(cfg, size, inputs[..k]);
    var i :| 0 <= i < k && StartsAt(inputs[..k][i], rid);
    assert StartsAt(inputs[i], rid);
  }

  lemma ReadyStep(cfg: Config, size: nat, a: Adapter, input: Input, rid: Id, calls: seq<ReadyCall>)
    requires Ready(rid, calls) in Next(cfg, size, a, input).1
    ensures !a.ledger.poisoned && input.Frame? && !input.wire.Malformed?
    ensures Ready(rid, calls) in Process(cfg, a.ledger, input.wire).1
    ensures Next(cfg, size, a, input).0.ledger == Process(cfg, a.ledger, input.wire).0
  {
    hide Process, CancelResponse;
    if input.Interrupt? && CancelResponse(cfg, a.ledger, input.rid).Done? {
      CancelGrows(cfg, a.ledger, input.rid);
    }
  }

  lemma ReleaseStep(cfg: Config, size: nat, a: Adapter, input: Input, seen: set<Update>, ended: set<Id>, rid: Id,
                    calls: seq<ReadyCall>)
    requires Faithful(cfg, a, seen, ended) && Ready(rid, calls) in Next(cfg, size, a, input).1
    ensures input.Frame? && input.wire.ResponseDone? && input.wire.rid == rid && input.wire.status == Completed
    ensures rid !in ended && rid in a.ledger.starts
    ensures Released(cfg, a.ledger.retired, input.wire, seen, calls)
    ensures !Next(cfg, size, a, input).0.ledger.poisoned
    ensures forall c <- calls :: c.callId in Next(cfg, size, a, input).0.ledger.retired
  {
    hide Kept, Released, Next, Process;
    ReadyStep(cfg, size, a, input, rid, calls);
    ProcessReleases(cfg, a.ledger, input.wire, seen, rid, calls);
  }

  /** A call id is released at most once in a whole run. */
  lemma ReleasedOnce(cfg: Config, size: nat, inputs: seq<Input>, i: nat, k: nat, first: Output, second: Output)
    requires i < k < |inputs| && first.Ready? && second.Ready?
    requires first in OutputsAt(cfg, size, inputs, i) && second in OutputsAt(cfg, size, inputs, k)
    ensures forall c <- first.calls, d <- second.calls :: c.callId != d.callId
  {
    ReleasedIsRetired(cfg, size, inputs, i, k, first, second);
    ReleasedIsFresh(cfg, size, inputs, k, second);
  }

  /** A call released earlier is retired by the time of a later release. */
  lemma ReleasedIsRetired(cfg: Config, size: nat, inputs: seq<Input>, i: nat, k: nat, first: Output, second: Output)
    requires i < k < |inputs| && first.Ready? && second.Ready?
    requires first in OutputsAt(cfg, size, inputs, i) && second in OutputsAt(cfg, size, inputs, k)
    ensures forall c <- first.calls :: c.callId in After(cfg, size, inputs[..k]).ledger.retired
  {
    hide Faithful, Next, Released;
    var a := After(cfg, size, inputs[..i]);
    ReadyStep(cfg, size, a, inputs[i], first.rid, first.calls);
    RunFaithful(cfg, size, inputs[..i]);
    ReleaseStep(cfg, size, a, inputs[i], SaidBy(inputs[..i]), ClosedBy(cfg, size, inputs[..i]), first.rid, first.calls);
    ReadyStep(cfg, size, After(cfg, size, inputs[..k]), inputs[k], second.rid, second.calls);
    RunGrows(cfg, size, inputs[..k], i + 1);
    assert inputs[..k][..i + 1] == inputs[..i + 1];
    assert inputs[..i + 1][..i] == inputs[..i];
  }

  lemma ReleasedIsFresh(cfg: Config, size: nat, inputs: seq<Input>, k: nat, second: Output)
    requires k < |inputs| && second.Ready? && second in OutputsAt(cfg, size, inputs, k)
    ensures forall d <- second.calls :: d.callId !in After(cfg, size, inputs[..k]).ledger.retired
  {
    hide After, OutputsAt, FitToRun, Answers, Mentions;
    ReleaseIsExact(cfg, size, inputs, k, second.rid, second.calls);
    forall d <- second.calls ensures d.callId !in After(cfg, size, inputs[..k]).ledger.retired {
      FitIsFresh(cfg, After(cfg, size, inputs[..k]).ledger.retired, Mentions(inputs[k].wire), d);
    }
  }

  lemma FitIsFresh(cfg: Config, retired: map<Id, Id>, said: set<Update>, c: ReadyCall)
    requires FitToRun(cfg, retired, said, c)
    ensures c.callId !in retired
  {
  }

  /** An output is accepted only for a call released earlier in the run. */
  lemma {:induction false} AuthorizedWasReleased(cfg: Config, size: nat, inputs: seq<Input>, callId: Id)
    requires !After(cfg, size, inputs).ledger.poisoned && callId in After(cfg, size, inputs).ledger.authorizations
    ensures exists i :: 0 <= i < |inputs| && ReleasedIn(OutputsAt(cfg, size, inputs, i), callId)
  {
    hide Faithful, Next, Said, Closes, ReleasedIn;
    if inputs != [] {
      var n := |inputs| - 1;
      RunGrows(cfg, size, inputs, n);
      RunFaithful(cfg, size, inputs[..n]);
      NextKeeps(cfg, size, After(cfg, size, inputs[..n]), inputs[n], SaidBy(inputs[..n]),
                ClosedBy(cfg, size, inputs[..n]));
      if callId in After(cfg, size, inputs[..n]).ledger.authorizations {
        AuthorizedWasReleased(cfg, size, inputs[..n], callId);
        var i :| 0 <= i < n && ReleasedIn(OutputsAt(cfg, size, inputs[..n], i), callId);
        assert inputs[..n][..i] == inputs[..i];
        assert ReleasedIn(OutputsAt(cfg, size, inputs, i), callId);
      } else {
        assert ReleasedIn(OutputsAt(cfg, size, inputs, n), callId);
      }
    }
  }

  predicate Accepts(cfg: Config, size: nat, inputs: seq<Input>, i: nat, callId: Id)
    requires i < |inputs|
  {
    && inputs[i].SubmitOutputs? && callId in inputs[i].callIds
    && Submit(After(cfg, size, inputs[..i]).ledger, inputs[i].callIds).Done?
  }

  /** An output is accepted only after its call was released. */
  lemma SubmittedAfterRelease(cfg: Config, size: nat, inputs: seq<Input>, i: nat, callId: Id)
    requires i < |inputs| && Accepts(cfg, size, inputs, i, callId)
    ensures exists j :: 0 <= j < i && ReleasedIn(OutputsAt(cfg, size, inputs, j), callId)
  {
    hide Submit, ReleasedIn, Next;
    var a := After(cfg, size, inputs[..i]);
    SubmitNeedsOpen(a.ledger, inputs[i].callIds);
    SubmitMarks(a.ledger, inputs[i].callIds, callId);
    AuthorizedWasReleased(cfg, size, inputs[..i], callId);
    var j :| 0 <= j < i && ReleasedIn(OutputsAt(cfg, size, inputs[..i], j), callId);
    assert inputs[..i][..j] == inputs[..j];
    assert ReleasedIn(OutputsAt(cfg, size, inputs, j), callId);
  }

  lemma SubmitStep(cfg: Config, size: nat, a: Adapter, ids: seq<Id>, callId: Id)
    requires Submit(a.ledger, ids).Done? && callId in ids
    ensures var next := Next(cfg, size, a, SubmitOutputs(ids)).0.ledger;
            callId in next.authorizations && next.authorizations[callId]
  {
    hide Submit;
    SubmitMarks(a.ledger, ids, callId);
  }

  /** The output of a call is accepted at most once in a whole run. */
  lemma SubmittedOnce(cfg: Config, size: nat, inputs: seq<Input>, i: nat, k: nat, callId: Id)
    requires i < k < |inputs| && Accepts(cfg, size, inputs, i, callId)
    ensures !Accepts(cfg, size, inputs, k, callId)
  {
    hide Submit, Next;
    SubmitStep(cfg, size, After(cfg, size, inputs[..i]), inputs[i].callIds, callId);
    assert inputs[..i + 1][..i] == inputs[..i];
    var b := After(cfg, size, inputs[..k]).ledger;
    if !b.poisoned {
      RunGrows(cfg, size, inputs[..k], i + 1);
      assert inputs[..k][..i + 1] == inputs[..i + 1];
      assert callId in b.authorizations && b.authorizations[callId];
    }
    if Accepts(cfg, size, inputs, k, callId) {
      SubmitNeedsOpen(b, inputs[k].callIds);
      SubmitMarks(b, inputs[k].callIds, callId);
    }
  }

  lemma SubmitMarks(s: Ledger, ids: seq<Id>, callId: Id)
    requires Submit(s, ids).Done? && callId in ids
    ensures callId in s.authorizations && !s.authorizations[callId]
    ensures var next := Submit(s, ids).ledger; callId in next.authorizations && next.authorizations[callId]
  {
  }

  /** In every unsealed state no call was ever rejected or in conflict, and the byte and call limits hold exactly. */
  lemma LedgerExact(cfg: Config, size: nat, inputs: seq<Input>)
    requires !After(cfg, size, inputs).ledger.poisoned
    ensures var s := After(cfg, size, inputs).ledger;
            && s.rejected == map[] && (forall p <- s.pending :: !p.conflicted)
            && s.pendingBytes == SumArgs(cfg, s.pending) <= MAX_PENDING_ARGUMENT_BYTES
            && |s.pending| <= MAX_PENDING_CALLS
            && forall rid :: |CallsOf(s.pending, rid)| <= MAX_CALLS_PER_RESPONSE
  {
    RunFaithful(cfg, size, inputs);
    var s := After(cfg, size, inputs).ledger;
    forall p <- s.pending ensures !p.conflicted {
      assert Live(cfg, s, SaidBy(inputs), s.terminals.Keys, p);
    }
  }
}
