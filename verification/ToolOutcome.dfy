/** When a completed response does release its calls: the exact condition, over everything the frames said of them. */
module ToolOutcome {
  import opened Common
  import opened ToolLedger
  import opened ToolRelease
  import opened ToolRuns

  /** Some call was named for the response, and each is named, has arguments, came to its end and was not withdrawn. */
  ghost predicate Runnable(said: set<Update>, rid: Id) {
    && (exists u :: u in said && u.rid == rid)
    && forall u <- said :: u.rid == rid ==> Finished(said, rid, u.callId)
  }

  ghost predicate Finished(said: set<Update>, rid: Id, callId: Id) {
    && Named(said, rid, callId) && Argued(said, rid, callId)
    && Ended(said, rid, callId) && !Withdrawn(said, rid, callId)
  }

  ghost predicate NoErrors(outputs: seq<Output>) {
    forall o <- outputs :: !o.ProtocolError?
  }

  ghost predicate Releases(outputs: seq<Output>, rid: Id) {
    exists calls :: Ready(rid, calls) in outputs
  }

  // The pending calls and what was said of them

  lemma FinishedCall(cfg: Config, s: Ledger, said: set<Update>, closed: set<Id>, p: PendingCall)
    requires CallsKept(cfg, s, said, closed) && p in s.pending && p.rid !in closed
    ensures Finished(said, p.rid, p.callId) <==> p.name.Some? && p.args.Some? && p.terminal && !p.cancelled
  {
    assert Live(cfg, s, said, closed, p);
    hide CallsKept;
    var i :| 0 <= i < |s.pending| && s.pending[i] == p;
    forall u <- said | u.rid == p.rid && u.callId == p.callId ensures Carries(p, u) {
      PendingCarries(cfg, s, said, closed, i, u);
    }
  }

  /** A call is unfinished exactly when the frames left something open or withdrew it. */
  lemma JudgedUnfinished(cfg: Config, s: Ledger, said: set<Update>, closed: set<Id>, p: PendingCall,
                         members: map<Id, Option<Id>>)
    requires CallsKept(cfg, s, said, closed) && p in s.pending && p.rid !in closed
    ensures Judge(cfg, p, members) == Unfinished <==> !Finished(said, p.rid, p.callId)
  {
    FinishedCall(cfg, s, said, closed, p);
    assert Live(cfg, s, said, closed, p);
    hide CallsKept, Finished, Sourced;
  }

  lemma RunnableCalls(cfg: Config, s: Ledger, said: set<Update>, closed: set<Id>, rid: Id, members: map<Id, Option<Id>>)
    requires CallsKept(cfg, s, said, closed) && rid !in closed
    ensures var calls := CallsOf(s.pending, rid);
            Runnable(said, rid) <==>
              calls != [] && forall p <- calls :: Judge(cfg, p, members) != Unfinished
  {
    hide Judge, Finished, CallsKept, CallsOf;
    var calls := CallsOf(s.pending, rid);
    forall p <- calls ensures Judge(cfg, p, members) == Unfinished <==> !Finished(said, rid, p.callId) {
      JudgedUnfinished(cfg, s, said, closed, p, members);
    }
    if Runnable(said, rid) {
      var u :| u in said && u.rid == rid;
      CallMentioned(cfg, s, said, closed, rid, u.callId);
      forall p <- calls ensures Finished(said, rid, p.callId) {
        PendingIsNamed(cfg, s, said, closed, p);
      }
    }
    if calls != [] && forall p <- calls :: Judge(cfg, p, members) != Unfinished {
      PendingIsNamed(cfg, s, said, closed, calls[0]);
      forall u <- said | u.rid == rid ensures Finished(said, rid, u.callId) {
        CallMentioned(cfg, s, said, closed, rid, u.callId);
        var i :| 0 <= i < |calls| && calls[i].callId == u.callId;
        assert calls[i] in calls;
      }
    }
  }

  lemma PendingIsNamed(cfg: Config, s: Ledger, said: set<Update>, closed: set<Id>, p: PendingCall)
    requires CallsKept(cfg, s, said, closed) && p in s.pending
    ensures exists u :: u in said && u.rid == p.rid && u.callId == p.callId
  {
    assert Live(cfg, s, said, closed, p);
  }

  // The terminal event

  lemma {:induction false} ErrorsOf(cfg: Config, calls: seq<PendingCall>, members: map<Id, Option<Id>>)
    ensures CallErrors(cfg, calls, members) == [] <==>
            forall i :: 0 <= i < |calls| ==> Judge(cfg, calls[i], members) in {ReadyToRun, Unfinished}
  {
    hide Judge;
    if calls != [] {
      var n := |calls| - 1;
      ErrorsOf(cfg, calls[..n], members);
      assert forall i :: 0 <= i < n ==> calls[..n][i] == calls[i];
    }
  }

  ghost predicate NoFault(scan: Scan, next: Scan) {
    next.errors == scan.errors ==> next.ledger.poisoned == scan.ledger.poisoned && next.invalid == scan.invalid
  }

  lemma ScanFunctionFaults(cfg: Config, scan: Scan, item: Item, rid: Id)
    requires item.Item?
    ensures NoFault(scan, ScanFunction(cfg, scan, item, rid))
  {
    hide Ingest, Charged, Extended, Admitted;
  }

  lemma ScanItemFaults(cfg: Config, scan: Scan, item: Item, rid: Id)
    ensures NoFault(scan, ScanItem(cfg, scan, item, rid))
  {
    hide ScanFunction, BindTerminal;
    if item.Item? {
      var seen := if item.id.Some? then scan.(itemIds := scan.itemIds + {item.id.value}) else scan;
      ScanFunctionFaults(cfg, seen.(ledger := BindTerminal(seen.ledger, item, rid).ledger), item, rid);
    }
  }

  /** A scan that reported nothing met no fault. */
  lemma {:induction false} ScanFaults(cfg: Config, scan: Scan, output: seq<Item>, rid: Id)
    requires scan.errors == [] && !scan.ledger.poisoned && !scan.invalid
    ensures var after := ScanItems(cfg, scan, output, rid);
            after.errors == [] ==> !after.ledger.poisoned && !after.invalid
  {
    hide ScanItem;
    if output != [] {
      var n := |output| - 1;
      ScanFaults(cfg, scan, output[..n], rid);
      ScanItemFaults(cfg, ScanItems(cfg, scan, output[..n], rid), output[n], rid);
    }
  }

  /** A decision reports no error and releases exactly when the scan had none and every call is ready. */
  lemma DecideOutcome(cfg: Config, scan: Scan, rid: Id)
    requires forall o <- scan.errors :: o.ProtocolError?
    ensures var outputs, calls := Decide(cfg, scan, rid).value, CallsOf(scan.ledger.pending, rid);
            && (NoErrors(outputs) <==> scan.errors == [] && CallErrors(cfg, calls, scan.members) == [])
            && (Releases(outputs, rid) <==> !scan.invalid && calls != [] && AllReady(cfg, calls, scan.members))
  {
    hide CallsOf, Retire, CallErrors, Authorized;
    var calls := CallsOf(scan.ledger.pending, rid);
    var released := !scan.invalid && calls != [] && AllReady(cfg, calls, scan.members);
    var outputs, errors := Decide(cfg, scan, rid).value, CallErrors(cfg, calls, scan.members);
    var middle := if released then [Ready(rid, Release(calls))] else Dropped(rid, calls);
    assert outputs == scan.errors + errors + middle + [ResponseEnded(rid, Completed, released)];
    if scan.errors != [] {
      assert scan.errors[0] in outputs;
    }
    if errors != [] {
      assert errors[0] in errors && errors[0] in outputs;
    }
    if released {
      assert middle[0] in outputs;
    }
  }

  /** Given what the scan established: with no error every call is ready or unfinished. */
  lemma VerdictOutcome(cfg: Config, scan: Scan, rid: Id, said: set<Update>, closed: set<Id>)
    requires CallsKept(cfg, scan.ledger, said, closed) && !scan.invalid && scan.errors == [] && rid !in closed
    ensures var outputs := Decide(cfg, scan, rid).value;
            Releases(outputs, rid) <==> NoErrors(outputs) && Runnable(said, rid)
  {
    hide Decide, CallsKept, Runnable, Judge, CallsOf, NoErrors, Releases;
    var calls := CallsOf(scan.ledger.pending, rid);
    DecideOutcome(cfg, scan, rid);
    ErrorsOf(cfg, calls, scan.members);
    RunnableCalls(cfg, scan.ledger, said, closed, rid, scan.members);
    assert forall p :: p in calls <==> exists i :: 0 <= i < |calls| && calls[i] == p;
  }

  lemma CompletedOutcome(cfg: Config, marked: Ledger, w: Wire, seen: set<Update>, closed: set<Id>)
    requires w.ResponseDone? && w.output.Some? && w.rid !in closed
    requires w.status == Completed && Kept(cfg, marked, seen, closed) && !marked.poisoned
    ensures var outputs := Decide(cfg, Scanned(cfg, marked, w), w.rid).value;
            Releases(outputs, w.rid) <==> NoErrors(outputs) && Runnable(seen + Mentions(w), w.rid)
  {
    hide Decide, ScanItems, OutputMentions, Kept, ScanKept, CallsKept, Runnable, CallsOf, NoErrors, Releases;
    var start := Scan(marked, {}, map[], false, []);
    var scan := Scanned(cfg, marked, w);
    ScanClean(cfg, start, w.output.value, w.rid);
    if scan.errors == [] {
      ScanFaults(cfg, start, w.output.value, w.rid);
      ScanItemsKeeps(cfg, marked, w.output.value, w.rid, seen, closed);
      ScanKeepsCalls(cfg, marked, scan, seen, Mentions(w), closed);
      VerdictOutcome(cfg, scan, w.rid, seen + Mentions(w), closed);
    } else {
      ScanSeals(cfg, start, w.output.value, w.rid);
      DecideOutcome(cfg, scan, w.rid);
    }
  }

  lemma TooMuchOutput(cfg: Config, marked: Ledger, w: Wire)
    requires w.ResponseDone? && (w.output.None? || |w.output.value| > MAX_OUTPUT_ITEMS)
    ensures var outputs := EndResponse(cfg, marked, w).value; !NoErrors(outputs) && !Releases(outputs, w.rid)
  {
    hide Retire, CallsOf;
    var outputs := EndWithoutRelease(cfg, marked, w, true).value;
    assert outputs[0] == ProtocolError(true) && outputs[0] in outputs;
  }

  lemma CompleteOutcome(cfg: Config, s: Ledger, w: Wire, seen: set<Update>)
    requires w.ResponseDone? && w.status == Completed && Kept(cfg, s, seen, s.terminals.Keys) && !s.poisoned
    requires w.rid !in s.terminals && CompleteResponse(cfg, s, w).Done?
    ensures var outputs := CompleteResponse(cfg, s, w).value;
            Releases(outputs, w.rid) <==> NoErrors(outputs) && Runnable(seen + Mentions(w), w.rid)
  {
    hide Kept, Decide, ScanItems, Mentions, Runnable, NoErrors, Releases, EndWithoutRelease;
    var marked := s.(terminals := s.terminals[w.rid := TerminalOf(w)]);
    KeptFrame(cfg, s, marked, seen, s.terminals.Keys);
    if w.output.None? || |w.output.value| > MAX_OUTPUT_ITEMS {
      TooMuchOutput(cfg, marked, w);
    } else {
      CompletedOutcome(cfg, marked, w, seen, s.terminals.Keys);
    }
  }

  lemma ProcessOutcome(cfg: Config, s: Ledger, w: Wire, seen: set<Update>)
    requires w.ResponseDone? && w.status == Completed && Kept(cfg, s, seen, s.terminals.Keys) && !s.poisoned
    requires w.rid !in s.terminals
    ensures var outputs := Process(cfg, s, w).1;
            Releases(outputs, w.rid) <==> NoErrors(outputs) && Runnable(seen + Mentions(w), w.rid)
  {
    hide Kept, Admit, CompleteResponse, Mentions, Runnable;
    var admitted := Admit(s, w).ledger;
    if Admit(s, w).Done? && CompleteResponse(cfg, admitted, w).Done? {
      KeptFrame(cfg, s, admitted, seen, s.terminals.Keys);
      CompleteOutcome(cfg, admitted, w, seen);
    } else {
      assert Process(cfg, s, w).1 == [ProtocolError(true)];
      assert ProtocolError(true) in [ProtocolError(true)];
    }
  }

  /** A frame not seen under its event id is processed; one whose id stands for another frame is an error. */
  lemma FreshFrame(cfg: Config, size: nat, a: Adapter, eventId: Option<Id>, w: Wire)
    requires !a.ledger.poisoned && w.ResponseDone?
    requires forall e <- a.window :: e.wire != w
    ensures var outputs := Normalize(cfg, size, a, eventId, w).1;
            outputs == Process(cfg, a.ledger, w).1 || (!NoErrors(outputs) && !Releases(outputs, w.rid))
  {
    hide Process;
    assert ProtocolError(true) in [ProtocolError(true)];
  }

  /**
   * The completed terminal of a response releases its calls exactly when nothing closed the response before, the
   * terminal reports no protocol error, and the frames up to and including it named at least one call for the response
   * and, for each, its name, its arguments and its end, and withdrew none.
   */
  lemma ReleasedUnlessError(cfg: Config, size: nat, inputs: seq<Input>, k: nat)
    requires k < |inputs| && inputs[k].Frame? && inputs[k].wire.ResponseDone? && inputs[k].wire.status == Completed
    ensures var rid, outputs := inputs[k].wire.rid, OutputsAt(cfg, size, inputs, k);
            Releases(outputs, rid) <==>
              && rid !in ClosedBy(cfg, size, inputs[..k])
              && NoErrors(outputs)
              && Runnable(SaidBy(inputs[..k]) + Mentions(inputs[k].wire), rid)
  {
    hide After, Process, Runnable, Mentions, Kept, ClosedBy;
    var a, w := After(cfg, size, inputs[..k]), inputs[k].wire;
    if Releases(OutputsAt(cfg, size, inputs, k), w.rid) {
      var calls :| Ready(w.rid, calls) in OutputsAt(cfg, size, inputs, k);
      ReleaseIsExact(cfg, size, inputs, k, w.rid, calls);
    }
    if a.ledger.poisoned {
      assert ProtocolError(true) in OutputsAt(cfg, size, inputs, k);
    } else {
      RunFaithful(cfg, size, inputs[..k]);
      RunResponses(cfg, size, inputs[..k]);
      if w.rid !in a.ledger.terminals {
        ProcessOutcome(cfg, a.ledger, w, SaidBy(inputs[..k]));
        FreshFrame(cfg, size, a, inputs[k].eventId, w);
      }
    }
  }
}
