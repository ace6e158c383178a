/** When a completed response releases its calls, from the inputs before it and its own items alone. */
module ToolVerdict {
  import opened Common
  import opened ToolLedger
  import opened ToolRelease
  import opened ToolRuns
  import opened ToolTerminal
  import opened ToolHistory
  import opened ToolClean
  import opened ToolOutcome

  /** Every finished call of the response is among its function items, and its arguments decode. */
  ghost predicate Covered(cfg: Config, said: set<Update>, items: seq<Item>, rid: Id) {
    forall u <- said :: u.rid == rid && Finished(said, rid, u.callId) ==>
      u.callId in Calls(items) && (u.args.Some? ==> cfg.decodes(u.args.value))
  }

  /** What makes a completed response free of errors, before the adapter sees it. */
  ghost predicate Acceptable(cfg: Config, p: Past, w: Wire)
    requires w.ResponseDone?
  {
    && w.rid in p.started && |p.closed| < MAX_TRACKED_IDENTITIES
    && w.output.Some? && |w.output.value| <= MAX_OUTPUT_ITEMS
    && OutputConsistent(cfg, p, w.output.value, w.rid)
    && Covered(cfg, p.said + Mentions(w), w.output.value, w.rid)
  }

  // The calls

  lemma MemberIsPending(scan: Scan, items: seq<Item>, q: PendingCall)
    requires MembersAre(scan, items) && Ordered(scan.ledger.pending) && q in scan.ledger.pending
    ensures q.callId in scan.members <==> q.callId in Calls(items)
    ensures q.callId in scan.members ==> scan.members[q.callId] == q.itemId
  {
    hide Ordered, Calls, Ids, Find;
    if q.callId in scan.members {
      var known := Find(scan.ledger.pending, q.callId);
      if scan.ledger.pending[known.value] != q {
        DistinctCalls(scan.ledger.pending, scan.ledger.pending[known.value], q);
      }
    }
  }

  lemma JudgedClean(cfg: Config, scan: Scan, items: seq<Item>, said: set<Update>, closed: set<Id>, q: PendingCall)
    requires CallsKept(cfg, scan.ledger, said, closed) && MembersAre(scan, items)
    requires q in scan.ledger.pending && q.rid !in closed
    ensures Judge(cfg, q, scan.members) in {ReadyToRun, Unfinished} <==>
            (Finished(said, q.rid, q.callId) ==> q.callId in Calls(items) && q.args.Some? && cfg.decodes(q.args.value))
  {
    assert Ordered(scan.ledger.pending);
    hide CallsKept, MembersAre, Finished, Ordered, Calls;
    JudgedUnfinished(cfg, scan.ledger, said, closed, q, scan.members);
    FinishedCall(cfg, scan.ledger, said, closed, q);
    MemberIsPending(scan, items, q);
  }

  /** A pending call of the response is covered when what was said of it is. */
  lemma CoveredCall(cfg: Config, s: Ledger, said: set<Update>, closed: set<Id>, items: seq<Item>, q: PendingCall)
    requires CallsKept(cfg, s, said, closed) && q in s.pending && q.rid !in closed
    requires Covered(cfg, said, items, q.rid) && Finished(said, q.rid, q.callId)
    ensures q.callId in Calls(items) && q.args.Some? && cfg.decodes(q.args.value)
  {
    FinishedCall(cfg, s, said, closed, q);
    var u :| u in said && u.rid == q.rid && u.callId == q.callId && u.args.Some?;
    var i :| 0 <= i < |s.pending| && s.pending[i] == q;
    PendingCarries(cfg, s, said, closed, i, u);
  }

  lemma CoveredUpdate(cfg: Config, s: Ledger, said: set<Update>, closed: set<Id>, items: seq<Item>, rid: Id, u: Update)
    requires CallsKept(cfg, s, said, closed) && rid !in closed && u in said && u.rid == rid
    requires forall q <- CallsOf(s.pending, rid) :: Finished(said, rid, q.callId) ==>
               q.callId in Calls(items) && q.args.Some? && cfg.decodes(q.args.value)
    requires Finished(said, rid, u.callId)
    ensures u.callId in Calls(items) && (u.args.Some? ==> cfg.decodes(u.args.value))
  {
    hide Live, Ordered, Finished, Calls, CallsOf;
    assert Held(s.pending, u);
    var k :| 0 <= k < |s.pending| && Carries(s.pending[k], u);
    assert s.pending[k] in CallsOf(s.pending, rid);
  }

  lemma CoveredIff(cfg: Config, scan: Scan, items: seq<Item>, said: set<Update>, closed: set<Id>, rid: Id)
    requires CallsKept(cfg, scan.ledger, said, closed) && MembersAre(scan, items) && rid !in closed
    ensures CallErrors(cfg, CallsOf(scan.ledger.pending, rid), scan.members) == [] <==> Covered(cfg, said, items, rid)
  {
    hide CallsKept, MembersAre, Finished, Calls, CallsOf, CallErrors, Judge;
    var calls := CallsOf(scan.ledger.pending, rid);
    ErrorsOf(cfg, calls, scan.members);
    forall q <- calls
      ensures Judge(cfg, q, scan.members) in {ReadyToRun, Unfinished} <==>
              (Finished(said, rid, q.callId) ==> q.callId in Calls(items) && q.args.Some? && cfg.decodes(q.args.value))
    {
      JudgedClean(cfg, scan, items, said, closed, q);
    }
    if Covered(cfg, said, items, rid) {
      forall i | 0 <= i < |calls| ensures Judge(cfg, calls[i], scan.members) in {ReadyToRun, Unfinished} {
        assert calls[i] in calls;
        if Finished(said, rid, calls[i].callId) {
          CoveredCall(cfg, scan.ledger, said, closed, items, calls[i]);
        }
      }
    }
    if forall i :: 0 <= i < |calls| ==> Judge(cfg, calls[i], scan.members) in {ReadyToRun, Unfinished} {
      forall u <- said | u.rid == rid && Finished(said, rid, u.callId)
        ensures u.callId in Calls(items) && (u.args.Some? ==> cfg.decodes(u.args.value))
      {
        CoveredUpdate(cfg, scan.ledger, said, closed, items, rid, u);
      }
    }
  }

  // The terminal event

  lemma DecideReports(cfg: Config, marked: Ledger, w: Wire, p: Past)
    requires Completes(w) && Informed(cfg, marked, p) && w.rid !in p.closed && !marked.poisoned
    ensures NoErrors(Decide(cfg, Scanned(cfg, marked, w), w.rid).value) <==>
            && OutputConsistent(cfg, p, w.output.value, w.rid)
            && Covered(cfg, p.said + Mentions(w), w.output.value, w.rid)
  {
    hide Decide, ScanItems, OutputMentions, CallsKept, NotesKept, Remembers, OutputConsistent, OutputFits, Covered;
    hide NoErrors, Releases, CallsOf, CallErrors, Progress;
    var items, start, scan := w.output.value, Scan(marked, {}, map[], false, []), Scanned(cfg, marked, w);
    ScanClean(cfg, start, items, w.rid);
    DecideOutcome(cfg, scan, w.rid);
    PassIsClean(cfg, marked, items, w.rid);
    FitsIff(cfg, marked, p, items, w.rid);
    if scan.errors == [] {
      ScanFaults(cfg, start, items, w.rid);
      ScanItemsKeeps(cfg, marked, items, w.rid, p.said, p.closed);
      hide ScanKept;
      ScanKeepsCalls(cfg, marked, scan, p.said, Mentions(w), p.closed);
      CoveredIff(cfg, scan, items, p.said + Mentions(w), p.closed, w.rid);
    }
  }

  lemma InformedMarked(cfg: Config, s: Ledger, p: Past, rid: Id, mark: Terminal)
    requires Informed(cfg, s, p) && rid in s.starts
    ensures Informed(cfg, s.(terminals := s.terminals[rid := mark]), p)
  {
    hide Kept, Remembers;
    KeptFrame(cfg, s, s.(terminals := s.terminals[rid := mark]), p.said, p.closed);
    MarkRemembers(s, rid, mark, p);
  }

  lemma CompleteReports(cfg: Config, s: Ledger, w: Wire, p: Past)
    requires w.ResponseDone? && w.status == Completed && Informed(cfg, s, p) && !s.poisoned
    requires s.terminals.Keys == p.closed && w.rid !in p.closed && w.rid in s.starts
    requires CompleteResponse(cfg, s, w).Done?
    ensures NoErrors(CompleteResponse(cfg, s, w).value) <==>
            && w.output.Some? && |w.output.value| <= MAX_OUTPUT_ITEMS
            && OutputConsistent(cfg, p, w.output.value, w.rid)
            && Covered(cfg, p.said + Mentions(w), w.output.value, w.rid)
  {
    hide Informed, Decide, ScanItems, NoErrors, OutputConsistent, Covered, Mentions, EndWithoutRelease;
    var marked := s.(terminals := s.terminals[w.rid := TerminalOf(w)]);
    InformedMarked(cfg, s, p, w.rid, TerminalOf(w));
    if w.output.None? || |w.output.value| > MAX_OUTPUT_ITEMS {
      TooMuchOutput(cfg, marked, w);
    } else {
      DecideReports(cfg, marked, w, p);
    }
  }

  /** A terminal event is admitted exactly when its response was started. */
  lemma AdmitsTerminal(s: Ledger, w: Wire)
    requires w.ResponseDone? && SessionKept(s)
    ensures Admit(s, w).Done? <==> w.rid in s.starts
    ensures Admit(s, w).Done? ==> Admit(s, w) == Done(s, true)
  {
    if w.rid in s.starts {
      assert s.starts != map[];
    }
  }

  lemma CompletesWithin(cfg: Config, s: Ledger, w: Wire)
    requires w.ResponseDone? && w.rid !in s.terminals
    ensures CompleteResponse(cfg, s, w).Done? <==> |s.terminals| < MAX_TRACKED_IDENTITIES
  {
    hide ScanItems, CallsOf, Others, SumArgs, AllReady, Judge, CallErrors;
  }

  lemma ProcessReports(cfg: Config, s: Ledger, w: Wire, p: Past)
    requires w.ResponseDone? && w.status == Completed && Informed(cfg, s, p) && !s.poisoned
    requires s.terminals.Keys == p.closed && w.rid !in p.closed
    ensures NoErrors(Process(cfg, s, w).1) <==> Acceptable(cfg, p, w)
  {
    assert SessionKept(s) && s.starts.Keys == p.started;
    hide Informed, Admit, CompleteResponse, OutputConsistent, Covered, Mentions, NoErrors;
    AdmitsTerminal(s, w);
    CompletesWithin(cfg, s, w);
    assert |s.terminals| == |s.terminals.Keys|;
    OneError();
    if w.rid in s.starts && |s.terminals| < MAX_TRACKED_IDENTITIES {
      CompleteReports(cfg, s, w, p);
    }
  }

  lemma OneError()
    ensures !NoErrors([ProtocolError(true)])
  {
    assert ProtocolError(true) in [ProtocolError(true)];
  }

  // Sealing

  lemma {:induction false} FatalErrors(cfg: Config, scan: Scan, output: seq<Item>, rid: Id)
    requires forall o <- scan.errors :: o == ProtocolError(true)
    ensures forall o <- ScanItems(cfg, scan, output, rid).errors :: o == ProtocolError(true)
  {
    if output != [] {
      var n := |output| - 1;
      FatalErrors(cfg, scan, output[..n], rid);
      FatalError(cfg, ScanItems(cfg, scan, output[..n], rid), output[n], rid);
    }
  }

  lemma FatalError(cfg: Config, scan: Scan, item: Item, rid: Id)
    requires forall o <- scan.errors :: o == ProtocolError(true)
    ensures forall o <- ScanItem(cfg, scan, item, rid).errors :: o == ProtocolError(true)
  {
    hide ScanItem;
  }

  lemma {:induction false} MissingIsReported(cfg: Config, calls: seq<PendingCall>, members: map<Id, Option<Id>>, i: nat)
    requires i < |calls| && Judge(cfg, calls[i], members) == NotInOutput
    ensures ProtocolError(true) in CallErrors(cfg, calls, members)
  {
    hide Judge;
    var n := |calls| - 1;
    if i < n {
      MissingIsReported(cfg, calls[..n], members, i);
    }
  }

  lemma DecideReported(cfg: Config, scan: Scan, rid: Id)
    requires Decide(cfg, scan, rid).ledger.poisoned
    requires scan.ledger.poisoned ==> ProtocolError(true) in scan.errors
    ensures ProtocolError(true) in Decide(cfg, scan, rid).value
  {
    hide Retire, CallsOf, Judge, CallErrors, AllReady;
    if !scan.ledger.poisoned {
      var calls := CallsOf(scan.ledger.pending, rid);
      var i :| 0 <= i < |calls| && Judge(cfg, calls[i], scan.members) == NotInOutput;
      MissingIsReported(cfg, calls, scan.members, i);
    }
  }

  lemma UnreleasedReported(cfg: Config, marked: Ledger, w: Wire, fatal: bool)
    requires w.ResponseDone? && !marked.poisoned
    ensures EndWithoutRelease(cfg, marked, w, fatal).ledger.poisoned ==>
            ProtocolError(true) in EndWithoutRelease(cfg, marked, w, fatal).value
  {
    RetireGrows(cfg, marked, w.rid);
    hide Retire, CallsOf;
    if fatal {
      assert EndWithoutRelease(cfg, marked, w, fatal).value[0] == ProtocolError(true);
    }
  }

  lemma DecidedReported(cfg: Config, marked: Ledger, w: Wire)
    requires w.ResponseDone? && w.output.Some? && !marked.poisoned
    ensures var r := Decide(cfg, Scanned(cfg, marked, w), w.rid); r.ledger.poisoned ==> ProtocolError(true) in r.value
  {
    hide Decide, ScanItems;
    var start, scan := Scan(marked, {}, map[], false, []), Scanned(cfg, marked, w);
    FatalErrors(cfg, start, w.output.value, w.rid);
    ScanFaults(cfg, start, w.output.value, w.rid);
    if scan.ledger.poisoned {
      assert scan.errors[0] in scan.errors;
    }
    if Decide(cfg, scan, w.rid).ledger.poisoned {
      DecideReported(cfg, scan, w.rid);
    }
  }

  lemma EndReported(cfg: Config, marked: Ledger, w: Wire)
    requires w.ResponseDone? && !marked.poisoned && EndResponse(cfg, marked, w).ledger.poisoned
    ensures ProtocolError(true) in EndResponse(cfg, marked, w).value
  {
    hide Decide, ScanItems, EndWithoutRelease;
    if w.output.Some? {
      DecidedReported(cfg, marked, w);
    }
    UnreleasedReported(cfg, marked, w, true);
    UnreleasedReported(cfg, marked, w, w.status == Unknown);
  }

  lemma HandleReported(cfg: Config, s: Ledger, w: Wire)
    requires !s.poisoned && Handle(cfg, s, w).Done? && Handle(cfg, s, w).ledger.poisoned
    ensures ProtocolError(true) in Handle(cfg, s, w).value
  {
    hide CancelResponse, EndResponse;
    if w.ResponseDone? {
      EndReported(cfg, s.(terminals := s.terminals[w.rid := TerminalOf(w)]), w);
    } else if w.ResponseCancelled? {
      CancelGrows(cfg, s, w.rid);
    } else {
      hide Handle;
      QuietHandle(cfg, s, w);
    }
  }

  /** An input that seals the adapter reports a fatal error. */
  lemma SealIsReported(cfg: Config, size: nat, a: Adapter, input: Input)
    requires !a.ledger.poisoned && Next(cfg, size, a, input).0.ledger.poisoned
    ensures ProtocolError(true) in Next(cfg, size, a, input).1
  {
    hide Handle, Admit, CancelResponse;
    match input
    case Frame(_, w) =>
      if Admit(a.ledger, w).Done? && Admit(a.ledger, w).value && Handle(cfg, Admit(a.ledger, w).ledger, w).Done?
         && Handle(cfg, Admit(a.ledger, w).ledger, w).ledger.poisoned {
        HandleReported(cfg, Admit(a.ledger, w).ledger, w);
      }
    case Interrupt(rid) =>
      if CancelResponse(cfg, a.ledger, rid).Done? {
        CancelGrows(cfg, a.ledger, rid);
      }
    case SubmitOutputs(_) =>
  }

  /** No input before `k` made the adapter report a fatal error. */
  ghost predicate Unsealed(cfg: Config, size: nat, inputs: seq<Input>, k: nat)
    requires k <= |inputs|
  {
    forall i :: 0 <= i < k ==> ProtocolError(true) !in OutputsAt(cfg, size, inputs, i)
  }

  /** The adapter is sealed exactly when it reported a fatal error. */
  lemma {:induction false} UnsealedIff(cfg: Config, size: nat, inputs: seq<Input>, k: nat)
    requires k <= |inputs|
    ensures Unsealed(cfg, size, inputs, k) <==> !After(cfg, size, inputs[..k]).ledger.poisoned
    decreases k
  {
    hide Next;
    if k > 0 {
      var n := k - 1;
      UnsealedIff(cfg, size, inputs, n);
      assert inputs[..k][..n] == inputs[..n] && inputs[..k][n] == inputs[n];
      if After(cfg, size, inputs[..k]).ledger.poisoned {
        if !After(cfg, size, inputs[..n]).ledger.poisoned {
          SealIsReported(cfg, size, After(cfg, size, inputs[..n]), inputs[n]);
          assert ProtocolError(true) in OutputsAt(cfg, size, inputs, n);
        }
      } else {
        RunGrows(cfg, size, inputs[..k], n);
        SameOutputs(cfg, size, inputs, k, n);
      }
    }
  }

  // Main results

  /** The event id of an input is not one the replay window still holds. */
  predicate FreshId(cfg: Config, size: nat, inputs: seq<Input>, k: nat)
    requires k < |inputs| && inputs[k].Frame?
  {
    inputs[k].eventId.Some? ==> Recorded(After(cfg, size, inputs[..k]).window, inputs[k].eventId.value).None?
  }

  lemma FrameReports(cfg: Config, size: nat, a: Adapter, eventId: Option<Id>, w: Wire, p: Past)
    requires w.ResponseDone? && w.status == Completed && Attentive(cfg, a, p) && !a.ledger.poisoned
    requires w.rid !in p.closed
    ensures NoErrors(Normalize(cfg, size, a, eventId, w).1) <==>
            && (eventId.Some? ==> Recorded(a.window, eventId.value).None?)
            && Acceptable(cfg, p, w)
  {
    hide Kept, Remembers, Process, Acceptable, NoErrors;
    OneError();
    ProcessReports(cfg, a.ledger, w, p);
    if eventId.Some? && Recorded(a.window, eventId.value).Some? {
      assert Seen(eventId.value, Recorded(a.window, eventId.value).value) in a.window;
    }
  }

  /**
   * The completed terminal of an open response reports no error exactly when no fatal error came before, its event id
   * is new to the replay window, its response was started, its items agree with everything said before and with one
   * another within the limits, and every finished call of the response is among them with arguments that decode.
   */
  lemma ErrorFree(cfg: Config, size: nat, inputs: seq<Input>, k: nat)
    requires k < |inputs| && inputs[k].Frame? && inputs[k].wire.ResponseDone? && inputs[k].wire.status == Completed
    requires inputs[k].wire.rid !in ClosedBy(cfg, size, inputs[..k])
    ensures NoErrors(OutputsAt(cfg, size, inputs, k)) <==>
            && Unsealed(cfg, size, inputs, k) && FreshId(cfg, size, inputs, k)
            && Acceptable(cfg, PastOf(cfg, size, inputs[..k]), inputs[k].wire)
  {
    hide After, Unsealed, Acceptable, NoErrors, Normalize, Attentive, ClosedBy, PastOf;
    var a, p := After(cfg, size, inputs[..k]), PastOf(cfg, size, inputs[..k]);
    UnsealedIff(cfg, size, inputs, k);
    PastIs(cfg, size, inputs[..k]);
    if a.ledger.poisoned {
      PoisonStays(cfg, size, a, inputs[k].eventId, inputs[k].wire);
      OneError();
    } else {
      RunRemembers(cfg, size, inputs[..k]);
      FrameReports(cfg, size, a, inputs[k].eventId, inputs[k].wire, p);
    }
  }

  /**
   * The completed terminal of a response releases its calls exactly when, before it, the response was started and
   * closed by nothing and no fatal error was reported; its event id is new to the replay window; its items agree with
   * everything said before and with one another within the limits; and the frames up to it named at least one call for
   * the response and, of each, its name, its end, its presence among the items and arguments that decode, and withdrew
   * none.
   */
  lemma ReleasedWhen(cfg: Config, size: nat, inputs: seq<Input>, k: nat)
    requires k < |inputs| && inputs[k].Frame? && inputs[k].wire.ResponseDone? && inputs[k].wire.status == Completed
    ensures var w, p := inputs[k].wire, PastOf(cfg, size, inputs[..k]);
            Releases(OutputsAt(cfg, size, inputs, k), w.rid) <==>
              && w.rid !in p.closed && Unsealed(cfg, size, inputs, k) && FreshId(cfg, size, inputs, k)
              && Acceptable(cfg, p, w) && Runnable(p.said + Mentions(w), w.rid)
  {
    hide After, OutputsAt, Unsealed, Acceptable, NoErrors, Releases, Runnable, ClosedBy, PastOf, Mentions, FreshId;
    PastIs(cfg, size, inputs[..k]);
    ReleasedUnlessError(cfg, size, inputs, k);
    if inputs[k].wire.rid !in ClosedBy(cfg, size, inputs[..k]) {
      ErrorFree(cfg, size, inputs, k);
    }
  }
}
