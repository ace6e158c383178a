/** What the end of a response reports of its calls: which are dropped, in which order, and that none of them ran. */
module ToolDropped {
  import opened Common
  import opened ToolLedger
  import opened ToolRelease
  import opened ToolRuns
  import opened ToolTerminal
  import opened ToolHistory
  import opened ToolClean
  import opened ToolOutcome
  import opened ToolVerdict
  import opened ToolNaming

  // The pending calls of a response follow the naming

  lemma RetireNames(cfg: Config, s: Ledger, gone: Id, rid: Id)
    requires gone != rid
    ensures Names(Retire(cfg, s, gone).pending, rid) == Names(s.pending, rid)
  {
    NamesOthers(s.pending, gone, rid);
  }

  lemma CancelResponseNames(cfg: Config, s: Ledger, gone: Id, rid: Id)
    requires gone != rid && CancelResponse(cfg, s, gone).Done?
    ensures Names(CancelResponse(cfg, s, gone).ledger.pending, rid) == Names(s.pending, rid)
  {
    RetireNames(cfg, s.(terminals := s.terminals[gone := CancelledMark]), gone, rid);
    hide Names, Retire, CallsOf;
  }

  lemma DecideNames(cfg: Config, scan: Scan, gone: Id, rid: Id)
    requires gone != rid
    ensures Names(Decide(cfg, scan, gone).ledger.pending, rid) == Names(scan.ledger.pending, rid)
  {
    RetireNames(cfg, scan.ledger, gone, rid);
    hide Names, Retire, CallsOf, Judge, AllReady, CallErrors;
  }

  lemma PassKeepsOthers(cfg: Config, marked: Ledger, w: Wire, rid: Id)
    requires w.ResponseDone? && w.output.Some? && w.rid != rid
    ensures Names(Scanned(cfg, marked, w).ledger.pending, rid) == Names(marked.pending, rid)
  {
    hide Names, ScanItems, NamedWithin, Unretired;
    PassNames(cfg, Scan(marked, {}, map[], false, []), w.output.value, w.rid);
  }

  lemma UnreleasedNames(cfg: Config, marked: Ledger, w: Wire, fatal: bool, rid: Id)
    requires w.ResponseDone? && w.rid != rid
    ensures Names(EndWithoutRelease(cfg, marked, w, fatal).ledger.pending, rid) == Names(marked.pending, rid)
  {
    RetireNames(cfg, marked, w.rid, rid);
    hide Names, Retire, CallsOf, Dropped;
  }

  lemma EndNames(cfg: Config, marked: Ledger, w: Wire, rid: Id)
    requires w.ResponseDone? && w.rid != rid
    ensures Names(EndResponse(cfg, marked, w).ledger.pending, rid) == Names(marked.pending, rid)
  {
    hide Names, ScanItems, Decide, EndWithoutRelease;
    if w.output.Some? && |w.output.value| <= MAX_OUTPUT_ITEMS && w.status == Completed {
      PassKeepsOthers(cfg, marked, w, rid);
      DecideNames(cfg, Scanned(cfg, marked, w), w.rid, rid);
    } else {
      UnreleasedNames(cfg, marked, w, true, rid);
      UnreleasedNames(cfg, marked, w, w.status == Unknown, rid);
    }
  }

  lemma CompleteNames(cfg: Config, s: Ledger, w: Wire, rid: Id)
    requires w.ResponseDone? && w.rid != rid && CompleteResponse(cfg, s, w).Done?
    ensures Names(CompleteResponse(cfg, s, w).ledger.pending, rid) == Names(s.pending, rid)
  {
    EndNames(cfg, s.(terminals := s.terminals[w.rid := TerminalOf(w)]), w, rid);
    hide Names, EndResponse;
  }

  lemma HandleNames(cfg: Config, s: Ledger, w: Wire, seen: set<Update>, rid: Id)
    requires Kept(cfg, s, seen, s.terminals.Keys) && Handle(cfg, s, w).Done?
    requires rid !in s.terminals && rid !in Ends(w)
    ensures NamedNow(s, Handle(cfg, s, w).ledger, w, rid)
  {
    hide Names, Kept, NoteItem, CompleteArguments, CancelArguments, CompleteResponse, CancelResponse;
    match w
    case ItemEvent(_, _, _) => ItemNames(cfg, s, w, seen, rid);
    case ArgumentsDone(_, _, _, _, _) => ArgumentsNames(cfg, s, w, seen, rid);
    case ArgumentsCancelled(_, _) => CancelNames(cfg, s, w, rid);
    case ResponseCancelled(gone) => CancelResponseNames(cfg, s, gone, rid);
    case ResponseDone(_, _, _, _) => CompleteNames(cfg, s, w, rid);
    case _ =>
  }

  lemma ProcessNames(cfg: Config, s: Ledger, w: Wire, seen: set<Update>, rid: Id)
    requires Kept(cfg, s, seen, s.terminals.Keys) && !s.poisoned && !Process(cfg, s, w).0.poisoned
    requires rid !in s.terminals && rid !in Ends(w)
    ensures NamedNow(s, Process(cfg, s, w).0, w, rid)
  {
    hide Names, Kept, Admit, Handle;
    var admitted := Admit(s, w).ledger;
    KeptFrame(cfg, s, admitted, seen, s.terminals.Keys);
    if Admit(s, w).value {
      HandleNames(cfg, admitted, w, seen, rid);
    }
  }

  lemma FrameNames(cfg: Config, size: nat, a: Adapter, eventId: Option<Id>, w: Wire, seen: set<Update>, ended: set<Id>,
                   rid: Id)
    requires Faithful(cfg, a, seen, ended) && !a.ledger.poisoned
    requires !Normalize(cfg, size, a, eventId, w).0.ledger.poisoned && rid !in a.ledger.terminals && rid !in Ends(w)
    ensures NamedNow(a.ledger, Normalize(cfg, size, a, eventId, w).0.ledger, w, rid)
  {
    hide NamedNow, Process, CallsKept, NotesKept, WithinBudget, Mentions, Ends;
    if eventId.Some? && Recorded(a.window, eventId.value) == Some(w) {
      AlreadyNamed(cfg, a.ledger, seen, a.ledger.terminals.Keys, w, rid);
    } else {
      ProcessNames(cfg, a.ledger, w, seen, rid);
    }
  }

  lemma InterruptNames(cfg: Config, s: Ledger, gone: Id, rid: Id)
    requires InterruptResponse(cfg, s, gone).Done? && gone != rid
    ensures Names(InterruptResponse(cfg, s, gone).ledger.pending, rid) == Names(s.pending, rid)
  {
    CancelResponseNames(cfg, s, gone, rid);
  }

  lemma NextNames(cfg: Config, size: nat, a: Adapter, input: Input, seen: set<Update>, ended: set<Id>, rid: Id)
    requires Faithful(cfg, a, seen, ended) && !a.ledger.poisoned && !Next(cfg, size, a, input).0.ledger.poisoned
    requires rid !in a.ledger.terminals && rid !in Closes(cfg, a, input)
    ensures Names(Next(cfg, size, a, input).0.ledger.pending, rid) ==
            NameSome(Names(a.ledger.pending, rid), if input.Frame? then NamesCall(input.wire, rid) else None)
  {
    hide Names, Faithful, Normalize, InterruptResponse, Ends, Submit, NameSome, NamesCall;
    match input
    case Frame(eventId, w) => FrameNames(cfg, size, a, eventId, w, seen, ended, rid);
    case Interrupt(gone) =>
      if InterruptResponse(cfg, a.ledger, gone).Done? {
        InterruptNames(cfg, a.ledger, gone, rid);
      }
      NoneNamed(Names(a.ledger.pending, rid));
    case SubmitOutputs(ids) =>
      SubmitPending(a.ledger, ids);
      NoneNamed(Names(a.ledger.pending, rid));
  }

  lemma SubmitPending(s: Ledger, ids: seq<Id>)
    ensures Submit(s, ids).ledger.pending == s.pending
  {
  }

  lemma NoneNamed(names: seq<Id>)
    ensures NameSome(names, None) == names
  {
  }

  lemma StillOpen(cfg: Config, size: nat, inputs: seq<Input>, rid: Id)
    requires inputs != [] && !After(cfg, size, inputs).ledger.poisoned
    requires rid !in After(cfg, size, inputs).ledger.terminals
    ensures var n := |inputs| - 1;
            var a := After(cfg, size, inputs[..n]);
            && !a.ledger.poisoned && rid !in a.ledger.terminals && rid !in Closes(cfg, a, inputs[n])
            && Faithful(cfg, a, SaidBy(inputs[..n]), ClosedBy(cfg, size, inputs[..n]))
  {
    var n := |inputs| - 1;
    RunGrows(cfg, size, inputs, n);
    RunFaithful(cfg, size, inputs[..n]);
    RunFaithful(cfg, size, inputs);
    hide Next, Kept, Closes, After, SaidBy;
  }

  /** The pending calls of an open response are those the frames named for it, in that order. */
  lemma {:induction false} RunNames(cfg: Config, size: nat, inputs: seq<Input>, rid: Id)
    requires !After(cfg, size, inputs).ledger.poisoned && rid !in After(cfg, size, inputs).ledger.terminals
    ensures Names(After(cfg, size, inputs).ledger.pending, rid) == Naming(inputs, rid)
  {
    if inputs != [] {
      hide Names, Faithful, Next, Closes, NameSome, NamesCall;
      var n := |inputs| - 1;
      StillOpen(cfg, size, inputs, rid);
      RunNames(cfg, size, inputs[..n], rid);
      NextNames(cfg, size, After(cfg, size, inputs[..n]), inputs[n], SaidBy(inputs[..n]),
                ClosedBy(cfg, size, inputs[..n]), rid);
    }
  }

  // What is reported

  /** One report of the dropped calls, or none when there are none. */
  function DropReport(rid: Id, names: seq<Id>): seq<Output> {
    if names == [] then [] else [CallsCancelled(rid, names)]
  }

  lemma DroppedIs(pending: seq<PendingCall>, rid: Id)
    ensures Dropped(rid, CallsOf(pending, rid)) == DropReport(rid, Names(pending, rid))
  {
    hide CallsOf;
  }

  function CancelReport(rid: Id, names: seq<Id>): seq<Output> {
    DropReport(rid, names) + [ResponseInterrupted(rid), ResponseEnded(rid, Cancelled, false)]
  }

  /** A terminal that may not release calls: its output is no array of permitted length, or it did not complete. */
  predicate Barren(w: Wire)
    requires w.ResponseDone?
  {
    w.output.None? || |w.output.value| > MAX_OUTPUT_ITEMS || w.status != Completed
  }

  function BarrenReport(w: Wire, names: seq<Id>): seq<Output>
    requires w.ResponseDone?
  {
    (if w.output.None? || |w.output.value| > MAX_OUTPUT_ITEMS || w.status == Unknown then [ProtocolError(true)] else [])
    + DropReport(w.rid, names) + [ResponseEnded(w.rid, w.status, false)]
  }

  lemma CancelReports(cfg: Config, s: Ledger, rid: Id)
    requires rid !in s.terminals
    ensures CancelResponse(cfg, s, rid).Done? <==> |s.terminals| < MAX_TRACKED_IDENTITIES
    ensures CancelResponse(cfg, s, rid).Done? ==>
              CancelResponse(cfg, s, rid).value == CancelReport(rid, Names(s.pending, rid))
  {
    DroppedIs(s.pending, rid);
    hide Names, Dropped, Retire, CallsOf;
  }

  lemma BarrenReports(cfg: Config, s: Ledger, w: Wire)
    requires w.ResponseDone? && w.rid !in s.terminals && Barren(w) && |s.terminals| < MAX_TRACKED_IDENTITIES
    ensures CompleteResponse(cfg, s, w).Done?
    ensures CompleteResponse(cfg, s, w).value == BarrenReport(w, Names(s.pending, w.rid))
  {
    DroppedIs(s.pending, w.rid);
    hide Names, Dropped, Retire, CallsOf, ScanItems, Decide;
  }

  // When an end is taken

  /** An open response that was started, before any fatal error and within the limit on closed responses. */
  ghost predicate Endable(cfg: Config, size: nat, inputs: seq<Input>, k: nat, rid: Id)
    requires k <= |inputs|
  {
    && Unsealed(cfg, size, inputs, k) && rid in StartedBy(inputs[..k]) && rid !in ClosedBy(cfg, size, inputs[..k])
    && |ClosedBy(cfg, size, inputs[..k])| < MAX_TRACKED_IDENTITIES
  }

  lemma LedgerKnows(cfg: Config, size: nat, inputs: seq<Input>)
    requires !After(cfg, size, inputs).ledger.poisoned
    ensures var s := After(cfg, size, inputs).ledger;
            && s.starts.Keys == StartedBy(inputs) && s.terminals.Keys == ClosedBy(cfg, size, inputs)
            && |s.terminals| == |ClosedBy(cfg, size, inputs)| && SessionKept(s)
  {
    RunRemembers(cfg, size, inputs);
    PastIs(cfg, size, inputs);
    hide After, ClosedBy, StartedBy, Kept, PastOf, Heard;
    var s := After(cfg, size, inputs).ledger;
    assert |s.terminals| == |s.terminals.Keys|;
  }

  /**
   * A local interruption is accepted exactly when its response is open, and then reports as dropped every call named
   * for it so far, once, in order of first mention.
   */
  lemma InterruptedExactly(cfg: Config, size: nat, inputs: seq<Input>, k: nat, rid: Id)
    requires k < |inputs| && inputs[k] == Interrupt(rid)
    ensures OutputsAt(cfg, size, inputs, k) ==
            if Endable(cfg, size, inputs, k, rid) then CancelReport(rid, Naming(inputs[..k], rid)) else []
  {
    var s := After(cfg, size, inputs[..k]).ledger;
    UnsealedIff(cfg, size, inputs, k);
    if !s.poisoned {
      LedgerKnows(cfg, size, inputs[..k]);
      StartedIsReady(s, rid);
      if rid !in s.terminals {
        RunNames(cfg, size, inputs[..k], rid);
        CancelReports(cfg, s, rid);
      }
    }
    hide After, Unsealed, StartedBy, ClosedBy, Names, CancelResponse, CancelReport, Naming, SessionKept;
  }

  lemma StartedIsReady(s: Ledger, rid: Id)
    requires SessionKept(s)
    ensures rid in s.starts ==> s.sessionReady
  {
    if rid in s.starts {
      assert s.starts != map[];
    }
  }

  /** An ending frame is admitted exactly when its response was started. */
  lemma AdmitsEnd(s: Ledger, w: Wire)
    requires (w.ResponseDone? || w.ResponseCancelled?) && SessionKept(s)
    ensures Admit(s, w).Done? <==> w.rid in s.starts
    ensures Admit(s, w).Done? ==> Admit(s, w) == Done(s, true)
  {
    if w.rid in s.starts {
      assert s.starts != map[];
    }
  }

  /** A frame whose response is open is processed exactly when its event id is new to the window. */
  lemma FreshIsProcessed(cfg: Config, size: nat, a: Adapter, eventId: Option<Id>, w: Wire)
    requires !a.ledger.poisoned && (w.ResponseDone? || w.ResponseCancelled?) && w.rid !in a.ledger.terminals
    requires forall e <- a.window :: Ends(e.wire) <= a.ledger.terminals.Keys
    ensures Normalize(cfg, size, a, eventId, w).1 ==
            if eventId.Some? && Recorded(a.window, eventId.value).Some? then [ProtocolError(true)]
            else Process(cfg, a.ledger, w).1
  {
    hide Process;
    if eventId.Some? && Recorded(a.window, eventId.value).Some? {
      assert Seen(eventId.value, Recorded(a.window, eventId.value).value) in a.window;
    }
  }

  lemma WindowEnds(cfg: Config, size: nat, inputs: seq<Input>)
    requires !After(cfg, size, inputs).ledger.poisoned
    ensures var a := After(cfg, size, inputs); forall e <- a.window :: Ends(e.wire) <= a.ledger.terminals.Keys
  {
    RunFaithful(cfg, size, inputs);
    hide Kept, After;
  }

  /** What an ending frame of an open response puts out: refused, or handled against the ledgers as they are. */
  lemma EndIsHandled(cfg: Config, size: nat, inputs: seq<Input>, k: nat)
    requires k < |inputs| && inputs[k].Frame? && (inputs[k].wire.ResponseDone? || inputs[k].wire.ResponseCancelled?)
    requires inputs[k].wire.rid !in ClosedBy(cfg, size, inputs[..k])
    ensures var w, s := inputs[k].wire, After(cfg, size, inputs[..k]).ledger;
            if Endable(cfg, size, inputs, k, w.rid) && FreshId(cfg, size, inputs, k)
            then !s.poisoned && w.rid !in s.terminals && |s.terminals| < MAX_TRACKED_IDENTITIES
                 && (Handle(cfg, s, w).Done? ==> OutputsAt(cfg, size, inputs, k) == Handle(cfg, s, w).value)
            else OutputsAt(cfg, size, inputs, k) == [ProtocolError(true)]
  {
    var a, w := After(cfg, size, inputs[..k]), inputs[k].wire;
    UnsealedIff(cfg, size, inputs, k);
    if a.ledger.poisoned {
      PoisonStays(cfg, size, a, inputs[k].eventId, w);
    } else {
      LedgerKnows(cfg, size, inputs[..k]);
      WindowEnds(cfg, size, inputs[..k]);
      FreshIsProcessed(cfg, size, a, inputs[k].eventId, w);
      AdmitsEnd(a.ledger, w);
      FullLedger(cfg, a.ledger, w);
    }
    hide After, Unsealed, StartedBy, ClosedBy, Handle, Admit, Normalize, SessionKept;
  }

  lemma FullLedger(cfg: Config, s: Ledger, w: Wire)
    requires (w.ResponseDone? || w.ResponseCancelled?) && w.rid !in s.terminals
    ensures |s.terminals| >= MAX_TRACKED_IDENTITIES ==> Handle(cfg, s, w).Thrown?
  {
    hide EndResponse, Retire, CallsOf;
  }

  /** The cancelling frame of an open response reports as an interruption does, or is a fatal error. */
  lemma CancelledExactly(cfg: Config, size: nat, inputs: seq<Input>, k: nat, rid: Id)
    requires k < |inputs| && inputs[k].Frame? && inputs[k].wire == ResponseCancelled(rid)
    requires rid !in ClosedBy(cfg, size, inputs[..k])
    ensures OutputsAt(cfg, size, inputs, k) ==
            if Endable(cfg, size, inputs, k, rid) && FreshId(cfg, size, inputs, k)
            then CancelReport(rid, Naming(inputs[..k], rid)) else [ProtocolError(true)]
  {
    hide After, OutputsAt, Endable, FreshId, ClosedBy, Naming, Names, CancelResponse, CancelReport;
    EndIsHandled(cfg, size, inputs, k);
    if Endable(cfg, size, inputs, k, rid) && FreshId(cfg, size, inputs, k) {
      RunNames(cfg, size, inputs[..k], rid);
      CancelReports(cfg, After(cfg, size, inputs[..k]).ledger, rid);
    }
  }

  /**
   * The terminal of an open response that did not complete, or whose output is no array of permitted length, reports
   * as dropped every call named for the response before it.
   */
  lemma EndedExactly(cfg: Config, size: nat, inputs: seq<Input>, k: nat)
    requires k < |inputs| && inputs[k].Frame? && inputs[k].wire.ResponseDone? && Barren(inputs[k].wire)
    requires inputs[k].wire.rid !in ClosedBy(cfg, size, inputs[..k])
    ensures var w := inputs[k].wire;
            OutputsAt(cfg, size, inputs, k) ==
            if Endable(cfg, size, inputs, k, w.rid) && FreshId(cfg, size, inputs, k)
            then BarrenReport(w, Naming(inputs[..k], w.rid)) else [ProtocolError(true)]
  {
    hide After, OutputsAt, Endable, FreshId, ClosedBy, Naming, Names, CompleteResponse, BarrenReport, Barren;
    var w := inputs[k].wire;
    EndIsHandled(cfg, size, inputs, k);
    if Endable(cfg, size, inputs, k, w.rid) && FreshId(cfg, size, inputs, k) {
      RunNames(cfg, size, inputs[..k], w.rid);
      BarrenReports(cfg, After(cfg, size, inputs[..k]).ledger, w);
    }
  }

  lemma ClosedIsHandled(cfg: Config, s: Ledger, w: Wire)
    requires (w.ResponseDone? || w.ResponseCancelled?) && w.rid in s.terminals
    ensures Process(cfg, s, w).1 == [] || Process(cfg, s, w).1 == [ProtocolError(true)]
  {
    hide Admit, EndResponse, Retire, CallsOf;
    assert Admit(s, w).Done? ==> Admit(s, w).ledger.terminals == s.terminals;
  }

  /** A response that is closed has nothing more to report. */
  lemma ClosedReportsNothing(cfg: Config, size: nat, inputs: seq<Input>, k: nat)
    requires k < |inputs| && inputs[k].Frame? && (inputs[k].wire.ResponseDone? || inputs[k].wire.ResponseCancelled?)
    requires inputs[k].wire.rid in ClosedBy(cfg, size, inputs[..k])
    ensures OutputsAt(cfg, size, inputs, k) == [] || OutputsAt(cfg, size, inputs, k) == [ProtocolError(true)]
  {
    hide After, ClosedBy, StartedBy, Process, SessionKept, Recorded, Slid;
    var a, w := After(cfg, size, inputs[..k]), inputs[k].wire;
    if !a.ledger.poisoned {
      LedgerKnows(cfg, size, inputs[..k]);
      ClosedIsHandled(cfg, a.ledger, w);
    }
  }

  // The completed terminal

  /** The calls a completed response ends with: those named before, then calls of its items that raised no fault. */
  ghost predicate EndsWith(cfg: Config, p: Past, names: seq<Id>, items: seq<Item>, rid: Id, ids: seq<Id>) {
    && NamedWithin(names, items, ids)
    && (forall j :: 0 <= j <= |items| && OutputConsistent(cfg, p, items[..j], rid) ==>
          NameItems(names, items[..j]) <= ids)
    && (OutputConsistent(cfg, p, items, rid) ==> ids == NameItems(names, items))
  }

  lemma PassEndsWith(cfg: Config, marked: Ledger, w: Wire, p: Past)
    requires w.ResponseDone? && w.output.Some? && Informed(cfg, marked, p) && w.rid !in p.closed && !marked.poisoned
    ensures EndsWith(cfg, p, Names(marked.pending, w.rid), w.output.value, w.rid,
                     Names(Scanned(cfg, marked, w).ledger.pending, w.rid))
  {
    hide Names, ScanItems, NamedWithin, Unretired, OutputConsistent, OutputFits, NameItems, Informed;
    var start, items, rid := Scan(marked, {}, map[], false, []), w.output.value, w.rid;
    PassNames(cfg, start, items, rid);
    forall j | 0 <= j <= |items| && OutputConsistent(cfg, p, items[..j], rid)
      ensures NameItems(Names(marked.pending, rid), items[..j]) <= Names(Scanned(cfg, marked, w).ledger.pending, rid)
    {
      ConsistentNames(cfg, marked, items[..j], rid, p);
      PassGrows(cfg, start, items, rid, j);
    }
    if OutputConsistent(cfg, p, items, rid) {
      ConsistentNames(cfg, marked, items, rid, p);
    }
  }

  lemma ConsistentNames(cfg: Config, marked: Ledger, items: seq<Item>, rid: Id, p: Past)
    requires Informed(cfg, marked, p) && rid !in p.closed && !marked.poisoned && OutputConsistent(cfg, p, items, rid)
    ensures Names(ScanItems(cfg, Scan(marked, {}, map[], false, []), items, rid).ledger.pending, rid) ==
            NameItems(Names(marked.pending, rid), items)
  {
    WithinBytes(cfg, marked, p);
    hide Names, ScanItems, OutputConsistent, OutputFits, NameItems, Informed, ScanProgress;
    FitsIff(cfg, marked, p, items, rid);
    PassIsClean(cfg, marked, items, rid);
    CleanPassNames(cfg, Scan(marked, {}, map[], false, []), items, rid);
  }

  lemma WithinBytes(cfg: Config, s: Ledger, p: Past)
    requires Informed(cfg, s, p)
    ensures s.pendingBytes <= MAX_PENDING_ARGUMENT_BYTES
  {
    hide CallsKept, NotesKept, Remembers, SumArgs;
  }

  function ReadyIds(calls: seq<ReadyCall>): (r: seq<Id>)
    ensures |r| == |calls| && forall i :: 0 <= i < |r| ==> r[i] == calls[i].callId
  {
    seq(|calls|, i requires 0 <= i < |calls| => calls[i].callId)
  }

  predicate OnlyErrors(outputs: seq<Output>) {
    forall o <- outputs :: o.ProtocolError?
  }

  /** A completed response puts out errors, then its released or its dropped calls, then its end. */
  ghost predicate CompletedReport(outputs: seq<Output>, rid: Id, ids: seq<Id>) {
    || (exists calls :: ReadyIds(calls) == ids && ids != []
          && outputs == [Ready(rid, calls), ResponseEnded(rid, Completed, true)])
    || (exists errors :: OnlyErrors(errors)
          && outputs == errors + DropReport(rid, ids) + [ResponseEnded(rid, Completed, false)])
  }

  lemma ReleasedReport(cfg: Config, scan: Scan, rid: Id)
    requires scan.errors == [] && CallsOf(scan.ledger.pending, rid) != [] && !scan.invalid
    requires AllReady(cfg, CallsOf(scan.ledger.pending, rid), scan.members)
    ensures CompletedReport(Decide(cfg, scan, rid).value, rid, Names(scan.ledger.pending, rid))
  {
    var calls := CallsOf(scan.ledger.pending, rid);
    ErrorsOf(cfg, calls, scan.members);
    hide CallsOf, Retire, CallErrors, Authorized;
    assert ReadyIds(Release(calls)) == CallIds(calls);
    assert Decide(cfg, scan, rid).value == [Ready(rid, Release(calls)), ResponseEnded(rid, Completed, true)];
  }

  lemma DecideReport(cfg: Config, scan: Scan, rid: Id)
    requires (forall o <- scan.errors :: o.ProtocolError?) && (scan.errors != [] ==> scan.invalid)
    ensures CompletedReport(Decide(cfg, scan, rid).value, rid, Names(scan.ledger.pending, rid))
  {
    var calls := CallsOf(scan.ledger.pending, rid);
    hide CompletedReport, Names, CallsOf, Judge;
    if !scan.invalid && calls != [] && AllReady(cfg, calls, scan.members) {
      ReleasedReport(cfg, scan, rid);
    } else {
      hide AllReady, Dropped, Retire;
      DroppedIs(scan.ledger.pending, rid);
      UnreleasedReport(scan.errors + CallErrors(cfg, calls, scan.members), rid, Names(scan.ledger.pending, rid));
    }
  }

  lemma UnreleasedReport(errors: seq<Output>, rid: Id, ids: seq<Id>)
    requires OnlyErrors(errors)
    ensures CompletedReport(errors + DropReport(rid, ids) + [ResponseEnded(rid, Completed, false)], rid, ids)
  {
  }

  lemma CompletedReports(cfg: Config, s: Ledger, w: Wire, p: Past)
    requires w.ResponseDone? && !Barren(w) && Informed(cfg, s, p) && !s.poisoned && w.rid !in p.closed
    requires w.rid in s.starts && w.rid !in s.terminals && |s.terminals| < MAX_TRACKED_IDENTITIES
    ensures CompleteResponse(cfg, s, w).Done?
    ensures exists ids :: EndsWith(cfg, p, Names(s.pending, w.rid), w.output.value, w.rid, ids)
                          && CompletedReport(CompleteResponse(cfg, s, w).value, w.rid, ids)
  {
    CompletesWithin(cfg, s, w);
    hide Informed, Names, Decide, ScanItems, EndsWith, CompletedReport;
    var marked := s.(terminals := s.terminals[w.rid := TerminalOf(w)]);
    InformedMarked(cfg, s, p, w.rid, TerminalOf(w));
    PassEndsWith(cfg, marked, w, p);
    var start, scan := Scan(marked, {}, map[], false, []), Scanned(cfg, marked, w);
    ScanClean(cfg, start, w.output.value, w.rid);
    FatalErrors(cfg, start, w.output.value, w.rid);
    ScanSeals(cfg, start, w.output.value, w.rid);
    InvalidIsPoisoned(cfg, start, w.output.value, w.rid);
    DecideReport(cfg, scan, w.rid);
  }

  lemma {:induction false} InvalidIsPoisoned(cfg: Config, scan: Scan, items: seq<Item>, rid: Id)
    requires scan.invalid == scan.ledger.poisoned
    ensures ScanItems(cfg, scan, items, rid).invalid == ScanItems(cfg, scan, items, rid).ledger.poisoned
  {
    hide ScanItem;
    if items != [] {
      InvalidIsPoisoned(cfg, scan, items[..|items| - 1], rid);
    }
  }

  /**
   * The completed terminal of an open response lists its calls once, those named before it first and in that order,
   * then those its items add: all of them when the items agree with everything said and with one another, and
   * otherwise at least those of the agreeing items in front. It reports them as released or as dropped.
   */
  lemma CompletedExactly(cfg: Config, size: nat, inputs: seq<Input>, k: nat)
    requires k < |inputs| && inputs[k].Frame? && inputs[k].wire.ResponseDone? && !Barren(inputs[k].wire)
    requires inputs[k].wire.rid !in ClosedBy(cfg, size, inputs[..k])
    ensures var w := inputs[k].wire;
            if Endable(cfg, size, inputs, k, w.rid) && FreshId(cfg, size, inputs, k)
            then exists ids :: CompletedReport(OutputsAt(cfg, size, inputs, k), w.rid, ids)
                   && EndsWith(cfg, PastOf(cfg, size, inputs[..k]), Naming(inputs[..k], w.rid), w.output.value,
                               w.rid, ids)
            else OutputsAt(cfg, size, inputs, k) == [ProtocolError(true)]
  {
    hide After, OutputsAt, FreshId, ClosedBy, Naming, Names, CompleteResponse, Barren, EndsWith, CompletedReport;
    hide PastOf, StartedBy, Unsealed;
    var w := inputs[k].wire;
    EndIsHandled(cfg, size, inputs, k);
    if Endable(cfg, size, inputs, k, w.rid) && FreshId(cfg, size, inputs, k) {
      var s := After(cfg, size, inputs[..k]).ledger;
      RunNames(cfg, size, inputs[..k], w.rid);
      LedgerKnows(cfg, size, inputs[..k]);
      RunInformed(cfg, size, inputs[..k]);
      CompletedReports(cfg, s, w, PastOf(cfg, size, inputs[..k]));
    }
  }

  lemma RunInformed(cfg: Config, size: nat, inputs: seq<Input>)
    requires !After(cfg, size, inputs).ledger.poisoned
    ensures Informed(cfg, After(cfg, size, inputs).ledger, PastOf(cfg, size, inputs))
    ensures PastOf(cfg, size, inputs).closed == ClosedBy(cfg, size, inputs)
  {
    RunRemembers(cfg, size, inputs);
    PastIs(cfg, size, inputs);
    hide After, ClosedBy, StartedBy, Kept, PastOf, Heard, Remembers;
  }

  // Released or dropped, never both

  predicate EndsResponse(input: Input) {
    input.Interrupt? || (input.Frame? && (input.wire.ResponseDone? || input.wire.ResponseCancelled?))
  }

  /** Calls reported dropped were not retired before, and are retired after. */
  ghost predicate Drops(s: Ledger, next: Ledger, outputs: seq<Output>) {
    forall o <- outputs :: o.CallsCancelled? ==> forall c <- o.callIds :: c !in s.retired && c in next.retired
  }

  lemma RetireDrops(cfg: Config, s: Ledger, rid: Id, c: Id)
    requires Unretired(s) && c in Names(s.pending, rid)
    ensures c !in s.retired && c in Retire(cfg, s, rid).retired
  {
    RetiredReleased(cfg, s, rid);
    NamesIn(s.pending, rid, c);
    hide Retire, Names, CallsOf;
    var p :| p in s.pending && p.rid == rid && p.callId == c;
    assert p in CallsOf(s.pending, rid);
  }

  lemma ReportDrops(cfg: Config, s: Ledger, rid: Id, next: Ledger, outputs: seq<Output>)
    requires Unretired(s) && next.retired == Retire(cfg, s, rid).retired
    requires forall o <- outputs :: o.CallsCancelled? ==> o == CallsCancelled(rid, Names(s.pending, rid))
    ensures Drops(s, next, outputs)
  {
    hide Names, Retire, Unretired;
    forall o <- outputs, c | o.CallsCancelled? && c in o.callIds ensures c !in s.retired && c in next.retired {
      RetireDrops(cfg, s, rid, c);
    }
  }

  lemma KeptUnretired(cfg: Config, s: Ledger, seen: set<Update>, closed: set<Id>)
    requires Kept(cfg, s, seen, closed)
    ensures Unretired(s)
  {
    hide AllHeld, Ordered, NotesKept, WithinBudget, Sourced;
    forall p <- s.pending ensures p.callId !in s.retired {
      assert Live(cfg, s, seen, closed, p);
    }
  }

  lemma MarkedUnretired(s: Ledger, rid: Id, mark: Terminal)
    requires Unretired(s)
    ensures Unretired(s.(terminals := s.terminals[rid := mark]))
  {
  }

  lemma CancelDrops(cfg: Config, s: Ledger, rid: Id)
    requires Unretired(s) && CancelResponse(cfg, s, rid).Done?
    ensures Drops(s, CancelResponse(cfg, s, rid).ledger, CancelResponse(cfg, s, rid).value)
  {
    hide Names, Retire, Unretired, Drops;
    if rid !in s.terminals {
      var marked := s.(terminals := s.terminals[rid := CancelledMark]);
      CancelReports(cfg, s, rid);
      MarkedUnretired(s, rid, CancelledMark);
      ReportDrops(cfg, marked, rid, CancelResponse(cfg, s, rid).ledger, CancelResponse(cfg, s, rid).value);
      DropsFrom(s, marked, CancelResponse(cfg, s, rid).ledger, CancelResponse(cfg, s, rid).value);
    } else {
      NothingDropped(s);
    }
  }

  lemma NothingDropped(s: Ledger)
    ensures Drops(s, s, [])
  {
  }

  lemma DropsFrom(s: Ledger, t: Ledger, next: Ledger, outputs: seq<Output>)
    requires t.retired == s.retired && Drops(t, next, outputs)
    ensures Drops(s, next, outputs)
  {
  }

  lemma UnreleasedDrops(cfg: Config, marked: Ledger, w: Wire, fatal: bool)
    requires w.ResponseDone? && Unretired(marked)
    ensures var r := EndWithoutRelease(cfg, marked, w, fatal); Drops(marked, r.ledger, r.value)
  {
    DroppedIs(marked.pending, w.rid);
    hide Names, Retire, Unretired, Drops, CallsOf, Dropped;
    var r := EndWithoutRelease(cfg, marked, w, fatal);
    ReportDrops(cfg, marked, w.rid, r.ledger, r.value);
  }

  lemma DecideDrops(cfg: Config, scan: Scan, rid: Id)
    requires Unretired(scan.ledger) && (forall o <- scan.errors :: o.ProtocolError?)
    ensures var r := Decide(cfg, scan, rid); r.Done? && Drops(scan.ledger, r.ledger, r.value)
  {
    DroppedIs(scan.ledger.pending, rid);
    hide Names, Retire, Unretired, Drops, CallsOf, Dropped, Judge, AllReady;
    var r := Decide(cfg, scan, rid);
    ReportDrops(cfg, scan.ledger, rid, r.ledger, r.value);
  }

  lemma EndDrops(cfg: Config, marked: Ledger, w: Wire)
    requires w.ResponseDone? && Unretired(marked)
    ensures var r := EndResponse(cfg, marked, w); Drops(marked, r.ledger, r.value)
  {
    hide Names, Unretired, Drops, ScanItems, Decide, EndWithoutRelease, NamedWithin;
    if w.output.Some? && |w.output.value| <= MAX_OUTPUT_ITEMS && w.status == Completed {
      var start, scan := Scan(marked, {}, map[], false, []), Scanned(cfg, marked, w);
      PassNames(cfg, start, w.output.value, w.rid);
      FatalErrors(cfg, start, w.output.value, w.rid);
      DecideDrops(cfg, scan, w.rid);
      DropsFrom(marked, scan.ledger, Decide(cfg, scan, w.rid).ledger, Decide(cfg, scan, w.rid).value);
    } else {
      UnreleasedDrops(cfg, marked, w, true);
      UnreleasedDrops(cfg, marked, w, w.status == Unknown);
    }
  }

  lemma HandleDrops(cfg: Config, s: Ledger, w: Wire)
    requires (w.ResponseDone? || w.ResponseCancelled?) && Unretired(s) && Handle(cfg, s, w).Done?
    ensures Drops(s, Handle(cfg, s, w).ledger, Handle(cfg, s, w).value)
  {
    hide Unretired, Drops, CancelResponse, EndResponse;
    if w.ResponseCancelled? {
      CancelDrops(cfg, s, w.rid);
    } else if w.rid in s.terminals {
      NothingDropped(s);
    } else {
      var marked := s.(terminals := s.terminals[w.rid := TerminalOf(w)]);
      MarkedUnretired(s, w.rid, TerminalOf(w));
      EndDrops(cfg, marked, w);
      DropsFrom(s, marked, EndResponse(cfg, marked, w).ledger, EndResponse(cfg, marked, w).value);
    }
  }

  lemma OnlyErrorDrops(s: Ledger, next: Ledger)
    ensures Drops(s, next, [ProtocolError(true)]) && Drops(s, next, [])
  {
  }

  lemma ProcessDrops(cfg: Config, s: Ledger, w: Wire)
    requires (w.ResponseDone? || w.ResponseCancelled?) && Unretired(s)
    ensures Drops(s, Process(cfg, s, w).0, Process(cfg, s, w).1)
  {
    hide Unretired, Drops, Handle, Admit;
    var admitted := Admit(s, w).ledger;
    OnlyErrorDrops(s, Process(cfg, s, w).0);
    if Admit(s, w).Done? && Admit(s, w).value && Handle(cfg, admitted, w).Done? {
      SameUnretired(s, admitted);
      HandleDrops(cfg, admitted, w);
      DropsFrom(s, admitted, Handle(cfg, admitted, w).ledger, Handle(cfg, admitted, w).value);
    }
  }

  lemma SameUnretired(s: Ledger, t: Ledger)
    requires Unretired(s) && t.pending == s.pending && t.retired == s.retired
    ensures Unretired(t)
  {
  }

  lemma NextDrops(cfg: Config, size: nat, a: Adapter, input: Input)
    requires EndsResponse(input) && Unretired(a.ledger)
    ensures Drops(a.ledger, Next(cfg, size, a, input).0.ledger, Next(cfg, size, a, input).1)
  {
    hide Unretired, Drops, Process, CancelResponse, Recorded, Slid;
    OnlyErrorDrops(a.ledger, Next(cfg, size, a, input).0.ledger);
    if input.Frame? {
      ProcessDrops(cfg, a.ledger, input.wire);
    } else if InterruptResponse(cfg, a.ledger, input.rid).Done? {
      CancelDrops(cfg, a.ledger, input.rid);
    }
  }

  /** An adapter that reports anything but an error is not sealed. */
  lemma SealedIsSilent(cfg: Config, size: nat, a: Adapter, input: Input, o: Output)
    requires o in Next(cfg, size, a, input).1 && !o.ProtocolError?
    ensures !a.ledger.poisoned
  {
    hide Process, CancelResponse, Recorded, Slid;
  }

  /** One more input takes the adapter one step further. */
  lemma OneStep(cfg: Config, size: nat, inputs: seq<Input>, k: nat)
    requires k < |inputs|
    ensures Next(cfg, size, After(cfg, size, inputs[..k]), inputs[k]) ==
            (After(cfg, size, inputs[..k + 1]), OutputsAt(cfg, size, inputs, k))
  {
    hide Next;
    assert inputs[..k + 1][..k] == inputs[..k];
  }

  lemma DropIsFresh(cfg: Config, size: nat, inputs: seq<Input>, k: nat, dropped: Output, c: Id)
    requires k < |inputs| && EndsResponse(inputs[k]) && dropped in OutputsAt(cfg, size, inputs, k)
    requires dropped.CallsCancelled? && c in dropped.callIds
    ensures !After(cfg, size, inputs[..k]).ledger.poisoned && c !in After(cfg, size, inputs[..k]).ledger.retired
    ensures c in After(cfg, size, inputs[..k + 1]).ledger.retired
  {
    hide Next, After, OutputsAt, Unretired, Kept, SaidBy, ClosedBy;
    var a := After(cfg, size, inputs[..k]);
    OneStep(cfg, size, inputs, k);
    SealedIsSilent(cfg, size, a, inputs[k], dropped);
    RunFaithful(cfg, size, inputs[..k]);
    KeptUnretired(cfg, a.ledger, SaidBy(inputs[..k]), a.ledger.terminals.Keys);
    NextDrops(cfg, size, a, inputs[k]);
  }

  lemma ReleaseIsFresh(cfg: Config, size: nat, inputs: seq<Input>, i: nat, ready: Output, c: ReadyCall)
    requires i < |inputs| && ready.Ready? && ready in OutputsAt(cfg, size, inputs, i) && c in ready.calls
    ensures !After(cfg, size, inputs[..i]).ledger.poisoned && c.callId !in After(cfg, size, inputs[..i]).ledger.retired
    ensures c.callId in After(cfg, size, inputs[..i + 1]).ledger.retired
  {
    hide Next, After, OutputsAt, Faithful, Released, ClosedBy, SaidBy;
    var a := After(cfg, size, inputs[..i]);
    ReleasedIsFresh(cfg, size, inputs, i, ready);
    OneStep(cfg, size, inputs, i);
    ReadyStep(cfg, size, a, inputs[i], ready.rid, ready.calls);
    RunFaithful(cfg, size, inputs[..i]);
    ReleaseStep(cfg, size, a, inputs[i], SaidBy(inputs[..i]), ClosedBy(cfg, size, inputs[..i]), ready.rid, ready.calls);
  }

  lemma RetiredStays(cfg: Config, size: nat, inputs: seq<Input>, i: nat, k: nat, c: Id)
    requires i <= k <= |inputs| && !After(cfg, size, inputs[..k]).ledger.poisoned
    requires c in After(cfg, size, inputs[..i]).ledger.retired
    ensures c in After(cfg, size, inputs[..k]).ledger.retired
  {
    hide After, OutputsAt;
    RunGrows(cfg, size, inputs[..k], i);
    assert inputs[..k][..i] == inputs[..i];
  }

  lemma OneOfBoth(outputs: seq<Output>, rid: Id, ids: seq<Id>, ready: Output, dropped: Output)
    requires CompletedReport(outputs, rid, ids) && ready in outputs && ready.Ready? && dropped in outputs
    ensures !dropped.CallsCancelled?
  {
  }

  lemma NotAtOnce(cfg: Config, size: nat, inputs: seq<Input>, k: nat, ready: Output, dropped: Output)
    requires k < |inputs| && ready.Ready? && ready in OutputsAt(cfg, size, inputs, k)
    ensures dropped in OutputsAt(cfg, size, inputs, k) ==> !dropped.CallsCancelled?
  {
    hide After, OutputsAt, Released, ClosedBy, EndsWith, Naming, PastOf, BarrenReport, Endable, FreshId, SaidBy;
    hide CompletedReport, StartsAt;
    ReleaseIsExact(cfg, size, inputs, k, ready.rid, ready.calls);
    var w, outputs := inputs[k].wire, OutputsAt(cfg, size, inputs, k);
    BarrenHasNoReady(w, Naming(inputs[..k], w.rid), ready);
    if Barren(w) {
      EndedExactly(cfg, size, inputs, k);
    } else {
      CompletedExactly(cfg, size, inputs, k);
      if dropped in outputs && Endable(cfg, size, inputs, k, w.rid) && FreshId(cfg, size, inputs, k) {
        var ids :| CompletedReport(outputs, w.rid, ids)
          && EndsWith(cfg, PastOf(cfg, size, inputs[..k]), Naming(inputs[..k], w.rid), w.output.value, w.rid, ids);
        OneOfBoth(outputs, w.rid, ids, ready, dropped);
      }
    }
  }

  lemma BarrenHasNoReady(w: Wire, names: seq<Id>, ready: Output)
    requires w.ResponseDone? && ready.Ready?
    ensures ready !in BarrenReport(w, names) && ready !in [ProtocolError(true)]
  {
  }

  /** Over a whole run, no call is both released and reported as dropped at the end of its response. */
  lemma ReleasedOrDropped(cfg: Config, size: nat, inputs: seq<Input>, i: nat, k: nat, ready: Output, dropped: Output)
    requires i < |inputs| && ready.Ready? && ready in OutputsAt(cfg, size, inputs, i)
    requires k < |inputs| && EndsResponse(inputs[k])
    requires dropped.CallsCancelled? && dropped in OutputsAt(cfg, size, inputs, k)
    ensures forall c <- ready.calls :: c.callId !in dropped.callIds
  {
    hide After, OutputsAt;
    forall c <- ready.calls ensures c.callId !in dropped.callIds {
      if c.callId in dropped.callIds {
        ReleaseIsFresh(cfg, size, inputs, i, ready, c);
        DropIsFresh(cfg, size, inputs, k, dropped, c.callId);
        if i < k {
          RetiredStays(cfg, size, inputs, i + 1, k, c.callId);
        } else if k < i {
          RetiredStays(cfg, size, inputs, k + 1, i, c.callId);
        } else {
          NotAtOnce(cfg, size, inputs, k, ready, dropped);
        }
        assert false;
      }
    }
  }
}
