/** CallState: the local copy of a call's analytics record, written back to a service whose calls may
    fail, and the reports about transfers. */
module CallState {
  import opened Wrappers
  import opened Traces

  datatype CallInfo = CallInfo(fields: map<string, string>)

  datatype Report =
    | CallReport(info: CallInfo, delivered: bool)
    | TransferStarted(id: string)
    | TransferEnded(id: string, failed: bool)

  /** starting and ending hold the transfers between the two steps of StartTransfer and EndTransfer. */
  datatype State = State(hasClient: bool, callInfo: CallInfo, dirty: bool,
                         used: set<string>, starting: set<string>, transferInfos: set<string>,
                         ending: map<string, bool>,
                         reports: seq<Report>)

  /** delivered: whether the service accepts the call report, if the step sends one. */
  datatype Event =
    | DeferUpdate(update: CallInfo -> CallInfo)
    | Update(update: CallInfo -> CallInfo, delivered: bool)
    | Flush(delivered: bool)
    | ForceFlush(delivered: bool)
    | StartTransfer(id: string)
    | RecordTransfer(id: string)
    | TakeTransfer(id: string, failed: bool)
    | EndTransfer(id: string)

  function Initially(hasClient: bool, info: CallInfo): State {
    State(hasClient, info, true, {}, {}, {}, map[], [])
  }

  function Flushed(s: State, delivered: bool): State {
    if !s.hasClient then s.(dirty := false)
    else s.(dirty := s.dirty && !delivered, reports := s.reports + [CallReport(s.callInfo, delivered)])
  }

  function Changed(s: State, update: CallInfo -> CallInfo): State {
    s.(dirty := true, callInfo := update(s.callInfo))
  }

  /** Transfers need a client; their ids are fresh. */
  function Step(s: State, e: Event): State {
    match e
    case DeferUpdate(update) => Changed(s, update)
    case Update(update, delivered) => Flushed(Changed(s, update), delivered)
    case Flush(delivered) => if s.dirty then Flushed(s, delivered) else s
    case ForceFlush(delivered) => Flushed(s, delivered)
    case StartTransfer(id) =>
      if !s.hasClient || id in s.used then s
      else s.(used := s.used + {id}, starting := s.starting + {id}, reports := s.reports + [TransferStarted(id)])
    case RecordTransfer(id) =>
      if id in s.starting then s.(starting := s.starting - {id}, transferInfos := s.transferInfos + {id}) else s
    case TakeTransfer(id, failed) =>
      if id in s.transferInfos
      then s.(transferInfos := s.transferInfos - {id}, ending := s.ending[id := failed])
      else s
    case EndTransfer(id) =>
      if id in s.ending
      then s.(ending := s.ending - {id}, reports := s.reports + [TransferEnded(id, s.ending[id])])
      else s
  }

  class CallState {
    const hasClient: bool
    var callInfo: CallInfo
    var dirty: bool
    var transferInfos: set<string>
    ghost var used: set<string>
    ghost var starting: set<string>
    ghost var ending: map<string, bool>
    ghost var reports: seq<Report>

    ghost function Abs(): State
      reads this
    {
      State(hasClient, callInfo, dirty, used, starting, transferInfos, ending, reports)
    }

    constructor (hasClient: bool, initial: CallInfo)
      ensures Abs() == Initially(hasClient, initial)
    {
      this.hasClient, callInfo, dirty := hasClient, initial, true;
      transferInfos, used, starting, ending, reports := {}, {}, {}, map[], [];
    }

    method FlushLocked(delivered: bool)
      modifies this
      ensures Abs() == Flushed(old(Abs()), delivered)
    {
      if !hasClient {
        dirty := false;
        return;
      }
      reports := reports + [CallReport(callInfo, delivered)];
      if delivered {
        dirty := false;
      }
    }

    method DeferUpdate(update: CallInfo -> CallInfo)
      modifies this
      ensures Abs() == Step(old(Abs()), Event.DeferUpdate(update))
    {
      dirty := true;
      callInfo := update(callInfo);
    }

    method Update(update: CallInfo -> CallInfo, delivered: bool)
      modifies this
      ensures Abs() == Step(old(Abs()), Event.Update(update, delivered))
    {
      dirty := true;
      callInfo := update(callInfo);
      FlushLocked(delivered);
    }

    method Flush(delivered: bool)
      modifies this
      ensures Abs() == Step(old(Abs()), Event.Flush(delivered))
    {
      if !dirty {
        return;
      }
      FlushLocked(delivered);
    }

    method ForceFlush(delivered: bool)
      modifies this
      ensures Abs() == Step(old(Abs()), Event.ForceFlush(delivered))
    {
      FlushLocked(delivered);
    }

    method StartTransfer(id: string)
      requires hasClient && id !in used
      modifies this
      ensures Abs() == Step(Step(old(Abs()), Event.StartTransfer(id)), RecordTransfer(id))
    {
      reports := reports + [TransferStarted(id)];
      used := used + {id};
      transferInfos := transferInfos + {id};
      starting := starting - {id};
    }

    method EndTransfer(id: string, failed: bool)
      requires id !in ending
      modifies this
      ensures Abs() == Step(Step(old(Abs()), TakeTransfer(id, failed)), Event.EndTransfer(id))
    {
      var found := id in transferInfos;
      transferInfos := transferInfos - {id};
      if !found {
        return;
      }
      reports := reports + [TransferEnded(id, failed)];
      assert ending[id := failed] - {id} == ending;
    }
  }

  // ----- Write-back -----

  /** The last state the service has accepted. */
  function LastDelivered(reports: seq<Report>): Option<CallInfo> {
    if reports == [] then None
    else
      var last := reports[|reports| - 1];
      if last.CallReport? && last.delivered then Some(last.info) else LastDelivered(reports[..|reports| - 1])
  }

  lemma LastDeliveredSnoc(reports: seq<Report>, r: Report)
    ensures LastDelivered(reports + [r])
         == if r.CallReport? && r.delivered then Some(r.info) else LastDelivered(reports)
  {
    assert (reports + [r])[..|reports|] == reports;
  }

  ghost predicate WrittenBack(s: State) {
    s.hasClient && !s.dirty ==> LastDelivered(s.reports) == Some(s.callInfo)
  }

  lemma WrittenBackStep(s: State, e: Event)
    requires WrittenBack(s)
    ensures WrittenBack(Step(s, e))
  {
    match e
    case DeferUpdate(_) =>
    case Update(update, delivered) =>
      LastDeliveredSnoc(s.reports, CallReport(update(s.callInfo), delivered));
    case Flush(delivered) => LastDeliveredSnoc(s.reports, CallReport(s.callInfo, delivered));
    case ForceFlush(delivered) => LastDeliveredSnoc(s.reports, CallReport(s.callInfo, delivered));
    case StartTransfer(id) => LastDeliveredSnoc(s.reports, TransferStarted(id));
    case EndTransfer(id) =>
      if id in s.ending {
        LastDeliveredSnoc(s.reports, TransferEnded(id, s.ending[id]));
      }
    case _ =>
  }

  /** With a client, a clean state is the state last accepted by the service, whatever reports failed
      on the way. */
  lemma WriteBackOverRuns(hasClient: bool, info: CallInfo, events: seq<Event>)
    ensures WrittenBack(Run(Step, Initially(hasClient, info), events))
  {
    forall s, e | WrittenBack(s) ensures WrittenBack(Step(s, e)) {
      WrittenBackStep(s, e);
    }
    RunInvariant(Step, WrittenBack, Initially(hasClient, info), events);
  }

  // ----- Transfers -----

  /** Where a transfer is: at most one of the three. */
  ghost predicate TransferInv(s: State) {
    && s.starting <= s.used && s.transferInfos <= s.used && s.ending.Keys <= s.used
    && s.starting !! s.transferInfos && s.starting !! s.ending.Keys && s.transferInfos !! s.ending.Keys
    && (forall id :: id in s.used ==> TransferStarted(id) in s.reports)
    && EndsOnce(s.reports)
    && (forall i :: 0 <= i < |s.reports| && s.reports[i].TransferEnded? ==>
          var id := s.reports[i].id; id in s.used && id !in s.starting && id !in s.transferInfos && id !in s.ending)
    && (forall i :: 0 <= i < |s.reports| && s.reports[i].TransferStarted? ==> s.reports[i].id in s.used)
  }

  /** Every end report is the only one of its transfer and follows the report of its start. */
  ghost predicate EndsOnce(reports: seq<Report>) {
    && (forall i, j :: 0 <= i < j < |reports| && reports[i].TransferEnded? && reports[j].TransferEnded? ==>
          reports[i].id != reports[j].id)
    && (forall j :: 0 <= j < |reports| && reports[j].TransferEnded? ==>
          exists i :: 0 <= i < j && reports[i] == TransferStarted(reports[j].id))
  }

  lemma OtherReport(s: State, r: Report)
    requires TransferInv(s) && r.CallReport?
    ensures TransferInv(s.(reports := s.reports + [r]))
  {
    ReportGrows(s.reports, r);
  }

  lemma ReportGrows(reports: seq<Report>, r: Report)
    requires EndsOnce(reports)
    requires r.TransferEnded? ==> TransferStarted(r.id) in reports
    requires r.TransferEnded? ==> forall i :: 0 <= i < |reports| && reports[i].TransferEnded? ==> reports[i].id != r.id
    ensures EndsOnce(reports + [r])
  {
    var more := reports + [r];
    forall j | 0 <= j < |more| && more[j].TransferEnded?
      ensures exists i :: 0 <= i < j && more[i] == TransferStarted(more[j].id)
    {
      if j < |reports| {
        var i :| 0 <= i < j && reports[i] == TransferStarted(reports[j].id);
        assert more[i] == TransferStarted(more[j].id);
      } else {
        var i :| 0 <= i < |reports| && reports[i] == TransferStarted(r.id);
        assert more[i] == TransferStarted(more[j].id);
      }
    }
  }

  lemma StartKeeps(s: State, id: string)
    requires TransferInv(s) && s.hasClient && id !in s.used
    ensures TransferInv(Step(s, Event.StartTransfer(id)))
  {
    ReportGrows(s.reports, TransferStarted(id));
  }

  lemma EndKeeps(s: State, id: string)
    requires TransferInv(s) && id in s.ending
    ensures TransferInv(Step(s, Event.EndTransfer(id)))
  {
    ReportGrows(s.reports, TransferEnded(id, s.ending[id]));
  }

  lemma TransferInvStep(s: State, e: Event)
    requires TransferInv(s)
    ensures TransferInv(Step(s, e))
  {
    match e
    case DeferUpdate(_) =>
    case Update(update, delivered) =>
      OtherReport(s, CallReport(update(s.callInfo), delivered));
    case Flush(delivered) => OtherReport(s, CallReport(s.callInfo, delivered));
    case ForceFlush(delivered) => OtherReport(s, CallReport(s.callInfo, delivered));
    case StartTransfer(id) =>
      if s.hasClient && id !in s.used {
        StartKeeps(s, id);
      }
    case EndTransfer(id) =>
      if id in s.ending {
        EndKeeps(s, id);
      }
    case RecordTransfer(_) =>
    case TakeTransfer(_, _) =>
  }

  lemma TransfersOverRuns(hasClient: bool, info: CallInfo, events: seq<Event>)
    ensures EndsOnce(Run(Step, Initially(hasClient, info), events).reports)
  {
    forall s, e | TransferInv(s) ensures TransferInv(Step(s, e)) {
      TransferInvStep(s, e);
    }
    RunInvariant(Step, TransferInv, Initially(hasClient, info), events);
  }


  // ----- What is reported -----

  /** The updates, applied in order. */
  function Applied(info: CallInfo, events: seq<Event>): CallInfo {
    if events == [] then info
    else
      var before := Applied(info, events[..|events| - 1]);
      match events[|events| - 1]
      case DeferUpdate(update) => update(before)
      case Update(update, _) => update(before)
      case _ => before
  }

  /** Every end report carries the outcome that was given when the transfer was taken. */
  ghost predicate ReportsWhatWasGiven(info: CallInfo, events: seq<Event>, s: State) {
    && s.callInfo == Applied(info, events)
    && (forall id :: id in s.ending ==> TakeTransfer(id, s.ending[id]) in events)
    && (forall i :: 0 <= i < |s.reports| && s.reports[i].TransferEnded? ==>
          TakeTransfer(s.reports[i].id, s.reports[i].failed) in events)
    && (!s.hasClient ==> s.reports == [])
  }

  lemma ReportsStep(info: CallInfo, past: seq<Event>, s: State, e: Event)
    requires ReportsWhatWasGiven(info, past, s)
    requires !s.hasClient ==> s.starting == {} && s.transferInfos == {} && s.ending == map[]
    ensures ReportsWhatWasGiven(info, past + [e], Step(s, e))
  {
    assert (past + [e])[..|past|] == past;
    assert forall f :: f in past ==> f in past + [e];
  }

  ghost predicate ReportInv(hasClient: bool, info: CallInfo, past: seq<Event>, s: State) {
    && s.hasClient == hasClient
    && ReportsWhatWasGiven(info, past, s)
    && (!s.hasClient ==> s.starting == {} && s.transferInfos == {} && s.ending == map[])
  }

  /** In every run the local state is the initial one with the updates applied in order, end reports
      carry the outcomes given, and without a client nothing is reported. */
  lemma ReportsOverRuns(hasClient: bool, info: CallInfo, events: seq<Event>)
    ensures ReportsWhatWasGiven(info, events, Run(Step, Initially(hasClient, info), events))
  {
    var inv := (past, s) => ReportInv(hasClient, info, past, s);
    forall past, s, e | inv(past, s) ensures inv(past + [e], Step(s, e)) {
      ReportsStep(info, past, s, e);
    }
    RunHistory(Step, inv, Initially(hasClient, info), events);
  }

  /** In every run a report that the service accepts leaves it with the local state. */
  lemma AcceptedReportDelivers(info: CallInfo, events: seq<Event>, e: Event)
    requires e == Flush(true) || e == ForceFlush(true) || (e.Update? && e.delivered)
    ensures var t := Run(Step, Initially(true, info), events + [e]);
            LastDelivered(t.reports) == Some(t.callInfo) && t.callInfo == Applied(info, events + [e])
  {
    var s := Run(Step, Initially(true, info), events);
    WriteBackOverRuns(true, info, events);
    ReportsOverRuns(true, info, events + [e]);
    ClientStays(Initially(true, info), events);
    RunSnoc(Step, Initially(true, info), events, e);
    LastDeliveredSnoc(s.reports, CallReport(Step(s, e).callInfo, true));
  }

  lemma {:induction false} ClientStays(s: State, events: seq<Event>)
    ensures Run(Step, s, events).hasClient == s.hasClient
    decreases |events|
  {
    if events != [] {
      ClientStays(Step(s, events[0]), events[1..]);
    }
  }

  /** A clean state is not reported again unless it is forced, and a transfer that runs its course is
      reported as started and as ended, with its outcome. */
  lemma CleanIsNotReported(s: State, delivered: bool)
    ensures !s.dirty ==> Step(s, Flush(delivered)) == s
    ensures s.hasClient ==> Step(s, ForceFlush(delivered)).reports == s.reports + [CallReport(s.callInfo, delivered)]
  {}

  lemma TransferIsReported(s: State, id: string, failed: bool)
    requires s.hasClient && id !in s.used && id !in s.transferInfos
    ensures Run(Step, s, [StartTransfer(id), RecordTransfer(id), TakeTransfer(id, failed), EndTransfer(id)]).reports
         == s.reports + [TransferStarted(id), TransferEnded(id, failed)]
  {
    RunFour(Step, s, StartTransfer(id), RecordTransfer(id), TakeTransfer(id, failed), EndTransfer(id));
  }
}
