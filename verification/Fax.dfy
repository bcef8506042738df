/** Telephony events and the fax result they add up to. */
module Fax {
  import opened Wrappers
  import opened Decimal

  datatype EventName = CallState | Custom | OtherName

  /** The Event-Subclass header; spandsp reports sending (tx) and receiving under different names. */
  datatype Subclass = Negotiation(tx: bool) | PageDone(tx: bool) | FaxDone(tx: bool) | OtherSubclass

  datatype ChannelState = Active | Hangup | OtherState

  /** The headers of one event that the result depends on; numbers arrive as text. */
  datatype Event = Event(
    name: EventName,
    subclass: Subclass,
    callState: ChannelState,
    hangupCause: string,
    ecmUsed: bool,
    remoteId: string,
    transferRate: string,
    transferredPages: string,
    totalPages: string,
    badRows: string,
    encodingName: string,
    resultCode: string,
    resultText: string,
    reportsSuccess: bool,
    now: int) // the clock when the event is folded in

  datatype PageResult = PageResult(page: nat, badRows: nat, encodingName: string)

  /** Everything a fax result holds at one moment. */
  datatype Snapshot = Snapshot(
    startTs: Option<int>,
    endTs: Option<int>,
    hangupCause: string,
    totalPages: nat,
    transferredPages: nat,
    ecm: bool,
    remoteId: string,
    resultCode: int,
    resultText: string,
    success: bool,
    transferRate: nat,
    negotiateCount: nat,
    pageResults: seq<PageResult>)

  const EMPTY: Snapshot := Snapshot(None, None, "", 0, 0, false, "", 0, "", false, 0, 0, [])

  // ---- Kinds of events ----

  predicate IsActive(ev: Event) {
    ev.name.CallState? && ev.callState.Active?
  }

  predicate IsHangup(ev: Event) {
    ev.name.CallState? && ev.callState.Hangup?
  }

  predicate IsNegotiation(ev: Event) {
    ev.name.Custom? && ev.subclass.Negotiation?
  }

  predicate IsPage(ev: Event) {
    ev.name.Custom? && ev.subclass.PageDone?
  }

  predicate IsFinal(ev: Event) {
    ev.name.Custom? && ev.subclass.FaxDone?
  }

  /** An unsigned field assigned from a header; a header that does not parse leaves it alone. */
  function Assign(field: nat, header: string): nat {
    var r := Atoi(header);
    if r.ok then Uint(r.value) else field
  }

  // ---- One event ----

  function AddNegotiation(f: Snapshot, ev: Event): Snapshot {
    f.(negotiateCount := f.negotiateCount + 1,
       ecm := f.ecm || ev.ecmUsed,
       remoteId := ev.remoteId,
       transferRate := Assign(f.transferRate, ev.transferRate))
  }

  function AddPage(f: Snapshot, ev: Event): Snapshot {
    var pages := Assign(f.transferredPages, ev.transferredPages);
    f.(transferredPages := pages,
       pageResults := f.pageResults + [PageResult(pages, Assign(0, ev.badRows), ev.encodingName)])
  }

  function AddFinal(f: Snapshot, ev: Event): Snapshot {
    var code := Atoi(ev.resultCode);
    f.(totalPages := Assign(f.totalPages, ev.totalPages),
       transferredPages := Assign(f.transferredPages, ev.transferredPages),
       ecm := f.ecm || ev.ecmUsed,
       remoteId := ev.remoteId,
       resultCode := if code.ok then code.value else f.resultCode,
       resultText := ev.resultText,
       success := f.success || ev.reportsSuccess,
       transferRate := Assign(f.transferRate, ev.transferRate))
  }

  function Extended(f: Snapshot, ev: Event): Snapshot {
    if IsActive(ev) then f.(startTs := Some(ev.now))
    else if IsHangup(ev) then f.(endTs := Some(ev.now), hangupCause := ev.hangupCause)
    else if IsNegotiation(ev) then AddNegotiation(f, ev)
    else if IsPage(ev) then AddPage(f, ev)
    else if IsFinal(ev) then AddFinal(f, ev)
    else f
  }

  /** The result after a whole trace. */
  function Fold(trace: seq<Event>): Snapshot {
    if trace == [] then EMPTY else Extended(Fold(trace[..|trace| - 1]), trace[|trace| - 1])
  }

  lemma FoldNext(trace: seq<Event>, ev: Event)
    ensures Fold(trace + [ev]) == Extended(Fold(trace), ev)
  {
    assert (trace + [ev])[..|trace|] == trace;
  }

  // ---- What a trace says, without running through it ----

  function Count(trace: seq<Event>, p: Event -> bool): nat {
    if trace == [] then 0
    else Count(trace[..|trace| - 1], p) + if p(trace[|trace| - 1]) then 1 else 0
  }

  ghost predicate Occurs(trace: seq<Event>, p: Event -> bool) {
    exists i | 0 <= i < |trace| :: p(trace[i])
  }

  /** v is what the last event satisfying p says, or the default if there is none. */
  ghost predicate IsLatest<T>(trace: seq<Event>, p: Event -> bool, says: Event -> T, default: T, v: T) {
    || (v == default && forall i | 0 <= i < |trace| :: !p(trace[i]))
    || (exists i | 0 <= i < |trace| :: p(trace[i]) && v == says(trace[i]) && forall j | i < j < |trace| :: !p(trace[j]))
  }

  lemma LatestNext<T>(trace: seq<Event>, ev: Event, p: Event -> bool, says: Event -> T, default: T, v: T)
    requires IsLatest(trace, p, says, default, v)
    ensures IsLatest(trace + [ev], p, says, default, if p(ev) then says(ev) else v)
  {
    var t := trace + [ev];
    if p(ev) {
      assert p(t[|trace|]);
    } else if i :| 0 <= i < |trace| && p(trace[i]) && v == says(trace[i])
                   && forall j | i < j < |trace| :: !p(trace[j]) {
      assert p(t[i]);
    }
  }

  lemma OccursNext(trace: seq<Event>, ev: Event, p: Event -> bool)
    ensures Occurs(trace + [ev], p) <==> Occurs(trace, p) || p(ev)
  {
    var t := trace + [ev];
    assert p(ev) ==> p(t[|trace|]);
    if Occurs(trace, p) {
      var i :| 0 <= i < |trace| && p(trace[i]);
      assert p(t[i]);
    }
  }

  lemma CountNext(trace: seq<Event>, ev: Event, p: Event -> bool)
    ensures Count(trace + [ev], p) == Count(trace, p) + if p(ev) then 1 else 0
  {
    assert (trace + [ev])[..|trace|] == trace;
  }

  function Negotiations(): Event -> bool { (ev: Event) => IsNegotiation(ev) }

  function Pages(): Event -> bool { (ev: Event) => IsPage(ev) }

  function EcmReports(): Event -> bool { (ev: Event) => (IsNegotiation(ev) || IsFinal(ev)) && ev.ecmUsed }

  function SuccessReports(): Event -> bool { (ev: Event) => IsFinal(ev) && ev.reportsSuccess }

  function RemoteReports(): Event -> bool { (ev: Event) => IsNegotiation(ev) || IsFinal(ev) }

  function RateReports(): Event -> bool {
    (ev: Event) => (IsNegotiation(ev) || IsFinal(ev)) && Atoi(ev.transferRate).ok
  }

  function PageCountReports(): Event -> bool {
    (ev: Event) => (IsPage(ev) || IsFinal(ev)) && Atoi(ev.transferredPages).ok
  }

  function Hangups(): Event -> bool { (ev: Event) => IsHangup(ev) }

  function BadPages(): Event -> bool { (ev: Event) => IsPage(ev) && Assign(0, ev.badRows) > 0 }

  function RemoteOf(): Event -> string { (ev: Event) => ev.remoteId }

  function RateOf(): Event -> nat { (ev: Event) => Uint(Atoi(ev.transferRate).value) }

  function PageCountOf(): Event -> nat { (ev: Event) => Uint(Atoi(ev.transferredPages).value) }

  function CauseOf(): Event -> string { (ev: Event) => ev.hangupCause }

  function Finals(): Event -> bool { (ev: Event) => IsFinal(ev) }

  function TextOf(): Event -> string { (ev: Event) => ev.resultText }

  function CodeReports(): Event -> bool { (ev: Event) => IsFinal(ev) && Atoi(ev.resultCode).ok }

  function CodeOf(): Event -> int { (ev: Event) => Atoi(ev.resultCode).value }

  function TotalReports(): Event -> bool { (ev: Event) => IsFinal(ev) && Atoi(ev.totalPages).ok }

  function TotalOf(): Event -> nat { (ev: Event) => Uint(Atoi(ev.totalPages).value) }

  function Actives(): Event -> bool { (ev: Event) => IsActive(ev) }

  function TimeOf(): Event -> Option<int> { (ev: Event) => Some(ev.now) }

  predicate HasBadPage(f: Snapshot) {
    exists i | 0 <= i < |f.pageResults| :: f.pageResults[i].badRows > 0
  }

  /** The counters of the result: how many events of each kind the trace has. */
  ghost predicate CountsMatch(f: Snapshot, trace: seq<Event>) {
    && f.negotiateCount == Count(trace, Negotiations())
    && |f.pageResults| == Count(trace, Pages())
  }

  /** The flags of the result: once some event sets them they stay set. */
  ghost predicate FlagsMatch(f: Snapshot, trace: seq<Event>) {
    && (f.ecm <==> Occurs(trace, EcmReports()))
    && (f.success <==> Occurs(trace, SuccessReports()))
    && (HasBadPage(f) <==> Occurs(trace, BadPages()))
  }

  /** The values that describe the line: each is what the last event that reports it says. */
  ghost predicate ValuesMatch(f: Snapshot, trace: seq<Event>) {
    && IsLatest(trace, RemoteReports(), RemoteOf(), "", f.remoteId)
    && IsLatest(trace, RateReports(), RateOf(), 0, f.transferRate)
    && IsLatest(trace, PageCountReports(), PageCountOf(), 0, f.transferredPages)
  }

  /** The values that describe the outcome, in the same way. */
  ghost predicate OutcomeMatches(f: Snapshot, trace: seq<Event>) {
    && IsLatest(trace, Finals(), TextOf(), "", f.resultText)
    && IsLatest(trace, CodeReports(), CodeOf(), 0, f.resultCode)
    && IsLatest(trace, TotalReports(), TotalOf(), 0, f.totalPages)
  }

  /** The times and the hangup cause, in the same way. */
  ghost predicate CallMatches(f: Snapshot, trace: seq<Event>) {
    && IsLatest(trace, Hangups(), CauseOf(), "", f.hangupCause)
    && IsLatest(trace, Hangups(), TimeOf(), None, f.endTs)
    && IsLatest(trace, Actives(), TimeOf(), None, f.startTs)
  }

  lemma BadPageNext(f: Snapshot, ev: Event)
    ensures HasBadPage(Extended(f, ev)) <==> HasBadPage(f) || BadPages()(ev)
  {
    hide Assign;
    var f' := Extended(f, ev);
    if IsPage(ev) {
      var n := |f.pageResults|;
      assert f'.pageResults[n].badRows == Assign(0, ev.badRows);
      assert forall i | 0 <= i < n :: f'.pageResults[i] == f.pageResults[i];
    } else {
      assert f'.pageResults == f.pageResults;
    }
  }

  lemma CountsNext(f: Snapshot, trace: seq<Event>, ev: Event)
    requires CountsMatch(f, trace)
    ensures CountsMatch(Extended(f, ev), trace + [ev])
  {
    hide Count;
    CountNext(trace, ev, Negotiations());
    CountNext(trace, ev, Pages());
  }

  lemma FlagsNext(f: Snapshot, trace: seq<Event>, ev: Event)
    requires FlagsMatch(f, trace)
    ensures FlagsMatch(Extended(f, ev), trace + [ev])
  {
    hide Occurs;
    hide HasBadPage;
    OccursNext(trace, ev, EcmReports());
    OccursNext(trace, ev, SuccessReports());
    OccursNext(trace, ev, BadPages());
    BadPageNext(f, ev);
  }

  lemma ValuesNext(f: Snapshot, trace: seq<Event>, ev: Event)
    requires ValuesMatch(f, trace)
    ensures ValuesMatch(Extended(f, ev), trace + [ev])
  {
    hide IsLatest;
    hide Atoi;
    hide Uint;
    var f' := Extended(f, ev);
    assert IsLatest(trace + [ev], RemoteReports(), RemoteOf(), "", f'.remoteId) by {
      LatestNext(trace, ev, RemoteReports(), RemoteOf(), "", f.remoteId);
    }
    assert IsLatest(trace + [ev], RateReports(), RateOf(), 0, f'.transferRate) by {
      LatestNext(trace, ev, RateReports(), RateOf(), 0, f.transferRate);
    }
    assert IsLatest(trace + [ev], PageCountReports(), PageCountOf(), 0, f'.transferredPages) by {
      LatestNext(trace, ev, PageCountReports(), PageCountOf(), 0, f.transferredPages);
    }
  }

  lemma OutcomeNext(f: Snapshot, trace: seq<Event>, ev: Event)
    requires OutcomeMatches(f, trace)
    ensures OutcomeMatches(Extended(f, ev), trace + [ev])
  {
    hide IsLatest;
    hide Atoi;
    hide Uint;
    var f' := Extended(f, ev);
    assert IsLatest(trace + [ev], Finals(), TextOf(), "", f'.resultText) by {
      LatestNext(trace, ev, Finals(), TextOf(), "", f.resultText);
    }
    assert IsLatest(trace + [ev], CodeReports(), CodeOf(), 0, f'.resultCode) by {
      LatestNext(trace, ev, CodeReports(), CodeOf(), 0, f.resultCode);
    }
    LatestNext(trace, ev, TotalReports(), TotalOf(), 0, f.totalPages);
  }

  lemma CallFields(f: Snapshot, ev: Event)
    ensures var f' := Extended(f, ev);
            && f'.startTs == (if IsActive(ev) then Some(ev.now) else f.startTs)
            && f'.endTs == (if IsHangup(ev) then Some(ev.now) else f.endTs)
            && f'.hangupCause == if IsHangup(ev) then ev.hangupCause else f.hangupCause
  {
  }

  lemma CallNext(f: Snapshot, trace: seq<Event>, ev: Event)
    requires CallMatches(f, trace)
    ensures CallMatches(Extended(f, ev), trace + [ev])
  {
    hide IsLatest;
    hide AddNegotiation;
    hide AddPage;
    hide AddFinal;
    CallFields(f, ev);
    hide Extended;
    var f' := Extended(f, ev);
    assert IsLatest(trace + [ev], Hangups(), CauseOf(), "", f'.hangupCause) by {
      LatestNext(trace, ev, Hangups(), CauseOf(), "", f.hangupCause);
    }
    assert IsLatest(trace + [ev], Hangups(), TimeOf(), None, f'.endTs) by {
      LatestNext(trace, ev, Hangups(), TimeOf(), None, f.endTs);
    }
    LatestNext(trace, ev, Actives(), TimeOf(), None, f.startTs);
  }

  /** Folding any trace event by event gives exactly what the trace says as a whole. */
  lemma {:induction false} FoldSummarises(trace: seq<Event>)
    ensures CountsMatch(Fold(trace), trace)
    ensures FlagsMatch(Fold(trace), trace)
    ensures ValuesMatch(Fold(trace), trace) && OutcomeMatches(Fold(trace), trace)
    ensures CallMatches(Fold(trace), trace)
  {
    if trace == [] {
      return;
    }
    hide CountsMatch;
    hide FlagsMatch;
    hide ValuesMatch;
    hide OutcomeMatches;
    hide CallMatches;
    hide Extended;
    var n := |trace| - 1;
    assert trace[..n] + [trace[n]] == trace;
    FoldSummarises(trace[..n]);
    CountsNext(Fold(trace[..n]), trace[..n], trace[n]);
    FlagsNext(Fold(trace[..n]), trace[..n], trace[n]);
    ValuesNext(Fold(trace[..n]), trace[..n], trace[n]);
    OutcomeNext(Fold(trace[..n]), trace[..n], trace[n]);
    CallNext(Fold(trace[..n]), trace[..n], trace[n]);
  }

  /** The positions of the page events of a trace. */
  function PageTimes(trace: seq<Event>): seq<nat> {
    if trace == [] then []
    else PageTimes(trace[..|trace| - 1]) + if IsPage(trace[|trace| - 1]) then [|trace| - 1] else []
  }

  lemma {:induction false} PageTimesInRange(trace: seq<Event>, k: nat)
    requires k < |PageTimes(trace)|
    ensures PageTimes(trace)[k] < |trace| && IsPage(trace[PageTimes(trace)[k]])
  {
    var n := |trace| - 1;
    if k < |PageTimes(trace[..n])| {
      PageTimesInRange(trace[..n], k);
    }
  }

  /** The positions are in order, and no page event is left out. */
  lemma {:induction false} PageTimesIncrease(trace: seq<Event>, k: nat, l: nat)
    requires k < l < |PageTimes(trace)|
    ensures PageTimes(trace)[k] < PageTimes(trace)[l]
  {
    var n := |trace| - 1;
    if l < |PageTimes(trace[..n])| {
      PageTimesIncrease(trace[..n], k, l);
    } else {
      PageTimesInRange(trace[..n], k);
    }
  }

  lemma {:induction false} PageTimesAreAll(trace: seq<Event>, i: nat)
    requires i < |trace| && IsPage(trace[i])
    ensures i in PageTimes(trace)
  {
    var n := |trace| - 1;
    if i < n {
      PageTimesAreAll(trace[..n], i);
    }
  }

  /** What a page event adds: the page count at that moment, as changed by the event if its header parses,
      and the bad rows and the encoding of the event. */
  function PageAt(trace: seq<Event>, t: nat): PageResult
    requires t < |trace|
  {
    PageResult(Fold(trace[..t + 1]).transferredPages, Assign(0, trace[t].badRows), trace[t].encodingName)
  }

  lemma PageAtInPrefix(trace: seq<Event>, n: nat, t: nat)
    requires t < n <= |trace|
    ensures PageAt(trace[..n], t) == PageAt(trace, t)
  {
    hide Fold;
    assert trace[..n][..t + 1] == trace[..t + 1];
  }

  /** The page results of a trace: one for each page event, in order. */
  lemma {:induction false} PageResultsFollowEvents(trace: seq<Event>)
    ensures var rs, ts := Fold(trace).pageResults, PageTimes(trace);
            |rs| == |ts| && forall k | 0 <= k < |rs| :: ts[k] < |trace| && rs[k] == PageAt(trace, ts[k])
  {
    if trace == [] {
      return;
    }
    hide Assign;
    hide PageAt;
    hide Extended;
    var n := |trace| - 1;
    PageResultsFollowEvents(trace[..n]);
    LastPage(trace);
    var ts := PageTimes(trace[..n]);
    forall k | 0 <= k < |ts| ensures PageAt(trace[..n], ts[k]) == PageAt(trace, ts[k]) {
      PageAtInPrefix(trace, n, ts[k]);
    }
  }

  lemma LastPage(trace: seq<Event>)
    requires trace != []
    ensures var n := |trace| - 1;
            Fold(trace).pageResults ==
            Fold(trace[..n]).pageResults + if IsPage(trace[n]) then [PageAt(trace, n)] else []
  {
    hide Assign;
    hide Extended;
    var n := |trace| - 1;
    PageOfEvent(Fold(trace[..n]), trace[n]);
    assert trace[..n + 1] == trace;
  }

  lemma PageOfEvent(f: Snapshot, ev: Event)
    ensures var g := Extended(f, ev);
            g.pageResults == f.pageResults +
            if IsPage(ev) then [PageResult(g.transferredPages, Assign(0, ev.badRows), ev.encodingName)] else []
  {
    hide Assign;
  }

  // ---- The object ----

  /** The live result that the event loops mutate and hand around by reference. */
  class FaxResult {
    var startTs: Option<int>
    var endTs: Option<int>
    var hangupCause: string
    var totalPages: nat
    var transferredPages: nat
    var ecm: bool
    var remoteId: string
    var resultCode: int
    var resultText: string
    var success: bool
    var transferRate: nat
    var negotiateCount: nat
    var pageResults: seq<PageResult>

    function Now(): Snapshot
      reads this
    {
      Snapshot(startTs, endTs, hangupCause, totalPages, transferredPages, ecm, remoteId, resultCode, resultText,
               success, transferRate, negotiateCount, pageResults)
    }

    constructor ()
      ensures Now() == EMPTY
    {
      startTs, endTs, hangupCause := None, None, "";
      totalPages, transferredPages, ecm, remoteId := 0, 0, false, "";
      resultCode, resultText, success, transferRate, negotiateCount := 0, "", false, 0, 0;
      pageResults := [];
    }

    /** Merges one event into the result; the object ends up as the pure fold step says. */
    method AddEvent(ev: Event)
      modifies this
      ensures Now() == Extended(old(Now()), ev)
    {
      match ev.name
      case CallState =>
        if ev.callState.Active? {
          startTs := Some(ev.now);
        }
        if ev.callState.Hangup? {
          endTs := Some(ev.now);
          hangupCause := ev.hangupCause;
        }
      case Custom =>
        match ev.subclass {
          case Negotiation(_) =>
            MergeNegotiation(ev);
          case PageDone(_) =>
            MergePage(ev);
          case FaxDone(_) =>
            MergeFinal(ev);
          case OtherSubclass =>
        }
      case OtherName =>
    }

    method MergeNegotiation(ev: Event)
      modifies this
      ensures Now() == AddNegotiation(old(Now()), ev)
    {
      negotiateCount := negotiateCount + 1;
      if ev.ecmUsed {
        ecm := true;
      }
      remoteId := ev.remoteId;
      var rate := Atoi(ev.transferRate);
      if rate.ok {
        transferRate := Uint(rate.value);
      }
    }

    method MergePage(ev: Event)
      modifies this
      ensures Now() == AddPage(old(Now()), ev)
    {
      hide Atoi;
      hide Uint;
      var pages := Atoi(ev.transferredPages);
      if pages.ok {
        transferredPages := Uint(pages.value);
      }
      var pr := PageResult(transferredPages, 0, "");
      var rows := Atoi(ev.badRows);
      if rows.ok {
        pr := pr.(badRows := Uint(rows.value));
      }
      pr := pr.(encodingName := ev.encodingName);
      pageResults := pageResults + [pr];
    }

    method MergeFinal(ev: Event)
      modifies this
      ensures Now() == AddFinal(old(Now()), ev)
    {
      hide Atoi;
      hide Assign;
      totalPages := Assign(totalPages, ev.totalPages);
      transferredPages := Assign(transferredPages, ev.transferredPages);
      if ev.ecmUsed {
        ecm := true;
      }
      remoteId := ev.remoteId;
      var code := Atoi(ev.resultCode);
      if code.ok {
        resultCode := code.value;
      }
      resultText := ev.resultText;
      if ev.reportsSuccess {
        success := true;
      }
      transferRate := Assign(transferRate, ev.transferRate);
    }
  }
}
