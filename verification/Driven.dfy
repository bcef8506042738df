/** Histories in which every status loop is fed by a protocol run: what the events say ends up in the
    queue file's counters. */
module Driven {
  import opened Decimal
  import opened DiskQueue
  import opened Receiver
  import opened Sending
  import opened History
  import opened Retries
  import opened Session
  import opened SessionSafety
  import opened SessionOvertake
  import SessionPages
  import Fax
  import Q = QueueFormat

  // ---- Clean sources ----

  /** The texts of the event survive being written into the queue file. */
  predicate CleanEvent(ev: Fax.Event) {
    && Q.CleanValue("csi", ev.remoteId) && Q.CleanValue("status", ev.resultText)
    && Q.CleanValue("dataformat", ev.encodingName)
  }

  predicate CleanPage(page: Fax.PageResult) {
    Q.CleanValue("dataformat", page.encodingName)
  }

  predicate CleanSnapshot(f: Fax.Snapshot) {
    && Q.CleanValue("csi", f.remoteId) && Q.CleanValue("status", f.resultText) && f.transferRate < TWO_64
    && forall i | 0 <= i < |f.pageResults| :: CleanPage(f.pageResults[i])
  }

  predicate CleanSender(x: Sender) {
    match x
    case SendingPage(page) => CleanPage(page)
    case SendingError(err, _) => Q.CleanValue("status", err.msg)
    case _ => true
  }

  predicate CleanReceiver(r: Status) {
    match r
    case Holding(_, copy) => CleanSnapshot(copy)
    case Testing(_, copy, head) => CleanSnapshot(copy) && CleanSnapshot(head)
    case Reading(_, copy, head, test) => CleanSnapshot(copy) && CleanSnapshot(head) && CleanSnapshot(test)
    case _ => true
  }

  /** An error message that comes from outside is clean. */
  predicate CleanAction(a: Action) {
    match a
    case StreamFails(msg) => Q.CleanValue("status", msg)
    case SignalComes(msg) => Q.CleanValue("status", msg)
    case _ => true
  }

  ghost predicate CleanState(s: State) {
    && (forall i | 0 <= i < |s.events| :: CleanEvent(s.events[i]))
    && CleanSnapshot(s.result) && CleanSender(s.sender) && CleanReceiver(s.receiver)
    && CleanArrivals(s.arrivals)
  }

  lemma CleanExtended(f: Fax.Snapshot, ev: Fax.Event)
    requires CleanSnapshot(f) && CleanEvent(ev)
    ensures CleanSnapshot(Fax.Extended(f, ev))
  {
    hide Q.CleanValue;
    hide Atoi;
  }

  lemma CleanFold(cfg: Config, s: State)
    requires CleanState(s) && Enabled(s, FoldEvent)
    ensures CleanState(DoFold(cfg, s))
  {
    hide Fax.Extended;
    hide WantsFallback;
    hide CleanArrivals;
    hide CleanEvent;
    hide Q.CleanValue;
    CleanExtended(s.result, s.events[0]);
  }

  lemma CleanArrivalsNext(arrivals: seq<Arrival>, a: Arrival)
    requires CleanArrivals(arrivals) && CleanArrival(a)
    ensures CleanArrivals(arrivals + [a])
  {
    hide CleanArrival;
  }

  lemma CleanReading(head: Fax.Snapshot, test: Fax.Snapshot, body: Fax.Snapshot)
    requires CleanSnapshot(head) && CleanSnapshot(test) && CleanSnapshot(body)
    ensures CleanArrival(ResultArrived(head, test, body))
  {
    hide Q.CleanValue;
  }

  lemma CleanStep(cfg: Config, s: State, a: Action)
    requires CleanState(s) && CleanAction(a) && Enabled(s, a)
    ensures CleanState(Next(cfg, s, a))
  {
    hide DoFold;
    hide Receive;
    hide CleanArrivals;
    hide CleanEvent;
    hide CleanSnapshot;
    hide Q.CleanValue;
    match a
    case FoldEvent => CleanFold(cfg, s);
    case HandOver =>
      if s.sender.SendingPage? {
        CleanArrivalsNext(s.arrivals, PageArrived(s.sender.page));
      } else if s.sender.SendingError? {
        CleanArrivalsNext(s.arrivals, ErrorArrived(s.sender.err));
      }
    case ReadBody =>
      var r := s.receiver;
      CleanReading(r.head, r.test, Seen(cfg, s, r.copy));
      CleanArrivalsNext(s.arrivals, ResultArrived(r.head, r.test, Seen(cfg, s, r.copy)));
    case _ =>
  }

  lemma {:induction false} RunStaysClean(cfg: Config, s: State, actions: seq<Action>, t: State)
    requires CleanState(s) && Run(cfg, s, actions, t)
    requires forall i | 0 <= i < |actions| :: CleanAction(actions[i])
    ensures CleanState(t)
    decreases |actions|
  {
    hide Next;
    hide Enabled;
    hide CleanState;
    hide CleanAction;
    if actions != [] {
      CleanStep(cfg, s, actions[0]);
      RunStaysClean(cfg, Next(cfg, s, actions[0]), actions[1..], t);
    }
  }

  // ---- One driven try ----

  /** A protocol run up to the action that takes the receiver out of the loop. */
  datatype Drive = Drive(cfg: Config, s0: State, before: seq<Action>, s: State, a: Action)

  /** Every text that comes from outside during the run is clean. */
  ghost predicate CleanSource(d: Drive) {
    && (forall i | 0 <= i < |d.s0.events| :: CleanEvent(d.s0.events[i])) && CleanSender(d.s0.sender)
    && (forall i | 0 <= i < |d.before| :: CleanAction(d.before[i])) && CleanAction(d.a)
  }

  /** The attempt makes its call, and its status loop takes in what this run delivers. */
  ghost predicate Drives(d: Drive, ps: seq<Q.Param>, world: World) {
    && GoesThrough(ps, world)
    && Leaves(d.cfg, d.s0, d.before, d.s, d.a) && AllSubscribed(d.s0.events) && CleanSource(d)
    && d.s0.job == Start(Stamped(ps, world.commid.value))
    && world.arrivals == Next(d.cfg, d.s, d.a).arrivals
  }

  /** The negotiations that the sender's result counts at the end of the run, and the one that the
      receiver has missed if it was overtaken. */
  function Counted(d: Drive): nat
    requires Enabled(d.s, d.a)
  {
    Next(d.cfg, d.s, d.a).result.negotiateCount
  }

  function Missed(d: Drive): nat
    requires Enabled(d.s, d.a)
  {
    if Next(d.cfg, d.s, d.a).receiver == Left(ByResult(false)) then 1 else 0
  }

  lemma InitialIsClean(d: Drive)
    requires CleanSource(d) && Initial(d.s0)
    ensures CleanState(d.s0)
  {
  }

  lemma EndIsClean(d: Drive)
    requires Leaves(d.cfg, d.s0, d.before, d.s, d.a) && CleanSource(d)
    ensures CleanArrivals(Next(d.cfg, d.s, d.a).arrivals)
  {
    hide Run;
    hide Initial;
    hide Next;
    hide Enabled;
    hide CleanEvent;
    hide CleanArrivals;
    hide CleanSender;
    hide CleanReceiver;
    InitialIsClean(d);
    RunStaysClean(d.cfg, d.s0, d.before, d.s);
    CleanStep(d.cfg, d.s, d.a);
  }

  /** What the status loop of a driven attempt takes in: a complete loop, clean texts, and every
      negotiation that the result counts but for a missed one. */
  lemma DrivenArrivals(d: Drive, ps: seq<Q.Param>, world: World)
    requires Drives(d, ps, world)
    ensures Complete(world.arrivals) && CleanArrivals(world.arrivals)
    ensures Negotiated(world.arrivals) == Counted(d) - Missed(d)
  {
    hide Run;
    hide Initial;
    hide Next;
    hide Enabled;
    hide GoesThrough;
    hide CleanSource;
    hide CleanArrivals;
    hide Negotiated;
    hide AllSubscribed;
    hide Complete;
    hide Start;
    EndIsClean(d);
    TriesMatchNegotiations(d.cfg, d.s0, d.before, d.s, d.a);
    ExitIsComplete(d);
  }

  lemma ExitIsComplete(d: Drive)
    requires Leaves(d.cfg, d.s0, d.before, d.s, d.a)
    ensures Complete(Next(d.cfg, d.s, d.a).arrivals)
  {
    hide Run;
    hide Initial;
    hide Next;
    hide Enabled;
    InitialLoopShape(d.s0);
    RunHasLoopShape(d.cfg, d.s0, d.before, d.s);
    LoopShapeStep(d.cfg, d.s, d.a);
  }

  /** Without a negotiation that the first hangup overtakes, or with copies, nothing is missed. */
  lemma NothingMissed(d: Drive)
    requires Leaves(d.cfg, d.s0, d.before, d.s, d.a)
    requires d.cfg.handover.Copy? || forall k: nat, m: nat :: !Overtakes(d.s0.events, k, m)
    ensures Missed(d) == 0
  {
    hide Run;
    hide Initial;
    hide Next;
    hide Enabled;
    hide Overtakes;
    var t := Next(d.cfg, d.s, d.a);
    SessionPages.RunCons1(d.cfg, d.s, d.a);
    RunConcat(d.cfg, d.s0, d.before, d.s, [d.a], t);
    if t.receiver == Left(ByResult(false)) {
      MissedMeansOvertaken(d.cfg, d.s0, d.before + [d.a], t);
    }
  }

  // ---- Any number of driven tries ----

  /** The try stops before it writes, or its comm id is clean, its script does not fail, its last rewrite
      lands, and a call it makes is driven by d. */
  ghost predicate DrivenTry(text: string, t: Try, d: Drive) {
    var ps := ParamsOf(text);
    t.lock && Prepared(ps, t.world) ==>
      || t.world.disk(0).NeverStarts()
      || (Q.CleanValue("commid", t.world.commid.value) && !t.world.script.ScriptFails?
          && LastWriteLands(ps, t.world) && (GoesThrough(ps, t.world) ==> Drives(d, ps, t.world)))
  }

  /** The negotiations that the run behind a try counts, and whether one is missed. */
  function CountedBy(text: string, t: Try, d: Drive): nat {
    if t.lock && GoesThrough(ParamsOf(text), t.world) && Enabled(d.s, d.a) then Counted(d) else 0
  }

  function MissedBy(text: string, t: Try, d: Drive): nat {
    if t.lock && GoesThrough(ParamsOf(text), t.world) && Enabled(d.s, d.a) then Missed(d) else 0
  }

  lemma DrivenIsHarmless(text: string, t: Try, d: Drive)
    requires DrivenTry(text, t, d)
    ensures HarmlessTry(text, t)
    ensures NegotiationsOf(ParamsOf(text), t) == CountedBy(text, t, d) - MissedBy(text, t, d)
  {
    hide Q.Parse;
    hide Prepared;
    hide LastWriteLands;
    hide Leaves;
    hide Negotiated;
    hide Counted;
    hide Missed;
    hide Q.CleanValue;
    hide CleanArrivals;
    hide CleanSource;
    hide AllSubscribed;
    hide Dialing;
    hide Stamped;
    hide Complete;
    var ps := ParamsOf(text);
    if t.lock && Prepared(ps, t.world) && t.world.disk(0).NeverStarts() {
      UnstartedWriteKeepsFile(ps, t.world, text);
    }
    HowFar(ps, t.world);
    if t.lock && GoesThrough(ps, t.world) {
      DrivenArrivals(d, ps, t.world);
      LeavesByAction(d);
    }
  }

  lemma LeavesByAction(d: Drive)
    requires Leaves(d.cfg, d.s0, d.before, d.s, d.a)
    ensures Enabled(d.s, d.a)
  {
  }

  /** Each try is driven, on the file that it finds. */
  ghost predicate DrivenAll(text: string, tries: seq<Try>, drives: seq<Drive>) {
    && |drives| == |tries|
    && (tries == [] ||
        var n := |tries| - 1;
        DrivenAll(text, tries[..n], drives[..n]) && DrivenTry(AfterAll(text, tries[..n]), tries[n], drives[n]))
  }

  /** All negotiations that the results of the runs count, and all that were missed. */
  function CountedIn(text: string, tries: seq<Try>, drives: seq<Drive>): nat
    requires |drives| == |tries|
  {
    if tries == [] then 0
    else
      var n := |tries| - 1;
      CountedIn(text, tries[..n], drives[..n]) + CountedBy(AfterAll(text, tries[..n]), tries[n], drives[n])
  }

  function MissedIn(text: string, tries: seq<Try>, drives: seq<Drive>): nat
    requires |drives| == |tries|
  {
    if tries == [] then 0
    else
      var n := |tries| - 1;
      MissedIn(text, tries[..n], drives[..n]) + MissedBy(AfterAll(text, tries[..n]), tries[n], drives[n])
  }

  lemma {:induction false} DrivenAllIsHarmless(text: string, tries: seq<Try>, drives: seq<Drive>)
    requires DrivenAll(text, tries, drives)
    ensures HarmlessAll(text, tries)
    ensures NegotiationsIn(text, tries) == CountedIn(text, tries, drives) - MissedIn(text, tries, drives)
  {
    hide AfterAll;
    hide ParamsOf;
    hide DrivenTry;
    hide HarmlessTry;
    hide NegotiationsOf;
    hide CountedBy;
    hide MissedBy;
    if tries != [] {
      var n := |tries| - 1;
      DrivenAllIsHarmless(text, tries[..n], drives[..n]);
      DrivenIsHarmless(AfterAll(text, tries[..n]), tries[n], drives[n]);
    }
  }

  lemma DrivenAllHasLength(text: string, tries: seq<Try>, drives: seq<Drive>)
    requires DrivenAll(text, tries, drives)
    ensures |drives| == |tries|
  {
  }

  /** Protocol and queue file together, over any number of tries: the file stays readable, totdials counts
      the dials that got into it, and tottries is what it was plus all negotiations that the results of the
      protocol runs count, less the missed ones. */
  lemma DrivenHistoryCounts(text: string, tries: seq<Try>, drives: seq<Drive>)
    requires Readable(text) && DrivenAll(text, tries, drives)
    ensures Readable(AfterAll(text, tries))
    ensures Counter(AfterAll(text, tries), "totdials") == WrapInt(Counter(text, "totdials") + DialsIn(text, tries))
    ensures Counter(AfterAll(text, tries), "tottries")
            == WrapInt(Counter(text, "tottries") + CountedIn(text, tries, drives) - MissedIn(text, tries, drives))
  {
    hide Readable;
    hide DrivenAll;
    hide HarmlessAll;
    hide Counter;
    hide AfterAll;
    hide WrapInt;
    hide DialsIn;
    hide NegotiationsIn;
    hide CountedIn;
    hide MissedIn;
    DrivenAllHasLength(text, tries, drives);
    DrivenAllIsHarmless(text, tries, drives);
    HistoryCounts(text, tries);
  }

  /** None of the runs shares its result, or none has a negotiation that the first hangup overtakes. */
  ghost predicate NoneOvertaken(drives: seq<Drive>) {
    forall i | 0 <= i < |drives| ::
      drives[i].cfg.handover.Copy? || forall k: nat, m: nat :: !Overtakes(drives[i].s0.events, k, m)
  }

  lemma NothingMissedBy(text: string, t: Try, d: Drive)
    requires DrivenTry(text, t, d)
    requires d.cfg.handover.Copy? || forall k: nat, m: nat :: !Overtakes(d.s0.events, k, m)
    ensures MissedBy(text, t, d) == 0
  {
    hide Q.Parse;
    hide LastWriteLands;
    hide Leaves;
    hide Missed;
    hide Enabled;
    hide Overtakes;
    hide Q.CleanValue;
    hide CleanSource;
    hide AllSubscribed;
    hide Dialing;
    hide Stamped;
    var ps := ParamsOf(text);
    HowFar(ps, t.world);
    hide Prepared;
    if t.lock && GoesThrough(ps, t.world) {
      NothingMissed(d);
    }
  }

  /** Conservation over whole histories: without overtaken negotiations every one that the protocol runs
      count is in the file at the end. */
  lemma {:induction false} NothingMissedIn(text: string, tries: seq<Try>, drives: seq<Drive>)
    requires DrivenAll(text, tries, drives) && NoneOvertaken(drives)
    ensures MissedIn(text, tries, drives) == 0
  {
    hide AfterAll;
    hide DrivenTry;
    hide MissedBy;
    hide Overtakes;
    if tries != [] {
      var n := |tries| - 1;
      NothingMissedIn(text, tries[..n], drives[..n]);
      NothingMissedBy(AfterAll(text, tries[..n]), tries[n], drives[n]);
    }
  }
}
