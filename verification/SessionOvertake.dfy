/** The one way in which a negotiation escapes the count: a hangup overtakes the status loop. */
module SessionOvertake {
  import opened Decimal
  import opened Receiver
  import opened Session
  import opened SessionSafety
  import opened SessionPages
  import Fax

  // ---- The condition on the event list ----

  /** The event gives the sender nothing to hand over: no negotiation, and the page count stays. */
  predicate Silent(f: Fax.Snapshot, ev: Fax.Event) {
    ev.subclass != Fax.Negotiation(true) && Fax.Extended(f, ev).transferredPages == f.transferredPages
  }

  /** A negotiation after which nothing is handed over, up to the end of the list. */
  ghost predicate QuietSince(events: seq<Fax.Event>, k: nat) {
    && k < |events| && events[k].subclass == Fax.Negotiation(true)
    && forall j | k < j < |events| :: Silent(Fax.Fold(events[..j]), events[j])
  }

  /** The m-th event is the first hangup, the k-th a negotiation, and nothing in between is handed over. */
  ghost predicate Overtakes(events: seq<Fax.Event>, k: nat, m: nat) {
    && k < m < |events|
    && Fax.IsHangup(events[m]) && events[m].hangupCause != ""
    && NoHangupUpTo(events, m) && (forall j | 0 <= j < m :: !Stray(events, j))
    && QuietSince(events[..m], k)
  }

  lemma OvertakesInPrefix(trace: seq<Fax.Event>, rest: seq<Fax.Event>, k: nat, m: nat)
    requires Overtakes(trace, k, m)
    ensures Overtakes(trace + rest, k, m)
  {
    hide Silent;
    hide Fax.Fold;
    hide Stray;
    hide QuietSince;
    var all := trace + rest;
    forall j | 0 <= j <= m ensures all[..j] == trace[..j] {}
    forall j | 0 <= j < m ensures !Stray(all, j) {
      StrayInPrefix(trace, rest, j);
    }
  }

  /** The event list ends with a hangup that overtakes a negotiation. */
  ghost predicate EndsOvertaking(events: seq<Fax.Event>) {
    exists k: nat, m: nat :: m + 1 == |events| && Overtakes(events, k, m)
  }

  // ---- What every run keeps ----

  /** The receiver is busy with an intermediate result. */
  predicate Busy(s: State) {
    match s.receiver
    case Holding(final, _) => !final
    case Testing(final, _, _) => !final
    case Reading(final, _, _, _) => !final
    case _ => false
  }

  /** Where the negotiation stands that the receiver is busy with, or is about to be. */
  ghost predicate Traced(s: State) {
    && (s.sender == SendingResult(false) ==> s.trace != [] && QuietSince(s.trace, |s.trace| - 1))
    && (Busy(s) && s.sender.Selecting? ==> exists k: nat :: QuietSince(s.trace, k))
    && (Busy(s) || s.receiver == Left(ByResult(false)) ==>
          s.sender == SendingResult(true) ==> EndsOvertaking(s.trace))
  }

  ghost predicate NoStray(s: State) {
    !s.sender.Panicked? ==> forall j | 0 <= j < |s.trace| :: !Stray(s.trace, j)
  }

  lemma QuietNext(trace: seq<Fax.Event>, ev: Fax.Event, k: nat)
    requires QuietSince(trace, k) && Silent(Fax.Fold(trace), ev)
    ensures QuietSince(trace + [ev], k)
  {
    hide Silent;
    hide Fax.Fold;
    var t := trace + [ev];
    forall j | k < j < |t| ensures Silent(Fax.Fold(t[..j]), t[j]) {
      assert t[..j] == trace[..j];
      assert j == |trace| ==> trace[..j] == trace;
    }
  }

  /** Folding in a stray event panics. */
  lemma StrayPanics(f: Fax.Snapshot, ev: Fax.Event)
    requires f.hangupCause == "" && !PointsAtPage(f, ev)
    ensures AfterFold(f.transferredPages, Fax.Extended(f, ev), ev).Panicked?
  {
    hide Fax.Extended;
    PagesAfter(f, ev);
  }

  lemma NoStrayFold(cfg: Config, s0: State, s: State)
    requires Sound(cfg, s0, s) && PagesTracked(s) && NoStray(s) && Enabled(s, FoldEvent)
    ensures NoStray(DoFold(cfg, s))
  {
    hide Fax.Extended;
    hide Fax.Fold;
    hide WantsFallback;
    hide NoHangupUpTo;
    hide CodeFits;
    hide Paired;
    hide PointsAtPage;
    hide AfterFold;
    hide ReceiveAll;
    var ev := s.events[0];
    var t := s.trace + [ev];
    forall j | 0 <= j < |t| && Stray(t, j) ensures DoFold(cfg, s).sender.Panicked? {
      if j < |s.trace| {
        StrayInPrefix(s.trace, [ev], j);
      } else {
        assert t[..j] == s.trace;
        StrayPanics(s.result, ev);
      }
    }
  }

  /** What the fold step does to the place of the negotiation, by what the sender does next. */
  lemma TracedFold(cfg: Config, s0: State, s: State)
    requires Sound(cfg, s0, s) && PagesTracked(s) && NoStray(s) && Traced(s) && Enabled(s, FoldEvent)
    ensures Traced(DoFold(cfg, s))
  {
    hide Fax.Extended;
    hide Fax.Fold;
    hide WantsFallback;
    hide NoHangupUpTo;
    hide CodeFits;
    hide AfterFold;
    hide ReceiveAll;
    hide Stray;
    hide QuietSince;
    hide EndsOvertaking;
    var ev := s.events[0];
    var t := DoFold(cfg, s);
    AfterFoldCases(s.result, ev);
    if t.sender == SendingResult(false) {
      QuietAtEnd(s.trace, ev);
    } else if Busy(s) && t.sender.Selecting? {
      var k: nat :| QuietSince(s.trace, k);
      QuietNext(s.trace, ev, k);
    } else if Busy(s) && t.sender == SendingResult(true) {
      var k: nat :| QuietSince(s.trace, k);
      HangupOvertakes(s, ev, k);
    }
  }

  lemma AfterFoldCases(f: Fax.Snapshot, ev: Fax.Event)
    requires f.hangupCause == ""
    ensures var next := AfterFold(f.transferredPages, Fax.Extended(f, ev), ev);
            && (next == SendingResult(false) ==> ev.subclass == Fax.Negotiation(true))
            && (next.Selecting? ==> Silent(f, ev))
            && (next == SendingResult(true) <==> Fax.IsHangup(ev) && ev.hangupCause != "")
  {
    hide Fax.Extended;
    PagesAfter(f, ev);
  }

  lemma QuietAtEnd(trace: seq<Fax.Event>, ev: Fax.Event)
    requires ev.subclass == Fax.Negotiation(true)
    ensures QuietSince(trace + [ev], |trace|)
  {
    hide Silent;
    hide Fax.Fold;
  }

  lemma HangupOvertakes(s: State, ev: Fax.Event, k: nat)
    requires PagesTracked(s) && NoStray(s) && !s.sender.Panicked? && QuietSince(s.trace, k)
    requires s.result == Fax.Fold(s.trace) && s.result.hangupCause == ""
    requires Fax.IsHangup(ev) && ev.hangupCause != ""
    ensures EndsOvertaking(s.trace + [ev])
  {
    hide Fax.Fold;
    hide Stray;
    hide QuietSince;
    var t := s.trace + [ev];
    var m := |s.trace|;
    assert t[..m] == s.trace;
    NoHangupNext(s.trace, ev);
    hide NoHangupUpTo;
    assert k < m by { QuietIsInside(s.trace, k); }
    forall j | 0 <= j < m ensures !Stray(t, j) {
      StrayInPrefix(s.trace, [ev], j);
    }
    assert Overtakes(t, k, m);
  }

  lemma QuietIsInside(events: seq<Fax.Event>, k: nat)
    requires QuietSince(events, k)
    ensures k < |events|
  {
  }

  lemma TracedStep(cfg: Config, s0: State, s: State, a: Action)
    requires Sound(cfg, s0, s) && PagesTracked(s) && NoStray(s) && Traced(s) && Enabled(s, a)
    ensures Traced(Next(cfg, s, a)) && NoStray(Next(cfg, s, a))
  {
    hide Fax.Extended;
    hide Fax.Fold;
    hide Receive;
    hide ReceiveAll;
    hide WantsFallback;
    hide DoFold;
    hide Stray;
    hide QuietSince;
    hide EndsOvertaking;
    hide Accounted;
    hide CodeFits;
    hide NoHangupUpTo;
    if a.FoldEvent? {
      TracedFold(cfg, s0, s);
      NoStrayFold(cfg, s0, s);
    }
  }

  lemma {:induction false} RunIsTraced(cfg: Config, s0: State, s: State, actions: seq<Action>, t: State)
    requires Sound(cfg, s0, s) && PagesTracked(s) && NoStray(s) && Traced(s) && Run(cfg, s, actions, t)
    ensures NoStray(t) && Traced(t)
    decreases |actions|
  {
    hide Next;
    hide Enabled;
    hide Sound;
    hide PagesTracked;
    hide NoStray;
    hide Traced;
    if actions != [] {
      TracedStep(cfg, s0, s, actions[0]);
      TrackedStep(cfg, s0, s, actions[0]);
      SoundStep(cfg, s0, s, actions[0]);
      RunIsTraced(cfg, s0, Next(cfg, s, actions[0]), actions[1..], t);
    }
  }

  lemma InitialIsTraced(s: State)
    requires Initial(s)
    ensures Traced(s) && NoStray(s) && PagesTracked(s)
  {
    hide Stray;
    hide QuietSince;
  }

  lemma MissedMeansOvertaken(cfg: Config, s0: State, actions: seq<Action>, s: State)
    requires Reaches(cfg, s0, actions, s) && s.receiver == Left(ByResult(false))
    ensures cfg.handover.Reference? && exists k: nat, m: nat :: Overtakes(s0.events, k, m)
  {
    hide Run;
    hide Initial;
    hide Overtakes;
    hide NoStray;
    hide PagesTracked;
    hide CodeFits;
    hide Fax.Fold;
    hide ReceiveAll;
    InitialIsSound(cfg, s0);
    InitialIsTraced(s0);
    RunIsTraced(cfg, s0, s0, actions, s);
    ReachedIsSound(cfg, s0, actions, s);
    var k: nat, m: nat :| m + 1 == |s.trace| && Overtakes(s.trace, k, m);
    OvertakesInPrefix(s.trace, s.events, k, m);
  }

  // ---- How a negotiation is missed ----

  lemma QuietInside(events: seq<Fax.Event>, k: nat, m: nat, j: nat)
    requires Overtakes(events, k, m) && j <= m
    ensures NoHangupUpTo(events, j)
    ensures k < m < |events| && events[k].subclass == Fax.Negotiation(true)
    ensures forall i | 0 <= i < j :: !Stray(events, i)
    ensures Fax.Fold(events[..j]).hangupCause == ""
    ensures Fax.IsHangup(events[m]) && events[m].hangupCause != ""
    ensures k < j < m ==> Silent(Fax.Fold(events[..j]), events[j])
  {
    hide Fax.Fold;
    hide Stray;
    hide Silent;
    if k < j < m {
      assert events[..m][..j] == events[..j];
    }
  }

  /** The receiver holds an intermediate result while the sender goes on selecting. */
  predicate HoldsBehind(s: State) {
    s.sender.Selecting? && s.receiver.Holding? && !s.receiver.final
  }

  lemma TraceNext(events: seq<Fax.Event>, trace: seq<Fax.Event>, rest: seq<Fax.Event>)
    requires trace + rest == events && rest != []
    ensures trace == events[..|trace|] && rest[0] == events[|trace|]
    ensures trace + [rest[0]] == events[..|trace| + 1] && rest[1..] == events[|trace| + 1..]
  {
  }

  /** The negotiation is folded in and its result handed over. */
  lemma HandNegotiation(cfg: Config, s0: State, before: seq<Action>, s: State)
      returns (actions: seq<Action>, t: State)
    requires Reaches(cfg, s0, before, s) && Settled(s) && s.events != []
    requires s.events[0].subclass == Fax.Negotiation(true)
    requires Fax.Fold(s.trace + [s.events[0]]).hangupCause == ""
    ensures Reaches(cfg, s0, actions, t) && HoldsBehind(t)
    ensures t.trace == s.trace + [s.events[0]]
  {
    hide Run;
    hide Initial;
    hide Fax.Extended;
    hide WantsFallback;
    hide Fax.Fold;
    hide Frozen;
    hide Paired;
    hide CodeFits;
    hide ReceiveAll;
    ReachedIsSound(cfg, s0, before, s);
    Fax.FoldNext(s.trace, s.events[0]);
    var s1 := Next(cfg, s, FoldEvent);
    RunCons1(cfg, s, FoldEvent);
    RunConcat(cfg, s0, before, s, [FoldEvent], s1);
    t := Next(cfg, s1, HandOver);
    RunCons1(cfg, s1, HandOver);
    actions := before + [FoldEvent] + [HandOver];
    RunConcat(cfg, s0, before + [FoldEvent], s1, [HandOver], t);
  }

  /** One more event of any kind is folded in while the receiver holds the result. */
  lemma FoldBehind(cfg: Config, s0: State, before: seq<Action>, s: State)
      returns (actions: seq<Action>, t: State)
    requires Reaches(cfg, s0, before, s) && HoldsBehind(s) && s.events != []
    ensures Reaches(cfg, s0, actions, t) && t.trace == s.trace + [s.events[0]]
    ensures t.receiver == s.receiver && t.job == s.job
    ensures t.sender == AfterFold(Fax.Fold(s.trace).transferredPages, Fax.Fold(t.trace), s.events[0])
  {
    hide Run;
    hide Initial;
    hide Fax.Extended;
    hide WantsFallback;
    hide Fax.Fold;
    hide Frozen;
    hide Paired;
    hide CodeFits;
    hide ReceiveAll;
    hide AfterFold;
    hide NoHangupUpTo;
    hide Stray;
    ReachedIsTracked(cfg, s0, before, s);
    Fax.FoldNext(s.trace, s.events[0]);
    t := Next(cfg, s, FoldEvent);
    RunCons1(cfg, s, FoldEvent);
    actions := before + [FoldEvent];
    RunConcat(cfg, s0, before, s, [FoldEvent], t);
  }

  /** The silent events up to the m-th are folded in behind the receiver's back. */
  lemma {:induction false} FoldSilence(cfg: Config, s0: State, before: seq<Action>, s: State, k: nat, m: nat)
      returns (actions: seq<Action>, t: State)
    requires Reaches(cfg, s0, before, s) && HoldsBehind(s) && Overtakes(s0.events, k, m)
    requires k < |s.trace| <= m
    ensures Reaches(cfg, s0, actions, t) && HoldsBehind(t) && |t.trace| == m
    decreases m - |s.trace|
  {
    hide Run;
    hide Initial;
    hide Overtakes;
    hide Reaches;
    hide AfterFold;
    hide Silent;
    hide Fax.Fold;
    hide Stray;
    hide NoHangupUpTo;
    if |s.trace| == m {
      return before, s;
    }
    var n := |s.trace|;
    QuietInside(s0.events, k, m, n);
    EventsLeft(cfg, s0, before, s, m);
    var a, u := FoldBehind(cfg, s0, before, s);
    QuietInside(s0.events, k, m, n + 1);
    SilentSelects(Fax.Fold(s0.events[..n]), Fax.Fold(s0.events[..n + 1]), s0.events, n);
    actions, t := FoldSilence(cfg, s0, a, u, k, m);
  }

  lemma EventsLeft(cfg: Config, s0: State, before: seq<Action>, s: State, m: nat)
    requires Reaches(cfg, s0, before, s) && |s.trace| <= m < |s0.events|
    ensures s.events != [] && s.trace == s0.events[..|s.trace|] && s.events[0] == s0.events[|s.trace|]
    ensures s.trace + [s.events[0]] == s0.events[..|s.trace| + 1]
  {
    hide Run;
    hide Initial;
    hide Sound;
    ReachedIsSound(cfg, s0, before, s);
    AccountOf(cfg, s0, s);
    TraceNext(s0.events, s.trace, s.events);
  }

  lemma SilentSelects(f: Fax.Snapshot, g: Fax.Snapshot, events: seq<Fax.Event>, n: nat)
    requires n < |events| && f == Fax.Fold(events[..n]) && g == Fax.Fold(events[..n + 1])
    requires Silent(f, events[n]) && g.hangupCause == ""
    ensures AfterFold(f.transferredPages, g, events[n]).Selecting?
  {
    hide Fax.Extended;
    hide Fax.Fold;
    assert events[..n + 1] == events[..n] + [events[n]];
    Fax.FoldNext(events[..n], events[n]);
  }

  /** The hangup is folded in while the receiver still holds the result. */
  lemma OvertakeNow(cfg: Config, s0: State, k: nat, m: nat) returns (actions: seq<Action>, t: State)
    requires Initial(s0) && s0.sender.Selecting? && Overtakes(s0.events, k, m)
    ensures Reaches(cfg, s0, actions, t)
    ensures t.sender == SendingResult(true) && t.receiver.Holding? && !t.receiver.final
    ensures t.result.hangupCause != ""
  {
    hide Run;
    hide Initial;
    hide Overtakes;
    hide AfterFold;
    hide Silent;
    hide Fax.Fold;
    hide Stray;
    hide NoHangupUpTo;
    QuietInside(s0.events, k, m, m);
    QuietInside(s0.events, k, m, k);
    QuietInside(s0.events, k, m, k + 1);
    var a0, u0 := DriveTo(cfg, s0, k);
    EventsLeft(cfg, s0, a0, u0, k);
    var a1, u1 := HandNegotiation(cfg, s0, a0, u0);
    var a2, u2 := FoldSilence(cfg, s0, a1, u1, k, m);
    EventsLeft(cfg, s0, a2, u2, m);
    actions, t := FoldBehind(cfg, s0, a2, u2);
    AfterFoldCases(Fax.Fold(u2.trace), u2.events[0]);
    Fax.FoldNext(u2.trace, u2.events[0]);
    FinalHasCause(cfg, s0, actions, t);
  }

  lemma FinalHasCause(cfg: Config, s0: State, actions: seq<Action>, s: State)
    requires Reaches(cfg, s0, actions, s) && s.sender == SendingResult(true)
    ensures s.result.hangupCause != ""
  {
    hide Run;
    hide Initial;
    ReachedIsSound(cfg, s0, actions, s);
  }

  /** The receiver then finds the hangup cause in the intermediate result: one step is left to do. */
  lemma MissNow(cfg: Config, s0: State, k: nat, m: nat) returns (actions: seq<Action>, s: State)
    requires Initial(s0) && s0.sender.Selecting? && cfg.handover.Reference? && Overtakes(s0.events, k, m)
    ensures Reaches(cfg, s0, actions, s) && s.receiver.Reading? && Enabled(s, ReadBody)
    ensures Next(cfg, s, ReadBody).receiver == Left(ByResult(false))
  {
    hide Run;
    hide Initial;
    hide Overtakes;
    hide Receive;
    var a, u := OvertakeNow(cfg, s0, k, m);
    var s1 := Next(cfg, u, ReadHead);
    RunCons1(cfg, u, ReadHead);
    RunConcat(cfg, s0, a, u, [ReadHead], s1);
    s := Next(cfg, s1, ReadCause);
    RunCons1(cfg, s1, ReadCause);
    RunConcat(cfg, s0, a + [ReadHead], s1, [ReadCause], s);
    actions := a + [ReadHead] + [ReadCause];
  }

  // ---- The two exact conditions ----

  /** The loop can be left on an intermediate result exactly when results are shared and the event list
      has a negotiation that the first hangup overtakes. */
  lemma MissedExactlyWhenOvertaken(cfg: Config, s0: State)
    requires Initial(s0) && s0.sender.Selecting?
    ensures (exists actions, s :: Reaches(cfg, s0, actions, s) && s.receiver == Left(ByResult(false)))
            <==> cfg.handover.Reference? && exists k: nat, m: nat :: Overtakes(s0.events, k, m)
  {
    hide Run;
    hide Initial;
    hide Overtakes;
    hide Next;
    hide Enabled;
    if actions, s :| Reaches(cfg, s0, actions, s) && s.receiver == Left(ByResult(false)) {
      MissedMeansOvertaken(cfg, s0, actions, s);
    }
    if k: nat, m: nat :| cfg.handover.Reference? && Overtakes(s0.events, k, m) {
      var actions, s := MissNow(cfg, s0, k, m);
      var t := Next(cfg, s, ReadBody);
      RunCons1(cfg, s, ReadBody);
      RunConcat(cfg, s0, actions, s, [ReadBody], t);
      assert Reaches(cfg, s0, actions + [ReadBody], t);
    }
  }

  /** tottries has grown by the negotiations that the result counts. */
  predicate CountsAll(s0: State, t: State) {
    t.job.tottries == WrapInt(s0.job.tottries + t.result.negotiateCount)
  }

  lemma NeighboursDiffer(n: int)
    ensures WrapInt(n) != WrapInt(n - 1)
  {
  }

  lemma CountsAllUnlessMissed(cfg: Config, s0: State, before: seq<Action>, s: State, a: Action)
    requires Leaves(cfg, s0, before, s, a) && AllSubscribed(s0.events)
    ensures CountsAll(s0, Next(cfg, s, a)) <==> Next(cfg, s, a).receiver != Left(ByResult(false))
  {
    hide Run;
    hide Initial;
    hide Next;
    hide Enabled;
    hide WrapInt;
    hide AllSubscribed;
    TriesMatchNegotiations(cfg, s0, before, s, a);
    NeighboursDiffer(s0.job.tottries + Next(cfg, s, a).result.negotiateCount);
  }

  /** Some interleaving leaves the loop with a negotiation uncounted exactly when results are shared and
      the event list has a negotiation that the first hangup overtakes. */
  lemma UncountedExactlyWhenOvertaken(cfg: Config, s0: State)
    requires Initial(s0) && s0.sender.Selecting? && AllSubscribed(s0.events)
    ensures (exists before, s, a :: Leaves(cfg, s0, before, s, a) && !CountsAll(s0, Next(cfg, s, a)))
            <==> cfg.handover.Reference? && exists k: nat, m: nat :: Overtakes(s0.events, k, m)
  {
    hide Run;
    hide Initial;
    hide Overtakes;
    hide Next;
    hide Enabled;
    hide CountsAll;
    hide AllSubscribed;
    if before, s, a :| Leaves(cfg, s0, before, s, a) && !CountsAll(s0, Next(cfg, s, a)) {
      CountsAllUnlessMissed(cfg, s0, before, s, a);
      var t := Next(cfg, s, a);
      RunCons1(cfg, s, a);
      RunConcat(cfg, s0, before, s, [a], t);
      MissedMeansOvertaken(cfg, s0, before + [a], t);
    }
    if k: nat, m: nat :| cfg.handover.Reference? && Overtakes(s0.events, k, m) {
      var before, s := MissNow(cfg, s0, k, m);
      assert Leaves(cfg, s0, before, s, ReadBody);
      CountsAllUnlessMissed(cfg, s0, before, s, ReadBody);
    }
  }
}
