/** The hand-over of pages: when its indexing is safe, and what the receiver gets. */
module SessionPages {
  import opened Decimal
  import opened Receiver
  import opened Session
  import opened SessionSafety
  import Fax
  import Q = QueueFormat

  // ---- When indexing panics ----

  /** A change of the page count points into the page results collected so far. */
  predicate PointsAtPage(f: Fax.Snapshot, ev: Fax.Event) {
    var g := Fax.Extended(f, ev);
    g.transferredPages == f.transferredPages || 1 <= g.transferredPages <= |g.pageResults|
  }

  ghost predicate NoHangupUpTo(events: seq<Fax.Event>, k: nat) {
    forall j | 0 <= j <= k && j <= |events| :: Fax.Fold(events[..j]).hangupCause == ""
  }

  /** The k-th event comes before any hangup and changes the page count to one that has no result. */
  ghost predicate Stray(events: seq<Fax.Event>, k: nat) {
    k < |events| && NoHangupUpTo(events, k) && !PointsAtPage(Fax.Fold(events[..k]), events[k])
  }

  ghost predicate PagesTracked(s: State) {
    && s.pages == s.result.transferredPages
    && (s.trace != [] ==> NoHangupUpTo(s.trace, |s.trace| - 1))
    && (s.sender.Panicked? ==> s.trace != [] && Stray(s.trace, |s.trace| - 1))
  }

  lemma PagesAfter(f: Fax.Snapshot, ev: Fax.Event)
    ensures Fax.IsHangup(ev) || ev.subclass.Negotiation? ==>
              Fax.Extended(f, ev).transferredPages == f.transferredPages
    ensures Fax.Extended(f, ev).hangupCause == if Fax.IsHangup(ev) then ev.hangupCause else f.hangupCause
  {
  }

  lemma NoHangupNext(trace: seq<Fax.Event>, ev: Fax.Event)
    requires trace != [] ==> NoHangupUpTo(trace, |trace| - 1)
    requires Fax.Fold(trace).hangupCause == ""
    ensures NoHangupUpTo(trace + [ev], |trace|)
  {
    forall j | 0 <= j <= |trace| ensures Fax.Fold((trace + [ev])[..j]).hangupCause == "" {
      assert (trace + [ev])[..j] == trace[..j];
      assert trace[..|trace|] == trace;
    }
  }

  lemma TrackedFold(cfg: Config, s0: State, s: State)
    requires Sound(cfg, s0, s) && PagesTracked(s) && Enabled(s, FoldEvent)
    ensures PagesTracked(DoFold(cfg, s))
  {
    hide Fax.Extended;
    hide WantsFallback;
    hide NoHangupUpTo;
    hide CodeFits;
    hide Paired;
    var ev := s.events[0];
    var t := s.trace + [ev];
    PagesAfter(s.result, ev);
    NoHangupNext(s.trace, ev);
    assert t[..|t| - 1] == s.trace && t[|t| - 1] == ev;
  }

  lemma TrackedStep(cfg: Config, s0: State, s: State, a: Action)
    requires Sound(cfg, s0, s) && PagesTracked(s) && Enabled(s, a)
    ensures PagesTracked(Next(cfg, s, a))
  {
    hide Fax.Extended;
    hide Receive;
    hide Stray;
    hide NoHangupUpTo;
    hide WantsFallback;
    hide AfterFold;
    hide Sound;
    hide DoFold;
    if a.FoldEvent? {
      TrackedFold(cfg, s0, s);
    }
  }

  lemma {:induction false} RunIsTracked(cfg: Config, s0: State, s: State, actions: seq<Action>, t: State)
    requires Sound(cfg, s0, s) && PagesTracked(s) && Run(cfg, s, actions, t)
    ensures PagesTracked(t)
    decreases |actions|
  {
    hide Next;
    hide Enabled;
    hide Sound;
    hide PagesTracked;
    if actions != [] {
      TrackedStep(cfg, s0, s, actions[0]);
      SoundStep(cfg, s0, s, actions[0]);
      RunIsTracked(cfg, s0, Next(cfg, s, actions[0]), actions[1..], t);
    }
  }

  lemma ReachedIsTracked(cfg: Config, s0: State, actions: seq<Action>, s: State)
    requires Reaches(cfg, s0, actions, s)
    ensures Sound(cfg, s0, s) && PagesTracked(s)
  {
    hide Run;
    hide Sound;
    InitialIsSound(cfg, s0);
    ReachedIsSound(cfg, s0, actions, s);
    RunIsTracked(cfg, s0, s0, actions, s);
  }

  lemma StrayInPrefix(trace: seq<Fax.Event>, rest: seq<Fax.Event>, k: nat)
    requires k < |trace|
    ensures Stray(trace, k) <==> Stray(trace + rest, k)
  {
    hide PointsAtPage;
    hide Fax.Fold;
    var all := trace + rest;
    assert forall j | 0 <= j <= |trace| :: all[..j] == trace[..j];
  }

  // ---- How a stray count is reached ----

  predicate Settled(s: State) {
    s.sender.Selecting? && s.receiver.Waiting?
  }

  /** From a settled state, one harmless event leads to the next settled state. */
  lemma DriveOne(cfg: Config, s0: State, s: State) returns (actions: seq<Action>, t: State)
    requires Sound(cfg, s0, s) && PagesTracked(s) && Settled(s) && s.events != []
    requires Fax.Extended(s.result, s.events[0]).hangupCause == "" && PointsAtPage(s.result, s.events[0])
    ensures Run(cfg, s, actions, t) && Settled(t)
    ensures t.trace == s.trace + [s.events[0]] && t.events == s.events[1..]
  {
    hide Fax.Extended;
    hide Receive;
    hide WantsFallback;
    hide Sound;
    var s1 := DoFold(cfg, s);
    assert s1 == Next(cfg, s, FoldEvent);
    RunCons1(cfg, s, FoldEvent);
    if s1.sender.Selecting? {
      actions, t := [FoldEvent], s1;
    } else {
      var more, s2 := DriveHandOver(cfg, s1);
      RunConcat(cfg, s, [FoldEvent], s1, more, s2);
      actions, t := [FoldEvent] + more, s2;
    }
  }

  lemma RunCons1(cfg: Config, s: State, a: Action)
    requires Enabled(s, a)
    ensures Run(cfg, s, [a], Next(cfg, s, a))
  {
    hide Next;
    hide Enabled;
    var t := Next(cfg, s, a);
    assert Run(cfg, t, [], t);
    RunCons(cfg, s, a, [], t);
    assert [a] + [] == [a];
  }

  lemma DriveHandOver(cfg: Config, s: State) returns (actions: seq<Action>, t: State)
    requires s.sender.SendingPage? || s.sender == SendingResult(false)
    requires s.receiver.Waiting? && s.result.hangupCause == ""
    ensures Run(cfg, s, actions, t) && Settled(t) && t.trace == s.trace && t.events == s.events
  {
    hide Receive;
    var s1 := Next(cfg, s, HandOver);
    RunCons1(cfg, s, HandOver);
    if s.sender.SendingPage? {
      actions, t := [HandOver], s1;
    } else {
      var more, s2 := DriveReads(cfg, s1);
      RunConcat(cfg, s, [HandOver], s1, more, s2);
      actions, t := [HandOver] + more, s2;
    }
  }

  lemma DriveReads(cfg: Config, s: State) returns (actions: seq<Action>, t: State)
    requires s.receiver.Holding? && s.sender.Selecting? && Seen(cfg, s, s.receiver.copy).hangupCause == ""
    ensures Run(cfg, s, actions, t) && Settled(t) && t.trace == s.trace && t.events == s.events
  {
    hide Receive;
    var s1 := Next(cfg, s, ReadHead);
    var s2 := Next(cfg, s1, ReadCause);
    t := Next(cfg, s2, ReadBody);
    RunCons1(cfg, s, ReadHead);
    RunCons1(cfg, s1, ReadCause);
    RunCons1(cfg, s2, ReadBody);
    RunConcat(cfg, s1, [ReadCause], s2, [ReadBody], t);
    RunConcat(cfg, s, [ReadHead], s1, [ReadCause] + [ReadBody], t);
    actions := [ReadHead] + ([ReadCause] + [ReadBody]);
  }

  /** The first k events can be folded in one after the other, if none of them is stray or a hangup. */
  lemma {:induction false} DriveTo(cfg: Config, s0: State, k: nat) returns (actions: seq<Action>, t: State)
    requires Initial(s0) && s0.sender.Selecting? && k <= |s0.events|
    requires NoHangupUpTo(s0.events, k) && forall j | 0 <= j < k :: !Stray(s0.events, j)
    ensures Reaches(cfg, s0, actions, t) && Settled(t)
    ensures t.trace == s0.events[..k] && t.events == s0.events[k..]
  {
    hide PointsAtPage;
    hide Fax.Fold;
    hide Run;
    hide Stray;
    hide NoHangupUpTo;
    if k == 0 {
      EmptyRun(cfg, s0);
      actions, t := [], s0;
    } else {
      EarlierIsHarmless(s0.events, k);
      var before, s := DriveTo(cfg, s0, k - 1);
      assert s.events[0] == s0.events[k - 1];
      assert s0.events[..k] == s.trace + [s.events[0]];
      var more, u := DriveNext(cfg, s0, before, s);
      RunConcat(cfg, s0, before, s, more, u);
      actions, t := before + more, u;
    }
  }

  lemma EmptyRun(cfg: Config, s: State)
    ensures Run(cfg, s, [], s)
  {
  }

  lemma EarlierIsHarmless(events: seq<Fax.Event>, k: nat)
    requires 0 < k <= |events| && NoHangupUpTo(events, k) && !Stray(events, k - 1)
    ensures NoHangupUpTo(events, k - 1)
    ensures PointsAtPage(Fax.Fold(events[..k - 1]), events[k - 1])
    ensures Fax.Fold(events[..k]).hangupCause == ""
  {
    hide PointsAtPage;
    hide Fax.Fold;
  }

  lemma DriveNext(cfg: Config, s0: State, before: seq<Action>, s: State) returns (actions: seq<Action>, t: State)
    requires Reaches(cfg, s0, before, s) && Settled(s) && s.events != []
    requires Fax.Fold(s.trace + [s.events[0]]).hangupCause == "" && PointsAtPage(Fax.Fold(s.trace), s.events[0])
    ensures Run(cfg, s, actions, t) && Settled(t)
    ensures t.trace == s.trace + [s.events[0]] && t.events == s.events[1..]
  {
    hide PointsAtPage;
    hide Fax.Extended;
    hide Run;
    ReachedIsTracked(cfg, s0, before, s);
    Fax.FoldNext(s.trace, s.events[0]);
    actions, t := DriveOne(cfg, s0, s);
  }

  /** The indexing of page results can panic exactly when the event list has a stray page count. */
  lemma PanicsExactlyOnStray(cfg: Config, s0: State)
    requires Initial(s0) && s0.sender.Selecting?
    ensures (exists actions, s :: Reaches(cfg, s0, actions, s) && s.sender.Panicked?)
            <==> (exists k: nat :: Stray(s0.events, k))
  {
    hide Run;
    hide Stray;
    hide Sound;
    if actions, s :| Reaches(cfg, s0, actions, s) && s.sender.Panicked? {
      ReachedIsTracked(cfg, s0, actions, s);
      StrayInPrefix(s.trace, s.events, |s.trace| - 1);
      AccountOf(cfg, s0, s);
    }
    if k: nat :| Stray(s0.events, k) {
      var j := FirstStray(s0.events, k);
      var actions, s := DriveTo(cfg, s0, j);
      PanicNow(cfg, s0, actions, s, j);
    }
  }

  lemma AccountOf(cfg: Config, s0: State, s: State)
    requires Sound(cfg, s0, s)
    ensures s.trace + s.events == s0.events && s.result == Fax.Fold(s.trace)
  {
  }

  lemma {:induction false} FirstStray(events: seq<Fax.Event>, k: nat) returns (j: nat)
    requires Stray(events, k)
    ensures j <= k && Stray(events, j) && forall i | 0 <= i < j :: !Stray(events, i)
    ensures NoHangupUpTo(events, j) && j < |events|
  {
    if i :| 0 <= i < k && Stray(events, i) {
      j := FirstStray(events, i);
    } else {
      j := k;
    }
  }

  lemma PanicNow(cfg: Config, s0: State, before: seq<Action>, s: State, k: nat)
    requires Reaches(cfg, s0, before, s) && Settled(s)
    requires k < |s0.events| && s.trace == s0.events[..k] && s.events == s0.events[k..] && Stray(s0.events, k)
    ensures exists actions, t :: Reaches(cfg, s0, actions, t) && t.sender.Panicked?
  {
    hide Run;
    hide Sound;
    hide Fax.Extended;
    hide WantsFallback;
    ReachedIsTracked(cfg, s0, before, s);
    AccountOf(cfg, s0, s);
    PagesAfter(s.result, s.events[0]);
    var t := Next(cfg, s, FoldEvent);
    RunCons1(cfg, s, FoldEvent);
    RunConcat(cfg, s0, before, s, [FoldEvent], t);
    assert Reaches(cfg, s0, before + [FoldEvent], t);
  }

  // ---- Well-behaved page counts ----

  /** A page report leaves the count or raises it by one; nothing else changes it. */
  ghost predicate Gradual(events: seq<Fax.Event>) {
    forall k | 0 <= k < |events| :: GradualAt(Fax.Fold(events[..k]), events[k])
  }

  predicate GradualAt(f: Fax.Snapshot, ev: Fax.Event) {
    var g := Fax.Extended(f, ev);
    g.transferredPages == f.transferredPages || (Fax.IsPage(ev) && g.transferredPages == f.transferredPages + 1)
  }

  lemma {:induction false} GradualStaysBelow(events: seq<Fax.Event>, k: nat)
    requires Gradual(events) && k <= |events|
    ensures Fax.Fold(events[..k]).transferredPages <= |Fax.Fold(events[..k]).pageResults|
  {
    if k > 0 {
      GradualStaysBelow(events, k - 1);
      assert GradualAt(Fax.Fold(events[..k - 1]), events[k - 1]);
      assert events[..k] == events[..k - 1] + [events[k - 1]];
      Fax.FoldNext(events[..k - 1], events[k - 1]);
      hide Fax.Fold;
      ResultsGrow(Fax.Fold(events[..k - 1]), events[k - 1]);
    }
  }

  lemma ResultsGrow(f: Fax.Snapshot, ev: Fax.Event)
    ensures |Fax.Extended(f, ev).pageResults| == |f.pageResults| + if Fax.IsPage(ev) then 1 else 0
    ensures f.pageResults <= Fax.Extended(f, ev).pageResults
    ensures Fax.IsPage(ev) ==>
              Fax.Extended(f, ev).pageResults[|f.pageResults|].page == Fax.Extended(f, ev).transferredPages
  {
  }

  /** Counts that rise by at most one per page, and only there, never make the indexing panic. */
  lemma GradualNeverPanics(cfg: Config, s0: State, actions: seq<Action>, s: State)
    requires Reaches(cfg, s0, actions, s) && Gradual(s0.events)
    ensures !s.sender.Panicked?
  {
    hide Run;
    hide Sound;
    ReachedIsTracked(cfg, s0, actions, s);
    if s.sender.Panicked? {
      var k := |s.trace| - 1;
      StrayInPrefix(s.trace, s.events, k);
      AccountOf(cfg, s0, s);
      GradualIsNotStray(s0.events, k);
    }
  }

  lemma GradualIsNotStray(events: seq<Fax.Event>, k: nat)
    requires Gradual(events)
    ensures !Stray(events, k)
  {
    if k < |events| {
      GradualStaysBelow(events, k);
      assert GradualAt(Fax.Fold(events[..k]), events[k]);
      ResultsGrow(Fax.Fold(events[..k]), events[k]);
      hide Fax.Fold;
      hide Fax.Extended;
    }
  }

  // ---- Pages in order ----

  /** The k-th page report says k, and nothing else changes the count. */
  ghost predicate Consecutive(events: seq<Fax.Event>) {
    forall k | 0 <= k < |events| :: ConsecutiveAt(Fax.Fold(events[..k]), events[k])
  }

  predicate ConsecutiveAt(f: Fax.Snapshot, ev: Fax.Event) {
    var g := Fax.Extended(f, ev);
    g.transferredPages == if Fax.IsPage(ev) then |g.pageResults| else f.transferredPages
  }

  /** What the receiver has got, with the page on its way, is what the result holds. */
  predicate HandedOver(s: State) {
    && s.result.transferredPages == |s.result.pageResults|
    && (forall i | 0 <= i < |s.result.pageResults| :: s.result.pageResults[i].page == i + 1)
    && PagesIn(s.arrivals) + (if s.sender.SendingPage? then [s.sender.page] else []) == s.result.pageResults
  }

  lemma HandedOverFold(cfg: Config, s0: State, s: State)
    requires Frozen(s) && PagesTracked(s) && HandedOver(s) && Enabled(s, FoldEvent)
    requires ConsecutiveAt(s.result, s.events[0])
    ensures HandedOver(DoFold(cfg, s))
  {
    hide Fax.Extended;
    hide WantsFallback;
    hide NoHangupUpTo;
    hide Stray;
    var ev := s.events[0];
    PagesAfter(s.result, ev);
    ResultsGrow(s.result, ev);
  }

  lemma HandedOverStep(cfg: Config, s0: State, s: State, a: Action)
    requires Frozen(s) && PagesTracked(s) && HandedOver(s) && Enabled(s, a)
    requires s.events != [] ==> ConsecutiveAt(s.result, s.events[0])
    ensures HandedOver(Next(cfg, s, a))
  {
    hide DoFold;
    hide Receive;
    hide ConsecutiveAt;
    hide PagesIn;
    match a
    case FoldEvent => HandedOverFold(cfg, s0, s);
    case HandOver =>
      if s.sender.SendingPage? {
        PagesInNext(s.arrivals, PageArrived(s.sender.page));
      } else if s.sender.SendingError? {
        PagesInNext(s.arrivals, ErrorArrived(s.sender.err));
      }
    case ReadBody =>
      var r := s.receiver;
      PagesInNext(s.arrivals, ResultArrived(r.head, r.test, Seen(cfg, s, r.copy)));
    case _ =>
  }

  lemma {:induction false} RunHandsOver(cfg: Config, s0: State, s: State, actions: seq<Action>, t: State)
    requires Sound(cfg, s0, s) && PagesTracked(s) && HandedOver(s) && Run(cfg, s, actions, t)
    requires Consecutive(s0.events)
    ensures HandedOver(t)
    decreases |actions|
  {
    hide Next;
    hide Enabled;
    hide Paired;
    hide CodeFits;
    hide HandedOver;
    hide PagesTracked;
    hide ConsecutiveAt;
    hide Fax.Fold;
    hide ReceiveAll;
    if actions != [] {
      if s.events != [] {
        assert s0.events[..|s.trace|] == s.trace && s0.events[|s.trace|] == s.events[0];
      }
      HandedOverStep(cfg, s0, s, actions[0]);
      TrackedStep(cfg, s0, s, actions[0]);
      SoundStep(cfg, s0, s, actions[0]);
      RunHandsOver(cfg, s0, Next(cfg, s, actions[0]), actions[1..], t);
    }
  }

  /** With consecutive page reports the receiver gets the page results in order and each once; the page
      numbered n is the n-th one; and `npages` ends as the number of page reports if there is any. */
  lemma PagesArriveInOrder(cfg: Config, s0: State, actions: seq<Action>, s: State)
    requires Reaches(cfg, s0, actions, s) && Consecutive(s0.events)
    ensures PagesIn(s.arrivals) <= s.result.pageResults
    ensures forall i | 0 <= i < |PagesIn(s.arrivals)| :: PagesIn(s.arrivals)[i].page == i + 1
    ensures s.result.hangupCause != "" ==> |PagesIn(s.arrivals)| == Fax.Count(s.trace, Fax.Pages())
    ensures PagesIn(s.arrivals) != [] ==>
              Q.GetString(s.job.params, "npages") == Itoa(WrapInt(|PagesIn(s.arrivals)|))
  {
    hide Run;
    hide Sound;
    hide HandedOver;
    InitialIsSound(cfg, s0);
    InitialHandsOver(s0);
    ReachedIsTracked(cfg, s0, actions, s);
    RunHandsOver(cfg, s0, s0, actions, s);
    OrderFromInvariant(cfg, s0, s);
  }

  lemma InitialHandsOver(s: State)
    requires Initial(s)
    ensures HandedOver(s) && PagesTracked(s)
  {
  }

  lemma OrderFromInvariant(cfg: Config, s0: State, s: State)
    requires Sound(cfg, s0, s) && HandedOver(s)
    ensures PagesIn(s.arrivals) <= s.result.pageResults
    ensures forall i | 0 <= i < |PagesIn(s.arrivals)| :: PagesIn(s.arrivals)[i].page == i + 1
    ensures s.result.hangupCause != "" ==> |PagesIn(s.arrivals)| == Fax.Count(s.trace, Fax.Pages())
    ensures PagesIn(s.arrivals) != [] ==>
              Q.GetString(s.job.params, "npages") == Itoa(WrapInt(|PagesIn(s.arrivals)|))
  {
    hide Paired;
    hide CodeFits;
    hide Fax.Fold;
    hide ReceiveAll;
    hide PagesIn;
    hide Q.GetString;
    hide Itoa;
    hide WrapInt;
    hide Fax.Count;
    hide Fax.FlagsMatch;
    hide Fax.ValuesMatch;
    hide Fax.OutcomeMatches;
    hide Fax.CallMatches;
    Fax.FoldSummarises(s.trace);
    LastPageShows(s0.job, s.arrivals);
  }
}
