/** What holds of every interleaving of sender and receiver. */
module SessionSafety {
  import opened Decimal
  import opened Receiver
  import opened Session
  import Fax

  // ---- Invariants ----

  /** The state is accounted for by the events folded in and the arrivals taken in. */
  ghost predicate Accounted(s0: State, s: State) {
    && s.trace + s.events == s0.events
    && s.result == Fax.Fold(s.trace)
    && s.job == ReceiveAll(s0.job, s.arrivals)
  }

  /** A hangup cause stops the folding: the sender only hands the final result over and returns. A
      sender that has returned has left a hangup cause, unless it ended on an error. */
  predicate Frozen(s: State) {
    match s.sender
    case SendingResult(final) => final <==> s.result.hangupCause != ""
    case Returned => s.result.hangupCause != "" <==> s.receiver != Left(ByError)
    case _ => s.result.hangupCause == ""
  }

  /** Who is where: the sender is gone only once the receiver has taken its last message. */
  predicate Paired(cfg: Config, s: State) {
    match s.receiver
    case Waiting => !s.sender.Returned?
    case Holding(final, copy) => HoldsRightly(s, final, copy)
    case Testing(final, copy, _) => HoldsRightly(s, final, copy)
    case Reading(final, copy, _, test) =>
      && HoldsRightly(s, final, copy)
      && (final ==> test == s.result) && (test.hangupCause != "" ==> test == s.result)
      && (cfg.handover.Copy? ==> test == copy)
    case Left(exit) =>
      exit.ByResult? ==>
        && s.result.hangupCause != ""
        && if exit.final then s.sender.Returned? else s.sender == SendingResult(true) && cfg.handover.Reference?
  }

  /** A held result is final exactly when the sender has returned; a copy of an intermediate
      result has no hangup cause, a copy of the final one is the result. */
  predicate HoldsRightly(s: State, final: bool, copy: Fax.Snapshot) {
    && (final <==> s.sender.Returned?)
    && (if final then s.result.hangupCause != "" && copy == s.result else copy.hangupCause == "")
  }

  /** The return code and the status so far, by the way the loop was left. */
  predicate CodeFits(s: State) {
    match s.receiver
    case Left(ByResult(_)) =>
      s.job.returned == (if s.result.success then SendDone else SendRetry) && s.job.status == s.result.resultText
    case Left(ByError) =>
      s.arrivals != [] && var a := s.arrivals[|s.arrivals| - 1];
      a.ErrorArrived? && s.job.returned == (if a.err.retry then SendRetry else SendFailed) && s.job.status == a.err.msg
    case _ => s.job.returned == SendRetry
  }

  // ---- The invariants are kept ----

  lemma AccountedStep(cfg: Config, s0: State, s: State, a: Action)
    requires Accounted(s0, s) && Enabled(s, a)
    ensures Accounted(s0, Next(cfg, s, a))
  {
    hide Fax.Extended;
    hide Fax.Fold;
    hide Receive;
    hide ReceiveAll;
    hide AfterFold;
    hide PagesAfterFold;
    hide WantsFallback;
    match a
    case FoldEvent =>
      Fax.FoldNext(s.trace, s.events[0]);
      assert s.trace + [s.events[0]] + s.events[1..] == s.trace + s.events;
    case HandOver =>
      if s.sender.SendingPage? {
        ReceiveNext(s0.job, s.arrivals, PageArrived(s.sender.page));
      } else if s.sender.SendingError? {
        ReceiveNext(s0.job, s.arrivals, ErrorArrived(s.sender.err));
      }
    case ReadBody =>
      var r := s.receiver;
      ReceiveNext(s0.job, s.arrivals, ResultArrived(r.head, r.test, Seen(cfg, s, r.copy)));
    case _ =>
  }

  lemma FrozenStep(cfg: Config, s: State, a: Action)
    requires Frozen(s) && Enabled(s, a)
    ensures Frozen(Next(cfg, s, a))
  {
    hide Fax.Extended;
    hide Receive;
    hide WantsFallback;
  }

  lemma PairedStep(cfg: Config, s: State, a: Action)
    requires Frozen(s) && Paired(cfg, s) && Enabled(s, a)
    ensures Paired(cfg, Next(cfg, s, a))
  {
    hide Fax.Extended;
    hide Receive;
    hide WantsFallback;
  }

  lemma CodeStep(cfg: Config, s: State, a: Action)
    requires Frozen(s) && Paired(cfg, s) && CodeFits(s) && Enabled(s, a)
    ensures CodeFits(Next(cfg, s, a))
  {
    hide Fax.Extended;
    hide WantsFallback;
    hide AfterPage;
    hide AfterHead;
    hide AfterNegotiation;
    hide NegotiationStatus;
  }

  ghost predicate Sound(cfg: Config, s0: State, s: State) {
    Accounted(s0, s) && Frozen(s) && Paired(cfg, s) && CodeFits(s)
  }

  lemma InitialIsSound(cfg: Config, s: State)
    requires Initial(s)
    ensures Sound(cfg, s, s)
  {
  }

  lemma SoundStep(cfg: Config, s0: State, s: State, a: Action)
    requires Sound(cfg, s0, s) && Enabled(s, a)
    ensures Sound(cfg, s0, Next(cfg, s, a))
  {
    hide Next;
    hide Accounted;
    hide Frozen;
    hide Paired;
    hide CodeFits;
    AccountedStep(cfg, s0, s, a);
    FrozenStep(cfg, s, a);
    PairedStep(cfg, s, a);
    CodeStep(cfg, s, a);
  }

  lemma {:induction false} RunIsSound(cfg: Config, s0: State, s: State, actions: seq<Action>, t: State)
    requires Sound(cfg, s0, s) && Run(cfg, s, actions, t)
    ensures Sound(cfg, s0, t)
    decreases |actions|
  {
    hide Next;
    hide Sound;
    hide Enabled;
    if actions != [] {
      SoundStep(cfg, s0, s, actions[0]);
      RunIsSound(cfg, s0, Next(cfg, s, actions[0]), actions[1..], t);
    }
  }

  /** A state that some interleaving reaches from an initial one. */
  ghost predicate Reaches(cfg: Config, s0: State, actions: seq<Action>, s: State) {
    Initial(s0) && Run(cfg, s0, actions, s)
  }

  lemma ReachedIsSound(cfg: Config, s0: State, actions: seq<Action>, s: State)
    requires Reaches(cfg, s0, actions, s)
    ensures Sound(cfg, s0, s)
  {
    hide Run;
    hide Initial;
    hide Sound;
    InitialIsSound(cfg, s0);
    RunIsSound(cfg, s0, s0, actions, s);
  }

  // ---- The result and the return code ----

  /** Once a hangup cause is in, the live result never changes again, whoever moves. */
  lemma ResultFreezes(cfg: Config, s0: State, before: seq<Action>, s: State, after: seq<Action>, t: State)
    requires Reaches(cfg, s0, before, s) && Run(cfg, s, after, t)
    requires s.result.hangupCause != ""
    ensures t.result == s.result
  {
    hide Run;
    hide Initial;
    hide Sound;
    ReachedIsSound(cfg, s0, before, s);
    FrozenForGood(cfg, s0, s, after, t);
  }

  lemma {:induction false} FrozenForGood(cfg: Config, s0: State, s: State, after: seq<Action>, t: State)
    requires Sound(cfg, s0, s) && Run(cfg, s, after, t)
    requires s.result.hangupCause != ""
    ensures t.result == s.result
    decreases |after|
  {
    hide Next;
    hide Sound;
    hide Enabled;
    if after != [] {
      SoundStep(cfg, s0, s, after[0]);
      FrozenOneStep(cfg, s0, s, after[0]);
      FrozenForGood(cfg, s0, Next(cfg, s, after[0]), after[1..], t);
    }
  }

  lemma FrozenOneStep(cfg: Config, s0: State, s: State, a: Action)
    requires Sound(cfg, s0, s) && Enabled(s, a)
    requires s.result.hangupCause != ""
    ensures Next(cfg, s, a).result == s.result
  {
    hide Fax.Extended;
    hide Receive;
    hide Accounted;
  }

  /** The return code tells the truth. Left through a result, the loop returns SendDone exactly when
      the result is a success; through an error, the code is the error's; and SendDone is never
      returned, nor even held, without a success and a hangup cause. */
  lemma ReturnCodeIsRight(cfg: Config, s0: State, actions: seq<Action>, s: State)
    requires Reaches(cfg, s0, actions, s)
    ensures s.receiver.Left? && s.receiver.exit.ByResult? ==>
              && s.result.hangupCause != "" && (s.job.returned == SendDone <==> s.result.success)
              && s.job.status == s.result.resultText
    ensures s.receiver == Left(ByError) ==>
              && s.arrivals != [] && s.arrivals[|s.arrivals| - 1].ErrorArrived?
              && s.job.status == s.arrivals[|s.arrivals| - 1].err.msg
              && s.job.returned == if s.arrivals[|s.arrivals| - 1].err.retry then SendRetry else SendFailed
    ensures s.job.returned == SendDone ==> s.receiver.Left? && s.result.success && s.result.hangupCause != ""
  {
    hide Run;
    hide Initial;
    hide Accounted;
    ReachedIsSound(cfg, s0, actions, s);
  }

  // ---- Every negotiation is counted ----

  /** The events that the sender subscribes to: it is told of its own negotiations only, and a
      negotiation subclass comes on custom events only. */
  predicate Subscribed(ev: Fax.Event) {
    Fax.IsNegotiation(ev) <==> ev.subclass == Fax.Negotiation(true)
  }

  /** Negotiations folded in but not yet counted by the receiver. */
  function Pending(s: State): nat {
    (if s.sender == SendingResult(false) then 1 else 0)
    + match s.receiver
      case Holding(final, _) => if final then 0 else 1
      case Testing(final, _, _) => if final then 0 else 1
      case Reading(final, _, _, _) => if final then 0 else 1
      case _ => 0
  }

  predicate Conserved(s: State) {
    !s.receiver.Left? ==> s.result.negotiateCount == Negotiated(s.arrivals) + Pending(s)
  }

  lemma CountAfter(f: Fax.Snapshot, ev: Fax.Event)
    ensures Fax.Extended(f, ev).negotiateCount == f.negotiateCount + if Fax.IsNegotiation(ev) then 1 else 0
    ensures Fax.Extended(f, ev).hangupCause == if Fax.IsHangup(ev) then ev.hangupCause else f.hangupCause
  {
  }

  /** A step keeps the account; when it takes the receiver out of the loop, one negotiation is
      missing if the loop is left on an intermediate result, and none otherwise. */
  lemma ConservedStep(cfg: Config, s: State, a: Action)
    requires Frozen(s) && Paired(cfg, s) && Conserved(s) && Enabled(s, a)
    requires s.events != [] ==> Subscribed(s.events[0])
    ensures Conserved(Next(cfg, s, a))
    ensures var t := Next(cfg, s, a);
            !s.receiver.Left? && t.receiver.Left? ==>
              t.result.negotiateCount == Negotiated(t.arrivals) + if t.receiver.exit == ByResult(false) then 1 else 0
  {
    hide Fax.Extended;
    hide Receive;
    hide WantsFallback;
    hide Negotiated;
    match a
    case FoldEvent =>
      CountAfter(s.result, s.events[0]);
    case HandOver =>
      if s.sender.SendingPage? {
        NegotiatedNext(s.arrivals, PageArrived(s.sender.page));
      } else if s.sender.SendingError? {
        NegotiatedNext(s.arrivals, ErrorArrived(s.sender.err));
      }
    case ReadBody =>
      var r := s.receiver;
      NegotiatedNext(s.arrivals, ResultArrived(r.head, r.test, Seen(cfg, s, r.copy)));
    case _ =>
  }

  ghost predicate AllSubscribed(events: seq<Fax.Event>) {
    forall i | 0 <= i < |events| :: Subscribed(events[i])
  }

  lemma {:induction false} RunIsConserved(cfg: Config, s0: State, s: State, actions: seq<Action>, t: State)
    requires Sound(cfg, s0, s) && Conserved(s) && Run(cfg, s, actions, t)
    requires AllSubscribed(s0.events)
    ensures Conserved(t)
    decreases |actions|
  {
    hide Next;
    hide Conserved;
    hide Enabled;
    hide Frozen;
    hide Paired;
    hide CodeFits;
    hide Accounted;
    if actions != [] {
      NextEventIsSubscribed(cfg, s0, s);
      ConservedStep(cfg, s, actions[0]);
      SoundStep(cfg, s0, s, actions[0]);
      RunIsConserved(cfg, s0, Next(cfg, s, actions[0]), actions[1..], t);
    }
  }

  lemma InitialIsConserved(s: State)
    requires Initial(s)
    ensures Conserved(s) && IsInt(s.job.tottries)
  {
  }

  lemma NextEventIsSubscribed(cfg: Config, s0: State, s: State)
    requires Sound(cfg, s0, s) && AllSubscribed(s0.events)
    ensures s.events != [] ==> Subscribed(s.events[0])
  {
    hide Frozen;
    hide Paired;
    hide CodeFits;
    hide Fax.Fold;
    hide ReceiveAll;
    if s.events != [] {
      assert s.events[0] == s0.events[|s.trace|];
    }
  }

  /** The action takes the receiver out of the status loop. */
  ghost predicate Leaves(cfg: Config, s0: State, before: seq<Action>, s: State, a: Action) {
    && Reaches(cfg, s0, before, s) && Enabled(s, a)
    && !s.receiver.Left? && Next(cfg, s, a).receiver.Left?
  }

  /** Conservation between the two processes. When the receiver leaves the loop, tottries has grown by
      the negotiations that the result counts, less one if the loop is left on an intermediate result
      whose hangup cause was folded in before the receiver looked; handing over copies rules that out. */
  lemma TriesMatchNegotiations(cfg: Config, s0: State, before: seq<Action>, s: State, a: Action)
    requires Leaves(cfg, s0, before, s, a) && AllSubscribed(s0.events)
    ensures var t := Next(cfg, s, a);
            var missed := if t.receiver.exit == ByResult(false) then 1 else 0;
            && Negotiated(t.arrivals) == t.result.negotiateCount - missed
            && t.job.tottries == WrapInt(s0.job.tottries + t.result.negotiateCount - missed)
            && (missed == 1 ==> cfg.handover.Reference? && t.sender == SendingResult(true))
  {
    hide Next;
    hide Run;
    hide Negotiated;
    hide WrapInt;
    hide Receive;
    hide Fax.Fold;
    hide Fax.Extended;
    hide ReceiveAll;
    hide Initial;
    ReachedIsSound(cfg, s0, before, s);
    InitialIsSound(cfg, s0);
    InitialIsConserved(s0);
    RunIsConserved(cfg, s0, s0, before, s);
    NextEventIsSubscribed(cfg, s0, s);
    ConservedStep(cfg, s, a);
    SoundStep(cfg, s0, s, a);
    TriesCountNegotiations(s0.job, Next(cfg, s, a).arrivals);
  }

  lemma RunCons(cfg: Config, s: State, a: Action, rest: seq<Action>, t: State)
    requires Enabled(s, a) && Run(cfg, Next(cfg, s, a), rest, t)
    ensures Run(cfg, s, [a] + rest, t)
  {
    hide Next;
    hide Enabled;
    assert ([a] + rest)[1..] == rest;
  }

  /** A sender left holding its final result stays blocked for ever. */
  lemma SenderStaysBlocked(cfg: Config, s: State, actions: seq<Action>, t: State)
    requires s.sender == SendingResult(true) && s.receiver.Left? && Run(cfg, s, actions, t)
    ensures t == s
  {
    hide Next;
    assert forall a :: !Enabled(s, a);
  }
}
