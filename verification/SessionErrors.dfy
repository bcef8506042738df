/** How a transmission that ends on an error ends: which error the receiver is told, and what it makes of it. */
module SessionErrors {
  import opened Wrappers
  import opened Receiver
  import opened Session
  import opened SessionSafety
  import Fax

  /** An error as the sender hands it over; after a final one it returns. */
  datatype Ending = Ending(msg: string, retry: bool, final: bool)

  /** A lost event stream may be tried again and is the end of the sender; a signal forbids another try,
      and the sender goes on. */
  function EndingOf(a: Action): Option<Ending> {
    match a
    case StreamFails(msg) => Some(Ending(msg, true, true))
    case SignalComes(msg) => Some(Ending(msg, false, false))
    case _ => None
  }

  /** The error that the sender starts with, if the call could not be placed. */
  function InitialEnding(s0: State): Option<Ending> {
    match s0.sender
    case SendingError(err, final) => Some(Ending(err.msg, err.retry, final))
    case _ => None
  }

  /** The first error of all: the one that there was, or that of the first action that is one. */
  function FirstEnding(first: Option<Ending>, actions: seq<Action>): Option<Ending>
    decreases |actions|
  {
    if first.Some? || actions == [] then first else FirstEnding(EndingOf(actions[0]), actions[1..])
  }

  /** The first error is on its way or has ended the loop, and without one the loop is not left by error. */
  predicate Told(s: State, first: Option<Ending>) {
    match first
    case None => !s.sender.SendingError? && s.receiver != Left(ByError)
    case Some(e) =>
      || (s.sender == SendingError(FaxError(e.msg, e.retry), e.final) && !s.receiver.Left?)
      || (&& s.receiver == Left(ByError) && s.job.status == e.msg
          && s.job.returned == (if e.retry then SendRetry else SendFailed)
          && (s.sender.Returned? <==> e.final))
  }

  lemma ToldStep(cfg: Config, s: State, a: Action, first: Option<Ending>)
    requires Frozen(s) && Paired(cfg, s) && Told(s, first) && Enabled(s, a)
    ensures Told(Next(cfg, s, a), if first.Some? then first else EndingOf(a))
  {
    hide Fax.Extended;
    hide WantsFallback;
    hide AfterPage;
    hide AfterHead;
    hide AfterNegotiation;
    hide NegotiationStatus;
  }

  lemma {:induction false} RunTells(cfg: Config, s0: State, s: State, actions: seq<Action>, t: State,
                                    first: Option<Ending>)
    requires Sound(cfg, s0, s) && Told(s, first) && Run(cfg, s, actions, t)
    ensures Told(t, FirstEnding(first, actions))
    decreases |actions|
  {
    hide Next;
    hide Enabled;
    hide Told;
    hide EndingOf;
    hide Accounted;
    hide Frozen;
    hide Paired;
    hide CodeFits;
    if actions != [] {
      var next := if first.Some? then first else EndingOf(actions[0]);
      ToldStep(cfg, s, actions[0], first);
      SoundStep(cfg, s0, s, actions[0]);
      RunTells(cfg, s0, Next(cfg, s, actions[0]), actions[1..], t, next);
    }
  }

  predicate IsEnding(a: Action) {
    a.StreamFails? || a.SignalComes?
  }

  predicate Signalled(actions: seq<Action>) {
    exists i | 0 <= i < |actions| :: actions[i].SignalComes?
  }

  /** The k-th action is the first error of all. */
  predicate EndsFirstAt(actions: seq<Action>, k: nat) {
    k < |actions| && IsEnding(actions[k]) && forall i | 0 <= i < k :: !IsEnding(actions[i])
  }

  lemma {:induction false} FirstEndingIsFirst(actions: seq<Action>) returns (k: nat)
    ensures FirstEnding(None, actions).None? ==> forall i | 0 <= i < |actions| :: !IsEnding(actions[i])
    ensures FirstEnding(None, actions).Some? ==>
              EndsFirstAt(actions, k) && FirstEnding(None, actions) == EndingOf(actions[k])
    decreases |actions|
  {
    k := 0;
    if actions != [] && !IsEnding(actions[0]) {
      var j := FirstEndingIsFirst(actions[1..]);
      k := j + 1;
      assert forall i | 0 < i < |actions| :: actions[i] == actions[1..][i - 1];
    } else if actions != [] {
      assert FirstEnding(None, actions) == FirstEnding(EndingOf(actions[0]), actions[1..]) == EndingOf(actions[0]);
    }
  }

  lemma StaysFinal(cfg: Config, s: State, a: Action)
    requires s.sender.Returned? || (s.sender.SendingError? && s.sender.final)
    requires Enabled(s, a)
    ensures !a.SignalComes?
    ensures var x := Next(cfg, s, a).sender; x.Returned? || (x.SendingError? && x.final)
  {
    hide Receive;
  }

  /** After a final error no signal is listened to. */
  lemma {:induction false} DeafAfterFinal(cfg: Config, s: State, actions: seq<Action>, t: State)
    requires Run(cfg, s, actions, t)
    requires s.sender.Returned? || (s.sender.SendingError? && s.sender.final)
    ensures !Signalled(actions)
    decreases |actions|
  {
    hide Next;
    hide Enabled;
    if actions != [] {
      StaysFinal(cfg, s, actions[0]);
      DeafAfterFinal(cfg, Next(cfg, s, actions[0]), actions[1..], t);
      assert forall i | 0 < i < |actions| :: actions[i] == actions[1..][i - 1];
    }
  }

  lemma SignalledNext(actions: seq<Action>)
    requires actions != []
    ensures Signalled(actions) <==> actions[0].SignalComes? || Signalled(actions[1..])
  {
    assert forall i | 0 < i < |actions| :: actions[i] == actions[1..][i - 1];
    assert forall i | 0 <= i < |actions[1..]| :: actions[1..][i] == actions[i + 1];
  }

  lemma StreamEndIsFinal(cfg: Config, s: State, a: Action)
    requires Enabled(s, a) && a.StreamFails?
    ensures Next(cfg, s, a).sender.SendingError? && Next(cfg, s, a).sender.final
  {
  }

  /** The first error is a signal exactly when there is a signal at all. */
  lemma {:induction false} SignalComesFirst(cfg: Config, s: State, actions: seq<Action>, t: State)
    requires Run(cfg, s, actions, t)
    ensures var e := FirstEnding(None, actions); Signalled(actions) <==> e.Some? && !e.value.retry
    decreases |actions|
  {
    hide Next;
    hide Enabled;
    if actions == [] {
      return;
    }
    var s1 := Next(cfg, s, actions[0]);
    SignalledNext(actions);
    hide Signalled;
    if actions[0].StreamFails? {
      StreamEndIsFinal(cfg, s, actions[0]);
      DeafAfterFinal(cfg, s1, actions[1..], t);
    } else if !actions[0].SignalComes? {
      SignalComesFirst(cfg, s1, actions[1..], t);
    }
  }

  lemma InitialIsTold(s: State)
    requires Initial(s)
    ensures Told(s, InitialEnding(s))
  {
  }

  /** A call that was placed ends on an error exactly when the stream failed or a signal came, and the job
      is then given up exactly when it was a signal; any other error lets it be tried again. The status is
      the message of the first error, and the sender is gone exactly when that was the stream's. */
  lemma ErrorExitIsRight(cfg: Config, s0: State, actions: seq<Action>, s: State)
    requires Reaches(cfg, s0, actions, s) && s0.sender.Selecting? && s.receiver.Left?
    ensures s.receiver == Left(ByError) <==> exists i | 0 <= i < |actions| :: IsEnding(actions[i])
    ensures s.receiver == Left(ByError) ==>
              && s.job.returned == (if Signalled(actions) then SendFailed else SendRetry)
              && exists k: nat ::
                   EndsFirstAt(actions, k) && s.job.status == actions[k].msg
                   && (s.sender.Returned? <==> actions[k].StreamFails?)
  {
    hide Run;
    hide Initial;
    hide Sound;
    hide Signalled;
    hide FirstEnding;
    InitialIsSound(cfg, s0);
    InitialIsTold(s0);
    RunTells(cfg, s0, s0, actions, s, None);
    SignalComesFirst(cfg, s0, actions, s);
    var k := FirstEndingIsFirst(actions);
  }

  /** A call that could not be placed ends the loop on that error, whatever else happens. */
  lemma FailedCallIsTold(cfg: Config, s0: State, actions: seq<Action>, s: State)
    requires Reaches(cfg, s0, actions, s) && s0.sender.SendingError? && s.receiver.Left?
    ensures s.receiver == Left(ByError) && s.job.status == s0.sender.err.msg && s.sender.Returned?
    ensures s.job.returned == if s0.sender.err.retry then SendRetry else SendFailed
  {
    hide Run;
    hide Sound;
    InitialIsSound(cfg, s0);
    InitialIsTold(s0);
    RunTells(cfg, s0, s0, actions, s, InitialEnding(s0));
  }

  /** A signal can always end a loop that waits for a selecting sender, whose job is then given up; the
      sender goes on selecting. */
  lemma SignalCanEndLoop(cfg: Config, s: State, msg: string) returns (t: State)
    requires s.sender.Selecting? && s.receiver.Waiting?
    ensures Run(cfg, s, [SignalComes(msg), HandOver], t)
    ensures t.receiver == Left(ByError) && t.sender.Selecting?
    ensures t.job.returned == SendFailed && t.job.status == msg
  {
    var s1 := Next(cfg, s, SignalComes(msg));
    t := Next(cfg, s1, HandOver);
    RunTwo(cfg, s, SignalComes(msg), HandOver);
  }

  lemma RunTwo(cfg: Config, s: State, a: Action, b: Action)
    requires Enabled(s, a) && Enabled(Next(cfg, s, a), b)
    ensures Run(cfg, s, [a, b], Next(cfg, Next(cfg, s, a), b))
  {
    hide Next;
    hide Enabled;
    var s1 := Next(cfg, s, a);
    var s2 := Next(cfg, s1, b);
    assert Run(cfg, s2, [], s2);
    RunCons(cfg, s1, b, [], s2);
    RunCons(cfg, s, a, [b] + [], s2);
    assert [a] + ([b] + []) == [a, b];
  }
}
