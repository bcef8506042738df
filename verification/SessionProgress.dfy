/** The status loop neither waits for a sender that is gone nor runs for ever. */
module SessionProgress {
  import opened Receiver
  import opened Session
  import opened SessionSafety
  import Fax

  /** While the receiver waits in its select statement, the sender has not returned. */
  lemma NoLostEnding(cfg: Config, s0: State, actions: seq<Action>, s: State)
    requires Reaches(cfg, s0, actions, s)
    ensures s.receiver.Waiting? ==> !s.sender.Returned?
  {
    hide Run;
    hide Initial;
    hide Accounted;
    hide Frozen;
    ReachedIsSound(cfg, s0, actions, s);
  }

  /** Until the loop is left, one of the two processes can move, unless indexing has panicked. */
  lemma NeverStuck(cfg: Config, s0: State, actions: seq<Action>, s: State) returns (a: Action)
    requires Reaches(cfg, s0, actions, s)
    requires !s.receiver.Left? && !s.sender.Panicked?
    ensures Enabled(s, a)
  {
    hide Run;
    NoLostEnding(cfg, s0, actions, s);
    a := match s.receiver
      case Holding(_, _) => ReadHead
      case Testing(_, _, _) => ReadCause
      case Reading(_, _, _, _) => ReadBody
      case _ =>
        if !s.sender.Selecting? then HandOver
        else if s.events != [] then FoldEvent
        else StreamFails("");
  }

  /** Bounds the moves that are left until the receiver leaves the loop. */
  function Measure(s: State): nat {
    10 * |s.events|
    + (match s.sender
       case SendingResult(_) => 6
       case SendingPage(_) => 3
       case Selecting => 2
       case SendingError(_, _) => 1
       case _ => 0)
    + match s.receiver
      case Holding(_, _) => 3
      case Testing(_, _, _) => 2
      case Reading(_, _, _, _) => 1
      case _ => 0
  }

  lemma MeasureDrops(cfg: Config, s: State, a: Action)
    requires Enabled(s, a)
    ensures Next(cfg, s, a).receiver.Left? || Measure(Next(cfg, s, a)) < Measure(s)
    ensures s.receiver.Left? ==> Next(cfg, s, a).receiver.Left?
  {
    hide Fax.Extended;
    hide Receive;
    hide WantsFallback;
  }

  lemma {:induction false} LeftForGood(cfg: Config, s: State, actions: seq<Action>, t: State)
    requires Run(cfg, s, actions, t) && s.receiver.Left?
    ensures t.receiver.Left?
    decreases |actions|
  {
    hide Next;
    hide Enabled;
    hide Measure;
    if actions != [] {
      MeasureDrops(cfg, s, actions[0]);
      LeftForGood(cfg, Next(cfg, s, actions[0]), actions[1..], t);
    }
  }

  lemma {:induction false} LoopIsBounded(cfg: Config, s: State, actions: seq<Action>, t: State)
    requires Run(cfg, s, actions, t) && !t.receiver.Left?
    ensures |actions| + Measure(t) <= Measure(s)
    decreases |actions|
  {
    hide Next;
    hide Enabled;
    hide Measure;
    if actions != [] {
      var s1 := Next(cfg, s, actions[0]);
      MeasureDrops(cfg, s, actions[0]);
      if s1.receiver.Left? {
        LeftForGood(cfg, s1, actions[1..], t);
      } else {
        LoopIsBounded(cfg, s1, actions[1..], t);
      }
    }
  }

  /** Every interleaving ends the status loop: as long as it goes on there have been at most ten moves
      per event and two more, and a run that cannot be continued has left the loop or has panicked. */
  lemma StatusLoopTerminates(cfg: Config, s0: State, actions: seq<Action>, s: State)
    requires Reaches(cfg, s0, actions, s)
    ensures !s.receiver.Left? ==> |actions| <= 10 * |s0.events| + 2
    ensures (forall a :: !Enabled(s, a)) ==> s.receiver.Left? || s.sender.Panicked?
  {
    hide Run;
    hide Enabled;
    if !s.receiver.Left? {
      LoopIsBounded(cfg, s0, actions, s);
      if !s.sender.Panicked? {
        var a := NeverStuck(cfg, s0, actions, s);
      }
    }
  }
}
