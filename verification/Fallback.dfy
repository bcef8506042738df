/** When a failed fax asks for softmodem fallback on the next call, on either side of the server. */
module Fallback {
  import opened Decimal
  import opened Session
  import opened SessionSafety
  import opened SessionPages
  import Fax

  // ---- What the condition means for a trace ----

  /** The exact number of bad rows over all pages. */
  function RowSum(pages: seq<Fax.PageResult>): nat {
    if pages == [] then 0 else RowSum(pages[..|pages| - 1]) + pages[|pages| - 1].badRows
  }

  lemma {:induction false} BadRowsWrap(pages: seq<Fax.PageResult>)
    ensures BadRows(pages) == RowSum(pages) % TWO_64
  {
    if pages != [] {
      BadRowsWrap(pages[..|pages| - 1]);
    }
  }

  lemma {:induction false} RowSumPositive(pages: seq<Fax.PageResult>)
    ensures RowSum(pages) > 0 <==> exists i | 0 <= i < |pages| :: pages[i].badRows > 0
  {
    if pages != [] {
      var init := pages[..|pages| - 1];
      RowSumPositive(init);
      assert forall i | 0 <= i < |init| :: pages[i] == init[i];
    }
  }

  /** No event reported success, and there were repeated negotiations or some page with bad rows. */
  ghost predicate TroubledTrace(trace: seq<Fax.Event>) {
    && !Fax.Occurs(trace, Fax.SuccessReports())
    && (Fax.Count(trace, Fax.Negotiations()) >= 2 || Fax.Occurs(trace, Fax.BadPages()))
  }

  /** The condition in the code is that property of the trace, unless the bad rows sum up to a
      multiple of 2^64. */
  lemma FallbackOfTrace(trace: seq<Fax.Event>)
    requires var rows := RowSum(Fax.Fold(trace).pageResults); rows % TWO_64 == 0 ==> rows == 0
    ensures WantsFallback(Fax.Fold(trace)) <==> TroubledTrace(trace)
  {
    hide Fax.Fold;
    hide Fax.Count;
    hide Fax.Occurs;
    hide BadRows;
    hide RowSum;
    hide Fax.ValuesMatch;
    hide Fax.OutcomeMatches;
    hide Fax.CallMatches;
    var f := Fax.Fold(trace);
    Fax.FoldSummarises(trace);
    BadRowsWrap(f.pageResults);
    RowSumPositive(f.pageResults);
  }

  // ---- Outbound ----

  ghost predicate FallbackRight(cfg: Config, s: State) {
    s.fallback <==> s.result.hangupCause != "" && cfg.softmodemFallback && WantsFallback(s.result)
  }

  lemma FallbackStep(cfg: Config, s: State, a: Action)
    requires Frozen(s) && FallbackRight(cfg, s) && Enabled(s, a)
    ensures FallbackRight(cfg, Next(cfg, s, a))
  {
    hide Fax.Extended;
    hide Receiver.Receive;
    hide WantsFallback;
  }

  lemma {:induction false} RunFallback(cfg: Config, s0: State, s: State, actions: seq<Action>, t: State)
    requires Sound(cfg, s0, s) && FallbackRight(cfg, s) && Run(cfg, s, actions, t)
    ensures FallbackRight(cfg, t)
    decreases |actions|
  {
    hide Next;
    hide Enabled;
    hide Accounted;
    hide Frozen;
    hide Paired;
    hide CodeFits;
    hide FallbackRight;
    if actions != [] {
      FallbackStep(cfg, s, actions[0]);
      SoundStep(cfg, s0, s, actions[0]);
      RunFallback(cfg, s0, Next(cfg, s, actions[0]), actions[1..], t);
    }
  }

  /** In every reachable state of a transmission, fallback has been requested exactly when the call has
      hung up, the feature is on and the trace so far is a troubled one. */
  lemma OutboundFallback(cfg: Config, s0: State, actions: seq<Action>, s: State)
    requires Reaches(cfg, s0, actions, s)
    requires var rows := RowSum(Fax.Fold(s.trace).pageResults); rows % TWO_64 == 0 ==> rows == 0
    ensures s.fallback <==> s.result.hangupCause != "" && cfg.softmodemFallback && TroubledTrace(s.trace)
  {
    hide Run;
    hide Sound;
    hide WantsFallback;
    hide TroubledTrace;
    hide RowSum;
    InitialIsSound(cfg, s0);
    ReachedIsSound(cfg, s0, actions, s);
    RunFallback(cfg, s0, s0, actions, s);
    AccountOf(cfg, s0, s);
    FallbackOfTrace(s.trace);
  }

  // ---- The decision in place ----

  method SumBadRows(pages: seq<Fax.PageResult>) returns (badrows: nat)
    ensures badrows == BadRows(pages)
  {
    badrows := 0;
    for i := 0 to |pages|
      invariant badrows == BadRows(pages[..i])
    {
      assert pages[..i + 1][..i] == pages[..i];
      badrows := Uint(badrows + pages[i].badRows);
    }
    assert pages[..|pages|] == pages;
  }

  /** The code that both sides run once a transmission is over. */
  method Decide(softmodemFallback: bool, result: Fax.FaxResult) returns (fallback: bool)
    ensures fallback <==> softmodemFallback && WantsFallback(result.Now())
  {
    fallback := false;
    if softmodemFallback && !result.success {
      if result.negotiateCount > 1 {
        fallback := true;
      } else {
        var badrows := SumBadRows(result.pageResults);
        fallback := badrows > 0;
      }
    }
  }

  /** The event arm of the sender's select statement, on the live result: what it is about to send, the
      page count it remembers, and whether it has asked for fallback. The protocol takes this as one step. */
  method EventArm(cfg: Config, result: Fax.FaxResult, pages: nat, ev: Fax.Event)
    returns (sender: Sender, pages': nat, fallback: bool)
    modifies result
    ensures forall s: State ::
              && s.events != [] && s.events[0] == ev
              && s.result == old(result.Now()) && s.pages == pages && !s.fallback ==>
                var t := DoFold(cfg, s);
                t.result == result.Now() && t.sender == sender && t.pages == pages' && t.fallback == fallback
  {
    hide Fax.Extended;
    hide WantsFallback;
    result.AddEvent(ev);
    pages' := pages;
    fallback := false;
    if result.hangupCause != "" {
      fallback := Decide(cfg.softmodemFallback, result);
      sender := SendingResult(true);
    } else if ev.subclass == Fax.Negotiation(true) {
      sender := SendingResult(false);
    } else if result.transferredPages != pages {
      pages' := result.transferredPages;
      if 1 <= pages' <= |result.pageResults| {
        sender := SendingPage(result.pageResults[pages' - 1]);
      } else {
        sender := Panicked;
      }
    } else {
      sender := Selecting;
    }
  }

  // ---- Inbound ----

  /** What the inbound handler's select statement takes in; the stream fails after the last input. */
  datatype Input = Disconnect | Happened(ev: Fax.Event) | Kill

  datatype Heard = Heard(trace: seq<Fax.Event>, killed: bool)

  /** The events that the handler folds in after those in `before`: up to the first hangup cause. */
  function Listen(inputs: seq<Input>, before: seq<Fax.Event>): Heard {
    if inputs == [] then Heard(before, false)
    else
      match inputs[0]
      case Disconnect => Listen(inputs[1..], before)
      case Kill => Heard(before, true)
      case Happened(ev) =>
        if Fax.Fold(before + [ev]).hangupCause != "" then Heard(before + [ev], false)
        else Listen(inputs[1..], before + [ev])
  }

  /** The inbound event loop and the decision after it. A killed handler returns before deciding. */
  method Handle(softmodemFallback: bool, inputs: seq<Input>)
    returns (result: Fax.FaxResult, killed: bool, fallback: bool)
    ensures fresh(result)
    ensures result.Now() == Fax.Fold(Listen(inputs, []).trace) && killed == Listen(inputs, []).killed
    ensures fallback <==> !killed && softmodemFallback && WantsFallback(result.Now())
  {
    hide Fax.Extended;
    hide Fax.Fold;
    result := new Fax.FaxResult();
    killed, fallback := false, false;
    ghost var trace := [];
    var i := 0;
    EmptyFold();
    while i < |inputs|
      invariant i <= |inputs|
      invariant fresh(result) && result.Now() == Fax.Fold(trace)
      invariant Listen(inputs, []) == Listen(inputs[i..], trace)
    {
      ghost var rest := inputs[i..];
      assert rest[0] == inputs[i] && rest[1..] == inputs[i + 1..];
      match inputs[i] {
        case Disconnect =>
        case Kill =>
          killed := true;
          return;
        case Happened(ev) =>
          Fax.FoldNext(trace, ev);
          result.AddEvent(ev);
          trace := trace + [ev];
          if result.hangupCause != "" {
            break;
          }
      }
      i := i + 1;
    }
    fallback := Decide(softmodemFallback, result);
  }

  lemma EmptyFold()
    ensures Fax.Fold([]) == Fax.EMPTY
  {
  }

  // ---- What the inbound loop hears ----

  /** The telephony events among the inputs, in order. */
  function Events(inputs: seq<Input>): seq<Fax.Event> {
    if inputs == [] then []
    else Events(inputs[..|inputs| - 1])
         + match inputs[|inputs| - 1] case Happened(ev) => [ev] case _ => []
  }

  function WithoutNotices(inputs: seq<Input>): seq<Input> {
    if inputs == [] then []
    else (if inputs[0].Disconnect? then [] else [inputs[0]]) + WithoutNotices(inputs[1..])
  }

  /** Disconnect notices make no difference at all, wherever they come. */
  lemma {:induction false} NoticesDoNotMatter(inputs: seq<Input>, before: seq<Fax.Event>)
    ensures Listen(inputs, before) == Listen(WithoutNotices(inputs), before)
    decreases |inputs|
  {
    hide Fax.Fold;
    if inputs != [] {
      var rest := WithoutNotices(inputs[1..]);
      NoticesDoNotMatter(inputs[1..], before);
      if inputs[0].Happened? {
        NoticesDoNotMatter(inputs[1..], before + [inputs[0].ev]);
      }
      assert ([inputs[0]] + rest)[1..] == rest;
      assert [] + rest == rest;
    }
  }

  /** Up to the n-th input the handler has neither been killed nor heard of a hangup. */
  ghost predicate StillListening(inputs: seq<Input>, n: nat) {
    && n <= |inputs|
    && (forall i | 0 <= i < n :: !inputs[i].Kill?)
    && (forall j | 0 <= j <= n :: Fax.Fold(Events(inputs[..j])).hangupCause == "")
  }

  lemma EventsNext(inputs: seq<Input>, n: nat)
    requires n < |inputs|
    ensures Events(inputs[..n + 1]) ==
            if inputs[n].Happened? then Events(inputs[..n]) + [inputs[n].ev] else Events(inputs[..n])
  {
    assert inputs[..n + 1][..n] == inputs[..n];
    assert Events(inputs[..n]) + [] == Events(inputs[..n]);
  }

  /** A loop that still listens after n inputs goes on with the others. */
  lemma {:induction false} ListenOn(inputs: seq<Input>, n: nat)
    requires StillListening(inputs, n)
    ensures Listen(inputs, []) == Listen(inputs[n..], Events(inputs[..n]))
  {
    hide Fax.Fold;
    if n == 0 {
      assert inputs[0..] == inputs;
    } else {
      ListenOn(inputs, n - 1);
      EventsNext(inputs, n - 1);
      hide Events;
      var rest := inputs[n - 1..];
      assert rest[0] == inputs[n - 1] && rest[1..] == inputs[n..];
      assert Fax.Fold(Events(inputs[..n])).hangupCause == "" && !inputs[n - 1].Kill?;
    }
  }

  /** The input that ends the loop: the end of the stream, a kill, or the event with the first hangup cause. */
  ghost predicate StopsAt(inputs: seq<Input>, n: nat) {
    && StillListening(inputs, n)
    && (n == |inputs| || inputs[n].Kill?
        || (inputs[n].Happened? && Fax.Fold(Events(inputs[..n + 1])).hangupCause != ""))
  }

  lemma {:induction false} FindStop(inputs: seq<Input>, from: nat) returns (n: nat)
    requires StillListening(inputs, from)
    ensures StopsAt(inputs, n)
    decreases |inputs| - from
  {
    hide Fax.Fold;
    n := from;
    if from < |inputs| && !StopsAt(inputs, from) {
      ListenNext(inputs, from);
      n := FindStop(inputs, from + 1);
    }
  }

  lemma ListenNext(inputs: seq<Input>, n: nat)
    requires StillListening(inputs, n) && n < |inputs| && !StopsAt(inputs, n)
    ensures StillListening(inputs, n + 1)
  {
    hide Fax.Fold;
    hide Events;
    EventsNext(inputs, n);
  }

  lemma StopIsInside(inputs: seq<Input>, n: nat)
    requires StopsAt(inputs, n)
    ensures n <= |inputs|
  {
  }

  /** What the loop has heard at its end, for any inputs: it ends at the first kill or the first hangup
      cause, whichever comes first, or at the end of the stream; it has folded in all events up to there;
      and it is killed exactly if a kill came first. */
  lemma ListenIsExact(inputs: seq<Input>)
    ensures exists n: nat | n <= |inputs| :: StopsAt(inputs, n)
    ensures forall n: nat | n <= |inputs| && StopsAt(inputs, n) ::
              && Listen(inputs, []).killed == (n < |inputs| && inputs[n].Kill?)
              && Listen(inputs, []).trace == Events(inputs[..if n < |inputs| then n + 1 else n])
  {
    hide Fax.Fold;
    hide StillListening;
    hide Events;
    NothingYet(inputs);
    var n := FindStop(inputs, 0);
    StopIsInside(inputs, n);
    forall m: nat | m <= |inputs| && StopsAt(inputs, m)
      ensures Listen(inputs, []).killed == (m < |inputs| && inputs[m].Kill?)
      ensures Listen(inputs, []).trace == Events(inputs[..if m < |inputs| then m + 1 else m])
    {
      StopIsExact(inputs, m);
    }
  }

  lemma NothingYet(inputs: seq<Input>)
    ensures StillListening(inputs, 0)
  {
    assert inputs[..0] == [];
  }

  lemma StopIsExact(inputs: seq<Input>, n: nat)
    requires StopsAt(inputs, n)
    ensures Listen(inputs, []).killed == (n < |inputs| && inputs[n].Kill?)
    ensures Listen(inputs, []).trace == Events(inputs[..if n < |inputs| then n + 1 else n])
  {
    hide Fax.Fold;
    hide Events;
    ListenOn(inputs, n);
    if n < |inputs| {
      EventsNext(inputs, n);
      assert inputs[n..][0] == inputs[n];
    }
  }

  /** The handler is killed exactly if a kill comes before the first hangup cause. */
  lemma KilledExactlyWhen(inputs: seq<Input>)
    ensures Listen(inputs, []).killed
            <==> exists n: nat | n < |inputs| :: inputs[n].Kill? && StillListening(inputs, n)
  {
    hide Listen;
    hide Events;
    hide StillListening;
    hide Fax.Fold;
    ListenIsExact(inputs);
    var n: nat :| n <= |inputs| && StopsAt(inputs, n);
    if k: nat :| k < |inputs| && inputs[k].Kill? && StillListening(inputs, k) {
      assert StopsAt(inputs, k);
    }
  }

  // ---- Both sides agree ----

  /** The event that the other side of the same transmission is told: sending becomes receiving. */
  function Mirror(ev: Fax.Event): Fax.Event {
    ev.(subclass := match ev.subclass
                    case Negotiation(tx) => Fax.Negotiation(!tx)
                    case PageDone(tx) => Fax.PageDone(!tx)
                    case FaxDone(tx) => Fax.FaxDone(!tx)
                    case OtherSubclass => Fax.OtherSubclass)
  }

  function Mirrored(events: seq<Fax.Event>): (r: seq<Fax.Event>)
    ensures |r| == |events|
  {
    seq(|events|, i requires 0 <= i < |events| => Mirror(events[i]))
  }

  /** Either side is told of its own actions: what one takes for its own negotiation the other does not,
      and nothing else differs. */
  lemma MirrorSwapsSides(ev: Fax.Event)
    ensures Mirror(Mirror(ev)) == ev && Mirror(ev).(subclass := ev.subclass) == ev
    ensures ev.subclass.Negotiation? ==> !(ev.subclass.tx <==> Mirror(ev).subclass == Fax.Negotiation(true))
    ensures ev.subclass.PageDone? ==> !(ev.subclass.tx <==> Mirror(ev).subclass == Fax.PageDone(true))
    ensures ev.subclass.FaxDone? ==> !(ev.subclass.tx <==> Mirror(ev).subclass == Fax.FaxDone(true))
  {
  }

  lemma MirrorExtends(f: Fax.Snapshot, ev: Fax.Event)
    ensures Fax.Extended(f, Mirror(ev)) == Fax.Extended(f, ev)
  {
    hide Fax.Assign;
    hide Atoi;
  }

  /** A fax result does not tell sending from receiving. */
  lemma {:induction false} MirrorFolds(trace: seq<Fax.Event>)
    ensures Fax.Fold(Mirrored(trace)) == Fax.Fold(trace)
  {
    hide Fax.Extended;
    hide Mirror;
    if trace != [] {
      var n := |trace| - 1;
      MirrorFolds(trace[..n]);
      assert Mirrored(trace)[..n] == Mirrored(trace[..n]);
      MirrorExtends(Fax.Fold(trace[..n]), trace[n]);
    }
  }

  lemma {:induction false} PrefixHasNoHangup(inputs: seq<Input>, n: nat, e: nat)
    requires StillListening(inputs, n) && e <= |Events(inputs[..n])|
    ensures Fax.Fold(Events(inputs[..n])[..e]).hangupCause == ""
  {
    hide Fax.Fold;
    var events := Events(inputs[..n]);
    if e == |events| {
      assert events[..e] == events;
    } else {
      assert n > 0 by { assert inputs[..0] == []; }
      EventsNext(inputs, n - 1);
      hide Events;
      PrefixHasNoHangup(inputs, n - 1, e);
      assert events[..e] == Events(inputs[..n - 1])[..e];
    }
  }

  lemma {:induction false} EventsInPrefix(inputs: seq<Input>, n: nat)
    requires n <= |inputs|
    ensures Events(inputs[..n]) <= Events(inputs)
    decreases |inputs| - n
  {
    if n == |inputs| {
      assert inputs[..n] == inputs;
    } else {
      EventsNext(inputs, n);
      hide Events;
      EventsInPrefix(inputs, n + 1);
    }
  }

  lemma MirroredPrefix(trace: seq<Fax.Event>, j: nat)
    requires j < |trace| && NoHangupUpTo(trace, |trace| - 1)
    ensures Fax.Fold(Mirrored(trace)[..j]).hangupCause == ""
  {
    hide Fax.Fold;
    hide Mirror;
    assert Mirrored(trace)[..j] == Mirrored(trace[..j]);
    MirrorFolds(trace[..j]);
  }

  /** The events end in their first hangup cause. */
  ghost predicate EndsInHangup(events: seq<Fax.Event>) {
    && Fax.Fold(events).hangupCause != ""
    && forall j | 0 <= j < |events| :: Fax.Fold(events[..j]).hangupCause == ""
  }

  lemma FirstHangupIsUnique(a: seq<Fax.Event>, b: seq<Fax.Event>, all: seq<Fax.Event>)
    requires a <= all && b <= all && EndsInHangup(a) && EndsInHangup(b)
    ensures a == b
  {
    hide Fax.Fold;
    PrefixOfLonger(a, b, all);
    PrefixOfLonger(b, a, all);
  }

  lemma PrefixOfLonger(a: seq<Fax.Event>, b: seq<Fax.Event>, all: seq<Fax.Event>)
    requires a <= all && b <= all
    ensures |a| <= |b| ==> b[..|a|] == a
  {
  }

  lemma MirrorEndsInHangup(trace: seq<Fax.Event>)
    requires trace != [] && NoHangupUpTo(trace, |trace| - 1) && Fax.Fold(trace).hangupCause != ""
    ensures EndsInHangup(Mirrored(trace))
  {
    hide Fax.Fold;
    hide Mirrored;
    hide NoHangupUpTo;
    MirrorFolds(trace);
    forall j | 0 <= j < |trace| ensures Fax.Fold(Mirrored(trace)[..j]).hangupCause == "" {
      MirroredPrefix(trace, j);
    }
  }

  lemma HeardEndsInHangup(inputs: seq<Input>, n: nat)
    requires StopsAt(inputs, n) && n < |inputs| && inputs[n].Happened?
    ensures EndsInHangup(Events(inputs[..n + 1]))
  {
    hide Fax.Fold;
    hide Events;
    EventsNext(inputs, n);
    var before, heard := Events(inputs[..n]), Events(inputs[..n + 1]);
    forall j | 0 <= j < |heard| ensures Fax.Fold(heard[..j]).hangupCause == "" {
      PrefixHasNoHangup(inputs, n, j);
      assert heard[..j] == before[..j];
    }
  }

  /** If some beginning of the events has a hangup cause, the loop does not wait for the stream to end. */
  lemma StopsEarly(inputs: seq<Input>, n: nat, m: seq<Fax.Event>)
    requires StopsAt(inputs, n) && m <= Events(inputs) && Fax.Fold(m).hangupCause != ""
    ensures n < |inputs|
  {
    hide Fax.Fold;
    hide Events;
    if n == |inputs| {
      assert inputs[..n] == inputs;
      assert m == Events(inputs)[..|m|];
      PrefixHasNoHangup(inputs, n, |m|);
    }
  }

  /** What a handler that is not killed hears of events with a hangup. */
  lemma HearsUpToHangup(inputs: seq<Input>, m: seq<Fax.Event>)
    requires m <= Events(inputs) && Fax.Fold(m).hangupCause != "" && !Listen(inputs, []).killed
    ensures EndsInHangup(Listen(inputs, []).trace) && Listen(inputs, []).trace <= Events(inputs)
  {
    hide Fax.Fold;
    hide Listen;
    hide Events;
    hide StillListening;
    hide EndsInHangup;
    NothingYet(inputs);
    var n := FindStop(inputs, 0);
    StopIsInside(inputs, n);
    StopIsExact(inputs, n);
    StopsEarly(inputs, n, m);
    HeardEndsInHangup(inputs, n);
    EventsInPrefix(inputs, n + 1);
  }

  /** A handler that is not killed hears the mirrored events up to the hangup, and nothing after it. */
  lemma HearsMirrored(inputs: seq<Input>, trace: seq<Fax.Event>, rest: seq<Fax.Event>)
    requires Events(inputs) == Mirrored(trace + rest) && !Listen(inputs, []).killed
    requires trace != [] && NoHangupUpTo(trace, |trace| - 1) && Fax.Fold(trace).hangupCause != ""
    ensures Listen(inputs, []).trace == Mirrored(trace)
  {
    assert Mirrored(trace) <= Mirrored(trace + rest);
    hide Fax.Fold;
    hide Listen;
    hide Mirrored;
    hide NoHangupUpTo;
    hide Events;
    hide EndsInHangup;
    MirrorEndsInHangup(trace);
    MirrorFolds(trace);
    HearsUpToHangup(inputs, Mirrored(trace));
    FirstHangupIsUnique(Listen(inputs, []).trace, Mirrored(trace), Events(inputs));
  }

  /** On a transmission that hangs up, the receiving server asks for fallback exactly when the sending one
      does, if it is told its side of the same events, with any disconnect notices among them, and is not
      killed before the hangup. */
  lemma BothSidesAgree(cfg: Config, s0: State, actions: seq<Action>, s: State, inputs: seq<Input>)
    requires Reaches(cfg, s0, actions, s) && s.result.hangupCause != ""
    requires Events(inputs) == Mirrored(s0.events) && !Listen(inputs, []).killed
    ensures Fax.Fold(Listen(inputs, []).trace) == s.result
    ensures s.fallback <==> cfg.softmodemFallback && WantsFallback(Fax.Fold(Listen(inputs, []).trace))
  {
    hide Run;
    hide Sound;
    hide Fax.Fold;
    hide WantsFallback;
    hide Stray;
    hide Listen;
    hide Events;
    hide Mirrored;
    hide NoHangupUpTo;
    InitialIsSound(cfg, s0);
    ReachedIsTracked(cfg, s0, actions, s);
    RunFallback(cfg, s0, s0, actions, s);
    AccountOf(cfg, s0, s);
    EmptyFold();
    MirrorFolds(s.trace);
    HearsMirrored(inputs, s.trace, s.events);
  }
}
