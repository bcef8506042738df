/** One transmission as two processes. The sender folds telephony events into a result and hands
    pages, results and errors over unbuffered channels; the receiver is the status loop. Every
    interleaving is a list of actions. */
module Session {
  import opened Decimal
  import opened Receiver
  import Fax

  /** How a result crosses the channel: by reference, as the code does, or as a copy. */
  datatype Handover = Reference | Copy

  datatype Config = Config(handover: Handover, softmodemFallback: bool)

  /** Where the sender stands; a final send is followed by the return of the goroutine. */
  datatype Sender =
    | Selecting
    | SendingResult(final: bool)
    | SendingPage(page: Fax.PageResult)
    | SendingError(err: FaxError, final: bool)
    | Returned
    | Panicked

  datatype Exit = ByResult(final: bool) | ByError

  /** Where the status loop stands. While it holds a result it has still to read its head, its
      hangup cause or its body; `copy` is the result as it was at the hand-over. */
  datatype Status =
    | Waiting
    | Holding(final: bool, copy: Fax.Snapshot)
    | Testing(final: bool, copy: Fax.Snapshot, head: Fax.Snapshot)
    | Reading(final: bool, copy: Fax.Snapshot, head: Fax.Snapshot, test: Fax.Snapshot)
    | Left(exit: Exit)

  datatype State = State(
    events: seq<Fax.Event>,    // still to come; the stream fails after the last one
    trace: seq<Fax.Event>,     // folded in so far
    result: Fax.Snapshot,      // the live result
    pages: nat,                // the page count last acted upon
    fallback: bool,            // softmodem fallback has been requested for the number
    sender: Sender,
    receiver: Status,
    job: Job,
    arrivals: seq<Arrival>)    // what the receiver has taken in

  datatype Action =
    | FoldEvent
    | StreamFails(msg: string)
    | SignalComes(msg: string)
    | HandOver
    | ReadHead
    | ReadCause
    | ReadBody

  predicate Initial(s: State) {
    && s.trace == [] && s.result == Fax.EMPTY && s.pages == 0 && !s.fallback
    && (s.sender.Selecting? || (s.sender.SendingError? && s.sender.final))
    && s.receiver == Waiting && s.arrivals == []
    && s.job.returned == SendRetry && IsInt(s.job.tottries)
  }

  predicate Enabled(s: State, a: Action) {
    && !s.sender.Panicked?
    && match a
       case FoldEvent => s.sender.Selecting? && s.events != []
       case StreamFails(_) => s.sender.Selecting? && s.events == []
       case SignalComes(_) => s.sender.Selecting?
       case HandOver =>
         s.receiver.Waiting? && (s.sender.SendingResult? || s.sender.SendingPage? || s.sender.SendingError?)
       case ReadHead => s.receiver.Holding?
       case ReadCause => s.receiver.Testing?
       case ReadBody => s.receiver.Reading?
  }

  // ---- The sender ----

  /** The bad rows of all pages, added up in a 64-bit variable. */
  function BadRows(pages: seq<Fax.PageResult>): nat {
    if pages == [] then 0 else Uint(BadRows(pages[..|pages| - 1]) + pages[|pages| - 1].badRows)
  }

  /** Whether a failed transmission asks for softmodem fallback on the next call. */
  predicate WantsFallback(f: Fax.Snapshot) {
    !f.success && (f.negotiateCount > 1 || BadRows(f.pageResults) > 0)
  }

  /** What the event arm does once the event is folded in. */
  function AfterFold(pages: nat, f: Fax.Snapshot, ev: Fax.Event): Sender {
    if f.hangupCause != "" then SendingResult(true)
    else if ev.subclass == Fax.Negotiation(true) then SendingResult(false)
    else if f.transferredPages == pages then Selecting
    else if 1 <= f.transferredPages <= |f.pageResults| then SendingPage(f.pageResults[f.transferredPages - 1])
    else Panicked
  }

  function PagesAfterFold(pages: nat, f: Fax.Snapshot, ev: Fax.Event): nat {
    if f.hangupCause != "" || ev.subclass == Fax.Negotiation(true) then pages else f.transferredPages
  }

  function DoFold(cfg: Config, s: State): State
    requires s.events != []
  {
    var ev := s.events[0];
    var f := Fax.Extended(s.result, ev);
    s.(events := s.events[1..],
       trace := s.trace + [ev],
       result := f,
       pages := PagesAfterFold(s.pages, f, ev),
       fallback := s.fallback || (f.hangupCause != "" && cfg.softmodemFallback && WantsFallback(f)),
       sender := AfterFold(s.pages, f, ev))
  }

  // ---- The rendezvous ----

  function DoHandOver(s: State): State
    requires s.sender.SendingResult? || s.sender.SendingPage? || s.sender.SendingError?
  {
    match s.sender
    case SendingResult(final) =>
      s.(sender := if final then Returned else Selecting, receiver := Holding(final, s.result))
    case SendingPage(page) =>
      s.(sender := Selecting, job := Receive(s.job, PageArrived(page)), arrivals := s.arrivals + [PageArrived(page)])
    case SendingError(err, final) =>
      s.(sender := if final then Returned else Selecting, receiver := Left(ByError),
         job := Receive(s.job, ErrorArrived(err)), arrivals := s.arrivals + [ErrorArrived(err)])
  }

  // ---- The receiver ----

  /** What the receiver sees through the result it holds. */
  function Seen(cfg: Config, s: State, copy: Fax.Snapshot): Fax.Snapshot {
    if cfg.handover.Reference? then s.result else copy
  }

  function DoReadBody(cfg: Config, s: State): State
    requires s.receiver.Reading?
  {
    var r := s.receiver;
    var a := ResultArrived(r.head, r.test, Seen(cfg, s, r.copy));
    s.(receiver := if Ends(a) then Left(ByResult(r.final)) else Waiting,
       job := Receive(s.job, a), arrivals := s.arrivals + [a])
  }

  function Next(cfg: Config, s: State, a: Action): State
    requires Enabled(s, a)
  {
    match a
    case FoldEvent => DoFold(cfg, s)
    case StreamFails(msg) => s.(sender := SendingError(FaxError(msg, true), true))
    case SignalComes(msg) => s.(sender := SendingError(FaxError(msg, false), false))
    case HandOver => DoHandOver(s)
    case ReadHead =>
      var r := s.receiver; s.(receiver := Testing(r.final, r.copy, Seen(cfg, s, r.copy)))
    case ReadCause =>
      var r := s.receiver; s.(receiver := Reading(r.final, r.copy, r.head, Seen(cfg, s, r.copy)))
    case ReadBody => DoReadBody(cfg, s)
  }

  /** The actions lead from s to t, each one enabled when its turn comes. */
  ghost predicate Run(cfg: Config, s: State, actions: seq<Action>, t: State)
    decreases |actions|
  {
    hide Next;
    if actions == [] then s == t
    else Enabled(s, actions[0]) && Run(cfg, Next(cfg, s, actions[0]), actions[1..], t)
  }

  lemma {:induction false} RunConcat(cfg: Config, s: State, a: seq<Action>, t: State, b: seq<Action>, u: State)
    requires Run(cfg, s, a, t) && Run(cfg, t, b, u)
    ensures Run(cfg, s, a + b, u)
    decreases |a|
  {
    hide Next;
    hide Enabled;
    if a == [] {
      assert a + b == b;
    } else {
      RunConcat(cfg, Next(cfg, s, a[0]), a[1..], t, b, u);
      assert (a + b)[1..] == a[1..] + b;
    }
  }
}
