/** The receiving half of a transmission: what the status loop does with each arrival. */
module Receiver {
  import opened Wrappers
  import opened Text
  import opened Decimal
  import Fax
  import Q = QueueFormat

  /** The return codes for HylaFAX that the sending code uses. */
  datatype SendResult = SendRetry | SendFailed | SendDone
  {
    function Code(): int {
      match this
      case SendRetry => 0
      case SendFailed => 1
      case SendDone => 2
    }
  }

  datatype FaxError = FaxError(msg: string, retry: bool)

  /** What one round of the select statement takes in. A result is read three times, because it
      arrives by reference: for the rate and the remote id, for the hangup cause, and for the rest. */
  datatype Arrival =
    | PageArrived(page: Fax.PageResult)
    | ResultArrived(head: Fax.Snapshot, test: Fax.Snapshot, body: Fax.Snapshot)
    | ErrorArrived(err: FaxError)

  /** The variables that the loop updates, with the parameters of the queue file. */
  datatype Job = Job(params: seq<Q.Param>, returned: SendResult, status: string, tottries: int, ndials: int)

  /** Whether the loop is left after this arrival. */
  predicate Ends(a: Arrival) {
    a.ErrorArrived? || (a.ResultArrived? && a.test.hangupCause != "")
  }

  predicate IsNegotiated(a: Arrival) {
    a.ResultArrived? && a.test.hangupCause == ""
  }

  function NegotiationStatus(f: Fax.Snapshot): string {
    "Sending " + Utoa(f.transferRate) + if f.ecm then "/ECM" else ""
  }

  function AfterHead(ps: seq<Q.Param>, head: Fax.Snapshot): seq<Q.Param> {
    Q.Set(Q.Set(ps, "signalrate", Itoa(WrapInt(head.transferRate))), "csi", head.remoteId)
  }

  function AfterPage(ps: seq<Q.Param>, page: Fax.PageResult): seq<Q.Param> {
    Q.Set(Q.Set(ps, "npages", Itoa(WrapInt(page.page))), "dataformat", page.encodingName)
  }

  function AfterNegotiation(ps: seq<Q.Param>, status: string, tottries: int): seq<Q.Param> {
    Q.Set(Q.Set(Q.Set(ps, "status", status), "tottries", Itoa(tottries)), "ndials", Itoa(0))
  }

  function Receive(j: Job, a: Arrival): Job {
    match a
    case PageArrived(page) => j.(params := AfterPage(j.params, page))
    case ResultArrived(head, test, body) =>
      var ps := AfterHead(j.params, head);
      if test.hangupCause != "" then
        j.(params := ps, status := body.resultText, returned := if body.success then SendDone else j.returned)
      else
        var status, tottries := NegotiationStatus(body), WrapInt(j.tottries + 1);
        j.(params := AfterNegotiation(ps, status, tottries), status := status, tottries := tottries, ndials := 0)
    case ErrorArrived(err) =>
      var ndials := WrapInt(j.ndials + 1);
      j.(params := Q.Set(j.params, "ndials", Itoa(ndials)),
         ndials := ndials,
         status := err.msg,
         returned := if err.retry then SendRetry else SendFailed)
  }

  function ReceiveAll(j: Job, arrivals: seq<Arrival>): Job {
    if arrivals == [] then j
    else Receive(ReceiveAll(j, arrivals[..|arrivals| - 1]), arrivals[|arrivals| - 1])
  }

  lemma ReceiveNext(j: Job, arrivals: seq<Arrival>, a: Arrival)
    ensures ReceiveAll(j, arrivals + [a]) == Receive(ReceiveAll(j, arrivals), a)
  {
    assert (arrivals + [a])[..|arrivals|] == arrivals;
  }

  /** The number of finished negotiations among the arrivals. */
  function Negotiated(arrivals: seq<Arrival>): nat {
    if arrivals == [] then 0
    else Negotiated(arrivals[..|arrivals| - 1]) + if IsNegotiated(arrivals[|arrivals| - 1]) then 1 else 0
  }

  lemma NegotiatedNext(arrivals: seq<Arrival>, a: Arrival)
    ensures Negotiated(arrivals + [a]) == Negotiated(arrivals) + if IsNegotiated(a) then 1 else 0
  {
    assert (arrivals + [a])[..|arrivals|] == arrivals;
  }

  /** The pages among the arrivals, in order. */
  function PagesIn(arrivals: seq<Arrival>): seq<Fax.PageResult> {
    if arrivals == [] then []
    else
      PagesIn(arrivals[..|arrivals| - 1])
      + var a := arrivals[|arrivals| - 1]; if a.PageArrived? then [a.page] else []
  }

  lemma PagesInNext(arrivals: seq<Arrival>, a: Arrival)
    ensures PagesIn(arrivals + [a]) == PagesIn(arrivals) + if a.PageArrived? then [a.page] else []
  {
    assert (arrivals + [a])[..|arrivals|] == arrivals;
  }

  lemma TriesAfter(j: Job, a: Arrival)
    ensures Receive(j, a).tottries == if IsNegotiated(a) then WrapInt(j.tottries + 1) else j.tottries
  {
    hide AfterNegotiation;
    hide AfterHead;
    hide AfterPage;
    hide NegotiationStatus;
    hide WrapInt;
  }

  /** tottries counts the finished negotiations, on top of what the queue file said. */
  lemma {:induction false} TriesCountNegotiations(j: Job, arrivals: seq<Arrival>)
    requires IsInt(j.tottries)
    ensures ReceiveAll(j, arrivals).tottries == WrapInt(j.tottries + Negotiated(arrivals))
  {
    hide Receive;
    hide WrapInt;
    if arrivals != [] {
      var n := |arrivals| - 1;
      TriesCountNegotiations(j, arrivals[..n]);
      TriesAfter(ReceiveAll(j, arrivals[..n]), arrivals[n]);
      WrapIntSucc(j.tottries + Negotiated(arrivals[..n]));
    }
  }

  // ---- What the arrivals leave in the queue file ----

  lemma TagsDiffer()
    ensures "npages" != "dataformat" && "npages" != "signalrate" && "npages" != "csi" && "npages" != "tottries"
    ensures "npages" != "status" && "npages" != "ndials" && "ndials" != "status"
    ensures "dataformat" != "signalrate" && "dataformat" != "csi" && "dataformat" != "status"
    ensures "dataformat" != "tottries"
    ensures "ndials" != "dataformat" && "ndials" != "signalrate" && "ndials" != "csi" && "ndials" != "tottries"
    ensures "tottries" != "dataformat" && "tottries" != "signalrate" && "tottries" != "csi" && "tottries" != "status"
  {
    assert "npages"[0] != "status"[0] && "npages"[1] != "ndials"[1] && "ndials"[0] != "status"[0];
    assert |"npages"| == |"ndials"| == |"status"| == 6 && |"csi"| == 3 && |"tottries"| == 8;
    assert |"signalrate"| == |"dataformat"| == 10 && "dataformat"[0] != "signalrate"[0];
  }

  /** The value of a tag after one arrival, for each kind of arrival. */
  lemma PageReads(ps: seq<Q.Param>, page: Fax.PageResult, tag: string)
    ensures Q.GetString(AfterPage(ps, page), tag) ==
            if tag == "dataformat" then page.encodingName
            else if tag == "npages" then Itoa(WrapInt(page.page))
            else Q.GetString(ps, tag)
  {
    hide Q.Set;
    hide Q.GetString;
    var ps1 := Q.Set(ps, "npages", Itoa(WrapInt(page.page)));
    Q.GetStringAfterSet(ps, "npages", Itoa(WrapInt(page.page)), tag);
    Q.GetStringAfterSet(ps1, "dataformat", page.encodingName, tag);
  }

  lemma HeadReads(ps: seq<Q.Param>, head: Fax.Snapshot, tag: string)
    ensures Q.GetString(AfterHead(ps, head), tag) ==
            if tag == "csi" then head.remoteId
            else if tag == "signalrate" then Itoa(WrapInt(head.transferRate))
            else Q.GetString(ps, tag)
  {
    hide Q.Set;
    hide Q.GetString;
    var ps1 := Q.Set(ps, "signalrate", Itoa(WrapInt(head.transferRate)));
    Q.GetStringAfterSet(ps, "signalrate", Itoa(WrapInt(head.transferRate)), tag);
    Q.GetStringAfterSet(ps1, "csi", head.remoteId, tag);
  }

  lemma NegotiationReads(ps: seq<Q.Param>, status: string, tottries: int, tag: string)
    ensures Q.GetString(AfterNegotiation(ps, status, tottries), tag) ==
            if tag == "ndials" then Itoa(0)
            else if tag == "tottries" then Itoa(tottries)
            else if tag == "status" then status
            else Q.GetString(ps, tag)
  {
    hide Q.Set;
    hide Q.GetString;
    hide Itoa;
    var ps1 := Q.Set(ps, "status", status);
    var ps2 := Q.Set(ps1, "tottries", Itoa(tottries));
    Q.GetStringAfterSet(ps, "status", status, tag);
    Q.GetStringAfterSet(ps1, "tottries", Itoa(tottries), tag);
    Q.GetStringAfterSet(ps2, "ndials", Itoa(0), tag);
  }

  lemma PageTagsAfter(j: Job, a: Arrival, tag: string)
    requires tag == "npages" || tag == "dataformat"
    ensures Q.GetString(Receive(j, a).params, tag) ==
            if a.PageArrived? then (if tag == "npages" then Itoa(WrapInt(a.page.page)) else a.page.encodingName)
            else Q.GetString(j.params, tag)
  {
    hide Q.GetString;
    hide AfterPage;
    hide AfterHead;
    hide AfterNegotiation;
    hide NegotiationStatus;
    hide WrapInt;
    hide Itoa;
    TagsDiffer();
    match a
    case PageArrived(page) => PageReads(j.params, page, tag);
    case ResultArrived(head, test, body) =>
      HeadReads(j.params, head, tag);
      NegotiationReads(AfterHead(j.params, head), NegotiationStatus(body), WrapInt(j.tottries + 1), tag);
    case ErrorArrived(err) =>
      Q.GetStringAfterSet(j.params, "ndials", Itoa(WrapInt(j.ndials + 1)), tag);
  }

  /** `npages` and `dataformat` hold the number and the encoding of the last page that arrived. */
  lemma {:induction false} LastPageShows(j: Job, arrivals: seq<Arrival>)
    ensures var pages, ps := PagesIn(arrivals), ReceiveAll(j, arrivals).params;
            if pages == [] then
              Q.GetString(ps, "npages") == Q.GetString(j.params, "npages")
              && Q.GetString(ps, "dataformat") == Q.GetString(j.params, "dataformat")
            else
              Q.GetString(ps, "npages") == Itoa(WrapInt(pages[|pages| - 1].page))
              && Q.GetString(ps, "dataformat") == pages[|pages| - 1].encodingName
  {
    hide Receive;
    hide Q.GetString;
    hide Itoa;
    hide WrapInt;
    if arrivals != [] {
      var n := |arrivals| - 1;
      LastPageShows(j, arrivals[..n]);
      PageTagsAfter(ReceiveAll(j, arrivals[..n]), arrivals[n], "npages");
      PageTagsAfter(ReceiveAll(j, arrivals[..n]), arrivals[n], "dataformat");
    }
  }

  /** The text of a finished negotiation can be read back: the rate in decimal, and whether ECM is used. */
  lemma NegotiationStatusReads(f: Fax.Snapshot)
    ensures var s := NegotiationStatus(f);
            && |s| > 8 && s[..8] == "Sending "
            && var parts := Split(s[8..], '/');
               && AllDigits(parts[0]) && Value(parts[0], 10) == f.transferRate
               && parts[1..] == if f.ecm then ["ECM"] else []
  {
    hide Split;
    hide Value;
    var s, digits := NegotiationStatus(f), Utoa(f.transferRate);
    UtoaValue(f.transferRate);
    assert |"Sending "| == 8;
    SplitStep(digits, '/', "ECM");
    SplitStep("ECM", '/', "");
    if f.ecm {
      assert s[8..] == digits + ['/'] + "ECM";
      assert Split(s[8..], '/') == [digits] + ["ECM"];
    } else {
      assert s[8..] == digits;
      assert Split(s[8..], '/') == [digits];
    }
  }

  /** A counted negotiation shows in the status, in the variable and in the file. */
  lemma NegotiationShows(j: Job, a: Arrival)
    requires IsNegotiated(a)
    ensures Receive(j, a).status == NegotiationStatus(a.body)
    ensures Q.GetString(Receive(j, a).params, "status") == NegotiationStatus(a.body)
  {
    hide Q.GetString;
    hide AfterHead;
    hide AfterNegotiation;
    hide NegotiationStatus;
    hide WrapInt;
    hide Itoa;
    TagsDiffer();
    StatusDiffers();
    NegotiationReads(AfterHead(j.params, a.head), NegotiationStatus(a.body), WrapInt(j.tottries + 1), "status");
  }

  lemma StatusDiffers()
    ensures "status" != "tottries" && "status" != "ndials"
  {
    assert |"tottries"| == 8 && "status"[0] != "ndials"[0];
  }

  /** The head of the last result among the arrivals. */
  function LastHead(arrivals: seq<Arrival>): Option<Fax.Snapshot> {
    if arrivals == [] then None
    else
      var a := arrivals[|arrivals| - 1];
      if a.ResultArrived? then Some(a.head) else LastHead(arrivals[..|arrivals| - 1])
  }

  lemma HeadTagsDiffer()
    ensures "csi" != "npages" && "csi" != "dataformat" && "csi" != "status" && "csi" != "tottries" && "csi" != "ndials"
    ensures "signalrate" != "npages" && "signalrate" != "dataformat" && "signalrate" != "status"
    ensures "signalrate" != "tottries" && "signalrate" != "ndials" && "signalrate" != "csi"
  {
    assert |"csi"| == 3 && |"signalrate"| == |"dataformat"| == 10 && "signalrate"[0] != "dataformat"[0];
    assert |"npages"| == |"status"| == |"ndials"| == 6 && |"tottries"| == 8;
  }

  lemma HeadAfter(j: Job, a: Arrival, tag: string)
    requires tag == "csi" || tag == "signalrate"
    ensures Q.GetString(Receive(j, a).params, tag) ==
            if a.ResultArrived? then (if tag == "csi" then a.head.remoteId else Itoa(WrapInt(a.head.transferRate)))
            else Q.GetString(j.params, tag)
  {
    hide Q.GetString;
    hide AfterPage;
    hide AfterHead;
    hide AfterNegotiation;
    hide NegotiationStatus;
    hide WrapInt;
    hide Itoa;
    HeadTagsDiffer();
    match a
    case PageArrived(page) => PageReads(j.params, page, tag);
    case ResultArrived(head, test, body) =>
      HeadReads(j.params, head, tag);
      NegotiationReads(AfterHead(j.params, head), NegotiationStatus(body), WrapInt(j.tottries + 1), tag);
    case ErrorArrived(err) =>
      Q.GetStringAfterSet(j.params, "ndials", Itoa(WrapInt(j.ndials + 1)), tag);
  }

  /** `csi` and `signalrate` hold what the last result said when its head was read. */
  lemma {:induction false} LastHeadShows(j: Job, arrivals: seq<Arrival>)
    ensures var ps, head := ReceiveAll(j, arrivals).params, LastHead(arrivals);
            && Q.GetString(ps, "csi") == (if head.Some? then head.value.remoteId else Q.GetString(j.params, "csi"))
            && Q.GetString(ps, "signalrate") ==
               if head.Some? then Itoa(WrapInt(head.value.transferRate)) else Q.GetString(j.params, "signalrate")
  {
    hide Receive;
    hide Q.GetString;
    hide Itoa;
    hide WrapInt;
    if arrivals != [] {
      var n := |arrivals| - 1;
      LastHeadShows(j, arrivals[..n]);
      HeadAfter(ReceiveAll(j, arrivals[..n]), arrivals[n], "csi");
      HeadAfter(ReceiveAll(j, arrivals[..n]), arrivals[n], "signalrate");
    }
  }
}
