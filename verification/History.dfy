/** One queue file over any number of attempts, each of which reads the file that the last one wrote. */
module History {
  import opened Wrappers
  import opened Text
  import opened Decimal
  import opened Receiver
  import opened Sending
  import Fax
  import Q = QueueFormat

  // ---- What an attempt does to each tag ----

  /** The tags that an attempt sets. */
  predicate IsOurs(tag: string) {
    || tag == "commid" || tag == "status" || tag == "totdials" || tag == "npages" || tag == "dataformat"
    || tag == "signalrate" || tag == "csi" || tag == "tottries" || tag == "ndials" || tag == "returned"
  }

  /** qs comes from ps by sets of our own tags: the rest keeps its values, and no tag moves. */
  ghost predicate Edited(ps: seq<Q.Param>, qs: seq<Q.Param>) {
    && Q.Tags(ps) <= Q.Tags(qs)
    && forall tag | !IsOurs(tag) :: Q.GetAll(qs, tag) == Q.GetAll(ps, tag)
  }

  lemma EditedBySet(ps: seq<Q.Param>, qs: seq<Q.Param>, tag: string, value: string)
    requires Edited(ps, qs) && IsOurs(tag)
    ensures Edited(ps, Q.Set(qs, tag, value))
  {
    hide Q.Set;
    hide Q.GetAll;
    hide IsOurs;
    hide Q.Tags;
    Q.SetKeepsTags(qs, tag, value);
    forall other | !IsOurs(other) ensures Q.GetAll(Q.Set(qs, tag, value), other) == Q.GetAll(ps, other) {
      Q.GetAllAfterSet(qs, tag, value, other);
    }
  }

  lemma EditedByReceive(ps: seq<Q.Param>, j: Job, a: Arrival)
    requires Edited(ps, j.params)
    ensures Edited(ps, Receive(j, a).params)
  {
    hide Edited;
    hide Q.Set;
    hide Itoa;
    hide WrapInt;
    hide NegotiationStatus;
    match a
    case PageArrived(page) =>
      EditedBySet(ps, j.params, "npages", Itoa(WrapInt(page.page)));
      EditedBySet(ps, Q.Set(j.params, "npages", Itoa(WrapInt(page.page))), "dataformat", page.encodingName);
    case ResultArrived(head, test, body) =>
      var rate := Q.Set(j.params, "signalrate", Itoa(WrapInt(head.transferRate)));
      EditedBySet(ps, j.params, "signalrate", Itoa(WrapInt(head.transferRate)));
      EditedBySet(ps, rate, "csi", head.remoteId);
      EditedByNegotiation(ps, AfterHead(j.params, head), NegotiationStatus(body), WrapInt(j.tottries + 1));
    case ErrorArrived(err) =>
      EditedBySet(ps, j.params, "ndials", Itoa(WrapInt(j.ndials + 1)));
  }

  lemma EditedByNegotiation(ps: seq<Q.Param>, qs: seq<Q.Param>, status: string, tottries: int)
    requires Edited(ps, qs)
    ensures Edited(ps, AfterNegotiation(qs, status, tottries))
  {
    hide Edited;
    hide Q.Set;
    hide Itoa;
    var ps1 := Q.Set(qs, "status", status);
    var ps2 := Q.Set(ps1, "tottries", Itoa(tottries));
    EditedBySet(ps, qs, "status", status);
    EditedBySet(ps, ps1, "tottries", Itoa(tottries));
    EditedBySet(ps, ps2, "ndials", Itoa(0));
  }

  lemma {:induction false} EditedByAll(ps: seq<Q.Param>, j: Job, arrivals: seq<Arrival>)
    requires Edited(ps, j.params)
    ensures Edited(ps, ReceiveAll(j, arrivals).params)
  {
    hide Edited;
    hide Receive;
    if arrivals != [] {
      var n := |arrivals| - 1;
      EditedByAll(ps, j, arrivals[..n]);
      EditedByReceive(ps, ReceiveAll(j, arrivals[..n]), arrivals[n]);
    }
  }

  lemma EditedByWithStatus(ps: seq<Q.Param>, qs: seq<Q.Param>, code: SendResult, status: string)
    requires Edited(ps, qs)
    ensures Edited(ps, WithStatus(qs, code, status))
  {
    hide Edited;
    hide Q.Set;
    hide Itoa;
    EditedBySet(ps, qs, "returned", Itoa(code.Code()));
    EditedBySet(ps, Q.Set(qs, "returned", Itoa(code.Code())), "status", status);
  }

  lemma EditedByDialing(ps: seq<Q.Param>, qs: seq<Q.Param>)
    requires Edited(ps, qs)
    ensures Edited(ps, Dialing(qs))
  {
    hide Edited;
    hide Q.Set;
    hide Itoa;
    hide WrapInt;
    var value := Itoa(WrapInt(Q.GetInt(qs, "totdials").value + 1));
    EditedBySet(ps, qs, "status", "Dialing");
    EditedBySet(ps, Q.Set(qs, "status", "Dialing"), "totdials", value);
  }

  lemma EditedByFinish(ps: seq<Q.Param>, j: Job)
    requires Edited(ps, j.params)
    ensures Edited(ps, Finish(j))
  {
    hide Edited;
    hide Q.Set;
    hide Itoa;
    EditedBySet(ps, j.params, "status", j.status);
    EditedBySet(ps, Q.Set(j.params, "status", j.status), "returned", Itoa(j.returned.Code()));
  }

  /** However an attempt ends, tags that are not its own keep their value lists, and the parameters
      that were there stay where they were. */
  lemma AttemptKeepsTheRest(ps: seq<Q.Param>, world: World)
    ensures Edited(ps, Attempt(ps, world).params)
  {
    EditedByNothing(ps);
    hide Edited;
    hide Q.Set;
    hide Finish;
    hide Dialing;
    hide WithStatus;
    hide ReceiveAll;
    hide Prepared;
    if Prepared(ps, world) {
      PreparedHasCommid(ps, world);
      var stamped := Stamped(ps, world.commid.value);
      EditedBySet(ps, ps, "commid", world.commid.value);
      match world.script
      case ScriptFails(text) => EditedByWithStatus(ps, stamped, SendRetry, ScriptError(text));
      case Rejects => EditedByWithStatus(ps, stamped, SendFailed, "Transmission rejected by DynamicConfig");
      case _ =>
        EditedByDialing(ps, stamped);
        EditedByAll(ps, Start(stamped), world.arrivals);
        EditedByFinish(ps, LastJob(ps, world));
    }
  }

  lemma PreparedHasCommid(ps: seq<Q.Param>, world: World)
    requires Prepared(ps, world)
    ensures world.commid.Some?
  {
  }

  lemma EditedByNothing(ps: seq<Q.Param>)
    ensures Edited(ps, ps)
  {
    hide Q.GetAll;
    hide IsOurs;
  }

  // ---- The record at the end of an attempt ----

  lemma OtherReads(j: Job, a: Arrival, tag: string)
    requires tag == "totdials" || tag == "returned"
    ensures Q.GetString(Receive(j, a).params, tag) == Q.GetString(j.params, tag)
  {
    hide Q.GetString;
    hide Q.Set;
    hide AfterPage;
    hide AfterHead;
    hide AfterNegotiation;
    hide NegotiationStatus;
    hide WrapInt;
    hide Itoa;
    OtherTagsDiffer();
    match a
    case PageArrived(page) => PageReads(j.params, page, tag);
    case ResultArrived(head, test, body) =>
      HeadReads(j.params, head, tag);
      NegotiationReads(AfterHead(j.params, head), NegotiationStatus(body), WrapInt(j.tottries + 1), tag);
    case ErrorArrived(err) =>
      Q.GetStringAfterSet(j.params, "ndials", Itoa(WrapInt(j.ndials + 1)), tag);
  }

  lemma OtherTagsDiffer()
    ensures "totdials" != "dataformat" && "totdials" != "npages" && "totdials" != "csi" && "totdials" != "signalrate"
    ensures "totdials" != "ndials" && "totdials" != "tottries" && "totdials" != "status" && "totdials" != "returned"
    ensures "returned" != "dataformat" && "returned" != "npages" && "returned" != "csi" && "returned" != "signalrate"
    ensures "returned" != "ndials" && "returned" != "tottries" && "returned" != "status"
    ensures "ndials" != "status" && "tottries" != "status" && "tottries" != "returned" && "ndials" != "returned"
    ensures "commid" != "totdials" && "commid" != "ndials" && "commid" != "tottries"
    ensures "totdials" != "ndials"
  {
    assert |"totdials"| == |"tottries"| == |"returned"| == 8;
    assert |"ndials"| == |"npages"| == |"status"| == |"commid"| == 6 && |"csi"| == 3;
    assert |"signalrate"| == |"dataformat"| == 10;
    assert "totdials"[3] != "tottries"[3] && "totdials"[0] != "returned"[0] && "tottries"[0] != "returned"[0];
    assert "commid"[0] != "ndials"[0] && "ndials"[0] != "status"[0];
  }

  lemma {:induction false} OtherReadsAll(j: Job, arrivals: seq<Arrival>, tag: string)
    requires tag == "totdials" || tag == "returned"
    ensures Q.GetString(ReceiveAll(j, arrivals).params, tag) == Q.GetString(j.params, tag)
  {
    hide Q.GetString;
    hide Receive;
    if arrivals != [] {
      var n := |arrivals| - 1;
      OtherReadsAll(j, arrivals[..n], tag);
      OtherReads(ReceiveAll(j, arrivals[..n]), arrivals[n], tag);
    }
  }

  /** The counters in the queue file and the loop variables stay in step. */
  lemma CountersAfter(j: Job, a: Arrival)
    ensures var k := Receive(j, a);
            && Q.GetString(k.params, "tottries") ==
               (if IsNegotiated(a) then Itoa(k.tottries) else Q.GetString(j.params, "tottries"))
            && Q.GetString(k.params, "ndials") ==
               (if IsNegotiated(a) || a.ErrorArrived? then Itoa(k.ndials) else Q.GetString(j.params, "ndials"))
            && k.ndials == if IsNegotiated(a) then 0 else if a.ErrorArrived? then WrapInt(j.ndials + 1) else j.ndials
  {
    hide Q.GetString;
    hide Q.Set;
    hide AfterPage;
    hide AfterHead;
    hide AfterNegotiation;
    hide NegotiationStatus;
    hide WrapInt;
    hide Itoa;
    TagsDiffer();
    match a
    case PageArrived(page) =>
      PageReads(j.params, page, "tottries");
      PageReads(j.params, page, "ndials");
    case ResultArrived(head, test, body) =>
      HeadReads(j.params, head, "tottries");
      HeadReads(j.params, head, "ndials");
      var ps, status, tries := AfterHead(j.params, head), NegotiationStatus(body), WrapInt(j.tottries + 1);
      NegotiationReads(ps, status, tries, "tottries");
      NegotiationReads(ps, status, tries, "ndials");
    case ErrorArrived(err) =>
      Q.GetStringAfterSet(j.params, "ndials", Itoa(WrapInt(j.ndials + 1)), "tottries");
      Q.GetStringAfterSet(j.params, "ndials", Itoa(WrapInt(j.ndials + 1)), "ndials");
  }

  /** After arrivals that do not end the loop, the counters are untouched until a negotiation is counted;
      from then on tottries is in the file as it is in the variable, and ndials is zero. */
  lemma {:induction false} CountersAfterAll(j: Job, arrivals: seq<Arrival>)
    requires forall i | 0 <= i < |arrivals| :: !Ends(arrivals[i])
    ensures var k := ReceiveAll(j, arrivals);
            if Negotiated(arrivals) == 0 then
              && Q.GetString(k.params, "tottries") == Q.GetString(j.params, "tottries")
              && Q.GetString(k.params, "ndials") == Q.GetString(j.params, "ndials") && k.ndials == j.ndials
            else
              && Q.GetString(k.params, "tottries") == Itoa(k.tottries)
              && Q.GetString(k.params, "ndials") == Itoa(0) && k.ndials == 0
  {
    hide Q.GetString;
    hide Receive;
    hide Itoa;
    if arrivals != [] {
      var n := |arrivals| - 1;
      var before := ReceiveAll(j, arrivals[..n]);
      CountersAfterAll(j, arrivals[..n]);
      CountersAfter(before, arrivals[n]);
      TriesAfter(before, arrivals[n]);
    }
  }

  lemma ReadsThroughFinish(j: Job, tag: string)
    ensures Q.GetString(Finish(j), tag) ==
            if tag == "returned" then Itoa(j.returned.Code()) else if tag == "status" then j.status
            else Q.GetString(j.params, tag)
  {
    hide Q.Set;
    hide Q.GetString;
    hide Itoa;
    Q.GetStringAfterSet(j.params, "status", j.status, tag);
    Q.GetStringAfterSet(Q.Set(j.params, "status", j.status), "returned", Itoa(j.returned.Code()), tag);
  }

  lemma ReadsThroughDialing(ps: seq<Q.Param>, tag: string)
    ensures Q.GetString(Dialing(ps), tag) ==
            if tag == "totdials" then Itoa(WrapInt(Q.GetInt(ps, "totdials").value + 1))
            else if tag == "status" then "Dialing" else Q.GetString(ps, tag)
  {
    hide Q.Set;
    hide Q.GetString;
    hide Itoa;
    hide WrapInt;
    var value := Itoa(WrapInt(Q.GetInt(ps, "totdials").value + 1));
    Q.GetStringAfterSet(ps, "status", "Dialing", tag);
    Q.GetStringAfterSet(Q.Set(ps, "status", "Dialing"), "totdials", value, tag);
  }

  lemma PrintedInt(n: int)
    requires IsInt(n)
    ensures Q.IntOf(Itoa(n)) == Parsed(n, true)
  {
    AtoiItoa(n);
  }

  /** The start of the loop: counters as the queue file has them, and one more dial. */
  lemma StartReads(ps: seq<Q.Param>, commid: string)
    ensures var j := Start(Stamped(ps, commid));
            && j.tottries == Q.GetInt(ps, "tottries").value && j.ndials == Q.GetInt(ps, "ndials").value
            && Q.GetString(j.params, "tottries") == Q.GetString(ps, "tottries")
            && Q.GetString(j.params, "ndials") == Q.GetString(ps, "ndials")
            && Q.GetString(j.params, "totdials") == Itoa(WrapInt(Q.GetInt(ps, "totdials").value + 1))
  {
    hide Q.Set;
    hide Q.GetString;
    hide Dialing;
    hide Itoa;
    hide WrapInt;
    hide Atoi;
    var stamped := Stamped(ps, commid);
    OtherTagsDiffer();
    CountersOfStamped(ps, commid);
    Q.GetStringAfterSet(ps, "commid", commid, "tottries");
    Q.GetStringAfterSet(ps, "commid", commid, "ndials");
    ReadsThroughDialing(stamped, "tottries");
    ReadsThroughDialing(stamped, "ndials");
    ReadsThroughDialing(stamped, "totdials");
  }

  /** The last arrival of a loop, after the ones that do not end it. */
  lemma LastArrival(j: Job, arrivals: seq<Arrival>)
    requires Complete(arrivals)
    ensures var k, last, n := ReceiveAll(j, arrivals), arrivals[|arrivals| - 1], Negotiated(arrivals);
            && Q.GetString(k.params, "tottries") ==
               (if n == 0 then Q.GetString(j.params, "tottries") else Itoa(k.tottries))
            && Q.GetString(k.params, "ndials") ==
               (if last.ErrorArrived? then Itoa(k.ndials)
                else if n == 0 then Q.GetString(j.params, "ndials") else Itoa(0))
            && (last.ErrorArrived? ==> k.ndials == WrapInt((if n == 0 then j.ndials else 0) + 1))
  {
    hide Q.GetString;
    hide Receive;
    hide Itoa;
    hide WrapInt;
    var n := |arrivals| - 1;
    var before := ReceiveAll(j, arrivals[..n]);
    CountersAfterAll(j, arrivals[..n]);
    CountersAfter(before, arrivals[n]);
    TriesAfter(before, arrivals[n]);
  }

  /** At the end of an attempt that goes through, the record agrees with the run: the code returned,
      one more dial, one more try per negotiation counted; ndials is as before, or zero, after a hangup
      and one more than that after an error, according to whether a negotiation was counted. */
  lemma RecordAgreesWithRun(ps: seq<Q.Param>, world: World)
    requires GoesThrough(ps, world) && Complete(world.arrivals)
    ensures var out, n := Attempt(ps, world), Negotiated(world.arrivals);
            && Q.GetInt(out.params, "returned") == Parsed(out.returned.Code(), true)
            && Q.GetInt(out.params, "totdials") == Parsed(WrapInt(Q.GetInt(ps, "totdials").value + 1), true)
            && Q.GetInt(out.params, "tottries").value == WrapInt(Q.GetInt(ps, "tottries").value + n)
            && Q.GetInt(out.params, "ndials").value ==
               var base := if n == 0 then Q.GetInt(ps, "ndials").value else 0;
               if world.arrivals[|world.arrivals| - 1].ErrorArrived? then WrapInt(base + 1) else base
  {
    hide Q.GetString;
    hide Itoa;
    hide WrapInt;
    hide Finish;
    hide Atoi;
    hide ReceiveAll;
    hide Start;
    hide Stamped;
    var commid := world.commid.value;
    var j0 := Start(Stamped(ps, commid));
    var j := LastJob(ps, world);
    OtherTagsDiffer();
    StartReads(ps, commid);
    LastArrival(j0, world.arrivals);
    TriesCountNegotiations(j0, world.arrivals);
    OtherReadsAll(j0, world.arrivals, "totdials");
    ReadsThroughFinish(j, "returned");
    ReadsThroughFinish(j, "totdials");
    ReadsThroughFinish(j, "tottries");
    ReadsThroughFinish(j, "ndials");
    PrintedInt(j.returned.Code());
    PrintedInt(WrapInt(Q.GetInt(ps, "totdials").value + 1));
    PrintedInt(j.tottries);
    PrintedInt(0);
    PrintedInt(WrapInt(Q.GetInt(ps, "ndials").value + 1));
    PrintedInt(WrapInt(0 + 1));
  }

  // ---- Attempts leave a readable file ----

  /** The texts that an arrival puts into the queue file survive there. */
  predicate CleanArrival(a: Arrival) {
    match a
    case PageArrived(page) => Q.CleanValue("dataformat", page.encodingName)
    case ResultArrived(head, test, body) =>
      && Q.CleanValue("csi", head.remoteId)
      && if test.hangupCause != "" then Q.CleanValue("status", body.resultText) else body.transferRate < TWO_64
    case ErrorArrived(err) => Q.CleanValue("status", err.msg)
  }

  ghost predicate CleanArrivals(arrivals: seq<Arrival>) {
    forall i | 0 <= i < |arrivals| :: CleanArrival(arrivals[i])
  }

  /** The texts that the attempt is given, as far as it looks at them, are clean. */
  ghost predicate CleanTexts(ps: seq<Q.Param>, world: World) {
    && (Prepared(ps, world) ==> Q.CleanValue("commid", world.commid.value))
    && (GoesThrough(ps, world) ==> CleanArrivals(world.arrivals))
  }

  lemma CleanTag(tag: string)
    requires IsOurs(tag)
    ensures Trimmed(tag) && ':' !in tag && '\n' !in tag && |tag| <= 10
  {
  }

  lemma TenToTheTwenty()
    ensures Pow10(19) == 10000000000000000000 && Pow10(20) == 100000000000000000000
  {
    assert Pow10(2) == 100;
    assert Pow10(4) == 10000;
    assert Pow10(6) == 1000000;
    assert Pow10(8) == 100000000;
    assert Pow10(10) == 10000000000;
    assert Pow10(12) == 1000000000000;
    assert Pow10(14) == 100000000000000;
    assert Pow10(16) == 10000000000000000;
    assert Pow10(18) == 1000000000000000000;
  }

  lemma ShortInt(n: int)
    requires IsInt(n)
    ensures |Itoa(n)| <= 20
  {
    TenToTheTwenty();
    UtoaLength(if n < 0 then -n else n, 19, Pow10(19));
  }

  lemma CleanText(tag: string, value: string)
    requires IsOurs(tag) && Q.CleanValue(tag, value)
    ensures Q.CleanParam(Q.Param(tag, value))
  {
    hide IsOurs;
    hide Trimmed;
    CleanTag(tag);
  }

  lemma CleanInt(tag: string, n: int)
    requires IsOurs(tag) && IsInt(n)
    ensures Q.CleanParam(Q.Param(tag, Itoa(n)))
  {
    hide IsOurs;
    hide Trimmed;
    hide Itoa;
    CleanTag(tag);
    ShortInt(n);
    ItoaIsClean(n);
  }

  lemma SetText(ps: seq<Q.Param>, tag: string, value: string)
    requires Q.Clean(ps) && IsOurs(tag) && Q.CleanValue(tag, value)
    ensures Q.Clean(Q.Set(ps, tag, value))
  {
    hide IsOurs;
    hide Q.CleanValue;
    hide Q.Clean;
    hide Q.CleanParam;
    hide Q.Set;
    CleanText(tag, value);
    Q.SetKeepsClean(ps, tag, value);
  }

  lemma SetInt(ps: seq<Q.Param>, tag: string, n: int)
    requires Q.Clean(ps) && IsOurs(tag) && IsInt(n)
    ensures Q.Clean(Q.Set(ps, tag, Itoa(n)))
  {
    hide IsOurs;
    hide Q.Clean;
    hide Q.CleanParam;
    hide Q.Set;
    CleanInt(tag, n);
    Q.SetKeepsClean(ps, tag, Itoa(n));
  }

  lemma CleanNegotiationStatus(body: Fax.Snapshot)
    requires body.transferRate < TWO_64
    ensures Q.CleanValue("status", NegotiationStatus(body))
  {
    hide Utoa;
    hide Pow10;
    var digits := Utoa(body.transferRate);
    UtoaValue(body.transferRate);
    TenToTheTwenty();
    UtoaLength(body.transferRate, 20, Pow10(20));
    var s := NegotiationStatus(body);
    assert s[0] == 'S' && |s| == 8 + |digits| + if body.ecm then 4 else 0;
    assert s[|s| - 1] == if body.ecm then 'M' else digits[|digits| - 1];
    assert forall i | 0 <= i < |digits| :: IsDigit(digits[i]);
    assert '\n' !in digits;
  }

  /** One arrival keeps the parameters and the status clean. */
  lemma CleanReceive(j: Job, a: Arrival)
    requires Q.Clean(j.params) && Q.CleanValue("status", j.status) && CleanArrival(a)
    ensures Q.Clean(Receive(j, a).params) && Q.CleanValue("status", Receive(j, a).status)
  {
    hide Q.Clean;
    hide Q.CleanValue;
    hide Q.Set;
    hide Itoa;
    hide WrapInt;
    hide NegotiationStatus;
    match a
    case PageArrived(page) =>
      SetInt(j.params, "npages", WrapInt(page.page));
      SetText(Q.Set(j.params, "npages", Itoa(WrapInt(page.page))), "dataformat", page.encodingName);
    case ResultArrived(head, test, body) =>
      SetInt(j.params, "signalrate", WrapInt(head.transferRate));
      SetText(Q.Set(j.params, "signalrate", Itoa(WrapInt(head.transferRate))), "csi", head.remoteId);
      if test.hangupCause == "" {
        CleanNegotiationStatus(body);
        CleanNegotiation(AfterHead(j.params, head), NegotiationStatus(body), WrapInt(j.tottries + 1));
      }
    case ErrorArrived(err) =>
      SetInt(j.params, "ndials", WrapInt(j.ndials + 1));
  }

  lemma CleanNegotiation(ps: seq<Q.Param>, status: string, tottries: int)
    requires Q.Clean(ps) && Q.CleanValue("status", status) && IsInt(tottries)
    ensures Q.Clean(AfterNegotiation(ps, status, tottries))
  {
    hide Q.Clean;
    hide Q.CleanValue;
    hide Q.Set;
    hide Itoa;
    SetText(ps, "status", status);
    SetInt(Q.Set(ps, "status", status), "tottries", tottries);
    SetInt(Q.Set(Q.Set(ps, "status", status), "tottries", Itoa(tottries)), "ndials", 0);
  }

  lemma {:induction false} CleanReceiveAll(j: Job, arrivals: seq<Arrival>)
    requires Q.Clean(j.params) && Q.CleanValue("status", j.status)
    requires CleanArrivals(arrivals)
    ensures Q.Clean(ReceiveAll(j, arrivals).params) && Q.CleanValue("status", ReceiveAll(j, arrivals).status)
  {
    hide Q.Clean;
    hide Q.CleanValue;
    hide CleanArrival;
    hide Receive;
    if arrivals != [] {
      var n := |arrivals| - 1;
      CleanReceiveAll(j, arrivals[..n]);
      CleanReceive(ReceiveAll(j, arrivals[..n]), arrivals[n]);
    }
  }

  lemma CleanDialing(ps: seq<Q.Param>, commid: string)
    requires Q.Clean(ps) && Q.CleanValue("commid", commid)
    ensures Q.Clean(Dialing(Stamped(ps, commid)))
  {
    hide Q.Clean;
    hide Q.Set;
    hide Itoa;
    hide WrapInt;
    hide Q.GetInt;
    var stamped := Stamped(ps, commid);
    SetText(ps, "commid", commid);
    SetText(stamped, "status", "Dialing");
    SetInt(Q.Set(stamped, "status", "Dialing"), "totdials", WrapInt(Q.GetInt(stamped, "totdials").value + 1));
  }

  lemma CleanRejection(ps: seq<Q.Param>, commid: string)
    requires Q.Clean(ps) && Q.CleanValue("commid", commid)
    ensures Q.Clean(WithStatus(Stamped(ps, commid), SendFailed, "Transmission rejected by DynamicConfig"))
  {
    hide Q.Clean;
    hide Q.Set;
    hide Itoa;
    SetText(ps, "commid", commid);
    SetInt(Stamped(ps, commid), "returned", SendFailed.Code());
    SetText(Q.Set(Stamped(ps, commid), "returned", Itoa(SendFailed.Code())),
            "status", "Transmission rejected by DynamicConfig");
  }

  lemma CleanFinish(j: Job)
    requires Q.Clean(j.params) && Q.CleanValue("status", j.status)
    ensures Q.Clean(Finish(j))
  {
    hide Q.Clean;
    hide Q.Set;
    hide Itoa;
    SetText(j.params, "status", j.status);
    SetInt(Q.Set(j.params, "status", j.status), "returned", j.returned.Code());
  }

  lemma CleanCall(ps: seq<Q.Param>, world: World)
    requires Q.Clean(ps) && GoesThrough(ps, world) && CleanTexts(ps, world)
    ensures Q.Clean(Finish(LastJob(ps, world)))
  {
    hide Q.Clean;
    hide CleanArrivals;
    hide Finish;
    hide Stamped;
    hide Dialing;
    hide ReceiveAll;
    var start := Start(Stamped(ps, world.commid.value));
    CleanDialing(ps, world.commid.value);
    assert Q.CleanValue("status", start.status);
    hide Q.CleanValue;
    CleanReceiveAll(start, world.arrivals);
    CleanFinish(LastJob(ps, world));
  }

  /** Unless the script fails, clean texts leave clean parameters. */
  lemma CleanAttempt(ps: seq<Q.Param>, world: World)
    requires Q.Clean(ps) && CleanTexts(ps, world) && !(Prepared(ps, world) && world.script.ScriptFails?)
    ensures Q.Clean(Attempt(ps, world).params)
  {
    if !Prepared(ps, world) {
      return;
    }
    hide Q.Clean;
    hide Q.CleanValue;
    hide CleanArrivals;
    hide Prepared;
    hide Finish;
    hide WithStatus;
    hide Stamped;
    hide Dialing;
    hide LastJob;
    if world.script.Rejects? {
      CleanRejection(ps, world.commid.value);
    } else if GoesThrough(ps, world) {
      CleanCall(ps, world);
    } else {
      CleanDialing(ps, world.commid.value);
    }
  }

  /** When the DynamicConfig script fails, the job is marked for retry and its file can never be read
      again: whatever the parameters and the error text, the status written ends the line twice. */
  lemma ScriptFailureSpoilsFile(ps: seq<Q.Param>, world: World)
    requires Prepared(ps, world) && world.script.ScriptFails?
    ensures Attempt(ps, world).returned == SendRetry && !Attempt(ps, world).failed
    ensures Q.Parse(Q.Print(Attempt(ps, world).params), 1).Err?
  {
    hide Q.Set;
    hide Q.Parse;
    hide Q.Print;
    hide Itoa;
    var marked := Q.Set(Stamped(ps, world.commid.value), "returned", Itoa(SendRetry.Code()));
    Q.NewlineStatusBreaksFile(marked, "status", "Error calling DynamicConfig: " + world.script.text);
  }

  /** When the last rewrite lands and all texts are clean, the file can be read again exactly when the
      script has not failed, and it then yields the parameters as the attempt left them. */
  lemma ReadableUnlessScriptFails(ps: seq<Q.Param>, world: World, was: string)
    requires Q.Clean(ps) && CleanTexts(ps, world) && LastWriteLands(ps, world)
    ensures Q.Parse(FileAfter(ps, world, was), 1).Ok? <==> !world.script.ScriptFails?
    ensures !world.script.ScriptFails? ==>
              Q.Parse(FileAfter(ps, world, was), 1) == Ok(Attempt(ps, world).params)
  {
    hide Q.Clean;
    hide CleanTexts;
    hide Prepared;
    hide Attempt;
    hide FileAfter;
    hide GoesThrough;
    hide Q.Parse;
    hide Q.Print;
    LastWriteDecides(ps, world, was);
    if world.script.ScriptFails? {
      ScriptFailureSpoilsFile(ps, world);
    } else {
      CleanAttempt(ps, world);
      Q.PrintParseRoundTrip(Attempt(ps, world).params);
    }
  }

  // ---- The counters after any attempt ----

  /** The attempt's dial gets into the file, be it that the call is then made or not. */
  predicate RecordsDial(ps: seq<Q.Param>, world: World) {
    Dials(ps, world) && world.disk(0).Lands(|Dialing(Stamped(ps, world.commid.value))|)
  }

  lemma ReadsThroughWithStatus(ps: seq<Q.Param>, code: SendResult, status: string, tag: string)
    requires tag != "returned" && tag != "status"
    ensures Q.GetString(WithStatus(ps, code, status), tag) == Q.GetString(ps, tag)
  {
    hide Q.Set;
    hide Q.GetString;
    hide Itoa;
    Q.GetStringAfterSet(ps, "returned", Itoa(code.Code()), tag);
    Q.GetStringAfterSet(Q.Set(ps, "returned", Itoa(code.Code())), "status", status, tag);
  }

  /** A rejection or a failed script leaves the counters alone. */
  lemma MarkedCounters(ps: seq<Q.Param>, commid: string, code: SendResult, status: string)
    ensures var after := WithStatus(Stamped(ps, commid), code, status);
            && Q.GetInt(after, "totdials") == Q.GetInt(ps, "totdials")
            && Q.GetInt(after, "tottries") == Q.GetInt(ps, "tottries")
  {
    hide Q.GetString;
    hide WithStatus;
    hide Stamped;
    hide Atoi;
    OtherTagsDiffer();
    CountersOfStamped(ps, commid);
    ReadsThroughWithStatus(Stamped(ps, commid), code, status, "totdials");
    ReadsThroughWithStatus(Stamped(ps, commid), code, status, "tottries");
    hide Q.GetInt;
    SameInt(Stamped(ps, commid), WithStatus(Stamped(ps, commid), code, status), "totdials");
    SameInt(Stamped(ps, commid), WithStatus(Stamped(ps, commid), code, status), "tottries");
  }

  lemma SameInt(ps: seq<Q.Param>, qs: seq<Q.Param>, tag: string)
    requires Q.GetString(ps, tag) == Q.GetString(qs, tag)
    ensures Q.GetInt(ps, tag) == Q.GetInt(qs, tag)
  {
  }

  /** An attempt that stops at its first rewrite has set totdials, and tottries is as it was. */
  lemma StoppedCounters(ps: seq<Q.Param>, commid: string)
    ensures var after := Dialing(Stamped(ps, commid));
            && Q.GetInt(after, "totdials") == Parsed(WrapInt(Q.GetInt(ps, "totdials").value + 1), true)
            && Q.GetInt(after, "tottries") == Q.GetInt(ps, "tottries")
  {
    hide Q.GetString;
    hide Dialing;
    hide Stamped;
    hide Itoa;
    hide WrapInt;
    hide Atoi;
    StartReads(ps, commid);
    PrintedInt(WrapInt(Q.GetInt(ps, "totdials").value + 1));
  }

  /** The negotiations that an attempt counts. */
  function TriesOf(ps: seq<Q.Param>, world: World): nat {
    if GoesThrough(ps, world) then Negotiated(world.arrivals) else 0
  }

  lemma UnpreparedAttempt(ps: seq<Q.Param>, world: World)
    requires !Prepared(ps, world)
    ensures Attempt(ps, world).params == ps
  {
    hide Prepared;
  }

  lemma MarkedAttempt(ps: seq<Q.Param>, world: World)
    requires Prepared(ps, world) && (world.script.ScriptFails? || world.script.Rejects?)
    ensures Q.GetInt(Attempt(ps, world).params, "totdials") == Q.GetInt(ps, "totdials")
    ensures Q.GetInt(Attempt(ps, world).params, "tottries") == Q.GetInt(ps, "tottries")
  {
    hide Q.GetInt;
    hide WithStatus;
    hide Stamped;
    hide JobId;
    hide Q.GetAll;
    if world.script.ScriptFails? {
      MarkedCounters(ps, world.commid.value, SendRetry, ScriptError(world.script.text));
    } else {
      MarkedCounters(ps, world.commid.value, SendFailed, "Transmission rejected by DynamicConfig");
    }
  }

  lemma StoppedAttempt(ps: seq<Q.Param>, world: World)
    requires Dials(ps, world) && !GoesThrough(ps, world)
    ensures Attempt(ps, world).params == Dialing(Stamped(ps, world.commid.value))
  {
    hide JobId;
    hide Q.GetAll;
    hide Dialing;
    hide Stamped;
  }

  /** The counters of the parameters that an attempt ends with, on every path. */
  lemma CountersOfAttempt(ps: seq<Q.Param>, world: World)
    requires GoesThrough(ps, world) ==> Complete(world.arrivals)
    ensures Q.GetInt(Attempt(ps, world).params, "totdials").value
            == WrapInt(Q.GetInt(ps, "totdials").value + if Dials(ps, world) then 1 else 0)
    ensures Q.GetInt(Attempt(ps, world).params, "tottries").value
            == WrapInt(Q.GetInt(ps, "tottries").value + TriesOf(ps, world))
  {
    hide Q.GetInt;
    hide Complete;
    hide Prepared;
    hide Attempt;
    hide Stamped;
    hide Dialing;
    hide WrapInt;
    hide Negotiated;
    IntsAreInts(ps);
    if !Prepared(ps, world) {
      UnpreparedAttempt(ps, world);
    } else if !Dials(ps, world) {
      MarkedAttempt(ps, world);
    } else if GoesThrough(ps, world) {
      RecordAgreesWithRun(ps, world);
    } else {
      PreparedHasCommid(ps, world);
      StoppedAttempt(ps, world);
      StoppedCounters(ps, world.commid.value);
    }
  }

  lemma IntsAreInts(ps: seq<Q.Param>)
    ensures IsInt(Q.GetInt(ps, "totdials").value) && IsInt(Q.GetInt(ps, "tottries").value)
  {
    hide Q.GetString;
    hide Atoi;
  }
}
