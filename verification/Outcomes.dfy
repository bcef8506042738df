/** What an attempt answers and what it writes down, on every path: which code, which record, and when a
    call is made at all. */
module Outcomes {
  import opened Wrappers
  import opened Text
  import opened Decimal
  import opened DiskQueue
  import opened Receiver
  import opened Sending
  import opened History
  import Fax
  import Q = QueueFormat

  // ---- When an attempt is refused ----

  predicate HasTag(ps: seq<Q.Param>, tag: string) {
    exists i | 0 <= i < |ps| :: ps[i].tag == tag
  }

  lemma {:induction false} GetAllFinds(ps: seq<Q.Param>, tag: string)
    ensures Q.GetAll(ps, tag) != [] <==> HasTag(ps, tag)
  {
    if ps != [] {
      GetAllFinds(ps[1..], tag);
      assert forall i | 0 < i < |ps| :: ps[i] == ps[1..][i - 1];
      assert forall i | 0 <= i < |ps[1..]| :: ps[1..][i] == ps[i + 1];
    }
  }

  lemma JobIdIsNumber(ps: seq<Q.Param>)
    ensures JobId(ps) != 0 <==> Q.GetInt(ps, "jobid").ok && Q.GetInt(ps, "jobid").value != 0
  {
    hide Q.GetString;
    hide Atoi;
    var r := Atoi(Q.GetString(ps, "jobid"));
    if r.ok {
      assert r.value < 0 ==> Uint(r.value) == r.value + TWO_64;
    }
  }

  /** An attempt is an error, which touches nothing, exactly when the job id is no number or zero, there is
      no fax file, the files cannot be merged, or there is no comm id. */
  lemma RefusedExactlyWhen(ps: seq<Q.Param>, world: World)
    ensures Attempt(ps, world).failed <==>
            || !Q.GetInt(ps, "jobid").ok || Q.GetInt(ps, "jobid").value == 0
            || !HasTag(ps, "fax") || !world.filesMerge || world.commid.None?
    ensures Attempt(ps, world).failed ==>
              Attempt(ps, world).params == ps && Attempt(ps, world).returned == SendFailed
  {
    hide JobId;
    hide Q.GetAll;
    hide HasTag;
    hide Q.GetInt;
    hide ReceiveAll;
    hide Q.Set;
    hide Itoa;
    JobIdIsNumber(ps);
    GetAllFinds(ps, "fax");
  }

  /** No call is made unless the dial is on the disk: with the parameters at that moment as the whole file. */
  lemma CallsOnlyOnceRecorded(ps: seq<Q.Param>, world: World, was: string)
    requires GoesThrough(ps, world)
    ensures world.script.NoScript? || world.script.Answers?
    ensures world.disk(0).seek && world.disk(0).truncate && world.disk(0).sync
    ensures var dialing := Start(Stamped(ps, world.commid.value)).params;
            && Rewritten(dialing, world.disk(0), was) == Q.Print(dialing)
            && Q.GetString(dialing, "status") == "Dialing"
            && Q.GetInt(dialing, "totdials") == Parsed(WrapInt(Q.GetInt(ps, "totdials").value + 1), true)
  {
    hide Prepared;
    hide Q.Print;
    hide Q.GetString;
    hide Q.GetInt;
    hide Dialing;
    hide Stamped;
    hide WrapInt;
    PreparedHasCommid(ps, world);
    StoppedCounters(ps, world.commid.value);
    OtherTagsDiffer();
    ReadsThroughDialing(Stamped(ps, world.commid.value), "status");
  }

  // ---- The code ----

  /** An arrival that does not end the loop leaves the code alone; one that ends it decides code and status. */
  lemma CodeAfter(j: Job, a: Arrival)
    ensures !Ends(a) ==> Receive(j, a).returned == j.returned
    ensures Ends(a) ==>
              && Receive(j, a).status == (if a.ErrorArrived? then a.err.msg else a.body.resultText)
              && Receive(j, a).returned ==
                 if a.ErrorArrived? then (if a.err.retry then SendRetry else SendFailed)
                 else if a.body.success then SendDone else j.returned
  {
    hide AfterPage;
    hide AfterHead;
    hide AfterNegotiation;
    hide NegotiationStatus;
    hide Itoa;
    hide Q.Set;
  }

  lemma {:induction false} CodeWhileOpen(j: Job, arrivals: seq<Arrival>)
    requires forall i | 0 <= i < |arrivals| :: !Ends(arrivals[i])
    ensures ReceiveAll(j, arrivals).returned == j.returned
  {
    hide Receive;
    hide Ends;
    if arrivals != [] {
      var n := |arrivals| - 1;
      CodeWhileOpen(j, arrivals[..n]);
      CodeAfter(ReceiveAll(j, arrivals[..n]), arrivals[n]);
    }
  }

  lemma LastArrivalDecides(j: Job, arrivals: seq<Arrival>)
    requires Complete(arrivals)
    ensures var k, last := ReceiveAll(j, arrivals), arrivals[|arrivals| - 1];
            && k.status == (if last.ErrorArrived? then last.err.msg else last.body.resultText)
            && k.returned ==
               if last.ErrorArrived? then (if last.err.retry then SendRetry else SendFailed)
               else if last.body.success then SendDone else j.returned
  {
    hide Receive;
    var n := |arrivals| - 1;
    CodeWhileOpen(j, arrivals[..n]);
    CodeAfter(ReceiveAll(j, arrivals[..n]), arrivals[n]);
  }

  /** The call was made and its last arrival is an error with or without a retry, or a result. */
  predicate EndsInError(arrivals: seq<Arrival>, retry: bool) {
    arrivals != [] && var a := arrivals[|arrivals| - 1]; a.ErrorArrived? && a.err.retry == retry
  }

  predicate EndsInSuccess(arrivals: seq<Arrival>) {
    arrivals != [] && var a := arrivals[|arrivals| - 1];
    a.ResultArrived? && a.test.hangupCause != "" && a.body.success
  }

  lemma CodeOfCall(ps: seq<Q.Param>, world: World)
    requires GoesThrough(ps, world) && Complete(world.arrivals)
    ensures Attempt(ps, world).params == Finish(LastJob(ps, world)) && !Attempt(ps, world).failed
    ensures Attempt(ps, world).returned == LastJob(ps, world).returned
    ensures Attempt(ps, world).returned ==
            if EndsInSuccess(world.arrivals) then SendDone
            else if EndsInError(world.arrivals, false) then SendFailed else SendRetry
  {
    hide Finish;
    hide Dialing;
    hide Stamped;
    hide ReceiveAll;
    hide JobId;
    hide Q.GetAll;
    LastArrivalDecides(Start(Stamped(ps, world.commid.value)), world.arrivals);
  }

  lemma CodeWithoutCall(ps: seq<Q.Param>, world: World)
    requires !GoesThrough(ps, world)
    ensures Attempt(ps, world).returned ==
            if Prepared(ps, world) && world.script.ScriptFails? then SendRetry else SendFailed
  {
    hide WithStatus;
    hide Dialing;
    hide Stamped;
    hide JobId;
    hide Q.GetAll;
    hide LastJob;
  }

  /** The code of any attempt: sent only by a call whose last arrival is a result of a hung-up call that
      reports success; failed if refused, rejected, stopped at the first rewrite or ended by an error that
      forbids a retry; to be tried again after a failed script and after any other call. */
  lemma CodeOfAttempt(ps: seq<Q.Param>, world: World)
    requires GoesThrough(ps, world) ==> Complete(world.arrivals)
    ensures Attempt(ps, world).returned == SendDone
            <==> GoesThrough(ps, world) && EndsInSuccess(world.arrivals)
    ensures Attempt(ps, world).returned == SendFailed
            <==> || Attempt(ps, world).failed || world.script.Rejects?
                 || (!world.script.ScriptFails? && !GoesThrough(ps, world))
                 || (GoesThrough(ps, world) && EndsInError(world.arrivals, false))
  {
    hide Complete;
    hide EndsInError;
    hide Prepared;
    hide Attempt;
    FailsUnprepared(ps, world);
    if GoesThrough(ps, world) {
      OneEnd(world.arrivals);
      CodeOfCall(ps, world);
    } else {
      CodeWithoutCall(ps, world);
    }
  }

  lemma OneEnd(arrivals: seq<Arrival>)
    ensures EndsInSuccess(arrivals) ==> !EndsInError(arrivals, false)
  {
  }

  lemma FailsUnprepared(ps: seq<Q.Param>, world: World)
    ensures Attempt(ps, world).failed <==> !Prepared(ps, world)
  {
    hide Prepared;
  }

  // ---- The record ----

  lemma CommidIsItsOwn()
    ensures "commid" != "npages" && "commid" != "dataformat" && "commid" != "signalrate" && "commid" != "csi"
    ensures "commid" != "status" && "commid" != "tottries" && "commid" != "ndials"
    ensures "commid" != "totdials" && "commid" != "returned"
  {
    assert |"commid"| == |"npages"| == |"status"| == |"ndials"| == 6 && |"csi"| == 3;
    assert |"dataformat"| == |"signalrate"| == 10 && |"tottries"| == |"totdials"| == |"returned"| == 8;
    assert "commid"[0] != "npages"[0] && "commid"[0] != "status"[0] && "commid"[0] != "ndials"[0];
  }

  lemma CommidAfter(j: Job, a: Arrival)
    ensures Q.GetString(Receive(j, a).params, "commid") == Q.GetString(j.params, "commid")
  {
    hide Q.GetString;
    hide Q.Set;
    hide AfterPage;
    hide AfterHead;
    hide AfterNegotiation;
    hide NegotiationStatus;
    hide WrapInt;
    hide Itoa;
    CommidIsItsOwn();
    match a
    case PageArrived(page) => PageReads(j.params, page, "commid");
    case ResultArrived(head, test, body) =>
      HeadReads(j.params, head, "commid");
      NegotiationReads(AfterHead(j.params, head), NegotiationStatus(body), WrapInt(j.tottries + 1), "commid");
    case ErrorArrived(err) =>
      Q.GetStringAfterSet(j.params, "ndials", Itoa(WrapInt(j.ndials + 1)), "commid");
  }

  lemma {:induction false} CommidAfterAll(j: Job, arrivals: seq<Arrival>)
    ensures Q.GetString(ReceiveAll(j, arrivals).params, "commid") == Q.GetString(j.params, "commid")
  {
    hide Q.GetString;
    hide Receive;
    if arrivals != [] {
      var n := |arrivals| - 1;
      CommidAfterAll(j, arrivals[..n]);
      CommidAfter(ReceiveAll(j, arrivals[..n]), arrivals[n]);
    }
  }

  /** The three tags that tell how an attempt ended, and which one it was. */
  datatype Note = Note(commid: string, status: string, returned: Parsed)

  function NoteOf(ps: seq<Q.Param>): Note {
    Note(Q.GetString(ps, "commid"), Q.GetString(ps, "status"), Q.GetInt(ps, "returned"))
  }

  lemma CodeReads(code: SendResult)
    ensures Q.IntOf(Itoa(code.Code())) ==
            Parsed(match code case SendRetry => 0 case SendFailed => 1 case SendDone => 2, true)
  {
    PrintedInt(code.Code());
  }

  lemma StampedReads(ps: seq<Q.Param>, commid: string, tag: string)
    ensures Q.GetString(Stamped(ps, commid), tag) == if tag == "commid" then commid else Q.GetString(ps, tag)
  {
    hide Q.GetString;
    Q.GetStringAfterSet(ps, "commid", commid, tag);
  }

  lemma NoteOfMarked(ps: seq<Q.Param>, commid: string, code: SendResult, status: string)
    ensures NoteOf(WithStatus(Stamped(ps, commid), code, status)) ==
            Note(commid, status, Q.IntOf(Itoa(code.Code())))
  {
    hide Q.GetString;
    hide Q.Set;
    hide Stamped;
    hide Itoa;
    hide Q.IntOf;
    CommidIsItsOwn();
    OtherTagsDiffer();
    StampedReads(ps, commid, "commid");
    var marked := Q.Set(Stamped(ps, commid), "returned", Itoa(code.Code()));
    Q.GetStringAfterSet(Stamped(ps, commid), "returned", Itoa(code.Code()), "commid");
    Q.GetStringAfterSet(Stamped(ps, commid), "returned", Itoa(code.Code()), "returned");
    Q.GetStringAfterSet(marked, "status", status, "commid");
    Q.GetStringAfterSet(marked, "status", status, "status");
    Q.GetStringAfterSet(marked, "status", status, "returned");
  }

  lemma NoteOfDialing(ps: seq<Q.Param>, commid: string)
    ensures NoteOf(Dialing(Stamped(ps, commid))) == Note(commid, "Dialing", Q.GetInt(ps, "returned"))
  {
    hide Q.GetString;
    hide Dialing;
    hide Stamped;
    hide Atoi;
    CommidIsItsOwn();
    OtherTagsDiffer();
    StampedReads(ps, commid, "commid");
    StampedReads(ps, commid, "returned");
    ReadsThroughDialing(Stamped(ps, commid), "commid");
    ReadsThroughDialing(Stamped(ps, commid), "status");
    ReadsThroughDialing(Stamped(ps, commid), "returned");
  }

  lemma NoteOfCall(ps: seq<Q.Param>, world: World)
    requires GoesThrough(ps, world)
    ensures var j := LastJob(ps, world);
            NoteOf(Finish(j)) == Note(world.commid.value, j.status, Q.IntOf(Itoa(j.returned.Code())))
  {
    hide Q.GetString;
    hide Finish;
    hide Dialing;
    hide Stamped;
    hide ReceiveAll;
    hide Prepared;
    hide Itoa;
    hide Q.IntOf;
    PreparedHasCommid(ps, world);
    var start := Start(Stamped(ps, world.commid.value));
    CommidIsItsOwn();
    OtherTagsDiffer();
    NoteOfDialing(ps, world.commid.value);
    CommidAfterAll(start, world.arrivals);
    var j := LastJob(ps, world);
    ReadsThroughFinish(j, "commid");
    ReadsThroughFinish(j, "status");
    ReadsThroughFinish(j, "returned");
  }

  lemma RecordWithoutCall(ps: seq<Q.Param>, world: World)
    requires Prepared(ps, world) && !Dials(ps, world)
    ensures NoteOf(Attempt(ps, world).params) ==
            match world.script
            case ScriptFails(text) =>
              Note(world.commid.value, "Error calling DynamicConfig: " + text + "\n", Parsed(0, true))
            case _ => Note(world.commid.value, "Transmission rejected by DynamicConfig", Parsed(1, true))
  {
    hide NoteOf;
    hide WithStatus;
    hide Stamped;
    hide JobId;
    hide Q.GetAll;
    hide Itoa;
    hide Q.IntOf;
    CodeReads(SendRetry);
    CodeReads(SendFailed);
    if world.script.ScriptFails? {
      NoteOfMarked(ps, world.commid.value, SendRetry, ScriptError(world.script.text));
    } else {
      NoteOfMarked(ps, world.commid.value, SendFailed, "Transmission rejected by DynamicConfig");
    }
  }

  /** What the parameters say at the end of an attempt that is not refused: the comm id it was given; after
      a failed script, a rejection and a call, the code it returns, as HylaFAX numbers it; and as status the
      script's error, the rejection, "Dialing" if its first rewrite failed, or how the call ended. */
  lemma RecordOfAttempt(ps: seq<Q.Param>, world: World)
    requires Prepared(ps, world) && (GoesThrough(ps, world) ==> Complete(world.arrivals))
    ensures var out, note := Attempt(ps, world), NoteOf(Attempt(ps, world).params);
            && note.commid == world.commid.value
            && (note.returned ==
                if Dials(ps, world) && !GoesThrough(ps, world) then Q.GetInt(ps, "returned")
                else Parsed(match out.returned case SendRetry => 0 case SendFailed => 1 case SendDone => 2, true))
            && note.status ==
               match world.script
               case ScriptFails(text) => "Error calling DynamicConfig: " + text + "\n"
               case Rejects => "Transmission rejected by DynamicConfig"
               case _ =>
                 if !GoesThrough(ps, world) then "Dialing"
                 else
                   var last := world.arrivals[|world.arrivals| - 1];
                   if last.ErrorArrived? then last.err.msg else last.body.resultText
  {
    hide NoteOf;
    hide Attempt;
    hide Prepared;
    hide Stamped;
    hide Dialing;
    hide ReceiveAll;
    hide Itoa;
    hide Q.IntOf;
    hide Q.GetInt;
    hide EndsInError;
    hide EndsInSuccess;
    PreparedHasCommid(ps, world);
    if !Dials(ps, world) {
      RecordWithoutCall(ps, world);
      CodeWithoutCall(ps, world);
    } else if GoesThrough(ps, world) {
      CodeOfCall(ps, world);
      CodeReads(LastJob(ps, world).returned);
      NoteOfCall(ps, world);
      LastArrivalDecides(Start(Stamped(ps, world.commid.value)), world.arrivals);
    } else {
      StoppedAttempt(ps, world);
      NoteOfDialing(ps, world.commid.value);
    }
  }

  // ---- The file while the call goes on ----

  /** While the call goes on the file says how far it is: after every arrival whose rewrite lands it holds
      exactly the parameters with all arrivals so far. */
  lemma FileFollowsCall(start: Job, world: World, n: nat, was: string)
    requires 0 < n <= |world.arrivals| && !Ends(world.arrivals[n - 1])
    requires world.disk(n).Lands(|ReceiveAll(start, world.arrivals[..n]).params|)
    ensures LoopFile(start, world, n, was) == Q.Print(ReceiveAll(start, world.arrivals[..n]).params)
  {
    hide ReceiveAll;
    hide Ends;
    hide Q.Print;
  }
}
