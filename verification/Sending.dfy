/** One attempt at sending a queued job: the queue file before, during and after the status loop. */
module Sending {
  import opened Wrappers
  import opened Decimal
  import opened Receiver
  import opened DiskQueue
  import opened SpoolFile
  import Q = QueueFormat

  /** How the DynamicConfig script turns out; the replaced job settings do not matter here. */
  datatype Script = NoScript | ScriptFails(text: string) | Rejects | Answers

  /** The retry thresholds as configured, still in text. */
  datatype Settings = Settings(disableV17AfterRetry: string, disableECMAfterRetry: string)

  /** What the world answers during one attempt: whether the fax files can be merged, the comm id,
      the script, what arrives in the status loop, and how the n-th rewrite of the file goes. */
  datatype World = World(
    filesMerge: bool,
    commid: Option<string>,
    script: Script,
    arrivals: seq<Arrival>,
    disk: nat -> Disk)

  datatype Flags = Flags(useECM: bool, disableV17: bool)

  /** The arrivals of one status loop: the last one ends it, no other does. */
  ghost predicate Complete(arrivals: seq<Arrival>) {
    && arrivals != [] && Ends(arrivals[|arrivals| - 1])
    && forall i | 0 <= i < |arrivals| - 1 :: !Ends(arrivals[i])
  }

  // ---- The attempt on values ----

  function JobId(ps: seq<Q.Param>): nat {
    var s := Q.GetString(ps, "jobid");
    if s != "" && Atoi(s).ok then Uint(Atoi(s).value) else 0
  }

  function Threshold(setting: string): int {
    if Atoi(setting).ok then Atoi(setting).value else 0
  }

  /** Whether so many answered calls reach a configured threshold. */
  predicate Reached(setting: string, tottries: int) {
    Threshold(setting) > 0 && tottries >= Threshold(setting)
  }

  function FlagsOf(ps: seq<Q.Param>, settings: Settings): Flags {
    var ec, br, tottries := Q.GetInt(ps, "desiredec"), Q.GetInt(ps, "desiredbr"), Q.GetInt(ps, "tottries").value;
    Flags((ec.ok ==> ec.value != 0) && !Reached(settings.disableECMAfterRetry, tottries),
          (br.ok && br.value < 5) || Reached(settings.disableV17AfterRetry, tottries))
  }

  /** The parameters at the first write. */
  function Dialing(ps: seq<Q.Param>): seq<Q.Param> {
    Q.Set(Q.Set(ps, "status", "Dialing"), "totdials", Itoa(WrapInt(Q.GetInt(ps, "totdials").value + 1)))
  }

  /** The variables when the status loop starts. */
  function Start(ps: seq<Q.Param>): Job {
    Job(Dialing(ps), SendRetry, "", Q.GetInt(ps, "tottries").value, Q.GetInt(ps, "ndials").value)
  }

  /** The parameters at the last write. */
  function Finish(j: Job): seq<Q.Param> {
    Q.Set(Q.Set(j.params, "status", j.status), "returned", Itoa(j.returned.Code()))
  }

  function WithStatus(ps: seq<Q.Param>, code: SendResult, status: string): seq<Q.Param> {
    Q.Set(Q.Set(ps, "returned", Itoa(code.Code())), "status", status)
  }

  function ScriptError(text: string): string {
    "Error calling DynamicConfig: " + text + "\n"
  }

  /** The parameters once the comm id is set. */
  function Stamped(ps: seq<Q.Param>, commid: string): seq<Q.Param> {
    Q.Set(ps, "commid", commid)
  }

  /** The attempt gets as far as setting the comm id. */
  predicate Prepared(ps: seq<Q.Param>, world: World) {
    JobId(ps) != 0 && Q.GetAll(ps, "fax") != [] && world.filesMerge && world.commid.Some?
  }

  /** The attempt gets as far as the first write before dialing. */
  predicate Dials(ps: seq<Q.Param>, world: World) {
    Prepared(ps, world) && (world.script.NoScript? || world.script.Answers?)
  }

  /** The attempt dials and its first write succeeds. */
  predicate GoesThrough(ps: seq<Q.Param>, world: World) {
    Dials(ps, world) && world.disk(0).Serves(|Dialing(Stamped(ps, world.commid.value))|)
  }

  /** The loop variables at the end of an attempt that dials. */
  function LastJob(ps: seq<Q.Param>, world: World): Job
    requires Prepared(ps, world)
  {
    ReceiveAll(Start(Stamped(ps, world.commid.value)), world.arrivals)
  }

  /** What an attempt makes of the parameters and which code it returns. */
  datatype Outcome = Outcome(params: seq<Q.Param>, returned: SendResult, failed: bool)

  function Attempt(ps: seq<Q.Param>, world: World): Outcome {
    if !Prepared(ps, world) then Outcome(ps, SendFailed, true)
    else
      var stamped := Stamped(ps, world.commid.value);
      match world.script
      case ScriptFails(text) => Outcome(WithStatus(stamped, SendRetry, ScriptError(text)), SendRetry, false)
      case Rejects =>
        Outcome(WithStatus(stamped, SendFailed, "Transmission rejected by DynamicConfig"), SendFailed, false)
      case _ =>
        if !world.disk(0).Serves(|Dialing(stamped)|) then Outcome(Dialing(stamped), SendFailed, false)
        else var j := LastJob(ps, world); Outcome(Finish(j), j.returned, false)
  }

  // ---- The file on values ----

  /** The file after n arrivals. Every arrival that does not end the loop rewrites it; a rewrite that
      fails is only logged. */
  function LoopFile(start: Job, world: World, n: nat, was: string): string
    requires n <= |world.arrivals|
  {
    if n == 0 then was
    else
      var before := LoopFile(start, world, n - 1, was);
      if Ends(world.arrivals[n - 1]) then before
      else Rewritten(ReceiveAll(start, world.arrivals[..n]).params, world.disk(n), before)
  }

  /** The file after an attempt on the parameters ps, if it held `was`, on every path. */
  function FileAfter(ps: seq<Q.Param>, world: World, was: string): string {
    if !Prepared(ps, world) then was
    else if !GoesThrough(ps, world) then Rewritten(Attempt(ps, world).params, world.disk(0), was)
    else
      var start := Start(Stamped(ps, world.commid.value));
      var n := |world.arrivals|;
      Rewritten(Attempt(ps, world).params, world.disk(n),
                LoopFile(start, world, n, Rewritten(start.params, world.disk(0), was)))
  }

  /** The last rewrite of an attempt gets all its lines into the file and cuts the rest off. */
  predicate LastWriteLands(ps: seq<Q.Param>, world: World) {
    Prepared(ps, world)
    && world.disk(if GoesThrough(ps, world) then |world.arrivals| else 0).Lands(|Attempt(ps, world).params|)
  }

  /** The last rewrite alone decides what the file holds, whatever became of the ones before it. */
  lemma LastWriteDecides(ps: seq<Q.Param>, world: World, was: string)
    requires LastWriteLands(ps, world)
    ensures FileAfter(ps, world, was) == Q.Print(Attempt(ps, world).params)
  {
    hide Attempt;
    hide LoopFile;
    hide GoesThrough;
    hide Prepared;
    hide Q.Print;
  }

  /** An attempt whose first rewrite never starts makes no call and leaves the file alone. */
  lemma UnstartedWriteKeepsFile(ps: seq<Q.Param>, world: World, was: string)
    requires Prepared(ps, world) && world.disk(0).NeverStarts()
    ensures !GoesThrough(ps, world) && FileAfter(ps, world, was) == was
  {
    hide Q.Print;
    hide Q.Set;
    hide Itoa;
    hide WrapInt;
    hide Prepared;
    var after := Attempt(ps, world).params;
    HasParams(ps, world);
    NothingWritten(after, world.disk(0), was);
  }

  lemma EditsHaveParams(ps: seq<Q.Param>, j: Job, code: SendResult, status: string)
    ensures Dialing(ps) != [] && Finish(j) != [] && WithStatus(ps, code, status) != []
  {
    hide Itoa;
    hide WrapInt;
    hide Q.GetInt;
  }

  lemma HasParams(ps: seq<Q.Param>, world: World)
    requires Prepared(ps, world)
    ensures Dialing(Stamped(ps, world.commid.value)) != [] && Attempt(ps, world).params != []
  {
    hide Q.GetAll;
    hide JobId;
    hide Dialing;
    hide Finish;
    hide WithStatus;
    hide Stamped;
    hide LastJob;
    var stamped := Stamped(ps, world.commid.value);
    match world.script
    case ScriptFails(text) => EditsHaveParams(stamped, LastJob(ps, world), SendRetry, ScriptError(text));
    case _ => EditsHaveParams(stamped, LastJob(ps, world), SendFailed, "Transmission rejected by DynamicConfig");
  }

  // ---- The attempt in place ----

  /** One round of the status loop, on the queue file object and the loop variables. */
  method TakeArrival(qf: Qfile, a: Arrival, j: Job, disk: Disk) returns (j': Job)
    requires qf.params == j.params
    modifies qf, qf.file
    ensures j' == Receive(j, a) && qf.params == j'.params
    ensures qf.file.content ==
            if Ends(a) then old(qf.file.content) else Rewritten(j'.params, disk, old(qf.file.content))
  {
    hide Q.Set;
    hide Itoa;
    hide WrapInt;
    hide Q.Print;
    j' := j;
    match a {
      case PageArrived(page) =>
        qf.Set("npages", Itoa(WrapInt(page.page)));
        qf.Set("dataformat", page.encodingName);
        var ok := qf.Write(disk);
      case ResultArrived(head, test, body) =>
        qf.Set("signalrate", Itoa(WrapInt(head.transferRate)));
        qf.Set("csi", head.remoteId);
        if test.hangupCause != "" {
          j' := j'.(status := body.resultText);
          if body.success {
            j' := j'.(returned := SendDone);
          }
        } else {
          var negstatus := "Sending " + Utoa(body.transferRate);
          if body.ecm {
            negstatus := negstatus + "/ECM";
          }
          assert negstatus == NegotiationStatus(body);
          j' := j'.(status := negstatus, tottries := WrapInt(j'.tottries + 1), ndials := 0);
          qf.Set("status", j'.status);
          qf.Set("tottries", Itoa(j'.tottries));
          qf.Set("ndials", Itoa(j'.ndials));
          var ok := qf.Write(disk);
        }
      case ErrorArrived(err) =>
        j' := j'.(ndials := WrapInt(j'.ndials + 1));
        qf.Set("ndials", Itoa(j'.ndials));
        j' := j'.(status := err.msg, returned := if err.retry then SendRetry else SendFailed);
    }
    j' := j'.(params := qf.params);
  }

  /** The loop from the first write to the arrival that ends it. */
  method StatusLoop(qf: Qfile, world: World, start: Job) returns (j: Job, writes: nat)
    requires qf.params == start.params && Complete(world.arrivals)
    modifies qf, qf.file
    ensures j == ReceiveAll(start, world.arrivals) && qf.params == j.params
    ensures writes == |world.arrivals|
    ensures qf.file.content == LoopFile(start, world, |world.arrivals|, old(qf.file.content))
  {
    hide Receive;
    hide Rewritten;
    hide Ends;
    j := start;
    writes := 1;
    var i := 0;
    while true
      invariant 0 <= i < |world.arrivals| && writes == i + 1
      invariant j == ReceiveAll(start, world.arrivals[..i]) && qf.params == j.params
      invariant qf.file.content == LoopFile(start, world, i, old(qf.file.content))
      decreases |world.arrivals| - i
    {
      var a := world.arrivals[i];
      assert world.arrivals[..i + 1] == world.arrivals[..i] + [a];
      ReceiveNext(start, world.arrivals[..i], a);
      j := TakeArrival(qf, a, j, world.disk(writes));
      if Ends(a) {
        assert i == |world.arrivals| - 1;
        assert world.arrivals[..i + 1] == world.arrivals;
        return;
      }
      i := i + 1;
      writes := writes + 1;
    }
  }

  /** SendQfile. `failed` stands for a non-nil error; `flags` are the modem settings the call is made with. */
  method SendQfile(qf: Qfile, settings: Settings, world: World)
    returns (returned: SendResult, failed: bool, flags: Option<Flags>)
    requires GoesThrough(qf.params, world) ==> Complete(world.arrivals)
    modifies qf, qf.file
    ensures Outcome(qf.params, returned, failed) == Attempt(old(qf.params), world)
    ensures qf.file.content == FileAfter(old(qf.params), world, old(qf.file.content))
    ensures flags.Some? ==> flags.value == FlagsOf(old(qf.params), settings)
    ensures flags.Some? <==> GoesThrough(old(qf.params), world)
  {
    hide Rewritten;
    hide LoopFile;
    hide Q.Set;
    hide Q.GetString;
    hide Q.GetAll;
    hide Q.Print;
    hide Itoa;
    hide Atoi;
    hide Uint;
    hide WrapInt;
    hide ReceiveAll;
    hide FlagsOf;
    ghost var before := qf.params;
    flags := None;
    var jobid := 0;
    var jobidstr := qf.GetString("jobid");
    if jobidstr != "" {
      var i := Atoi(jobidstr);
      if i.ok {
        jobid := Uint(i.value);
      }
    }
    if jobid == 0 {
      return SendFailed, true, None;
    }
    var flags0 := ConfiguredFlags(qf);
    var faxparts := qf.GetAll("fax");
    if faxparts == [] || !world.filesMerge {
      return SendFailed, true, None;
    }
    if world.commid.None? {
      return SendFailed, true, None;
    }
    qf.Set("commid", world.commid.value);
    match world.script {
      case ScriptFails(text) =>
        var errmsg := "Error calling DynamicConfig: " + text + "\n";
        qf.Set("returned", Itoa(SendRetry.Code()));
        qf.Set("status", errmsg);
        var ok := qf.Write(world.disk(0));
        return SendRetry, false, None;
      case Rejects =>
        var errmsg := "Transmission rejected by DynamicConfig";
        qf.Set("returned", Itoa(SendFailed.Code()));
        qf.Set("status", errmsg);
        var ok := qf.Write(world.disk(0));
        return SendFailed, false, None;
      case _ =>
    }
    returned, failed, flags := Dial(qf, settings, world, flags0, before);
  }

  /** The settings before the retry counters are looked at. */
  method ConfiguredFlags(qf: Qfile) returns (flags: Flags)
    ensures var ec, br := Q.GetInt(qf.params, "desiredec"), Q.GetInt(qf.params, "desiredbr");
            flags == Flags(ec.ok ==> ec.value != 0, br.ok && br.value < 5)
  {
    hide Q.GetInt;
    flags := Flags(true, false);
    var ecmMode := qf.GetInt("desiredec");
    if ecmMode.ok {
      flags := flags.(useECM := ecmMode.value != 0);
    }
    var brMode := qf.GetInt("desiredbr");
    if brMode.ok && brMode.value < 5 {
      flags := flags.(disableV17 := true);
    }
  }

  /** The second half of SendQfile, from the counters on; `before` is the list it started with. */
  method Dial(qf: Qfile, settings: Settings, world: World, flags0: Flags, ghost before: seq<Q.Param>)
    returns (returned: SendResult, failed: bool, flags: Option<Flags>)
    requires Dials(before, world) && (GoesThrough(before, world) ==> Complete(world.arrivals))
    requires qf.params == Stamped(before, world.commid.value)
    requires var ec, br := Q.GetInt(before, "desiredec"), Q.GetInt(before, "desiredbr");
             flags0 == Flags(ec.ok ==> ec.value != 0, br.ok && br.value < 5)
    modifies qf, qf.file
    ensures Outcome(qf.params, returned, failed) == Attempt(before, world)
    ensures flags.Some? ==> flags.value == FlagsOf(before, settings)
    ensures flags.Some? <==> GoesThrough(before, world)
    ensures qf.file.content == FileAfter(before, world, old(qf.file.content))
  {
    hide Rewritten;
    hide LoopFile;
    hide Q.Set;
    hide Q.GetInt;
    hide Q.Print;
    hide Itoa;
    hide Atoi;
    hide WrapInt;
    hide ReceiveAll;
    CountersOfStamped(before, world.commid.value);
    ghost var stamped := qf.params;
    var totdials := qf.GetInt("totdials");
    var ndials := qf.GetInt("ndials");
    var tottries := qf.GetInt("tottries");
    var f := flags0;
    if Reached(settings.disableV17AfterRetry, tottries.value) {
      f := f.(disableV17 := true);
    }
    if Reached(settings.disableECMAfterRetry, tottries.value) {
      f := f.(useECM := false);
    }
    qf.Set("status", "Dialing");
    qf.Set("totdials", Itoa(WrapInt(totdials.value + 1)));
    assert qf.params == Dialing(stamped);
    var ok := qf.Write(world.disk(0));
    if !ok {
      return SendFailed, false, None;
    }
    var start := Job(qf.params, SendRetry, "", tottries.value, ndials.value);
    var j, writes := StatusLoop(qf, world, start);
    qf.Set("status", j.status);
    qf.Set("returned", Itoa(j.returned.Code()));
    ok := qf.Write(world.disk(writes));
    return j.returned, false, Some(f);
  }

  /** Setting the comm id leaves the counters and the modem settings alone. */
  lemma CountersOfStamped(ps: seq<Q.Param>, commid: string)
    ensures var stamped := Stamped(ps, commid);
            && Q.GetInt(stamped, "totdials") == Q.GetInt(ps, "totdials")
            && Q.GetInt(stamped, "ndials") == Q.GetInt(ps, "ndials")
            && Q.GetInt(stamped, "tottries") == Q.GetInt(ps, "tottries")
  {
    hide Q.Set;
    hide Q.GetString;
    hide Atoi;
    assert |"totdials"| == |"tottries"| == 8 && |"commid"| == 6 && "commid"[0] != "ndials"[0];
    Q.GetStringAfterSet(ps, "commid", commid, "totdials");
    Q.GetStringAfterSet(ps, "commid", commid, "ndials");
    Q.GetStringAfterSet(ps, "commid", commid, "tottries");
  }

  /** The file after an attempt that starts from it: one that cannot be locked or read is left alone. */
  function DiskAfter(text: string, lock: bool, world: World): string {
    var r := Q.Parse(text, 1);
    if !lock || r.Err? then text else FileAfter(r.value, world, text)
  }

  /** SendQfileFromDisk: lock and read the file, then send; an unreadable file is a failure. */
  method SendQfileFromDisk(file: SpoolFile, lock: bool, settings: Settings, world: World)
    returns (returned: SendResult, failed: bool)
    requires var r := Q.Parse(file.content, 1);
             lock && r.Ok? && GoesThrough(r.value, world) ==> Complete(world.arrivals)
    modifies file
    ensures file.content == DiskAfter(old(file.content), lock, world)
    ensures var r := Q.Parse(old(file.content), 1);
            if !lock || r.Err? then returned == SendFailed && failed
            else returned == Attempt(r.value, world).returned && failed == Attempt(r.value, world).failed
  {
    hide Q.Parse;
    hide Attempt;
    hide FileAfter;
    var r := OpenQfile(file, lock);
    if r.Err? {
      return SendFailed, true;
    }
    var flags;
    returned, failed, flags := SendQfile(r.value, settings, world);
  }
}
