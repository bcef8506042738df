/** The whole history of one job: attempt after attempt on the same queue file, and the protocol
    runs behind them. */
module Retries {
  import opened Wrappers
  import opened Decimal
  import opened Receiver
  import opened Sending
  import opened History
  import opened Session
  import opened SessionSafety
  import Fax
  import Q = QueueFormat

  function ParamsOf(text: string): seq<Q.Param> {
    match Q.Parse(text, 1)
    case Ok(ps) => ps
    case Err(_) => []
  }

  predicate Readable(text: string) {
    Q.Parse(text, 1).Ok?
  }

  function Counter(text: string, tag: string): int {
    Q.GetInt(ParamsOf(text), tag).value
  }

  /** One try at the job: whether the file can be locked, and what the world answers. */
  datatype Try = Try(lock: bool, world: World)

  function After(text: string, t: Try): string {
    DiskAfter(text, t.lock, t.world)
  }

  /** The file after any number of tries, each on what the last one left. */
  function AfterAll(text: string, tries: seq<Try>): string {
    if tries == [] then text else After(AfterAll(text, tries[..|tries| - 1]), tries[|tries| - 1])
  }

  // ---- One try ----

  /** A try that does no harm to the file: it does not get as far as writing, or its texts are clean, its
      last rewrite lands and its script has not failed. What becomes of the rewrites before is open. */
  ghost predicate Harmless(ps: seq<Q.Param>, world: World) {
    || !Prepared(ps, world)
    || world.disk(0).NeverStarts()
    || (CleanTexts(ps, world) && LastWriteLands(ps, world) && !world.script.ScriptFails?
        && (GoesThrough(ps, world) ==> Complete(world.arrivals)))
  }

  ghost predicate HarmlessTry(text: string, t: Try) {
    t.lock ==> Harmless(ParamsOf(text), t.world)
  }

  /** The parameters that a harmless try leaves in the file. */
  function ParamsAfter(ps: seq<Q.Param>, t: Try): seq<Q.Param> {
    if t.lock && Prepared(ps, t.world) && !t.world.disk(0).NeverStarts() then Attempt(ps, t.world).params else ps
  }

  /** The dials and the negotiations that a try adds to the counters in the file. */
  function DialsOf(ps: seq<Q.Param>, t: Try): nat {
    if t.lock && RecordsDial(ps, t.world) then 1 else 0
  }

  function NegotiationsOf(ps: seq<Q.Param>, t: Try): nat {
    if t.lock then TriesOf(ps, t.world) else 0
  }

  /** A harmless try leaves a file that can be read, with its parameters as the attempt left them. */
  lemma StaysReadable(text: string, t: Try)
    requires Readable(text) && HarmlessTry(text, t)
    ensures Q.Parse(After(text, t), 1) == Ok(ParamsAfter(ParamsOf(text), t))
  {
    hide Q.Parse;
    hide Q.Clean;
    hide Attempt;
    hide FileAfter;
    hide Prepared;
    hide GoesThrough;
    hide CleanTexts;
    hide LastWriteLands;
    var ps := ParamsOf(text);
    Q.ParseIsClean(text, 1);
    if t.lock && Prepared(ps, t.world) {
      if t.world.disk(0).NeverStarts() {
        UnstartedWriteKeepsFile(ps, t.world, text);
      } else {
        ReadableUnlessScriptFails(ps, t.world, text);
      }
    } else {
      UnpreparedKeepsFile(text, t);
    }
  }

  lemma UnpreparedKeepsFile(text: string, t: Try)
    requires t.lock ==> !Prepared(ParamsOf(text), t.world)
    ensures After(text, t) == text
  {
    hide Prepared;
    hide Q.Parse;
  }

  /** What a try adds to the counters, by how far it gets. */
  lemma CountersAfterTry(ps: seq<Q.Param>, t: Try)
    requires t.lock ==> Harmless(ps, t.world)
    ensures Q.GetInt(ParamsAfter(ps, t), "totdials").value
            == WrapInt(Q.GetInt(ps, "totdials").value + DialsOf(ps, t))
    ensures Q.GetInt(ParamsAfter(ps, t), "tottries").value
            == WrapInt(Q.GetInt(ps, "tottries").value + NegotiationsOf(ps, t))
  {
    hide Q.GetInt;
    hide Attempt;
    hide Prepared;
    hide GoesThrough;
    hide Dials;
    hide Complete;
    hide CleanTexts;
    hide WrapInt;
    hide RecordsDial;
    hide LastWriteLands;
    hide Negotiated;
    IntsAreInts(ps);
    HowFar(ps, t.world);
    if t.lock && Prepared(ps, t.world) && !t.world.disk(0).NeverStarts() {
      CountersOfAttempt(ps, t.world);
    }
  }

  /** How far an attempt gets: a dial is recorded by those that dial and whose deciding write lands. */
  lemma HowFar(ps: seq<Q.Param>, world: World)
    ensures RecordsDial(ps, world) ==> Dials(ps, world) && !world.disk(0).NeverStarts()
    ensures Dials(ps, world) ==> Prepared(ps, world)
    ensures GoesThrough(ps, world) ==> RecordsDial(ps, world)
    ensures Dials(ps, world) && LastWriteLands(ps, world) ==> RecordsDial(ps, world)
  {
    hide Prepared;
    hide Q.Set;
    hide Itoa;
    hide WrapInt;
    hide LastJob;
    if Dials(ps, world) {
      PreparedHasCommid(ps, world);
      HasParams(ps, world);
      if !GoesThrough(ps, world) {
        StoppedAttempt(ps, world);
      }
    }
  }

  /** A try raises totdials by exactly one iff its dial gets into the file and totdials is not the largest
      int there is; other tries leave it as it is. */
  lemma DialsRiseByOne(text: string, t: Try)
    requires Readable(text) && HarmlessTry(text, t)
    ensures Counter(After(text, t), "totdials") == Counter(text, "totdials") + 1
            <==> t.lock && RecordsDial(ParamsOf(text), t.world) && Counter(text, "totdials") != MAX_INT
    ensures !(t.lock && RecordsDial(ParamsOf(text), t.world)) ==>
              Counter(After(text, t), "totdials") == Counter(text, "totdials")
  {
    hide Q.Parse;
    hide After;
    hide ParamsAfter;
    hide RecordsDial;
    hide Harmless;
    hide Q.GetInt;
    StaysReadable(text, t);
    CountersAfterTry(ParamsOf(text), t);
    CounterIsInt(text, "totdials");
  }

  lemma CounterIsInt(text: string, tag: string)
    ensures IsInt(Counter(text, tag))
  {
    hide ParamsOf;
    hide Q.GetString;
    hide Atoi;
  }

  /** The job id, the fax files and the modem wishes are not the attempt's business: a job that can be
      sent stays one. */
  lemma IdentityIsKept(ps: seq<Q.Param>, world: World)
    ensures JobId(Attempt(ps, world).params) == JobId(ps)
    ensures Q.GetAll(Attempt(ps, world).params, "fax") == Q.GetAll(ps, "fax")
    ensures Q.GetString(Attempt(ps, world).params, "desiredec") == Q.GetString(ps, "desiredec")
    ensures Q.GetString(Attempt(ps, world).params, "desiredbr") == Q.GetString(ps, "desiredbr")
  {
    hide Attempt;
    hide Q.GetAll;
    hide Q.GetString;
    hide Q.Tags;
    NotOurs();
    hide IsOurs;
    var after := Attempt(ps, world).params;
    AttemptKeepsTheRest(ps, world);
    SameString(ps, after, "jobid");
    SameString(ps, after, "desiredec");
    SameString(ps, after, "desiredbr");
  }

  lemma SameString(ps: seq<Q.Param>, qs: seq<Q.Param>, tag: string)
    requires Q.GetAll(ps, tag) == Q.GetAll(qs, tag)
    ensures Q.GetString(ps, tag) == Q.GetString(qs, tag)
  {
    hide Q.GetAll;
    hide Q.GetString;
    Q.GetStringIsFirst(ps, tag);
    Q.GetStringIsFirst(qs, tag);
  }

  lemma NotOurs()
    ensures !IsOurs("jobid") && !IsOurs("fax") && !IsOurs("desiredec") && !IsOurs("desiredbr")
  {
    assert |"jobid"| == 5 && |"fax"| == 3 && |"desiredec"| == |"desiredbr"| == 9;
    assert |"commid"| == |"status"| == |"npages"| == |"ndials"| == 6 && |"csi"| == 3;
    assert |"totdials"| == |"tottries"| == |"returned"| == 8 && |"signalrate"| == |"dataformat"| == 10;
    assert "fax"[0] != "csi"[0];
  }

  // ---- Any number of tries ----

  /** Each try is harmless on the file that it finds. */
  ghost predicate HarmlessAll(text: string, tries: seq<Try>) {
    tries == [] ||
    (HarmlessAll(text, tries[..|tries| - 1]) && HarmlessTry(AfterAll(text, tries[..|tries| - 1]), tries[|tries| - 1]))
  }

  /** The dials that get into the file. */
  function DialsIn(text: string, tries: seq<Try>): nat {
    if tries == [] then 0
    else
      var before := tries[..|tries| - 1];
      DialsIn(text, before) + DialsOf(ParamsOf(AfterAll(text, before)), tries[|tries| - 1])
  }

  /** The negotiations that the status loops count. */
  function NegotiationsIn(text: string, tries: seq<Try>): nat {
    if tries == [] then 0
    else
      var before := tries[..|tries| - 1];
      NegotiationsIn(text, before) + NegotiationsOf(ParamsOf(AfterAll(text, before)), tries[|tries| - 1])
  }

  lemma WrapIntAdd(n: int, k: int)
    ensures WrapInt(WrapInt(n) + k) == WrapInt(n + k)
  {
    assert (n - MIN_INT) % TWO_64 + MIN_INT + k - MIN_INT == (n - MIN_INT) % TWO_64 + k;
    assert ((n - MIN_INT) % TWO_64 + k) % TWO_64 == (n - MIN_INT + k) % TWO_64;
  }

  lemma HistoryStep(before: string, t: Try, dials: int, tries: int)
    requires Readable(before) && HarmlessTry(before, t)
    requires Counter(before, "totdials") == WrapInt(dials) && Counter(before, "tottries") == WrapInt(tries)
    ensures Readable(After(before, t))
    ensures Counter(After(before, t), "totdials") == WrapInt(dials + DialsOf(ParamsOf(before), t))
    ensures Counter(After(before, t), "tottries") == WrapInt(tries + NegotiationsOf(ParamsOf(before), t))
  {
    hide Q.Parse;
    hide After;
    hide ParamsAfter;
    hide Harmless;
    hide DialsOf;
    hide NegotiationsOf;
    hide Q.GetInt;
    hide WrapInt;
    StaysReadable(before, t);
    CountersAfterTry(ParamsOf(before), t);
    WrapIntAdd(dials, DialsOf(ParamsOf(before), t));
    WrapIntAdd(tries, NegotiationsOf(ParamsOf(before), t));
  }

  /** Over any number of tries on one file, totdials counts the dials that got into the file and tottries
      the negotiations of all status loops, in Go's integers; the file is readable after each try. */
  lemma {:induction false} HistoryCounts(text: string, tries: seq<Try>)
    requires Readable(text) && HarmlessAll(text, tries)
    ensures Readable(AfterAll(text, tries))
    ensures Counter(AfterAll(text, tries), "totdials") == WrapInt(Counter(text, "totdials") + DialsIn(text, tries))
    ensures Counter(AfterAll(text, tries), "tottries")
            == WrapInt(Counter(text, "tottries") + NegotiationsIn(text, tries))
  {
    hide Readable;
    hide HarmlessTry;
    hide After;
    hide Counter;
    hide DialsOf;
    hide NegotiationsOf;
    hide WrapInt;
    hide ParamsOf;
    if tries == [] {
      CounterIsInt(text, "totdials");
      CounterIsInt(text, "tottries");
    } else {
      var before := tries[..|tries| - 1];
      HistoryCounts(text, before);
      HistoryStep(AfterAll(text, before), tries[|tries| - 1],
                  Counter(text, "totdials") + DialsIn(text, before),
                  Counter(text, "tottries") + NegotiationsIn(text, before));
    }
  }

  lemma {:induction false} CountsGrow(text: string, tries: seq<Try>, i: nat)
    requires i <= |tries|
    ensures DialsIn(text, tries[..i]) <= DialsIn(text, tries)
    ensures NegotiationsIn(text, tries[..i]) <= NegotiationsIn(text, tries)
    ensures HarmlessAll(text, tries) ==> HarmlessAll(text, tries[..i])
    decreases |tries|
  {
    hide AfterAll;
    hide HarmlessTry;
    hide DialsOf;
    hide NegotiationsOf;
    hide ParamsOf;
    var n := |tries| - 1;
    if i <= n {
      assert tries[..n][..i] == tries[..i];
      CountsGrow(text, tries[..n], i);
    } else {
      assert tries[..i] == tries;
    }
  }

  /** Below the end of Go's integers tottries never falls from one try to a later one. */
  lemma TriesNeverFall(text: string, tries: seq<Try>, i: nat)
    requires Readable(text) && HarmlessAll(text, tries) && i <= |tries|
    requires Counter(text, "tottries") + NegotiationsIn(text, tries) <= MAX_INT
    ensures Counter(AfterAll(text, tries[..i]), "tottries") <= Counter(AfterAll(text, tries), "tottries")
  {
    hide Readable;
    hide HarmlessAll;
    hide Counter;
    hide AfterAll;
    hide DialsIn;
    hide NegotiationsIn;
    CountsGrow(text, tries, i);
    HistoryCounts(text, tries[..i]);
    HistoryCounts(text, tries);
    CounterIsInt(text, "tottries");
  }

  /** Nor does totdials, which has risen by one for each dial that got into the file. */
  lemma DialsNeverFall(text: string, tries: seq<Try>, i: nat)
    requires Readable(text) && HarmlessAll(text, tries) && i <= |tries|
    requires Counter(text, "totdials") + DialsIn(text, tries) <= MAX_INT
    ensures Counter(AfterAll(text, tries[..i]), "totdials") == Counter(text, "totdials") + DialsIn(text, tries[..i])
    ensures Counter(AfterAll(text, tries[..i]), "totdials") <= Counter(AfterAll(text, tries), "totdials")
  {
    hide Readable;
    hide HarmlessAll;
    hide Counter;
    hide AfterAll;
    hide DialsIn;
    hide NegotiationsIn;
    CountsGrow(text, tries, i);
    HistoryCounts(text, tries[..i]);
    HistoryCounts(text, tries);
    CounterIsInt(text, "totdials");
  }

  /** What identifies the job survives all tries. */
  ghost predicate SameJob(ps: seq<Q.Param>, qs: seq<Q.Param>) {
    && JobId(qs) == JobId(ps) && Q.GetAll(qs, "fax") == Q.GetAll(ps, "fax")
    && Q.GetString(qs, "desiredec") == Q.GetString(ps, "desiredec")
    && Q.GetString(qs, "desiredbr") == Q.GetString(ps, "desiredbr")
  }

  lemma SameJobAfterTry(text: string, t: Try)
    requires Readable(text) && HarmlessTry(text, t)
    ensures Readable(After(text, t)) && SameJob(ParamsOf(text), ParamsOf(After(text, t)))
  {
    hide Q.Parse;
    hide After;
    hide Harmless;
    hide Attempt;
    hide Prepared;
    hide JobId;
    hide Q.GetAll;
    hide Q.GetString;
    StaysReadable(text, t);
    IdentityIsKept(ParamsOf(text), t.world);
  }

  lemma {:induction false} JobIsKept(text: string, tries: seq<Try>)
    requires Readable(text) && HarmlessAll(text, tries)
    ensures Readable(AfterAll(text, tries)) && SameJob(ParamsOf(text), ParamsOf(AfterAll(text, tries)))
  {
    hide Readable;
    hide HarmlessTry;
    hide After;
    hide ParamsOf;
    hide JobId;
    hide Q.GetAll;
    hide Q.GetString;
    if tries != [] {
      var n := |tries| - 1;
      JobIsKept(text, tries[..n]);
      SameJobAfterTry(AfterAll(text, tries[..n]), tries[n]);
    }
  }

  /** Degradation is for good: with the configuration unchanged, a try that disables V.17 or ECM is
      followed only by tries that disable it too. */
  lemma DegradationSticks(text: string, tries: seq<Try>, i: nat, settings: Settings)
    requires Readable(text) && HarmlessAll(text, tries) && i <= |tries|
    requires Counter(text, "tottries") + NegotiationsIn(text, tries) <= MAX_INT
    ensures var earlier := FlagsOf(ParamsOf(AfterAll(text, tries[..i])), settings);
            var later := FlagsOf(ParamsOf(AfterAll(text, tries)), settings);
            (earlier.disableV17 ==> later.disableV17) && (!earlier.useECM ==> !later.useECM)
  {
    hide Readable;
    hide HarmlessAll;
    hide ParamsOf;
    hide AfterAll;
    hide DialsIn;
    hide NegotiationsIn;
    hide JobId;
    hide Q.GetAll;
    hide Q.GetString;
    hide Atoi;
    TriesNeverFall(text, tries, i);
    CountsGrow(text, tries, i);
    JobIsKept(text, tries);
    JobIsKept(text, tries[..i]);
  }

  // ---- The protocol behind an attempt ----

  /** What the receiver has taken in is one complete loop once it has left, and an open one before. */
  ghost predicate LoopShape(s: State) {
    if s.receiver.Left? then Complete(s.arrivals) else forall i | 0 <= i < |s.arrivals| :: !Ends(s.arrivals[i])
  }

  lemma LoopShapeStep(cfg: Config, s: State, a: Action)
    requires LoopShape(s) && Enabled(s, a)
    ensures LoopShape(Next(cfg, s, a))
  {
    hide Fax.Extended;
    hide Receive;
    hide WantsFallback;
    hide AfterFold;
    hide Ends;
    if a.HandOver? && s.sender.SendingPage? {
      PageGoesOn(s.sender.page);
    } else if a.HandOver? && s.sender.SendingError? {
      ErrorEnds(s.sender.err);
    }
  }

  lemma PageGoesOn(page: Fax.PageResult)
    ensures !Ends(PageArrived(page))
  {
  }

  lemma ErrorEnds(err: FaxError)
    ensures Ends(ErrorArrived(err))
  {
  }

  lemma {:induction false} RunHasLoopShape(cfg: Config, s: State, actions: seq<Action>, t: State)
    requires LoopShape(s) && Run(cfg, s, actions, t)
    ensures LoopShape(t)
    decreases |actions|
  {
    hide Next;
    hide Enabled;
    hide LoopShape;
    if actions != [] {
      LoopShapeStep(cfg, s, actions[0]);
      RunHasLoopShape(cfg, Next(cfg, s, actions[0]), actions[1..], t);
    }
  }

  /** A whole attempt with a real protocol run in its loop. If the session starts with the loop variables
      of the attempt and the attempt receives what that session delivers, then the attempt returns the
      session's code, the queue file records it, and it records SendDone only for a fax that succeeded. */
  lemma AttemptOverSession(ps: seq<Q.Param>, world: World, cfg: Config, s0: State, actions: seq<Action>, s: State)
    requires GoesThrough(ps, world) && s0.job == Start(Stamped(ps, world.commid.value))
    requires Reaches(cfg, s0, actions, s) && s.receiver.Left? && world.arrivals == s.arrivals
    ensures Complete(world.arrivals)
    ensures var out := Attempt(ps, world);
            && out.returned == s.job.returned
            && Q.GetInt(out.params, "returned") == Parsed(s.job.returned.Code(), true)
            && (s.receiver.exit.ByResult? ==> Q.GetString(out.params, "status") == s.result.resultText)
            && (s.receiver.exit.ByError? ==>
                  var last := s.arrivals[|s.arrivals| - 1];
                  last.ErrorArrived? && Q.GetString(out.params, "status") == last.err.msg)
            && (Q.GetInt(out.params, "returned").value == SendDone.Code() ==>
                  s.result.success && s.result.hangupCause != "")
  {
    hide Run;
    hide Sound;
    hide Q.GetInt;
    hide Start;
    hide Stamped;
    hide Finish;
    hide ReceiveAll;
    hide Complete;
    hide WrapInt;
    hide Dialing;
    ReachedIsSound(cfg, s0, actions, s);
    ReturnCodeIsRight(cfg, s0, actions, s);
    InitialLoopShape(s0);
    RunHasLoopShape(cfg, s0, actions, s);
    SessionJob(cfg, s0, s);
    RecordAgreesWithRun(ps, world);
    StatusAtEnd(s.job);
    hide Q.GetString;
  }

  lemma InitialLoopShape(s: State)
    requires Initial(s)
    ensures LoopShape(s)
  {
  }

  lemma StatusAtEnd(j: Job)
    ensures Q.GetString(Finish(j), "status") == j.status
  {
    hide Q.GetString;
    hide Finish;
    OtherTagsDiffer();
    ReadsThroughFinish(j, "status");
  }

  lemma SessionJob(cfg: Config, s0: State, s: State)
    requires Sound(cfg, s0, s)
    ensures s.job == ReceiveAll(s0.job, s.arrivals)
  {
  }
}
