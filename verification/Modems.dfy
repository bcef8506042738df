/** The virtual modems of the fax daemon and the manager that hands them out. */
module Modems {
  import opened Wrappers
  import opened Decimal

  datatype DeviceState = Ready | Busy | Down | Locked

  /** A modem: its state, and the text of its HylaFAX status file. */
  class Device {
    const name: string
    var state: DeviceState
    var status: string

    constructor (name: string)
      ensures this.name == name && state == Ready
    {
      this.name := name;
      state, status := Ready, "Running and idle";
    }

    method GetState() returns (s: DeviceState)
      ensures s == state
    {
      s := state;
    }

    method SetReady()
      modifies this
      ensures state == Ready && status == "Running and idle"
    {
      state, status := Ready, "Running and idle";
    }

    method SetBusy(msg: string)
      modifies this
      ensures state == Busy && status == if msg == "" then "Busy" else msg
    {
      state, status := Busy, if msg == "" then "Busy" else msg;
    }

    method SetDown()
      modifies this
      ensures state == Down && status == "Down"
    {
      state, status := Down, "Down";
    }

    method SetLocked()
      modifies this
      ensures state == Locked && status == "Locked for sending"
    {
      state, status := Locked, "Locked for sending";
    }
  }

  /** The lowest index of a ready device, or the number of devices. */
  ghost predicate IsFirstReady(states: seq<DeviceState>, i: nat) {
    && i <= |states|
    && (forall j | 0 <= j < i :: states[j] != Ready)
    && (i < |states| ==> states[i] == Ready)
  }

  class Manager {
    const devices: seq<Device>

    /** No modem is in the pool twice. */
    ghost predicate Valid() {
      forall i, j | 0 <= i < j < |devices| :: devices[i] != devices[j]
    }

    ghost function States(): (s: seq<DeviceState>)
      reads devices
      ensures |s| == |devices|
    {
      seq(|devices|, i requires 0 <= i < |devices| reads devices => devices[i].state)
    }

    constructor (devices: seq<Device>)
      ensures this.devices == devices
    {
      this.devices := devices;
    }

    /** Takes the ready modem of the lowest index and nothing else; fails exactly when none is ready. */
    method FindDevice(msg: string) returns (found: Option<Device>)
      requires Valid()
      modifies devices
      ensures found.None? <==> Ready !in old(States())
      ensures found.None? ==> States() == old(States())
      ensures found.Some? ==>
                exists i | 0 <= i < |devices| :: IsFirstReady(old(States()), i) && found.value == devices[i]
                                                 && States() == old(States())[i := Busy]
    {
      for i := 0 to |devices|
        invariant States() == old(States())
        invariant forall j | 0 <= j < i :: States()[j] != Ready
      {
        var state := devices[i].GetState();
        if state == Ready {
          assert IsFirstReady(old(States()), i);
          devices[i].SetBusy(msg);
          assert States() == old(States())[i := Busy];
          return Some(devices[i]);
        }
      }
      return None;
    }

    method SetAllDown()
      requires Valid()
      modifies devices
      ensures forall i | 0 <= i < |devices| :: devices[i].state == Down
    {
      for i := 0 to |devices|
        invariant forall j | 0 <= j < i :: devices[j].state == Down
      {
        devices[i].SetDown();
      }
    }
  }

  /** newManager: `creatable` says which modems can be created. One failure takes all earlier modems
      down and yields no manager; `made` are the modems created so far. */
  method NewManager(prefix: string, count: nat, creatable: nat -> bool)
      returns (m: Option<Manager>, ghost made: seq<Device>)
    ensures m.Some? <==> forall i | 0 <= i < count :: creatable(i)
    ensures fresh(made) && forall i, j | 0 <= i < j < |made| :: made[i] != made[j]
    ensures forall i | 0 <= i < |made| :: creatable(i) && made[i].name == prefix + Utoa(i)
    ensures forall i | 0 <= i < |made| :: made[i].state == if m.Some? then Ready else Down
    ensures m.Some? ==> fresh(m.value) && m.value.Valid() && m.value.devices == made && |made| == count
    ensures m.None? ==> |made| < count && !creatable(|made|)
  {
    hide Utoa;
    var devices: seq<Device> := [];
    for i := 0 to count
      invariant |devices| == i
      invariant forall j | 0 <= j < i :: creatable(j)
      invariant forall j | 0 <= j < i :: fresh(devices[j])
      invariant forall j | 0 <= j < i :: devices[j].name == prefix + Utoa(j) && devices[j].state == Ready
      invariant forall j, k | 0 <= j < k < i :: devices[j] != devices[k]
    {
      if !creatable(i) {
        var partial := new Manager(devices);
        partial.SetAllDown();
        return None, devices;
      }
      var d := new Device(prefix + Utoa(i));
      devices := devices + [d];
    }
    var manager := new Manager(devices);
    return Some(manager), devices;
  }
}

/** The pool under concurrent call handlers: claiming atomically, or as the code does it. */
module Pool {
  import opened Modems

  /** Atomic tests and takes a modem in one step; Split reads its state in one step and sets it in
      another, as two rendezvous with the modem's goroutine do. */
  datatype Claiming = Atomic | Split

  datatype Handler = Looking(i: nat) | Saw(i: nat) | Holds(i: nat) | Refused | Finished

  datatype State = State(devices: seq<DeviceState>, handlers: map<nat, Handler>)

  datatype Action =
    | Arrive(h: nat)
    | Test(h: nat)
    | Take(h: nat)
    | Release(h: nat)
    | Message(i: nat, state: DeviceState) // a FIFO message or the shutdown sets a modem's state

  predicate Held(s: State, i: nat) {
    exists h | h in s.handlers :: s.handlers[h] == Holds(i)
  }

  predicate Enabled(s: State, a: Action) {
    match a
    case Arrive(h) => h !in s.handlers
    case Test(h) => h in s.handlers && s.handlers[h].Looking?
    case Take(h) => h in s.handlers && s.handlers[h].Saw? && s.handlers[h].i < |s.devices|
    case Release(h) => h in s.handlers && s.handlers[h].Holds? && s.handlers[h].i < |s.devices|
    case Message(i, _) => i < |s.devices|
  }

  function Next(c: Claiming, s: State, a: Action): State
    requires Enabled(s, a)
  {
    match a
    case Arrive(h) => s.(handlers := s.handlers[h := Looking(0)])
    case Test(h) =>
      var i := s.handlers[h].i;
      if i >= |s.devices| then s.(handlers := s.handlers[h := Refused])
      else if s.devices[i] != Ready then s.(handlers := s.handlers[h := Looking(i + 1)])
      else if c.Split? then s.(handlers := s.handlers[h := Saw(i)])
      else State(s.devices[i := Busy], s.handlers[h := Holds(i)])
    case Take(h) =>
      var i := s.handlers[h].i;
      State(s.devices[i := Busy], s.handlers[h := Holds(i)])
    case Release(h) =>
      var i := s.handlers[h].i;
      State(s.devices[i := Ready], s.handlers[h := Finished])
    case Message(i, state) => s.(devices := s.devices[i := state])
  }

  ghost predicate Run(c: Claiming, s: State, actions: seq<Action>, t: State)
    decreases |actions|
  {
    hide Next;
    if actions == [] then s == t
    else Enabled(s, actions[0]) && Run(c, Next(c, s, actions[0]), actions[1..], t)
  }

  // ---- What keeps modems apart ----

  /** Nobody tells a modem its state while a handler holds it. */
  ghost predicate Undisturbed(c: Claiming, s: State, actions: seq<Action>)
    decreases |actions|
  {
    hide Next;
    actions == [] ||
    (Enabled(s, actions[0])
     && (actions[0].Message? ==> !Held(s, actions[0].i))
     && Undisturbed(c, Next(c, s, actions[0]), actions[1..]))
  }

  /** The handler has a modem, or has found it ready and is about to take it. */
  predicate Claims(x: Handler) {
    x.Saw? || x.Holds?
  }

  /** Every modem is claimed by one handler at most, and a held one is busy. */
  ghost predicate Distinct(s: State) {
    && (forall h, g | h in s.handlers && g in s.handlers && Claims(s.handlers[h]) && Claims(s.handlers[g]) && h != g ::
          s.handlers[h].i != s.handlers[g].i)
    && (forall h | h in s.handlers && Claims(s.handlers[h]) :: s.handlers[h].i < |s.devices|)
    && (forall h | h in s.handlers && s.handlers[h].Holds? :: s.devices[s.handlers[h].i] == Busy)
  }

  /** Distinct, and nobody is between finding a modem ready and taking it. */
  ghost predicate Exclusive(s: State) {
    Distinct(s) && forall h | h in s.handlers :: !s.handlers[h].Saw?
  }

  /** The handler's next step finds a modem ready that another one is about to take. */
  ghost predicate Overlaps(s: State, h: nat) {
    && Enabled(s, Test(h)) && s.handlers[h].i < |s.devices| && s.devices[s.handlers[h].i] == Ready
    && exists g | g in s.handlers && g != h :: s.handlers[g] == Saw(s.handlers[h].i)
  }

  // ---- Atomic claims ----

  lemma ExclusiveStep(s: State, a: Action)
    requires Exclusive(s) && Enabled(s, a) && (a.Message? ==> !Held(s, a.i))
    ensures Exclusive(Next(Atomic, s, a))
  {
    if a.Test? {
      ExclusiveTest(s, a.h);
    } else if a.Message? {
      DistinctMessage(s, a.i, a.state);
    }
    hide Held;
  }

  lemma ExclusiveTest(s: State, h: nat)
    requires Exclusive(s) && Enabled(s, Test(h))
    ensures Exclusive(Next(Atomic, s, Test(h)))
  {
  }

  lemma DistinctMessage(s: State, i: nat, state: DeviceState)
    requires Distinct(s) && i < |s.devices| && !Held(s, i)
    ensures Distinct(s.(devices := s.devices[i := state]))
  {
  }

  /** Under atomic claims every undisturbed run keeps the modems exclusive. */
  lemma {:induction false} AtomicClaimsAreExclusive(s: State, actions: seq<Action>, t: State)
    requires Exclusive(s) && Undisturbed(Atomic, s, actions) && Run(Atomic, s, actions, t)
    ensures Exclusive(t)
    decreases |actions|
  {
    hide Next;
    hide Exclusive;
    hide Enabled;
    if actions != [] {
      ExclusiveStep(s, actions[0]);
      AtomicClaimsAreExclusive(Next(Atomic, s, actions[0]), actions[1..], t);
    }
  }

  // ---- Conservation ----

  function ReadyCount(devices: seq<DeviceState>): nat {
    if devices == [] then 0
    else ReadyCount(devices[..|devices| - 1]) + if devices[|devices| - 1] == Ready then 1 else 0
  }

  function Holders(s: State): set<nat> {
    set h | h in s.handlers && s.handlers[h].Holds?
  }

  lemma {:induction false} ReadyCountUpdate(devices: seq<DeviceState>, i: nat, state: DeviceState)
    requires i < |devices|
    ensures ReadyCount(devices[i := state]) + (if devices[i] == Ready then 1 else 0)
            == ReadyCount(devices) + if state == Ready then 1 else 0
  {
    var n := |devices| - 1;
    var updated := devices[i := state];
    if i < n {
      ReadyCountUpdate(devices[..n], i, state);
      assert updated[..n] == devices[..n][i := state];
    } else {
      assert updated[..n] == devices[..n];
    }
  }

  /** Nobody sends messages at all. */
  predicate Quiet(actions: seq<Action>) {
    forall i | 0 <= i < |actions| :: !actions[i].Message?
  }

  function Balance(s: State): nat {
    ReadyCount(s.devices) + |Holders(s)|
  }

  lemma BalanceClaim(s: State, h: nat, i: nat)
    requires h in s.handlers && !s.handlers[h].Holds? && i < |s.devices| && s.devices[i] == Ready
    ensures Balance(State(s.devices[i := Busy], s.handlers[h := Holds(i)])) == Balance(s)
  {
    hide ReadyCount;
    var t := State(s.devices[i := Busy], s.handlers[h := Holds(i)]);
    ReadyCountUpdate(s.devices, i, Busy);
    assert Holders(t) == Holders(s) + {h};
  }

  lemma BalanceRelease(s: State, h: nat)
    requires Enabled(s, Release(h)) && s.devices[s.handlers[h].i] == Busy
    ensures Balance(State(s.devices[s.handlers[h].i := Ready], s.handlers[h := Finished])) == Balance(s)
  {
    hide ReadyCount;
    var t := State(s.devices[s.handlers[h].i := Ready], s.handlers[h := Finished]);
    ReadyCountUpdate(s.devices, s.handlers[h].i, Ready);
    assert Holders(t) == Holders(s) - {h};
  }

  lemma BalanceIdle(s: State, h: nat, to: Handler)
    requires !to.Holds? && (h in s.handlers ==> !s.handlers[h].Holds?)
    ensures Balance(s.(handlers := s.handlers[h := to])) == Balance(s)
  {
    hide ReadyCount;
    assert Holders(s.(handlers := s.handlers[h := to])) == Holders(s);
  }

  lemma BalanceStep(s: State, a: Action)
    requires Exclusive(s) && Enabled(s, a) && !a.Message?
    ensures var t := Next(Atomic, s, a); |t.devices| == |s.devices| && Balance(t) == Balance(s)
  {
    hide Balance;
    match a
    case Test(h) =>
      var i := s.handlers[h].i;
      if i < |s.devices| && s.devices[i] == Ready {
        BalanceClaim(s, h, i);
      } else {
        BalanceIdle(s, h, if i >= |s.devices| then Refused else Looking(i + 1));
      }
    case Release(h) => BalanceRelease(s, h);
    case Arrive(h) => BalanceIdle(s, h, Looking(0));
    case Take(h) =>
  }

  /** Under atomic claims, and with no messages, ready and held modems always add up to the same number:
      the size of the pool, if all were ready and unheld at first. */
  lemma {:induction false} ReadyAndHeldAreConserved(s: State, actions: seq<Action>, t: State)
    requires Exclusive(s) && Quiet(actions) && Run(Atomic, s, actions, t)
    ensures |t.devices| == |s.devices|
    ensures ReadyCount(t.devices) + |Holders(t)| == ReadyCount(s.devices) + |Holders(s)|
    decreases |actions|
  {
    hide Next;
    hide Exclusive;
    hide Enabled;
    hide Holders;
    hide ReadyCount;
    if actions != [] {
      BalanceStep(s, actions[0]);
      ExclusiveQuietStep(s, actions[0]);
      ReadyAndHeldAreConserved(Next(Atomic, s, actions[0]), actions[1..], t);
    }
  }

  lemma ExclusiveQuietStep(s: State, a: Action)
    requires Exclusive(s) && Enabled(s, a) && !a.Message?
    ensures Exclusive(Next(Atomic, s, a))
  {
    ExclusiveStep(s, a);
  }

  // ---- Runs ----

  lemma {:induction false} RunConcat(c: Claiming, s: State, a: seq<Action>, t: State, b: seq<Action>, u: State)
    requires Run(c, s, a, t) && Run(c, t, b, u)
    ensures Run(c, s, a + b, u)
    decreases |a|
  {
    hide Next;
    hide Enabled;
    if a == [] {
      assert a + b == b;
    } else {
      RunConcat(c, Next(c, s, a[0]), a[1..], t, b, u);
      assert (a + b)[1..] == a[1..] + b;
    }
  }

  lemma RunOne(c: Claiming, s: State, a: Action)
    requires Enabled(s, a)
    ensures Run(c, s, [a], Next(c, s, a))
  {
    hide Next;
    hide Enabled;
    assert [a][1..] == [];
  }

  /** A handler walks past modems that are not ready. */
  lemma {:induction false} Walk(c: Claiming, s: State, h: nat, i: nat, j: nat) returns (actions: seq<Action>, t: State)
    requires h in s.handlers && s.handlers[h] == Looking(i) && i <= j <= |s.devices|
    requires forall k | i <= k < j :: s.devices[k] != Ready
    ensures Run(c, s, actions, t) && t == s.(handlers := s.handlers[h := Looking(j)])
    decreases j - i
  {
    if i == j {
      actions, t := [], s;
    } else {
      var s1 := Next(c, s, Test(h));
      RunOne(c, s, Test(h));
      hide Next;
      var more, u := Walk(c, s1, h, i + 1, j);
      RunConcat(c, s, [Test(h)], s1, more, u);
      actions, t := [Test(h)] + more, u;
    }
  }

  /** A new handler comes to look at the first ready modem. */
  lemma WalkUp(c: Claiming, s: State, h: nat, j: nat) returns (actions: seq<Action>, t: State)
    requires h !in s.handlers && j <= |s.devices| && forall k | 0 <= k < j :: s.devices[k] != Ready
    ensures Run(c, s, actions, t) && t == s.(handlers := s.handlers[h := Looking(j)])
  {
    var s1 := Next(c, s, Arrive(h));
    RunOne(c, s, Arrive(h));
    hide Next;
    var more, u := Walk(c, s1, h, 0, j);
    RunConcat(c, s, [Arrive(h)], s1, more, u);
    actions, t := [Arrive(h)] + more, u;
  }

  /** A call that finds no modem ready is refused, and nothing else changes. */
  lemma TurnedAway(c: Claiming, s: State, h: nat) returns (actions: seq<Action>, t: State)
    requires h !in s.handlers && Ready !in s.devices
    ensures Run(c, s, actions, t) && t == s.(handlers := s.handlers[h := Refused])
  {
    var a, u := WalkUp(c, s, h, |s.devices|);
    t := Next(c, u, Test(h));
    RunOne(c, u, Test(h));
    hide Next;
    RunConcat(c, s, a, u, [Test(h)], t);
    actions := a + [Test(h)];
  }

  // ---- Claims in two steps ----

  /** No step of the run finds a modem ready that another handler is about to take. */
  ghost predicate Serial(s: State, actions: seq<Action>)
    decreases |actions|
  {
    hide Next;
    hide Overlaps;
    actions == [] ||
    (Enabled(s, actions[0])
     && (actions[0].Test? ==> !Overlaps(s, actions[0].h))
     && Serial(Next(Split, s, actions[0]), actions[1..]))
  }

  /** Two handlers hold the modem. */
  ghost predicate Shared(s: State, i: nat) {
    exists h, g | h in s.handlers && g in s.handlers && h != g :: s.handlers[h] == Holds(i) && s.handlers[g] == Holds(i)
  }

  lemma DistinctTest(s: State, h: nat)
    requires Distinct(s) && Enabled(s, Test(h)) && !Overlaps(s, h)
    ensures Distinct(Next(Split, s, Test(h)))
  {
  }

  lemma DistinctStep(s: State, a: Action)
    requires Distinct(s) && Enabled(s, a)
    requires (a.Message? ==> !Held(s, a.i)) && (a.Test? ==> !Overlaps(s, a.h))
    ensures Distinct(Next(Split, s, a))
  {
    hide Overlaps;
    if a.Test? {
      DistinctTest(s, a.h);
    } else if a.Message? {
      DistinctMessage(s, a.i, a.state);
    }
    hide Held;
  }

  /** With the two steps that the code takes, every undisturbed run without overlap keeps each modem with
      one handler at most. */
  lemma {:induction false} SerialClaimsAreDistinct(s: State, actions: seq<Action>, t: State)
    requires Distinct(s) && Undisturbed(Split, s, actions) && Serial(s, actions) && Run(Split, s, actions, t)
    ensures Distinct(t)
    ensures forall i: nat :: !Shared(t, i)
    decreases |actions|
  {
    hide Next;
    hide Enabled;
    if actions != [] {
      hide Distinct;
      hide Shared;
      hide Held;
      DistinctStep(s, actions[0]);
      SerialClaimsAreDistinct(Next(Split, s, actions[0]), actions[1..], t);
    }
  }

  /** A modem that a handler has found ready is ready until that handler takes it. */
  ghost predicate SeenIsReady(s: State) {
    forall h | h in s.handlers && s.handlers[h].Saw? ::
      s.handlers[h].i < |s.devices| && s.devices[s.handlers[h].i] == Ready
  }

  lemma SeenStaysReady(s: State, a: Action)
    requires Distinct(s) && SeenIsReady(s) && Enabled(s, a) && !a.Message?
    ensures SeenIsReady(Next(Split, s, a))
  {
  }

  lemma SplitBalanceStep(s: State, a: Action)
    requires Distinct(s) && SeenIsReady(s) && Enabled(s, a) && !a.Message?
    ensures var t := Next(Split, s, a); |t.devices| == |s.devices| && Balance(t) == Balance(s)
  {
    hide Balance;
    match a
    case Test(h) =>
      var i := s.handlers[h].i;
      BalanceIdle(s, h, if i >= |s.devices| then Refused else if s.devices[i] != Ready then Looking(i + 1) else Saw(i));
    case Take(h) => BalanceClaim(s, h, s.handlers[h].i);
    case Release(h) => BalanceRelease(s, h);
    case Arrive(h) => BalanceIdle(s, h, Looking(0));
  }

  /** The conservation law for the code's own claims: it holds of every run without overlap and messages. */
  lemma {:induction false} SerialClaimsConserve(s: State, actions: seq<Action>, t: State)
    requires Distinct(s) && SeenIsReady(s) && Quiet(actions) && Serial(s, actions) && Run(Split, s, actions, t)
    ensures |t.devices| == |s.devices|
    ensures ReadyCount(t.devices) + |Holders(t)| == ReadyCount(s.devices) + |Holders(s)|
    decreases |actions|
  {
    hide Next;
    hide Distinct;
    hide SeenIsReady;
    hide Overlaps;
    hide Enabled;
    hide Holders;
    hide ReadyCount;
    if actions != [] {
      SplitBalanceStep(s, actions[0]);
      SeenStaysReady(s, actions[0]);
      DistinctStep(s, actions[0]);
      SerialClaimsConserve(Next(Split, s, actions[0]), actions[1..], t);
    }
  }

  /** An overlap is all it takes: the two handlers need only go on for both to hold the modem. */
  lemma OverlapCollides(s: State, h: nat) returns (g: nat, i: nat, t: State)
    requires Overlaps(s, h)
    ensures h in s.handlers && s.handlers[h] == Looking(i)
    ensures Run(Split, s, [Test(h), Take(h), Take(g)], t) && Shared(t, i)
  {
    i := s.handlers[h].i;
    g :| g in s.handlers && g != h && s.handlers[g] == Saw(i);
    var s1 := Next(Split, s, Test(h));
    var s2 := Next(Split, s1, Take(h));
    t := Next(Split, s2, Take(g));
    assert t.handlers[h] == Holds(i) && t.handlers[g] == Holds(i);
    RunThree(s, Test(h), Take(h), Take(g));
  }

  lemma RunThree(s: State, a: Action, b: Action, c: Action)
    requires Enabled(s, a) && Enabled(Next(Split, s, a), b) && Enabled(Next(Split, Next(Split, s, a), b), c)
    ensures Run(Split, s, [a, b, c], Next(Split, Next(Split, Next(Split, s, a), b), c))
  {
    hide Next;
    hide Enabled;
    var s1 := Next(Split, s, a);
    var s2 := Next(Split, s1, b);
    RunOne(Split, s, a);
    RunOne(Split, s1, b);
    RunOne(Split, s2, c);
    RunConcat(Split, s, [a], s1, [b], s2);
    RunConcat(Split, s, [a] + [b], s2, [c], Next(Split, s2, c));
    assert [a] + [b] + [c] == [a, b, c];
  }

  /** Handlers that have found a modem ready take it, and nothing else happens. */
  predicate OnlyTakes(actions: seq<Action>) {
    forall i | 0 <= i < |actions| :: actions[i].Take?
  }

  /** At some point of the run the handlers that have found a modem ready can go on to share one. */
  ghost predicate CanCollide(s: State, actions: seq<Action>) {
    exists k: nat, takes: seq<Action>, t: State, i: nat | k <= |actions| ::
      OnlyTakes(takes) && Run(Split, s, actions[..k] + takes, t) && Shared(t, i)
  }

  lemma {:induction false} TakesAreSerial(s: State, actions: seq<Action>, takes: seq<Action>, t: State)
    requires Undisturbed(Split, s, actions) && Serial(s, actions) && OnlyTakes(takes)
    requires Run(Split, s, actions + takes, t)
    ensures Undisturbed(Split, s, actions + takes) && Serial(s, actions + takes)
    decreases |actions + takes|
  {
    hide Next;
    hide Enabled;
    hide Overlaps;
    hide Held;
    var all := actions + takes;
    if actions != [] {
      assert all[1..] == actions[1..] + takes;
      TakesAreSerial(Next(Split, s, actions[0]), actions[1..], takes, t);
    } else if takes != [] {
      assert all == takes && all[1..] == [] + takes[1..];
      TakesAreSerial(Next(Split, s, takes[0]), [], takes[1..], t);
    }
  }

  lemma {:induction false} PrefixIsSerial(s: State, actions: seq<Action>, k: nat)
    requires Undisturbed(Split, s, actions) && Serial(s, actions) && k <= |actions|
    ensures Undisturbed(Split, s, actions[..k]) && Serial(s, actions[..k])
    decreases k
  {
    hide Next;
    hide Enabled;
    hide Overlaps;
    hide Held;
    if k > 0 {
      assert actions[..k][1..] == actions[1..][..k - 1];
      PrefixIsSerial(Next(Split, s, actions[0]), actions[1..], k - 1);
    }
  }

  lemma {:induction false} FindOverlap(s: State, actions: seq<Action>) returns (k: nat, u: State)
    requires Undisturbed(Split, s, actions) && !Serial(s, actions)
    ensures k < |actions| && Run(Split, s, actions[..k], u) && actions[k].Test? && Overlaps(u, actions[k].h)
    decreases |actions|
  {
    hide Next;
    hide Enabled;
    hide Overlaps;
    hide Held;
    if actions[0].Test? && Overlaps(s, actions[0].h) {
      k, u := 0, s;
    } else {
      var j, v := FindOverlap(Next(Split, s, actions[0]), actions[1..]);
      k, u := j + 1, v;
      assert actions[..k][1..] == actions[1..][..j];
    }
  }

  /** The exact condition for the code's own claims: at some point of an undisturbed run two handlers can
      go on to share a modem exactly when the run has an overlap. */
  lemma SplitSharesExactlyOnOverlap(s: State, actions: seq<Action>)
    requires Distinct(s) && Undisturbed(Split, s, actions)
    ensures CanCollide(s, actions) <==> !Serial(s, actions)
  {
    hide Next;
    hide Enabled;
    hide Overlaps;
    hide Distinct;
    hide Shared;
    hide Run;
    hide Serial;
    hide Undisturbed;
    if CanCollide(s, actions) && Serial(s, actions) {
      var k: nat, takes: seq<Action>, t: State, i: nat :| k <= |actions|
        && OnlyTakes(takes) && Run(Split, s, actions[..k] + takes, t) && Shared(t, i);
      PrefixIsSerial(s, actions, k);
      TakesAreSerial(s, actions[..k], takes, t);
      SerialClaimsAreDistinct(s, actions[..k] + takes, t);
    }
    if !Serial(s, actions) {
      var k, u := FindOverlap(s, actions);
      var h := actions[k].h;
      var g, i, t := OverlapCollides(u, h);
      var takes := [Take(h), Take(g)];
      RunConcat(Split, s, actions[..k], u, [Test(h), Take(h), Take(g)], t);
      assert actions[..k] + [Test(h), Take(h), Take(g)] == actions[..k + 1] + takes;
      assert OnlyTakes(takes) && Run(Split, s, actions[..k + 1] + takes, t) && Shared(t, i);
    }
  }

  /** The overlap happens: from every state of every pool with a ready modem, any two new calls can both
      be given the first ready one. */
  lemma SplitClaimsCollide(s: State, h: nat, g: nat, j: nat) returns (actions: seq<Action>, t: State)
    requires IsFirstReady(s.devices, j) && j < |s.devices|
    requires h != g && h !in s.handlers && g !in s.handlers
    ensures Run(Split, s, actions, t) && Shared(t, j)
  {
    var a1, s1 := WalkUp(Split, s, h, j);
    var a2, s2 := WalkUp(Split, s1, g, j);
    var s3 := Next(Split, s2, Test(h));
    RunOne(Split, s2, Test(h));
    assert s3.handlers[h] == Saw(j);
    assert Overlaps(s3, g);
    hide Next;
    hide Enabled;
    hide Run;
    var other, i, u := OverlapCollides(s3, g);
    t := u;
    RunConcat(Split, s, a1, s1, a2, s2);
    RunConcat(Split, s, a1 + a2, s2, [Test(h)], s3);
    actions := a1 + a2 + [Test(h)] + [Test(g), Take(g), Take(other)];
    RunConcat(Split, s, a1 + a2 + [Test(h)], s3, [Test(g), Take(g), Take(other)], t);
  }

  /** Atomic claims alone are not enough: one message that sets a held modem to ready lets the next
      call have it too, if no modem before it is ready. */
  lemma MessageBreaksAtomicClaims(s: State, h: nat, g: nat, i: nat) returns (actions: seq<Action>, t: State)
    requires h in s.handlers && s.handlers[h] == Holds(i) && i < |s.devices| && g !in s.handlers
    requires forall k | 0 <= k < i :: s.devices[k] != Ready
    ensures Run(Atomic, s, actions, t)
    ensures h in t.handlers && g in t.handlers && t.handlers[h] == Holds(i) && t.handlers[g] == Holds(i)
  {
    var s1 := Next(Atomic, s, Message(i, Ready));
    RunOne(Atomic, s, Message(i, Ready));
    var more, s2 := WalkUp(Atomic, s1, g, i);
    t := Next(Atomic, s2, Test(g));
    RunOne(Atomic, s2, Test(g));
    hide Next;
    hide Enabled;
    hide Run;
    RunConcat(Atomic, s, [Message(i, Ready)], s1, more, s2);
    RunConcat(Atomic, s, [Message(i, Ready)] + more, s2, [Test(g)], t);
    actions := [Message(i, Ready)] + more + [Test(g)];
  }
}
