/** Any number of processes allocating numbers from one sequence file, step by step. */
module Allocator {
  import opened Wrappers
  import opened Text
  import opened Decimal
  import opened SpoolFile
  import opened Sequence

  /** Where a process stands between opening the file and its return. From Locked to Written it
      holds the lock; `pos` is the offset of its own descriptor. */
  datatype Proc =
    | Opened
    | Locked
    | Incremented(number: nat, pos: nat)
    | Truncated(number: nat, pos: nat)
    | Rewound(number: nat)
    | Written(number: nat)
    | Returned(number: nat)
    | Failed

  datatype Issue = Issue(pid: nat, number: nat)

  /** The shared file, the lock and the processes that have opened the file; `issued` lists the
      numbers written, in the order of writing, which is the order of locking. */
  datatype State = State(content: string, holder: Option<nat>, procs: map<nat, Proc>, issued: seq<Issue>)

  /** The steps of a process. Every call may fail; a failure releases the lock. What fails after the
      truncation leaves the file empty. A process that dies counts as one whose next call fails. */
  datatype Action =
    | Open(pid: nat)
    | Lock(pid: nat)
    | LockFails(pid: nat)
    | Scan(pid: nat, end: nat)
    | Truncate(pid: nat)
    | TruncateFails(pid: nat)
    | Seek(pid: nat)
    | SeekFails(pid: nat)
    | Write(pid: nat)
    | WriteFails(pid: nat)
    | Close(pid: nat)

  predicate Enabled(s: State, a: Action) {
    match a
    case Open(p) => p !in s.procs
    case Lock(p) => p in s.procs && s.procs[p].Opened? && s.holder.None?
    case LockFails(p) => p in s.procs && s.procs[p].Opened?
    case Scan(p, _) => p in s.procs && s.procs[p].Locked?
    case Truncate(p) => p in s.procs && s.procs[p].Incremented?
    case TruncateFails(p) => p in s.procs && s.procs[p].Incremented?
    case Seek(p) => p in s.procs && s.procs[p].Truncated?
    case SeekFails(p) => p in s.procs && s.procs[p].Truncated?
    case Write(p) => p in s.procs && s.procs[p].Rewound?
    case WriteFails(p) => p in s.procs && s.procs[p].Rewound?
    case Close(p) => p in s.procs && s.procs[p].Written?
  }

  function Next(s: State, a: Action): State
    requires Enabled(s, a)
  {
    match a
    case Open(p) => s.(procs := s.procs[p := Opened])
    case Lock(p) => s.(procs := s.procs[p := Locked], holder := Some(p))
    case LockFails(p) => s.(procs := s.procs[p := Failed])
    case Scan(p, end) =>
      if Fscan(s.content).NoNumber? then s.(procs := s.procs[p := Failed], holder := None)
      else s.(procs := s.procs[p := Incremented(Successor(s.content), end)])
    case Truncate(p) =>
      s.(content := Resize(s.content, 0), procs := s.procs[p := Truncated(s.procs[p].number, s.procs[p].pos)])
    case TruncateFails(p) => s.(procs := s.procs[p := Failed], holder := None)
    case Seek(p) => s.(procs := s.procs[p := Rewound(s.procs[p].number)])
    case SeekFails(p) => s.(procs := s.procs[p := Failed], holder := None)
    case WriteFails(p) => s.(procs := s.procs[p := Failed], holder := None)
    case Write(p) =>
      var n := s.procs[p].number;
      s.(content := Overwrite(s.content, 0, Line(n)), procs := s.procs[p := Written(n)],
         issued := s.issued + [Issue(p, n)])
    case Close(p) => s.(procs := s.procs[p := Returned(s.procs[p].number)], holder := None)
  }

  ghost predicate Run(s: State, actions: seq<Action>, t: State)
    decreases |actions|
  {
    hide Next;
    if actions == [] then s == t
    else Enabled(s, actions[0]) && Run(Next(s, actions[0]), actions[1..], t)
  }

  /** A failure between emptying the file and writing the number. */
  predicate Loses(a: Action) {
    a.SeekFails? || a.WriteFails?
  }

  predicate Whole(actions: seq<Action>) {
    forall i | 0 <= i < |actions| :: !Loses(actions[i])
  }

  predicate Initial(s: State) {
    s.holder.None? && s.procs == map[] && s.issued == []
  }

  // ---- Invariant ----

  predicate InSection(p: Proc) {
    p.Locked? || p.Incremented? || p.Truncated? || p.Rewound? || p.Written?
  }

  /** Exactly the holder of the lock is between locking and returning. */
  ghost predicate Exclusive(s: State) {
    && (forall p | p in s.procs :: InSection(s.procs[p]) <==> s.holder == Some(p))
    && (s.holder.Some? ==> s.holder.value in s.procs)
  }

  /** What the file would say if the holder had not begun to rewrite it. */
  function Settled(first: string, issued: seq<Issue>): string {
    if issued == [] then first else Line(issued[|issued| - 1].number)
  }

  /** The file is as the last writer left it, except while it is being rewritten. */
  predicate FileFits(first: string, s: State) {
    match (if s.holder.Some? && s.holder.value in s.procs then s.procs[s.holder.value] else Opened)
    case Incremented(n, _) =>
      && s.content == Settled(first, s.issued) && n == Successor(s.content) && !Fscan(s.content).NoNumber?
    case Truncated(n, _) => Pending(first, s, n)
    case Rewound(n) => Pending(first, s, n)
    case _ => s.content == Settled(first, s.issued)
  }

  predicate Pending(first: string, s: State, n: nat) {
    var was := Settled(first, s.issued);
    s.content == "" && n == Successor(was) && !Fscan(was).NoNumber?
  }

  /** Each number follows what the file said before it. */
  ghost predicate Chained(first: string, issued: seq<Issue>) {
    forall i | 0 <= i < |issued| ::
      issued[i].number == Successor(Settled(first, issued[..i])) && !Fscan(Settled(first, issued[..i])).NoNumber?
  }

  /** Writers and their numbers: a process writes once, and returns what it wrote. */
  ghost predicate Signed(s: State) {
    && (forall i | 0 <= i < |s.issued| ::
          s.issued[i].pid in s.procs &&
          var p := s.procs[s.issued[i].pid];
          (p.Written? || p.Returned?) && p.number == s.issued[i].number)
    && (forall i, j | 0 <= i < j < |s.issued| :: s.issued[i].pid != s.issued[j].pid)
    && (forall p | p in s.procs && (s.procs[p].Written? || s.procs[p].Returned?) ::
          Issue(p, s.procs[p].number) in s.issued)
  }

  ghost predicate Sound(first: string, s: State) {
    Exclusive(s) && FileFits(first, s) && Chained(first, s.issued) && Signed(s)
  }

  lemma ExclusiveStep(s: State, a: Action)
    requires Exclusive(s) && Enabled(s, a)
    ensures Exclusive(Next(s, a))
  {
    hide Fscan;
    hide Line;
  }

  lemma WrittenFile(n: nat)
    ensures Overwrite("", 0, Line(n)) == Line(n)
  {
  }

  lemma EmptiedFile(content: string)
    ensures Resize(content, 0) == ""
  {
  }

  lemma FileStep(first: string, s: State, a: Action)
    requires Exclusive(s) && FileFits(first, s) && Enabled(s, a) && !Loses(a)
    ensures FileFits(first, Next(s, a))
  {
    hide Fscan;
    hide Line;
    hide Successor;
    hide Resize;
    hide Overwrite;
    hide Settled;
    if a.Write? {
      FileAfterWrite(first, s, a.pid);
    } else {
      EmptiedFile(s.content);
    }
  }

  lemma FileAfterWrite(first: string, s: State, p: nat)
    requires Exclusive(s) && FileFits(first, s) && Enabled(s, Write(p))
    ensures FileFits(first, Next(s, Write(p)))
  {
    hide Fscan;
    hide Line;
    hide Successor;
    hide Overwrite;
    WrittenFile(s.procs[p].number);
  }

  lemma ChainedStep(first: string, s: State, a: Action)
    requires Exclusive(s) && FileFits(first, s) && Chained(first, s.issued) && Enabled(s, a)
    ensures Chained(first, Next(s, a).issued)
  {
    hide Fscan;
    hide Line;
    hide Successor;
    if a.Write? {
      var t := Next(s, a).issued;
      assert t[..|s.issued|] == s.issued;
      assert forall i | 0 <= i < |s.issued| :: t[..i] == s.issued[..i];
    }
  }

  lemma SignedStep(s: State, a: Action)
    requires Signed(s) && Enabled(s, a)
    ensures Signed(Next(s, a))
  {
    hide Fscan;
    hide Line;
    hide Successor;
    if a.Write? {
      SignedWrite(s, a.pid);
    }
  }

  lemma SignedWrite(s: State, p: nat)
    requires Signed(s) && Enabled(s, Write(p))
    ensures Signed(Next(s, Write(p)))
  {
    hide Overwrite;
    hide Line;
    var t := Next(s, Write(p));
    assert t.issued[|s.issued|] == Issue(p, s.procs[p].number);
    assert forall i | 0 <= i < |s.issued| :: t.issued[i] == s.issued[i] && t.issued[i].pid != p;
    WriterIsListed(s, p, t);
  }

  lemma WriterIsListed(s: State, p: nat, t: State)
    requires Signed(s) && Enabled(s, Write(p)) && t == Next(s, Write(p))
    ensures forall q | q in t.procs && (t.procs[q].Written? || t.procs[q].Returned?) ::
              Issue(q, t.procs[q].number) in t.issued
  {
    hide Overwrite;
    hide Line;
    forall q | q in t.procs && (t.procs[q].Written? || t.procs[q].Returned?)
      ensures Issue(q, t.procs[q].number) in t.issued
    {
      if q == p {
        assert t.issued[|s.issued|] == Issue(q, t.procs[q].number);
      } else {
        assert Issue(q, s.procs[q].number) in s.issued;
      }
    }
  }

  lemma SoundStep(first: string, s: State, a: Action)
    requires Sound(first, s) && Enabled(s, a) && !Loses(a)
    ensures Sound(first, Next(s, a))
  {
    hide Next;
    hide Exclusive;
    hide FileFits;
    hide Chained;
    hide Signed;
    hide Enabled;
    ExclusiveStep(s, a);
    FileStep(first, s, a);
    ChainedStep(first, s, a);
    SignedStep(s, a);
  }

  lemma {:induction false} RunIsSound(first: string, s: State, actions: seq<Action>, t: State)
    requires Sound(first, s) && Run(s, actions, t) && Whole(actions)
    ensures Sound(first, t)
    decreases |actions|
  {
    hide Next;
    hide Sound;
    hide Enabled;
    if actions != [] {
      SoundStep(first, s, actions[0]);
      RunIsSound(first, Next(s, actions[0]), actions[1..], t);
    }
  }

  lemma InitialIsSound(s: State)
    requires Initial(s)
    ensures Sound(s.content, s)
  {
  }

  // ---- The numbers ----

  /** What the file counts from; an empty file counts from zero. */
  function Base(first: string): nat {
    match Fscan(first)
    case Number(n) => n
    case _ => 0
  }

  lemma SettledNumber(first: string, issued: seq<Issue>)
    requires issued != [] && issued[|issued| - 1].number < TWO_64
    ensures Successor(Settled(first, issued)) == Uint(issued[|issued| - 1].number + 1)
  {
    hide Fscan;
    hide Line;
    FscanLine(issued[|issued| - 1].number);
  }

  lemma FirstNumber(first: string)
    requires !Fscan(first).NoNumber?
    ensures Successor(first) == (Base(first) + 1) % TWO_64
  {
    hide Fscan;
  }

  /** The i-th number issued is the base plus i plus one, in a uint64. */
  lemma {:induction false} IssuedNumber(first: string, issued: seq<Issue>, i: nat)
    requires Chained(first, issued) && i < |issued|
    ensures issued[i].number == (Base(first) + i + 1) % TWO_64
  {
    hide Fscan;
    hide Line;
    hide Successor;
    hide Uint;
    hide Base;
    SuccessorStep(first, issued, i);
    if i == 0 {
      assert issued[..0] == [];
      FirstNumber(first);
    } else {
      IssuedNumber(first, issued, i - 1);
      hide Chained;
      hide Settled;
      assert issued[..i][i - 1] == issued[i - 1];
      SettledNumber(first, issued[..i]);
      UintSucc(Base(first) + i);
    }
  }

  lemma SuccessorStep(first: string, issued: seq<Issue>, i: nat)
    requires Chained(first, issued) && i < |issued|
    ensures issued[i].number == Successor(Settled(first, issued[..i]))
  {
    hide Successor;
    hide Settled;
    hide Fscan;
  }

  lemma UintSucc(n: nat)
    ensures Uint(n % TWO_64 + 1) == (n + 1) % TWO_64
  {
  }

  lemma BelowWrap(base: nat, i: nat, j: nat)
    requires i < j && (base + i + 1) % TWO_64 == (base + j + 1) % TWO_64
    ensures j - i >= TWO_64
  {
    var a, b := base + i + 1, base + j + 1;
    assert a == a / TWO_64 * TWO_64 + a % TWO_64;
    assert b == b / TWO_64 * TWO_64 + b % TWO_64;
  }

  /** Reached by any interleaving in which nobody fails after emptying the file. */
  ghost predicate Reaches(s0: State, actions: seq<Action>, s: State) {
    Initial(s0) && Run(s0, actions, s) && Whole(actions)
  }

  lemma ReachedIsSound(s0: State, actions: seq<Action>, s: State)
    requires Reaches(s0, actions, s)
    ensures Sound(s0.content, s)
  {
    hide Run;
    hide Sound;
    hide Initial;
    InitialIsSound(s0);
    RunIsSound(s0.content, s0, actions, s);
  }

  /** In every interleaving the numbers count up from the file's number, one by one in lock order. */
  lemma NumbersCountUp(s0: State, actions: seq<Action>, s: State, i: nat)
    requires Reaches(s0, actions, s) && i < |s.issued|
    ensures s.issued[i].number == (Base(s0.content) + i + 1) % TWO_64
  {
    hide Run;
    hide Initial;
    hide Exclusive;
    hide FileFits;
    hide Chained;
    hide Signed;
    hide Base;
    ReachedIsSound(s0, actions, s);
    IssuedNumber(s0.content, s.issued, i);
  }

  lemma NoWrap(n: nat)
    requires n < TWO_64
    ensures n % TWO_64 == n
  {
  }

  /** Below 2^64 the numbers issued are strictly increasing. */
  lemma NumbersIncrease(s0: State, actions: seq<Action>, s: State, i: nat, j: nat)
    requires Reaches(s0, actions, s) && i < j < |s.issued|
    requires Base(s0.content) + |s.issued| < TWO_64
    ensures s.issued[i].number < s.issued[j].number
  {
    hide Reaches;
    hide Base;
    NumbersCountUp(s0, actions, s, i);
    NumbersCountUp(s0, actions, s, j);
    NoWrap(Base(s0.content) + i + 1);
    NoWrap(Base(s0.content) + j + 1);
  }

  /** Two processes have returned the same number. */
  predicate Repeats(s: State, p: nat, q: nat) {
    && p != q && p in s.procs && s.procs[p].Returned? && q in s.procs && s.procs[q].Returned?
    && s.procs[p].number == s.procs[q].number
  }

  lemma SoundIsUnique(first: string, s: State, p: nat, q: nat)
    requires Sound(first, s) && |s.issued| <= TWO_64
    ensures !Repeats(s, p, q)
  {
    hide Exclusive;
    hide FileFits;
    hide Chained;
    hide Base;
    if Repeats(s, p, q) {
      var i :| 0 <= i < |s.issued| && s.issued[i] == Issue(p, s.procs[p].number);
      var j :| 0 <= j < |s.issued| && s.issued[j] == Issue(q, s.procs[q].number);
      IssuedNumber(first, s.issued, i);
      IssuedNumber(first, s.issued, j);
      BelowWrap(Base(first), if i < j then i else j, if i < j then j else i);
    }
  }

  /** No two processes return the same number, as long as no more than 2^64 have been issued. */
  lemma NumbersAreUnique(s0: State, actions: seq<Action>, s: State, p: nat, q: nat)
    requires Reaches(s0, actions, s) && |s.issued| <= TWO_64
    ensures !Repeats(s, p, q)
  {
    hide Reaches;
    hide Sound;
    hide Repeats;
    ReachedIsSound(s0, actions, s);
    SoundIsUnique(s0.content, s, p, q);
  }

  /** Whenever the lock is free the file holds the last number issued, or what it held at first. */
  lemma FreeLockMeansSettled(s0: State, actions: seq<Action>, s: State)
    requires Reaches(s0, actions, s) && s.holder.None?
    ensures s.content == if s.issued == [] then s0.content else Line(s.issued[|s.issued| - 1].number)
  {
    hide Run;
    hide Initial;
    hide Exclusive;
    hide Chained;
    hide Signed;
    ReachedIsSound(s0, actions, s);
  }

  // ---- Names made from the numbers ----

  function CommId(n: nat): string {
    PadTo(8, n)
  }

  function RecvqName(n: nat): string {
    "fax" + PadTo(8, n) + ".tif"
  }

  /** A comm id is the number, padded with zeros to eight digits, and the file name has the same digits. */
  lemma NamesTellNumber(n: nat)
    ensures AllDigits(CommId(n)) && Value(CommId(n), 10) == n
    ensures |CommId(n)| == if n < 100_000_000 then 8 else |Utoa(n)|
    ensures RecvqName(n) == "fax" + CommId(n) + ".tif"
  {
    hide PadTo;
    PadValue(8, n);
    if n < 100_000_000 {
      assert Pow10(2) == 100;
      assert Pow10(4) == 10000;
      assert Pow10(6) == 1000000;
      assert Pow10(8) == 100000000;
      UtoaLength(n, 8, Pow10(8));
    } else {
      UtoaIsLong(n);
    }
  }

  lemma UtoaIsLong(n: nat)
    requires n >= 100_000_000
    ensures |Utoa(n)| > 8
  {
    var a := n / 10;
    var b := a / 10;
    var c := b / 10;
    var d := c / 10;
    assert |Utoa(n)| == 1 + |Utoa(a)| && |Utoa(a)| == 1 + |Utoa(b)|;
    assert |Utoa(b)| == 1 + |Utoa(c)| && |Utoa(c)| == 1 + |Utoa(d)|;
    assert d >= 10000;
    var e := d / 10;
    var f := e / 10;
    var g := f / 10;
    assert |Utoa(d)| == 1 + |Utoa(e)| && |Utoa(e)| == 1 + |Utoa(f)|;
    assert |Utoa(f)| == 1 + |Utoa(g)| && |Utoa(g)| == 1 + |Utoa(g / 10)|;
  }

  /** Different numbers give different names, also beyond eight digits. */
  lemma NamesAreUnique(m: nat, n: nat)
    requires m != n
    ensures CommId(m) != CommId(n) && RecvqName(m) != RecvqName(n)
  {
    hide PadTo;
    PadValue(8, m);
    PadValue(8, n);
    assert RecvqName(m)[3..|RecvqName(m)| - 4] == CommId(m);
    assert RecvqName(n)[3..|RecvqName(n)| - 4] == CommId(n);
  }

  // ---- Failures after the file is emptied ----

  /** A process that is rewriting the file finds it empty, whatever happened before. */
  ghost predicate EmptyWhileRewritten(s: State) {
    forall p | p in s.procs && (s.procs[p].Truncated? || s.procs[p].Rewound?) :: s.content == ""
  }

  lemma EmptyStep(s: State, a: Action)
    requires Exclusive(s) && EmptyWhileRewritten(s) && Enabled(s, a)
    ensures EmptyWhileRewritten(Next(s, a))
  {
    hide Fscan;
    hide Line;
    hide Overwrite;
    hide Successor;
    hide Resize;
    EmptiedFile(s.content);
  }

  lemma {:induction false} RunKeepsEmpty(s: State, actions: seq<Action>, t: State)
    requires Exclusive(s) && EmptyWhileRewritten(s) && Run(s, actions, t)
    ensures Exclusive(t) && EmptyWhileRewritten(t)
    decreases |actions|
  {
    hide Next;
    hide Exclusive;
    hide EmptyWhileRewritten;
    hide Enabled;
    if actions != [] {
      ExclusiveStep(s, actions[0]);
      EmptyStep(s, actions[0]);
      RunKeepsEmpty(Next(s, actions[0]), actions[1..], t);
    }
  }

  /** One process running alone. */
  function Alone(p: nat): seq<Action> {
    [Open(p), Lock(p), Scan(p, 0), Truncate(p), Seek(p), Write(p), Close(p)]
  }

  lemma AloneScans(s: State, p: nat) returns (s1: State, s2: State, s3: State)
    requires s.holder.None? && p !in s.procs && !Fscan(s.content).NoNumber?
    ensures Enabled(s, Open(p)) && s1 == Next(s, Open(p))
    ensures Enabled(s1, Lock(p)) && s2 == Next(s1, Lock(p))
    ensures Enabled(s2, Scan(p, 0)) && s3 == Next(s2, Scan(p, 0))
    ensures s3 == State(s.content, Some(p), s.procs[p := Incremented(Successor(s.content), 0)], s.issued)
  {
    hide Fscan;
    hide Successor;
    s1 := Next(s, Open(p));
    s2 := Next(s1, Lock(p));
    s3 := Next(s2, Scan(p, 0));
    assert s3.procs == s.procs[p := Incremented(Successor(s.content), 0)];
  }

  /** A process that runs alone returns and stores the number that follows what the file says. */
  lemma AloneSucceeds(s: State, p: nat) returns (t: State)
    requires s.holder.None? && p !in s.procs && !Fscan(s.content).NoNumber?
    ensures Run(s, Alone(p), t) && Whole(Alone(p))
    ensures var n := Successor(s.content);
            t == State(Line(n), None, s.procs[p := Returned(n)], s.issued + [Issue(p, n)])
  {
    hide Line;
    hide Overwrite;
    hide Resize;
    hide Fscan;
    hide Successor;
    hide Run;
    var n := Successor(s.content);
    EmptiedFile(s.content);
    WrittenFile(n);
    var s1, s2, s3 := AloneScans(s, p);
    var s4 := Next(s3, Truncate(p));
    var s5 := Next(s4, Seek(p));
    var s6 := Next(s5, Write(p));
    t := Next(s6, Close(p));
    assert t.procs == s.procs[p := Returned(n)];
    SevenSteps(s, s1, s2, s3, s4, s5, s6, t, Open(p), Lock(p), Scan(p, 0), Truncate(p), Seek(p), Write(p), Close(p));
  }

  /** After any run, a failure between emptying the file and writing it makes the next process that runs
      alone return 1. */
  lemma LostFileStartsOver(s0: State, before: seq<Action>, s: State, a: Action, p: nat) returns (t: State)
    requires Initial(s0) && Run(s0, before, s) && Enabled(s, a) && Loses(a) && p !in s.procs
    ensures Next(s, a).content == "" && Next(s, a).holder.None?
    ensures Run(Next(s, a), Alone(p), t) && p in t.procs && t.procs[p] == Returned(1)
  {
    hide Run;
    hide Line;
    hide Overwrite;
    hide Exclusive;
    assert Fscan("") == AtEnd;
    hide Fscan;
    InitialIsSound(s0);
    RunKeepsEmpty(s0, before, s) by { assert Sound(s0.content, s0); }
    assert Next(s, a).content == "";
    t := AloneSucceeds(Next(s, a), p);
  }

  lemma SevenSteps(s: State, s1: State, s2: State, s3: State, s4: State, s5: State, s6: State, s7: State,
                   a: Action, b: Action, c: Action, d: Action, e: Action, f: Action, g: Action)
    requires Enabled(s, a) && s1 == Next(s, a) && Enabled(s1, b) && s2 == Next(s1, b)
    requires Enabled(s2, c) && s3 == Next(s2, c) && Enabled(s3, d) && s4 == Next(s3, d)
    requires Enabled(s4, e) && s5 == Next(s4, e) && Enabled(s5, f) && s6 == Next(s5, f)
    requires Enabled(s6, g) && s7 == Next(s6, g)
    ensures Run(s, [a, b, c, d, e, f, g], s7)
  {
    hide Next;
    hide Enabled;
    assert [g][1..] == [] && [f, g][1..] == [g] && [e, f, g][1..] == [f, g] && [d, e, f, g][1..] == [e, f, g];
    assert [c, d, e, f, g][1..] == [d, e, f, g] && [b, c, d, e, f, g][1..] == [c, d, e, f, g];
    assert [a, b, c, d, e, f, g][1..] == [b, c, d, e, f, g];
    assert Run(s6, [g], s7);
    assert Run(s5, [f, g], s7);
    assert Run(s4, [e, f, g], s7);
    assert Run(s3, [d, e, f, g], s7);
    assert Run(s2, [c, d, e, f, g], s7);
    assert Run(s1, [b, c, d, e, f, g], s7);
  }

  lemma {:induction false} RunConcat(s: State, a: seq<Action>, t: State, b: seq<Action>, u: State)
    requires Run(s, a, t) && Run(t, b, u)
    ensures Run(s, a + b, u)
    decreases |a|
  {
    hide Next;
    hide Enabled;
    if a == [] {
      assert a + b == b;
    } else {
      RunConcat(Next(s, a[0]), a[1..], t, b, u);
      assert (a + b)[1..] == a[1..] + b;
    }
  }

  // ---- When numbers repeat ----

  /** Nobody fails after emptying the file once a number has been issued. */
  ghost predicate Steady(s: State, actions: seq<Action>)
    decreases |actions|
  {
    hide Next;
    actions == [] ||
    (Enabled(s, actions[0])
     && (Loses(actions[0]) ==> s.issued == [])
     && Steady(Next(s, actions[0]), actions[1..]))
  }

  /** A loss before the first number only makes the file count from zero. */
  lemma EarlyLoss(first: string, s: State, a: Action)
    requires Sound(first, s) && Enabled(s, a) && Loses(a) && s.issued == []
    ensures Sound("", Next(s, a))
  {
    hide Successor;
    hide Line;
    assert Fscan("") == AtEnd;
    hide Fscan;
    ExclusiveStep(s, a);
    SignedStep(s, a);
    hide Exclusive;
    hide Signed;
    assert s.holder == Some(a.pid) && Next(s, a).content == "" by { LossEmpties(first, s, a); }
  }

  lemma LossEmpties(first: string, s: State, a: Action)
    requires Exclusive(s) && FileFits(first, s) && Enabled(s, a) && Loses(a)
    ensures s.holder == Some(a.pid) && s.content == ""
  {
    hide Fscan;
    hide Successor;
    hide Line;
  }

  lemma {:induction false} SteadyRunIsSound(first: string, s: State, actions: seq<Action>, t: State)
      returns (first': string)
    requires Sound(first, s) && Run(s, actions, t) && Steady(s, actions)
    ensures Sound(first', t) && (first' == first || first' == "")
    decreases |actions|
  {
    hide Next;
    hide Sound;
    hide Enabled;
    if actions == [] {
      return first;
    }
    var base := first;
    if Loses(actions[0]) {
      EarlyLoss(first, s, actions[0]);
      base := "";
    } else {
      SoundStep(first, s, actions[0]);
    }
    first' := SteadyRunIsSound(base, Next(s, actions[0]), actions[1..], t);
  }

  lemma {:induction false} WholeIsSteady(s: State, actions: seq<Action>, more: seq<Action>, t: State)
    requires Steady(s, actions) && Whole(more) && Run(s, actions + more, t)
    ensures Steady(s, actions + more)
    decreases |actions + more|
  {
    hide Next;
    hide Enabled;
    var all := actions + more;
    if actions != [] {
      assert all[1..] == actions[1..] + more;
      WholeIsSteady(Next(s, actions[0]), actions[1..], more, t);
    } else if more != [] {
      assert all == more && all[1..] == [] + more[1..];
      WholeIsSteady(Next(s, more[0]), [], more[1..], t);
    }
  }

  lemma {:induction false} PrefixIsSteady(s: State, actions: seq<Action>, k: nat)
    requires Steady(s, actions) && k <= |actions|
    ensures Steady(s, actions[..k])
    decreases k
  {
    hide Next;
    hide Enabled;
    if k > 0 {
      assert actions[..k][1..] == actions[1..][..k - 1];
      PrefixIsSteady(Next(s, actions[0]), actions[1..], k - 1);
    }
  }

  /** The first loss after a number has been issued. */
  lemma {:induction false} FindLoss(s: State, actions: seq<Action>, t: State) returns (k: nat, u: State)
    requires Run(s, actions, t) && !Steady(s, actions)
    ensures k < |actions| && Run(s, actions[..k], u) && Steady(s, actions[..k])
    ensures Enabled(u, actions[k]) && Loses(actions[k]) && u.issued != []
    ensures |u.issued| <= |t.issued|
    decreases |actions|
  {
    hide Next;
    hide Enabled;
    if Loses(actions[0]) && s.issued != [] {
      k, u := 0, s;
      IssuedGrows(s, actions, t);
    } else {
      var j, v := FindLoss(Next(s, actions[0]), actions[1..], t);
      k, u := j + 1, v;
      assert actions[..k][1..] == actions[1..][..j];
    }
  }

  lemma {:induction false} IssuedGrows(s: State, actions: seq<Action>, t: State)
    requires Run(s, actions, t)
    ensures |s.issued| <= |t.issued|
    decreases |actions|
  {
    hide Enabled;
    hide Successor;
    hide Fscan;
    hide Overwrite;
    hide Resize;
    hide Line;
    if actions != [] {
      IssuedGrows(Next(s, actions[0]), actions[1..], t);
    }
  }

  lemma {:induction false} FreshPid(pids: set<nat>) returns (p: nat)
    ensures forall q | q in pids :: q < p
  {
    if pids == {} {
      p := 0;
    } else {
      var q :| q in pids;
      var r := FreshPid(pids - {q});
      assert pids == pids - {q} + {q};
      p := if r > q then r else q + 1;
    }
  }

  /** Processes that run alone one after the other return one number after the other. */
  lemma {:induction false} Relay(s: State, p: nat, n: nat, m: nat) returns (actions: seq<Action>, t: State)
    requires s.holder.None? && (forall q | q in s.procs :: q < p)
    requires n <= m < TWO_64 && !Fscan(s.content).NoNumber?
    requires n < m ==> Successor(s.content) == n + 1
    ensures Run(s, actions, t) && Whole(actions) && |t.issued| == |s.issued| + m - n
    ensures forall q | q in s.procs :: q in t.procs && t.procs[q] == s.procs[q]
    ensures n < m ==> exists q | q in t.procs :: q >= p && t.procs[q] == Returned(m)
    decreases m - n
  {
    hide Fscan;
    hide Line;
    hide Successor;
    if n == m {
      return [], s;
    }
    var u := AloneSucceeds(s, p);
    LineFollows(n + 1);
    hide Run;
    var more, v := Relay(u, p + 1, n + 1, m);
    RunConcat(s, Alone(p), u, more, v);
    actions, t := Alone(p) + more, v;
    if n + 1 == m {
      assert t.procs[p] == Returned(m);
    }
  }

  lemma LineFollows(n: nat)
    requires n < TWO_64
    ensures !Fscan(Line(n)).NoNumber? && (n + 1 < TWO_64 ==> Successor(Line(n)) == n + 1)
  {
    hide Fscan;
    hide Line;
    FscanLine(n);
  }

  /** The process that issued the first number has returned it, when another one fails. */
  lemma FirstHasReturned(first: string, s: State, a: Action)
    requires Sound(first, s) && Enabled(s, a) && Loses(a) && s.issued != []
    ensures var p := s.issued[0].pid;
            p != a.pid && p in s.procs && s.procs[p] == Returned(s.issued[0].number)
    ensures s.issued[0].number == (Base(first) + 1) % TWO_64
  {
    hide FileFits;
    hide Chained;
    hide Base;
    IssuedNumber(first, s.issued, 0);
  }

  lemma AfterLoss(first: string, s: State, a: Action)
    requires Sound(first, s) && Enabled(s, a) && Loses(a) && s.issued != [] && Base(first) + 1 < TWO_64
    ensures var t, p := Next(s, a), s.issued[0].pid;
            && t.content == "" && t.holder.None? && t.issued == s.issued
            && p in t.procs && t.procs[p] == Returned(Base(first) + 1)
  {
    hide Base;
    hide Signed;
    hide Chained;
    hide Exclusive;
    hide FileFits;
    FirstHasReturned(first, s, a);
    NoWrap(Base(first) + 1);
    LossEmpties(first, s, a);
  }

  /** After a loss the first number can be returned once more. */
  lemma LossRepeats(first: string, s: State, a: Action) returns (more: seq<Action>, t: State, p: nat, q: nat)
    requires Sound(first, s) && Enabled(s, a) && Loses(a) && s.issued != [] && Base(first) + 1 < TWO_64
    ensures Run(Next(s, a), more, t) && Whole(more) && Repeats(t, p, q)
    ensures |t.issued| == |s.issued| + Base(first) + 1
  {
    hide Run;
    hide Whole;
    hide Base;
    hide Successor;
    hide Sound;
    hide Next;
    hide Enabled;
    hide Fscan;
    AfterLoss(first, s, a);
    EmptyCounts();
    var u := Next(s, a);
    p := s.issued[0].pid;
    var free := FreshPid(u.procs.Keys);
    more, t := Relay(u, free, 0, Base(first) + 1);
    q :| q in t.procs && q >= free && t.procs[q] == Returned(Base(first) + 1);
  }

  lemma EmptyCounts()
    ensures !Fscan("").NoNumber? && Successor("") == 1 && Base("") == 0
  {
  }

  /** At some point of the run, processes that run without a loss can return a number for the second time. */
  ghost predicate CanRepeat(s: State, actions: seq<Action>) {
    exists k: nat, more: seq<Action>, t: State, p: nat, q: nat | k <= |actions| ::
      Whole(more) && Run(s, actions[..k] + more, t) && |t.issued| <= TWO_64 && Repeats(t, p, q)
  }

  lemma SteadyNeverRepeats(s0: State, actions: seq<Action>)
    requires Initial(s0) && Steady(s0, actions)
    ensures !CanRepeat(s0, actions)
  {
    hide Run;
    hide Initial;
    hide Sound;
    hide Steady;
    hide Whole;
    hide Repeats;
    InitialIsSound(s0);
    forall k: nat, more: seq<Action>, t: State, p: nat, q: nat
      | k <= |actions| && Whole(more) && Run(s0, actions[..k] + more, t) && |t.issued| <= TWO_64
      ensures !Repeats(t, p, q)
    {
      PrefixIsSteady(s0, actions, k);
      WholeIsSteady(s0, actions[..k], more, t);
      var first := SteadyRunIsSound(s0.content, s0, actions[..k] + more, t);
      SoundIsUnique(first, t, p, q);
    }
  }

  /** The exact condition, below 2^64: a number can be returned twice exactly when some process fails
      between emptying and writing the file after a first number has been issued. */
  lemma RepeatsExactlyAfterLateLoss(s0: State, actions: seq<Action>, s: State)
    requires Initial(s0) && Run(s0, actions, s)
    requires Base(s0.content) + |s.issued| < TWO_64
    ensures CanRepeat(s0, actions) <==> !Steady(s0, actions)
  {
    hide Run;
    hide Initial;
    hide Sound;
    hide Steady;
    hide Whole;
    hide Repeats;
    hide Base;
    hide Next;
    hide Enabled;
    if Steady(s0, actions) {
      SteadyNeverRepeats(s0, actions);
    } else {
      InitialIsSound(s0);
      EmptyCounts();
      var k, u := FindLoss(s0, actions, s);
      var first := SteadyRunIsSound(s0.content, s0, actions[..k], u);
      var more, t, p, q := LossRepeats(first, u, actions[k]);
      var v := Next(u, actions[k]);
      RunOne(u, actions[k]);
      RunConcat(s0, actions[..k], u, [actions[k]], v);
      assert actions[..k] + [actions[k]] == actions[..k + 1];
      RunConcat(s0, actions[..k + 1], v, more, t);
      assert CanRepeat(s0, actions);
    }
  }

  lemma RunOne(s: State, a: Action)
    requires Enabled(s, a)
    ensures Run(s, [a], Next(s, a))
  {
    hide Next;
    hide Enabled;
    assert [a][1..] == [];
  }
}
