/** The lock around resizing the memory map, and the retry loop of `try_write` (src/lmdb/lws_database.cpp and
    src/lmdb/lws_database.h), as steps of any number of threads.

    A step is one atomic access to `context`, or one call into LMDB or into the callback, whose result is an arbitrary
    `Outcome`. Dropping a transaction aborts it and releases its context, as the transaction handles of Monero do. */
module ResizeLock {
  import opened Rows

  datatype Outcome = Success | MapFull | MapResized | InfoFailed | Failure

  /** A reader (possibly renewing a suspended transaction), or `try_write` with the attempts it has left. */
  datatype Job = Reader(suspended: bool) | Writer(left: nat)

  /** Where a resize was called from: `do_create_txn` after some attempts, or `try_write`. */
  datatype Caller = FromBegin(attempt: nat) | FromWrite

  datatype Pc =
    | Idle
    | Spin(job: Job, attempt: nat)                          // `acquire_context` waits for the flag
    | Counting(job: Job, attempt: nat)                      // has the flag, increments `active` next
    | Clearing(job: Job, attempt: nat)                      // clears the flag next
    | Beginning(job: Job, attempt: nat)                     // begins or renews the transaction next
    | BeginFailed(job: Job, attempt: nat, error: Outcome)   // releases the context next
    | InTxn(job: Job)                                       // reads, or runs the callback
    | Committing(job: Job)
    | Ended(job: Job, result: Outcome)                      // the transaction is over; releases the context next
    | WantFlag(job: Job, caller: Caller)                    // `resize` waits for the flag
    | Draining(job: Job, caller: Caller)                    // has the flag, waits for zero contexts
    | Resizing(job: Job, caller: Caller)                    // changes the size of the map next
    | Unflag(job: Job, caller: Caller, result: Outcome)     // clears the flag next
    | Done(job: Job, result: Outcome)

  /** `held`: read transactions the thread keeps open beneath what it is doing. `runs` and `commits` count what the
      callback of the current `try_write` did. */
  datatype Thread = Thread(pc: Pc, held: nat, attempts: nat, runs: nat, commits: nat)

  /** `context`, and the size of the map. */
  datatype Shared = Shared(flag: bool, active: nat, mapSize: nat)

  datatype State = State(shared: Shared, threads: seq<Thread>)

  const MAX_RESIZE: nat := 1024 * 1024 * 1024
  const BEGIN_ATTEMPTS: nat := 3

  /** After a failed begin; a suspended reader does not try again. */
  function AfterBegin(job: Job, attempt: nat, error: Outcome): Pc {
    if error == MapResized && job != Reader(true) then WantFlag(job, FromBegin(attempt)) else Done(job, error)
  }

  function AfterTxn(job: Job, result: Outcome): Pc {
    if job.Writer? && result == MapFull then WantFlag(job, FromWrite) else Done(job, result)
  }

  function Retry(left: nat): Pc {
    if left > 0 then Spin(Writer(left), 0) else Done(Writer(left), MapFull)
  }

  function AfterResize(job: Job, caller: Caller, result: Outcome): Pc {
    if result != Success then Done(job, result)
    else match caller
      case FromBegin(attempt) =>
        if attempt + 1 < BEGIN_ATTEMPTS then Spin(job, attempt + 1) else Done(job, MapResized)
      case FromWrite => if job.Writer? && job.left > 0 then Retry(job.left - 1) else Done(job, MapFull)
  }

  function Less(n: nat): nat { if n == 0 then 0 else n - 1 }

  datatype Effect = Effect(shared: Shared, thread: Thread)

  /** One step of a thread; a thread that has to wait stays where it is. */
  function Act(c: Shared, t: Thread, o: Outcome): Effect {
    match t.pc
    case Idle => Effect(c, t)
    case Done(_, _) => Effect(c, t)
    case Spin(job, n) => if c.flag then Effect(c, t) else Effect(c.(flag := true), t.(pc := Counting(job, n)))
    case Counting(job, n) => Effect(c.(active := c.active + 1), t.(pc := Clearing(job, n)))
    case Clearing(job, n) => Effect(c.(flag := false), t.(pc := Beginning(job, n)))
    case Beginning(job, n) => Effect(c, t.(pc := if o == Success then InTxn(job) else BeginFailed(job, n, o)))
    case BeginFailed(job, n, e) => Effect(c.(active := Less(c.active)), t.(pc := AfterBegin(job, n, e)))
    case InTxn(job) =>
      if job.Reader? then Effect(c, t.(pc := Ended(job, Success)))
      else Effect(c, t.(pc := if o == Success then Committing(job) else Ended(job, o), runs := t.runs + 1))
    case Committing(job) =>
      Effect(c, t.(pc := Ended(job, o), commits := if o == Success then t.commits + 1 else t.commits))
    case Ended(job, r) => Effect(c.(active := Less(c.active)), t.(pc := AfterTxn(job, r)))
    case WantFlag(job, from) => if c.flag then Effect(c, t) else Effect(c.(flag := true), t.(pc := Draining(job, from)))
    case Draining(job, from) => Effect(c, if c.active > 0 then t else t.(pc := Resizing(job, from)))
    case Resizing(job, from) =>
      if o == InfoFailed then Effect(c, t.(pc := Done(job, Failure)))
      else
        Effect(if o == Success then c.(mapSize := c.mapSize + Min(c.mapSize, MAX_RESIZE)) else c, t.(pc := Unflag(job, from, o)))
    case Unflag(job, from, r) => Effect(c.(flag := false), t.(pc := AfterResize(job, from, r)))
  }

  function Step(s: State, i: nat, o: Outcome): State
    requires i < |s.threads|
  {
    var e := Act(s.shared, s.threads[i], o);
    State(e.shared, s.threads[i := e.thread])
  }

  predicate Rests(pc: Pc) { pc.Idle? || pc.Done? }

  /** A thread that has nothing to do starts a job. */
  function Start(s: State, i: nat, job: Job): State
    requires i < |s.threads|
  {
    var t := s.threads[i];
    if !Rests(t.pc) then s
    else
      var attempts := if job.Writer? then job.left else 0;
      s.(threads := s.threads[i := Thread(if job == Writer(0) then Done(job, MapFull) else Spin(job, 0), t.held, attempts, 0, 0)])
  }

  /** The caller keeps the read transaction open and goes on. */
  function KeepOpen(s: State, i: nat): State
    requires i < |s.threads|
  {
    var t := s.threads[i];
    if t.pc.InTxn? && t.pc.job.Reader? then s.(threads := s.threads[i := t.(pc := Done(t.pc.job, Success), held := t.held + 1)])
    else s
  }

  /** A thread that has nothing to do ends a transaction it kept. */
  function Release(s: State, i: nat): State
    requires i < |s.threads|
  {
    var t := s.threads[i];
    if Rests(t.pc) && t.held > 0 then
      State(s.shared.(active := Less(s.shared.active)), s.threads[i := t.(held := t.held - 1)])
    else s
  }

  datatype Move = Begin(thread: nat, job: Job) | Go(thread: nat, outcome: Outcome) | Keep(thread: nat) | Drop(thread: nat)

  function Next(s: State, m: Move): State {
    if m.thread >= |s.threads| then s
    else match m
      case Begin(i, job) => Start(s, i, job)
      case Go(i, o) => Step(s, i, o)
      case Keep(i) => KeepOpen(s, i)
      case Drop(i) => Release(s, i)
  }

  function Run(s: State, moves: seq<Move>): State {
    if moves == [] then s else Next(Run(s, moves[..|moves| - 1]), moves[|moves| - 1])
  }

  function Initial(threads: nat, mapSize: nat): State {
    State(Shared(false, 0, mapSize), seq(threads, _ => Thread(Idle, 0, 0, 0, 0)))
  }

  // ----- The invariant -----

  /** Between the increment and the decrement of `active`. */
  predicate Holds(pc: Pc) {
    pc.Clearing? || pc.Beginning? || pc.BeginFailed? || pc.InTxn? || pc.Committing? || pc.Ended?
  }

  /** Between setting and clearing the flag. */
  predicate Owns(pc: Pc) {
    pc.Counting? || pc.Clearing? || pc.Draining? || pc.Resizing? || pc.Unflag?
  }

  function ContextsOf(t: Thread): nat { t.held + if Holds(t.pc) then 1 else 0 }

  /** The contexts all threads hold. */
  function Contexts(threads: seq<Thread>): nat {
    if threads == [] then 0 else Contexts(threads[..|threads| - 1]) + ContextsOf(threads[|threads| - 1])
  }

  /** The flag has at most one owner, and an owner has set it. */
  ghost predicate FlagOwned(s: State) {
    && (forall i, j :: 0 <= i < |s.threads| && 0 <= j < |s.threads| && Owns(s.threads[i].pc) && Owns(s.threads[j].pc) ==> i == j)
    && (forall i :: 0 <= i < |s.threads| && Owns(s.threads[i].pc) ==> s.shared.flag)
  }

  /** The flag is set and nobody is going to clear it. */
  ghost predicate Leaked(s: State) {
    s.shared.flag && forall i :: 0 <= i < |s.threads| ==> !Owns(s.threads[i].pc)
  }

  predicate Changing(pc: Pc) { pc.Resizing? || pc.Unflag? }

  ghost predicate Exclusive(s: State) {
    forall i :: 0 <= i < |s.threads| && Changing(s.threads[i].pc) ==> s.shared.active == 0
  }

  predicate Remaining(t: Thread, left: nat) { t.runs + left <= t.attempts && t.commits == 0 }

  /** The callback is committed once on success and never otherwise, and runs at most once per attempt. */
  predicate Bookkept(t: Thread) {
    match t.pc
    case Idle => true
    case Done(job, r) => job.Writer? ==> t.runs <= t.attempts && t.commits == if r == Success then 1 else 0
    case Spin(job, _) => job.Writer? ==> job.left > 0 && Remaining(t, job.left)
    case Counting(job, _) => job.Writer? ==> job.left > 0 && Remaining(t, job.left)
    case Clearing(job, _) => job.Writer? ==> job.left > 0 && Remaining(t, job.left)
    case Beginning(job, _) => job.Writer? ==> job.left > 0 && Remaining(t, job.left)
    case BeginFailed(job, _, e) => (job.Writer? ==> job.left > 0 && Remaining(t, job.left)) && e != Success
    case InTxn(job) => job.Writer? ==> job.left > 0 && Remaining(t, job.left)
    case Committing(job) => job.Writer? && job.left > 0 && Remaining(t, job.left - 1)
    case Ended(job, r) =>
      job.Writer? ==> job.left > 0 && t.runs + job.left - 1 <= t.attempts && t.commits == if r == Success then 1 else 0
    case WantFlag(job, c) => job.Writer? ==> Pending(t, job.left, c)
    case Draining(job, c) => job.Writer? ==> Pending(t, job.left, c)
    case Resizing(job, c) => job.Writer? ==> Pending(t, job.left, c)
    case Unflag(job, c, _) => job.Writer? ==> Pending(t, job.left, c)
  }

  predicate Pending(t: Thread, left: nat, c: Caller) {
    left > 0 && Remaining(t, if c.FromWrite? then left - 1 else left)
  }

  ghost predicate Inv(s: State) {
    s.shared.active == Contexts(s.threads) && FlagOwned(s) && Exclusive(s) && forall t :: t in s.threads ==> Bookkept(t)
  }

  lemma {:induction false} ContextsUpdate(threads: seq<Thread>, i: nat, t: Thread)
    requires i < |threads|
    ensures Contexts(threads[i := t]) + ContextsOf(threads[i]) == Contexts(threads) + ContextsOf(t)
    ensures ContextsOf(threads[i]) <= Contexts(threads)
  {
    var n := |threads| - 1;
    if i == n {
      assert threads[i := t][..n] == threads[..n];
    } else {
      assert threads[i := t][..n] == threads[..n][i := t];
      ContextsUpdate(threads[..n], i, t);
    }
  }

  lemma {:induction false} NoContexts(threads: seq<Thread>)
    ensures Contexts(threads) == 0 <==> forall i :: 0 <= i < |threads| ==> ContextsOf(threads[i]) == 0
  {
    if threads != [] {
      NoContexts(threads[..|threads| - 1]);
    }
  }

  /** How one step moves the flag and the counter. */
  predicate Shape(c: Shared, before: Pc, o: Outcome, d: Shared, after: Pc) {
    && (if Owns(before) == Owns(after) then d.flag == c.flag
        else if Owns(after) then !c.flag && d.flag
        else d.flag == if before.Resizing? && o == InfoFailed then c.flag else false)
    && (Owns(before) && !Owns(after) && before.Resizing? ==> o == InfoFailed)
    && (before.Resizing? && o == InfoFailed ==> !Owns(after))
    && (if Holds(before) == Holds(after) then d.active == c.active
        else if Holds(after) then d.active == c.active + 1 && before.Counting? && Owns(after)
        else d.active == Less(c.active))
    && (Changing(after) ==> Owns(before) && Owns(after) && d.active == c.active && (Changing(before) || c.active == 0))
  }

  lemma ActShape(c: Shared, t: Thread, o: Outcome)
    ensures var e := Act(c, t, o); Shape(c, t.pc, o, e.shared, e.thread.pc) && e.thread.held == t.held
  {
    hide AfterBegin, AfterTxn, AfterResize;
    AfterShape(t.pc);
  }

  /** Wherever a thread continues, it neither owns the flag nor holds a context. */
  lemma AfterShape(pc: Pc)
    ensures pc.BeginFailed? ==> var a := AfterBegin(pc.job, pc.attempt, pc.error); !Owns(a) && !Holds(a) && !Changing(a)
    ensures pc.Ended? ==> var a := AfterTxn(pc.job, pc.result); !Owns(a) && !Holds(a) && !Changing(a)
    ensures pc.Unflag? ==> var a := AfterResize(pc.job, pc.caller, pc.result); !Owns(a) && !Holds(a) && !Changing(a)
  {
  }

  lemma StepCounts(s: State, i: nat, o: Outcome)
    requires i < |s.threads| && s.shared.active == Contexts(s.threads)
    ensures Step(s, i, o).shared.active == Contexts(Step(s, i, o).threads)
  {
    ActShape(s.shared, s.threads[i], o);
    hide Contexts, Act, Owns, Holds;
    var t := Step(s, i, o);
    ContextsUpdate(s.threads, i, t.threads[i]);
  }

  lemma StepOwned(s: State, i: nat, o: Outcome)
    requires i < |s.threads| && FlagOwned(s)
    ensures FlagOwned(Step(s, i, o))
  {
    ActShape(s.shared, s.threads[i], o);
    hide Act, Owns, Holds;
  }

  lemma StepExclusive(s: State, i: nat, o: Outcome)
    requires i < |s.threads| && FlagOwned(s) && Exclusive(s)
    ensures Exclusive(Step(s, i, o))
  {
    ActShape(s.shared, s.threads[i], o);
    ChangingOwns();
    hide Act, Owns, Holds, Changing;
    var t := Step(s, i, o);
    forall j | 0 <= j < |t.threads| && Changing(t.threads[j].pc) ensures t.shared.active == 0 {
      if j != i {
        assert Owns(s.threads[j].pc);
      }
    }
  }

  lemma ChangingOwns()
    ensures forall pc: Pc :: Changing(pc) ==> Owns(pc)
    ensures forall pc: Pc :: pc.Counting? ==> Owns(pc)
  {
  }

  lemma ActBookkept(c: Shared, t: Thread, o: Outcome)
    requires Bookkept(t)
    ensures Bookkept(Act(c, t, o).thread)
  {
    hide AfterBegin, AfterTxn, AfterResize;
    OnwardBookkept(t);
  }

  /** A thread that released its context or the flag goes on with the attempts it has left. */
  lemma OnwardBookkept(t: Thread)
    requires Bookkept(t)
    ensures t.pc.BeginFailed? ==> Bookkept(t.(pc := AfterBegin(t.pc.job, t.pc.attempt, t.pc.error)))
    ensures t.pc.Ended? ==> Bookkept(t.(pc := AfterTxn(t.pc.job, t.pc.result)))
    ensures t.pc.Unflag? ==> Bookkept(t.(pc := AfterResize(t.pc.job, t.pc.caller, t.pc.result)))
  {
  }

  lemma GoKeepsInv(s: State, i: nat, o: Outcome)
    requires Inv(s) && i < |s.threads|
    ensures Inv(Step(s, i, o))
  {
    hide Contexts, Act, Bookkept, FlagOwned, Exclusive;
    StepCounts(s, i, o);
    StepOwned(s, i, o);
    StepExclusive(s, i, o);
    ActBookkept(s.shared, s.threads[i], o);
  }

  /** A thread that starts, keeps or drops a transaction leaves the flag alone. */
  lemma OwnMoveKeepsInv(s: State, m: Move)
    requires Inv(s) && m.thread < |s.threads| && !m.Go?
    ensures Inv(Next(s, m))
    ensures Next(s, m).shared.flag == s.shared.flag && Next(s, m).shared.active <= s.shared.active
    ensures Next(s, m).shared.mapSize == s.shared.mapSize
    ensures forall i :: 0 <= i < |s.threads| ==> Owns(Next(s, m).threads[i].pc) == Owns(s.threads[i].pc)
    ensures |Next(s, m).threads| == |s.threads|
  {
    hide Contexts;
    var t := Next(s, m);
    ContextsUpdate(s.threads, m.thread, t.threads[m.thread]);
    assert t.threads == s.threads[m.thread := t.threads[m.thread]];
    assert s.threads[m.thread] in s.threads && Bookkept(s.threads[m.thread]);
    assert Bookkept(t.threads[m.thread]);
    hide Bookkept;
    assert forall i :: 0 <= i < |s.threads| && i != m.thread ==> t.threads[i] == s.threads[i];
    assert Owns(t.threads[m.thread].pc) == Owns(s.threads[m.thread].pc);
    assert Changing(t.threads[m.thread].pc) ==> Changing(s.threads[m.thread].pc);
    hide Owns, Changing, Start, KeepOpen, Release, Holds;
  }

  /** Every move of every thread keeps the invariant. */
  lemma NextKeepsInv(s: State, m: Move)
    requires Inv(s)
    ensures Inv(Next(s, m))
  {
    hide Inv, Step, Start, KeepOpen, Release;
    if m.thread < |s.threads| {
      if m.Go? {
        GoKeepsInv(s, m.thread, m.outcome);
      } else {
        OwnMoveKeepsInv(s, m);
      }
    }
  }

  lemma {:induction false} RunKeepsInv(s: State, moves: seq<Move>)
    requires Inv(s)
    ensures Inv(Run(s, moves))
  {
    hide Inv, Next;
    if moves != [] {
      RunKeepsInv(s, moves[..|moves| - 1]);
      NextKeepsInv(Run(s, moves[..|moves| - 1]), moves[|moves| - 1]);
    }
  }

  lemma InitialInv(threads: nat, mapSize: nat)
    ensures Inv(Initial(threads, mapSize)) && !Leaked(Initial(threads, mapSize))
  {
    NoContexts(Initial(threads, mapSize).threads);
  }

  // ----- The promises -----

  /** In every interleaving: `active` is the number of held contexts, at most one thread is resizing, and while it is,
      no thread holds a context. */
  lemma ResizeExclusion(threads: nat, mapSize: nat, moves: seq<Move>)
    ensures var s := Run(Initial(threads, mapSize), moves);
      && s.shared.active == Contexts(s.threads)
      && (forall i, j :: 0 <= i < |s.threads| && 0 <= j < |s.threads| && Changing(s.threads[i].pc) ==>
            ContextsOf(s.threads[j]) == 0 && (Changing(s.threads[j].pc) ==> i == j))
  {
    hide Run, Initial, Contexts, ContextsOf;
    InitialInv(threads, mapSize);
    RunKeepsInv(Initial(threads, mapSize), moves);
    var s := Run(Initial(threads, mapSize), moves);
    NoContexts(s.threads);
  }

  /** The map grows only in a step of a thread that excludes all transactions. */
  lemma OnlyResizeGrows(s: State, m: Move)
    requires Inv(s) && Next(s, m).shared.mapSize != s.shared.mapSize
    ensures m.Go? && m.thread < |s.threads| && s.threads[m.thread].pc.Resizing?
    ensures Next(s, m).shared.mapSize == s.shared.mapSize + Min(s.shared.mapSize, MAX_RESIZE)
    ensures forall j :: 0 <= j < |s.threads| ==> ContextsOf(s.threads[j]) == 0
  {
    NoContexts(s.threads);
    assert Changing(s.threads[m.thread].pc);
  }

  /** `try_write` commits its callback exactly once when it succeeds and never when it fails. */
  lemma WriteCommitsOnce(threads: nat, mapSize: nat, moves: seq<Move>, i: nat)
    requires var s := Run(Initial(threads, mapSize), moves);
      i < |s.threads| && s.threads[i].pc.Done? && s.threads[i].pc.job.Writer?
    ensures var t := Run(Initial(threads, mapSize), moves).threads[i];
      t.commits == (if t.pc.result == Success then 1 else 0) && t.runs <= t.attempts
  {
    hide Run, Initial, Contexts, FlagOwned, Exclusive;
    InitialInv(threads, mapSize);
    RunKeepsInv(Initial(threads, mapSize), moves);
    var s := Run(Initial(threads, mapSize), moves);
    assert s.threads[i] in s.threads;
  }

  // ----- Deadlock -----

  /** Waits for the flag, or for the other contexts to go. */
  predicate Waits(pc: Pc) { pc.Spin? || pc.WantFlag? || pc.Draining? }

  /** Some thread has work, and nothing that any thread can do changes the state. */
  ghost predicate Stuck(s: State) {
    && (exists i :: 0 <= i < |s.threads| && !Rests(s.threads[i].pc))
    && (forall m: Move :: !m.Begin? ==> Next(s, m) == s)
  }

  /** A resizing thread waits for contexts that only waiting threads keep, itself possibly among them. */
  ghost predicate Blocked(s: State) {
    && (exists i :: 0 <= i < |s.threads| && s.threads[i].pc.Draining?)
    && s.shared.active > 0
    && (forall i :: 0 <= i < |s.threads| && ContextsOf(s.threads[i]) > 0 ==> Waits(s.threads[i].pc))
  }

  lemma Moves(s: State, i: nat)
    requires i < |s.threads| && !Rests(s.threads[i].pc)
    requires s.shared.flag ==> !s.threads[i].pc.Spin? && !s.threads[i].pc.WantFlag?
    requires s.shared.active > 0 ==> !s.threads[i].pc.Draining?
    ensures Next(s, Go(i, Success)) != s
  {
    assert Step(s, i, Success).threads[i].pc != s.threads[i].pc;
  }

  lemma Drops(s: State, i: nat)
    requires i < |s.threads| && Rests(s.threads[i].pc) && s.threads[i].held > 0
    ensures Next(s, Drop(i)) != s
  {
    assert Release(s, i).threads[i].held != s.threads[i].held;
  }

  lemma StuckIsBlocked(s: State)
    requires Inv(s) && !Leaked(s) && Stuck(s)
    ensures Blocked(s)
  {
    hide Bookkept, Next, Contexts;
    forall i | 0 <= i < |s.threads| ensures !Rests(s.threads[i].pc) ==> Waits(s.threads[i].pc) {
      if !Rests(s.threads[i].pc) && !Waits(s.threads[i].pc) { Moves(s, i); }
    }
    var work :| 0 <= work < |s.threads| && !Rests(s.threads[work].pc);
    if !s.shared.flag || s.shared.active == 0 {
      if !s.shared.flag {
        Moves(s, work);
      } else {
        var owner :| 0 <= owner < |s.threads| && Owns(s.threads[owner].pc);
        Moves(s, owner);
      }
    } else {
      var owner :| 0 <= owner < |s.threads| && Owns(s.threads[owner].pc);
      assert s.threads[owner].pc.Draining?;
      forall i | 0 <= i < |s.threads| && ContextsOf(s.threads[i]) > 0 ensures Waits(s.threads[i].pc) {
        if Rests(s.threads[i].pc) { Drops(s, i); }
      }
    }
  }

  lemma BlockedIsStuck(s: State)
    requires Inv(s) && Blocked(s)
    ensures Stuck(s)
  {
    hide Bookkept, Contexts;
    var owner :| 0 <= owner < |s.threads| && s.threads[owner].pc.Draining?;
    assert Owns(s.threads[owner].pc) && !Rests(s.threads[owner].pc);
    forall m: Move | !m.Begin? ensures Next(s, m) == s {
      if m.thread < |s.threads| {
        var i := m.thread;
        assert i != owner ==> !Owns(s.threads[i].pc);
        assert s.threads[i := s.threads[i]] == s.threads;
      }
    }
  }

  /** While the flag is not leaked, the threads are stuck if and only if a resizing thread waits for contexts that are all
      kept by waiting threads: some caller holds a read transaction across a write that has to grow the map. */
  lemma DeadlockExactly(s: State)
    requires Inv(s) && !Leaked(s)
    ensures Stuck(s) <==> Blocked(s)
  {
    hide Inv, Leaked;
    if Stuck(s) { StuckIsBlocked(s); }
    if Blocked(s) { BlockedIsStuck(s); }
  }

  /** So it never happens while no thread keeps a transaction beneath a waiting call. */
  lemma NoDeadlock(s: State)
    requires Inv(s) && !Leaked(s) && forall i :: 0 <= i < |s.threads| && Waits(s.threads[i].pc) ==> s.threads[i].held == 0
    ensures !Stuck(s)
  {
    hide Inv, Leaked, Stuck;
    DeadlockExactly(s);
    if Blocked(s) {
      assert Inv(s);
      BlockedHolder(s);
    }
  }

  lemma BlockedHolder(s: State)
    requires Inv(s) && Blocked(s)
    ensures exists i :: 0 <= i < |s.threads| && Waits(s.threads[i].pc) && s.threads[i].held > 0
  {
    NoContexts(s.threads);
  }

  // ----- The leak -----

  /** The thread is about to read the size of the map, and that fails. */
  predicate FailsToRead(s: State, m: Move) {
    m.Go? && m.thread < |s.threads| && s.threads[m.thread].pc.Resizing? && m.outcome == InfoFailed
  }

  /** The flag is left set without an owner exactly when reading the size of the map fails inside `resize`. */
  lemma LeakExactly(s: State, m: Move)
    requires Inv(s) && !Leaked(s)
    ensures Leaked(Next(s, m)) <==> FailsToRead(s, m)
  {
    hide Contexts, Bookkept;
    var t := Next(s, m);
    if m.thread < |s.threads| {
      var i := m.thread;
      if m.Go? {
        ActShape(s.shared, s.threads[i], m.outcome);
        ResizingOwns();
        hide Act, Owns, Holds, Changing;
        assert forall j :: 0 <= j < |s.threads| && j != i ==> t.threads[j] == s.threads[j];
        assert Owns(t.threads[i].pc) ==> !Leaked(t);
        if s.shared.flag {
          var owner :| 0 <= owner < |s.threads| && Owns(s.threads[owner].pc);
          if owner != i {
            assert !Owns(s.threads[i].pc) && Owns(t.threads[owner].pc);
          } else {
            assert forall j :: 0 <= j < |s.threads| && j != i ==> !Owns(t.threads[j].pc);
          }
        } else {
          assert !Owns(s.threads[i].pc);
        }
      } else {
        OwnMoveKeepsInv(s, m);
      }
    }
  }

  lemma ResizingOwns()
    ensures forall pc: Pc :: pc.Resizing? ==> Owns(pc)
  {
  }

  /** After a leak no thread ever acquires a context, and the map never grows again. */
  lemma {:induction false} LeakIsForever(s: State, moves: seq<Move>)
    requires Inv(s) && Leaked(s)
    ensures var t := Run(s, moves);
      Leaked(t) && t.shared.active <= s.shared.active && t.shared.mapSize == s.shared.mapSize && Inv(t)
  {
    hide Inv, Leaked, Next;
    if moves != [] {
      LeakIsForever(s, moves[..|moves| - 1]);
      LeakStays(Run(s, moves[..|moves| - 1]), moves[|moves| - 1]);
    }
  }

  lemma LeakStays(s: State, m: Move)
    requires Inv(s) && Leaked(s)
    ensures Leaked(Next(s, m)) && Next(s, m).shared.active <= s.shared.active
    ensures Next(s, m).shared.mapSize == s.shared.mapSize && Inv(Next(s, m))
  {
    NextKeepsInv(s, m);
    if m.thread < |s.threads| && !m.Go? {
      OwnMoveKeepsInv(s, m);
    }
  }

  ghost predicate FailedIn(s: State, moves: seq<Move>) {
    exists n :: 0 <= n < |moves| && FailsToRead(Run(s, moves[..n]), moves[n])
  }

  lemma FailedInMore(s: State, moves: seq<Move>)
    requires moves != []
    ensures FailedIn(s, moves) <==>
      FailedIn(s, moves[..|moves| - 1]) || FailsToRead(Run(s, moves[..|moves| - 1]), moves[|moves| - 1])
  {
    hide FailsToRead, Run;
    var init := moves[..|moves| - 1];
    assert forall n :: 0 <= n < |init| ==> init[..n] == moves[..n] && init[n] == moves[n];
  }

  /** In every run the flag is leaked if and only if some resize failed to read the size of the map. */
  lemma {:induction false} RunLeaksExactly(s: State, moves: seq<Move>)
    requires Inv(s) && !Leaked(s)
    ensures Leaked(Run(s, moves)) <==> FailedIn(s, moves)
  {
    hide Leaked, FailsToRead, Next, Inv;
    if moves != [] {
      hide FailedIn;
      var init, last := moves[..|moves| - 1], moves[|moves| - 1];
      RunLeaksExactly(s, init);
      RunKeepsInv(s, init);
      FailedInMore(s, moves);
      if Leaked(Run(s, init)) {
        LeakStays(Run(s, init), last);
      } else {
        LeakExactly(Run(s, init), last);
      }
    }
  }
}
