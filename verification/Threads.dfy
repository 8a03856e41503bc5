/** How `check_loop` (src/scanner.cpp) spreads the active accounts over the scan threads. */
module Threads {
  import opened Rows

  /** `account_depth`: the workload of an account, and how far it is behind. */
  datatype Depth = Depth(index: nat, depth: nat, raw: nat)

  type Assignment = seq<seq<Depth>>

  function Load(accounts: seq<Depth>): nat {
    if accounts == [] then 0 else Load(accounts[..|accounts| - 1]) + accounts[|accounts| - 1].depth
  }

  /** The accounts of all threads in thread order. */
  function Joined(threads: Assignment): seq<Depth> {
    if threads == [] then [] else Joined(threads[..|threads| - 1]) + threads[|threads| - 1]
  }

  function PushBack(threads: Assignment, i: nat, d: Depth): Assignment
    requires i < |threads|
  {
    threads[i := threads[i] + [d]]
  }

  lemma {:induction false} JoinedAppend(a: Assignment, b: Assignment)
    ensures Joined(a + b) == Joined(a) + Joined(b)
  {
    if b == [] {
      assert a + b == a;
    } else {
      assert (a + b)[..|a + b| - 1] == a + b[..|b| - 1];
      JoinedAppend(a, b[..|b| - 1]);
    }
  }

  lemma {:induction false} LoadAppend(a: seq<Depth>, b: seq<Depth>)
    ensures Load(a + b) == Load(a) + Load(b)
  {
    if b == [] {
      assert a + b == a;
    } else {
      assert (a + b)[..|a + b| - 1] == a + b[..|b| - 1];
      LoadAppend(a, b[..|b| - 1]);
    }
  }

  lemma {:induction false} JoinedEmpty(threads: Assignment)
    requires forall t :: 0 <= t < |threads| ==> threads[t] == []
    ensures Joined(threads) == []
  {
    if threads != [] {
      JoinedEmpty(threads[..|threads| - 1]);
    }
  }

  lemma JoinedLast(threads: Assignment, t: seq<Depth>)
    ensures Joined(threads + [t]) == Joined(threads) + t
  {
    assert (threads + [t])[..|threads + [t]| - 1] == threads;
  }

  lemma SplitJoined(a: Assignment, t: seq<Depth>, b: Assignment)
    ensures Joined((a + [t]) + b) == (Joined(a) + t) + Joined(b)
  {
    hide Joined;
    JoinedAppend(a + [t], b);
    JoinedLast(a, t);
  }

  lemma Slices<T>(s: seq<T>, i: nat)
    requires i < |s|
    ensures s == (s[..i] + [s[i]]) + s[i + 1..]
  {
  }

  lemma SplitAt(threads: Assignment, i: nat)
    requires i < |threads|
    ensures Joined(threads) == (Joined(threads[..i]) + threads[i]) + Joined(threads[i + 1..])
  {
    Slices(threads, i);
    SplitJoined(threads[..i], threads[i], threads[i + 1..]);
  }

  /** A push adds the account, and nothing else, to the accounts of all threads. */
  lemma PushJoined(threads: Assignment, i: nat, d: Depth)
    requires i < |threads|
    ensures multiset(Joined(PushBack(threads, i, d))) == multiset(Joined(threads)) + multiset{d}
    ensures (forall t :: i < t < |threads| ==> threads[t] == []) ==> Joined(PushBack(threads, i, d)) == Joined(threads) + [d]
  {
    hide Joined;
    var after := PushBack(threads, i, d);
    SplitAt(threads, i);
    SplitAt(after, i);
    assert after[..i] == threads[..i] && after[i + 1..] == threads[i + 1..];
    Insertion(Joined(threads[..i]), threads[i], d, Joined(threads[i + 1..]));
    if forall t :: i < t < |threads| ==> threads[t] == [] {
      JoinedEmpty(threads[i + 1..]);
    }
  }

  lemma Insertion(a: seq<Depth>, b: seq<Depth>, d: Depth, c: seq<Depth>)
    ensures multiset((a + (b + [d])) + c) == multiset((a + b) + c) + multiset{d}
    ensures c == [] ==> (a + (b + [d])) + c == ((a + b) + c) + [d]
  {
  }

  // ----- Depths -----

  /** Unsigned 64-bit difference: an account ahead of the chain wraps around. */
  function RawDepth(current: nat, scanHeight: nat): nat { (current - scanHeight) % UINT64_LIMIT }

  method DepthsOf(scanHeights: seq<nat>, current: nat, minDepth: nat) returns (depths: seq<Depth>)
    ensures |depths| == |scanHeights|
    ensures forall i :: 0 <= i < |depths| ==>
      depths[i] == Depth(i, Max(RawDepth(current, scanHeights[i]), minDepth), RawDepth(current, scanHeights[i]))
  {
    depths := [];
    for i := 0 to |scanHeights|
      invariant |depths| == i
      invariant forall j :: 0 <= j < i ==>
        depths[j] == Depth(j, Max(RawDepth(current, scanHeights[j]), minDepth), RawDepth(current, scanHeights[j]))
    {
      var raw := RawDepth(current, scanHeights[i]);
      depths := depths + [Depth(i, Max(raw, minDepth), raw)];
    }
  }

  // ----- Round robin over the synced threads -----

  /** `i` accounts were dealt: `round` to every one of the `n` threads, and one more to the first `turn`. */
  ghost predicate Dealt(i: nat, n: nat, round: nat, turn: nat) { turn < n && i == round * n + turn }

  lemma NextTurn(i: nat, n: nat, round: nat, turn: nat)
    requires Dealt(i, n, round, turn)
    ensures i % n == turn && i / n == round
    ensures if turn + 1 == n then Dealt(i + 1, n, round + 1, 0) else Dealt(i + 1, n, round, turn + 1)
  {
    Distribute(round, n);
    Divided(i, round, n, turn);
  }

  /** The first `n` threads share `total` accounts, no two sizes more than one apart. */
  ghost predicate RoundRobin(threads: Assignment, total: nat, n: nat) {
    0 < n <= |threads| && forall t :: 0 <= t < n ==> total / n <= |threads[t]| <= total / n + 1
  }

  method DealSynced(start: Assignment, synced: seq<Depth>, n: nat) returns (threads: Assignment)
    requires 0 < n <= |start| && forall t :: 0 <= t < |start| ==> start[t] == []
    ensures |threads| == |start|
    ensures multiset(Joined(threads)) == multiset(synced)
    ensures forall t :: n <= t < |threads| ==> threads[t] == []
    ensures RoundRobin(threads, |synced|, n)
  {
    hide Dealt, Joined;
    threads := start;
    JoinedEmpty(start);
    ghost var round, turn := 0, 0;
    assert Dealt(0, n, 0, 0) by { FirstTurn(n); }
    for i := 0 to |synced|
      invariant |threads| == |start| && 0 <= turn < n && 0 <= round && Dealt(i, n, round, turn)
      invariant multiset(Joined(threads)) == multiset(synced[..i])
      invariant forall t :: n <= t < |threads| ==> threads[t] == []
      invariant forall t :: 0 <= t < n ==> |threads[t]| == if t < turn then round + 1 else round
    {
      NextTurn(i, n, round, turn);
      var thread := i % n;
      PushJoined(threads, thread, synced[i]);
      Prefix(synced, i);
      threads := PushBack(threads, thread, synced[i]);
      turn := turn + 1;
      if turn == n {
        round, turn := round + 1, 0;
      }
    }
    NextTurn(|synced|, n, round, turn);
    assert synced[..|synced|] == synced;
  }

  lemma FirstTurn(n: nat)
    requires n > 0
    ensures Dealt(0, n, 0, 0)
  {
  }

  lemma Divided(x: nat, q: nat, n: nat, r: nat)
    requires r < n && x == q * n + r
    ensures x / n == q && x % n == r
  {
    var p, t := x / n, x % n;
    assert x == p * n + t;
    if p < q { Larger(p + 1, q, n); Distribute(p, n); }
    if q < p { Larger(q + 1, p, n); Distribute(q, n); }
  }

  // ----- The greedy allocator -----

  function SumLoads(threads: Assignment): nat { Load(Joined(threads)) }

  /** What `j` threads that were left behind hold at least: even ones the target, odd ones all but one account of it. */
  function LeftBehind(j: nat, target: nat, cap: nat): int { ((j + 1) / 2) * target + (j / 2) * (target + 1 - cap) }

  /** Loads of the first `j` threads, which are closed. */
  ghost predicate Closed(threads: Assignment, j: nat, target: nat, cap: nat)
    requires j <= |threads|
  {
    forall o :: 0 <= o < j ==>
      if o % 2 == 0 then target <= Load(threads[o]) <= target + cap
      else target < Load(threads[o]) + cap && Load(threads[o]) <= Max(target, cap)
  }

  lemma {:induction false} ClosedSum(threads: Assignment, target: nat, cap: nat)
    requires Closed(threads, |threads|, target, cap)
    ensures SumLoads(threads) >= LeftBehind(|threads|, target, cap)
  {
    if threads != [] {
      var n := |threads| - 1;
      ClosedSum(threads[..n], target, cap);
      LoadAppend(Joined(threads[..n]), threads[n]);
      LeftBehindStep(n, target, cap);
    }
  }

  lemma LeftBehindStep(j: nat, target: nat, cap: nat)
    ensures LeftBehind(j + 1, target, cap) == LeftBehind(j, target, cap) + if j % 2 == 0 then target else target + 1 - cap
  {
    if j % 2 == 0 {
      var h := j / 2;
      assert (j + 2) / 2 == h + 1 && (j + 1) / 2 == h;
      Distribute(h, target);
    } else {
      var h := j / 2;
      assert (j + 2) / 2 == h + 1 && (j + 1) / 2 == h + 1;
      Distribute(h, target + 1 - cap);
    }
  }

  lemma Distribute(h: nat, x: int)
    ensures (h + 1) * x == h * x + x
  {
  }

  /** What is left for the last of `k` threads. */
  lemma LastLoad(k: nat, total: nat, others: nat, target: nat, cap: nat)
    requires k > 0 && cap > 0 && target == total / k && LeftBehind(k - 1, target, cap) <= others <= total
    ensures total - others <= target + (k - 1) + ((k - 1) / 2) * (cap - 1)
  {
    var even, odd := k / 2, (k - 1) / 2;
    assert (k - 1 + 1) / 2 == even && even + odd == k - 1;
    Quotient(total, k);
    assert odd * (target + 1 - cap) == odd * target - odd * (cap - 1) by { Spread(odd, target, cap); }
    assert even * target + odd * target == (k - 1) * target by { Gather(even, odd, target); }
    Distribute(k - 1, target);
  }

  lemma Quotient(total: nat, k: nat)
    requires k > 0
    ensures total <= k * (total / k) + (k - 1)
  {
  }

  lemma Spread(n: nat, x: int, y: int)
    ensures n * (x + 1 - y) == n * x - n * (y - 1)
  {
  }

  lemma Gather(a: nat, b: nat, x: int)
    ensures a * x + b * x == (a + b) * x
  {
  }

  /** The documented bound on every thread of the greedy allocator. */
  ghost predicate Balanced(threads: Assignment, total: nat, cap: nat)
    requires threads != []
  {
    var k := |threads|;
    var target := total / k;
    && (forall o :: 0 <= o < k - 1 ==>
          if o % 2 == 0 then Load(threads[o]) <= target + cap else Load(threads[o]) <= Max(target, cap))
    && Load(threads[k - 1]) <= target + (k - 1) + ((k - 1) / 2) * (cap - 1)
  }

  lemma LoadOne(d: Depth)
    ensures Load([d]) == d.depth && Load([]) == 0
  {
  }

  lemma {:induction false} PartLoad(threads: Assignment, i: nat)
    requires i < |threads|
    ensures Load(threads[i]) <= Load(Joined(threads))
  {
    hide Load, Joined;
    SplitAt(threads, i);
    LoadAppend(Joined(threads[..i]) + threads[i], Joined(threads[i + 1..]));
    LoadAppend(Joined(threads[..i]), threads[i]);
  }

  /** The thread that is being filled. */
  ghost predicate Open(threads: Assignment, j: nat, target: nat, cap: nat)
    requires j < |threads|
  {
    j < |threads| - 1 ==> Load(threads[j]) <= if j % 2 == 0 then target + cap else Max(target, cap)
  }

  lemma CloseThread(threads: Assignment, j: nat, target: nat, cap: nat, d: Depth)
    requires j + 1 < |threads| && Closed(threads, j, target, cap) && Open(threads, j, target, cap) && d.depth <= cap
    requires if j % 2 == 0 then Load(threads[j]) >= target else Load(threads[j]) + d.depth > target
    ensures Closed(threads, j + 1, target, cap)
  {
    hide Load;
  }

  lemma FillThread(threads: Assignment, j: nat, target: nat, cap: nat, d: Depth)
    requires j < |threads| && Closed(threads, j, target, cap) && d.depth <= cap
    requires j < |threads| - 1 ==>
      Load(threads[j]) == 0 || if j % 2 == 0 then Load(threads[j]) < target else Load(threads[j]) + d.depth <= target
    ensures Closed(PushBack(threads, j, d), j, target, cap) && Open(PushBack(threads, j, d), j, target, cap)
    ensures Load(PushBack(threads, j, d)[j]) == Load(threads[j]) + d.depth
  {
    LoadAppend(threads[j], [d]);
    LoadOne(d);
    hide Load;
  }

  lemma AllBalanced(threads: Assignment, j: nat, accounts: seq<Depth>, target: nat, cap: nat)
    requires j < |threads| && cap > 0 && Joined(threads) == accounts
    requires forall t :: j < t < |threads| ==> threads[t] == []
    requires target == Load(accounts) / |threads| && Closed(threads, j, target, cap) && Open(threads, j, target, cap)
    ensures Balanced(threads, Load(accounts), cap)
  {
    hide Load, Joined;
    LoadOne(Depth(0, 0, 0));
    var k := |threads|;
    if j == k - 1 {
      LastBalanced(threads, accounts, target, cap);
    } else {
      NotNegative((k - 1) / 2, cap - 1);
    }
  }

  lemma LastBalanced(threads: Assignment, accounts: seq<Depth>, target: nat, cap: nat)
    requires threads != [] && cap > 0 && Joined(threads) == accounts
    requires target == Load(accounts) / |threads| && Closed(threads, |threads| - 1, target, cap)
    ensures var k := |threads|; Load(threads[k - 1]) <= target + (k - 1) + ((k - 1) / 2) * (cap - 1)
  {
    hide Load, Joined;
    var k := |threads|;
    var front := threads[..k - 1];
    assert Closed(front, |front|, target, cap);
    hide Closed;
    assert threads == front + [threads[k - 1]];
    JoinedLast(front, threads[k - 1]);
    LoadAppend(Joined(front), threads[k - 1]);
    ClosedSum(front, target, cap);
    LastLoad(k, Load(accounts), SumLoads(front), target, cap);
  }

  lemma NotNegative(a: nat, b: nat)
    ensures a * b >= 0
  {
  }

  /** Even threads are left when they reached the target, odd ones when the account would exceed it. */
  predicate MovesOn(current: nat, currentDepth: nat, d: Depth, perThread: nat) {
    if current % 2 == 0 then currentDepth >= perThread else (currentDepth + d.depth) % UINT64_LIMIT > perThread
  }

  /** After `i` accounts. */
  ghost predicate Filling(threads: Assignment, current: nat, currentDepth: nat, accounts: seq<Depth>, i: nat, target: nat, cap: nat)
    requires i <= |accounts|
  {
    && current < |threads| && Joined(threads) == accounts[..i]
    && (forall t :: current < t < |threads| ==> threads[t] == [])
    && (Load(accounts) < UINT64_LIMIT ==> currentDepth == Load(threads[current]))
    && (Load(accounts) < UINT64_LIMIT ==> Closed(threads, current, target, cap))
    && (Load(accounts) < UINT64_LIMIT ==> Open(threads, current, target, cap))
  }

  lemma Moved(threads: Assignment, current: nat, currentDepth: nat, accounts: seq<Depth>, i: nat, target: nat, cap: nat)
    requires i < |accounts| && Filling(threads, current, currentDepth, accounts, i, target, cap)
    requires current < |threads| - 1 && MovesOn(current, currentDepth, accounts[i], target) && accounts[i].depth <= cap
    ensures Filling(threads, current + 1, 0, accounts, i, target, cap)
  {
    hide Load, Joined, Closed, Open;
    LoadOne(accounts[i]);
    PrefixLoad(threads, current, accounts, i);
    if Load(accounts) < UINT64_LIMIT {
      CloseThread(threads, current, target, cap, accounts[i]);
      OpenEmpty(threads, current + 1, target, cap);
    }
  }

  lemma OpenEmpty(threads: Assignment, j: nat, target: nat, cap: nat)
    requires j < |threads| && threads[j] == []
    ensures Open(threads, j, target, cap)
  {
  }

  lemma Filled(threads: Assignment, current: nat, currentDepth: nat, accounts: seq<Depth>, i: nat, target: nat, cap: nat)
    requires i < |accounts| && Filling(threads, current, currentDepth, accounts, i, target, cap) && accounts[i].depth <= cap
    requires current < |threads| - 1 ==> currentDepth == 0 || !MovesOn(current, currentDepth, accounts[i], target)
    ensures var d := accounts[i];
      Filling(PushBack(threads, current, d), current, (currentDepth + d.depth) % UINT64_LIMIT, accounts, i + 1, target, cap)
  {
    hide Load, Joined, Closed, Open, PushBack;
    var d := accounts[i];
    PrefixLoad(threads, current, accounts, i);
    if Load(accounts) < UINT64_LIMIT { FillThread(threads, current, target, cap, d); }
    PushJoined(threads, current, d);
    Prefix(accounts, i);
    Pushed(threads, current, d);
  }

  /** Every other thread takes at least its share, the ones between at most, and the last one the rest. The accounts
      keep their order. */
  method AssignGreedy(accounts: seq<Depth>, count: nat, ghost cap: nat) returns (threads: Assignment)
    requires count > 0 && cap > 0 && forall d :: d in accounts ==> d.depth <= cap
    ensures |threads| == count && Joined(threads) == accounts
    ensures Load(accounts) < UINT64_LIMIT ==> Balanced(threads, Load(accounts), cap)
  {
    hide Load, Joined, Balanced, Filling, PushBack, MovesOn;
    var total := AddUp(accounts);
    var perThread := total / count;
    threads := seq(count, _ => []);
    var current: nat, currentDepth: nat := 0, 0;
    NothingFilled(threads, accounts, perThread, cap);
    for i := 0 to |accounts|
      invariant |threads| == count && current < count
      invariant Filling(threads, current, currentDepth, accounts, i, perThread, cap)
    {
      if current < count - 1 && MovesOn(current, currentDepth, accounts[i], perThread) {
        Moved(threads, current, currentDepth, accounts, i, perThread, cap);
        current, currentDepth := current + 1, 0;
      }
      Filled(threads, current, currentDepth, accounts, i, perThread, cap);
      Pushed(threads, current, accounts[i]);
      threads := PushBack(threads, current, accounts[i]);
      currentDepth := (currentDepth + accounts[i].depth) % UINT64_LIMIT;
    }
    Unwrapped(Load(accounts));
    AllFilled(threads, current, currentDepth, accounts, perThread, cap);
  }

  lemma Unwrapped(total: nat)
    ensures total < UINT64_LIMIT ==> total % UINT64_LIMIT == total
  {
  }

  lemma NothingFilled(threads: Assignment, accounts: seq<Depth>, target: nat, cap: nat)
    requires threads != [] && forall t :: 0 <= t < |threads| ==> threads[t] == []
    ensures Filling(threads, 0, 0, accounts, 0, target, cap)
  {
    JoinedEmpty(threads);
    assert accounts[..0] == [];
  }

  lemma AllFilled(threads: Assignment, current: nat, currentDepth: nat, accounts: seq<Depth>, target: nat, cap: nat)
    requires Filling(threads, current, currentDepth, accounts, |accounts|, target, cap) && cap > 0
    requires Load(accounts) < UINT64_LIMIT ==> target == Load(accounts) / |threads|
    ensures Joined(threads) == accounts
    ensures Load(accounts) < UINT64_LIMIT ==> Balanced(threads, Load(accounts), cap)
  {
    hide Load, Joined, Balanced, Closed, Open, Max;
    assert accounts[..|accounts|] == accounts;
    if Load(accounts) < UINT64_LIMIT { AllBalanced(threads, current, accounts, target, cap); }
  }

  lemma Pushed(threads: Assignment, i: nat, d: Depth)
    requires i < |threads|
    ensures |PushBack(threads, i, d)| == |threads|
    ensures forall t :: 0 <= t < |threads| && t != i ==> PushBack(threads, i, d)[t] == threads[t]
  {
  }

  /** The load of the current thread and of the next account fits in the total. */
  lemma PrefixLoad(threads: Assignment, j: nat, accounts: seq<Depth>, i: nat)
    requires j < |threads| && i < |accounts| && Joined(threads) == accounts[..i]
    ensures Load(threads[j]) + accounts[i].depth <= Load(accounts)
  {
    hide Load, Joined;
    PartLoad(threads, j);
    Prefix(accounts, i);
    LoadAppend(accounts[..i], [accounts[i]]);
    LoadOne(accounts[i]);
    assert accounts == accounts[..i + 1] + accounts[i + 1..];
    LoadAppend(accounts[..i + 1], accounts[i + 1..]);
  }

  method AddUp(accounts: seq<Depth>) returns (total: nat)
    ensures total == Load(accounts) % UINT64_LIMIT
  {
    total := 0;
    for i := 0 to |accounts|
      invariant total == Load(accounts[..i]) % UINT64_LIMIT
    {
      Prefix(accounts, i);
      total := (total + accounts[i].depth) % UINT64_LIMIT;
    }
    assert accounts[..|accounts|] == accounts;
  }

  // ----- Block-depth mode -----

  function Ceil(x: real): int { -((-x).Floor) }

  /** Threads set aside for synced accounts. */
  function SyncedThreads(share: real, threadCount: nat): (n: nat) {
    Max(1, if share < 0.0 then 0 else CeilNat(share * threadCount as real))
  }

  function CeilNat(x: real): nat { if x <= 0.0 then 0 else Ceil(x) }

  lemma SyncedThreadsFit(share: real, threadCount: nat)
    requires 0.0 < share <= 1.0 && threadCount > 0
    ensures 1 <= SyncedThreads(share, threadCount) <= threadCount
  {
    var k := threadCount as real;
    assert share * k <= k;
  }

  predicate Synced(d: Depth, splitDepth: nat) { d.raw <= splitDepth }

  function SyncedOnes(accounts: seq<Depth>, splitDepth: nat): seq<Depth> {
    if accounts == [] then []
    else
      var init, last := SyncedOnes(accounts[..|accounts| - 1], splitDepth), accounts[|accounts| - 1];
      if Synced(last, splitDepth) then init + [last] else init
  }

  function UnsyncedOnes(accounts: seq<Depth>, splitDepth: nat): seq<Depth> {
    if accounts == [] then []
    else
      var init, last := UnsyncedOnes(accounts[..|accounts| - 1], splitDepth), accounts[|accounts| - 1];
      if Synced(last, splitDepth) then init else init + [last]
  }

  method Separate(accounts: seq<Depth>, splitDepth: nat) returns (synced: seq<Depth>, unsynced: seq<Depth>)
    ensures synced == SyncedOnes(accounts, splitDepth) && unsynced == UnsyncedOnes(accounts, splitDepth)
    ensures multiset(synced) + multiset(unsynced) == multiset(accounts)
  {
    hide SyncedOnes, UnsyncedOnes;
    synced, unsynced := [], [];
    NoneSeparated(splitDepth);
    for i := 0 to |accounts|
      invariant synced == SyncedOnes(accounts[..i], splitDepth) && unsynced == UnsyncedOnes(accounts[..i], splitDepth)
    {
      OneSeparated(accounts, splitDepth, i);
      if Synced(accounts[i], splitDepth) {
        synced := synced + [accounts[i]];
      } else {
        unsynced := unsynced + [accounts[i]];
      }
    }
    assert accounts[..|accounts|] == accounts;
    SeparatedAll(accounts, splitDepth);
  }

  lemma NoneSeparated(splitDepth: nat)
    ensures SyncedOnes([], splitDepth) == [] == UnsyncedOnes([], splitDepth)
  {
  }

  lemma OneSeparated(accounts: seq<Depth>, splitDepth: nat, i: nat)
    requires i < |accounts|
    ensures SyncedOnes(accounts[..i + 1], splitDepth) ==
      SyncedOnes(accounts[..i], splitDepth) + if Synced(accounts[i], splitDepth) then [accounts[i]] else []
    ensures UnsyncedOnes(accounts[..i + 1], splitDepth) ==
      UnsyncedOnes(accounts[..i], splitDepth) + if Synced(accounts[i], splitDepth) then [] else [accounts[i]]
  {
    Prefix(accounts, i);
  }

  /** No account is lost or doubled. */
  lemma {:induction false} SeparatedAll(accounts: seq<Depth>, splitDepth: nat)
    ensures multiset(SyncedOnes(accounts, splitDepth)) + multiset(UnsyncedOnes(accounts, splitDepth)) == multiset(accounts)
  {
    if accounts != [] {
      var init, last := accounts[..|accounts| - 1], accounts[|accounts| - 1];
      SeparatedAll(init, splitDepth);
      assert accounts == init + [last];
    }
  }

  /** Unsynced accounts are left without a thread: the synced ones took them all. */
  predicate Dropped(accounts: seq<Depth>, threadCount: nat, share: real, splitDepth: nat) {
    && share > 0.0 && SyncedThreads(share, threadCount) == threadCount
    && SyncedOnes(accounts, splitDepth) != [] && UnsyncedOnes(accounts, splitDepth) != []
  }

  /** `accounts` is sorted by raw depth; the order plays no part in what is promised. */
  method AssignByDepth(accounts: seq<Depth>, threadCount: nat, share: real, splitDepth: nat, ghost cap: nat)
    returns (threads: Assignment)
    requires threadCount > 0 && 0.0 <= share <= 1.0
    requires cap > 0 && forall d :: d in accounts ==> d.depth <= cap
    ensures |threads| == threadCount
    ensures multiset(Joined(threads)) == multiset(accounts) <==> !Dropped(accounts, threadCount, share, splitDepth)
    ensures Dropped(accounts, threadCount, share, splitDepth) ==>
      multiset(Joined(threads)) == multiset(SyncedOnes(accounts, splitDepth))
    ensures share == 0.0 && accounts != [] && Load(accounts) < UINT64_LIMIT ==> Balanced(threads, Load(accounts), cap)
    ensures var n, rest := SyncedThreads(share, threadCount), UnsyncedOnes(accounts, splitDepth);
      share > 0.0 && SyncedOnes(accounts, splitDepth) != [] && rest != [] && n < threadCount && Load(rest) < UINT64_LIMIT ==>
        Balanced(threads[n..], Load(rest), cap)
    ensures var synced := SyncedOnes(accounts, splitDepth);
      share > 0.0 && synced != [] ==>
        RoundRobin(threads, |synced|, Min(SyncedThreads(share, threadCount), |synced|))
  {
    hide Load, Balanced, SyncedOnes, UnsyncedOnes, Joined, SyncedThreads, RoundRobin;
    threads := seq(threadCount, _ => []);
    JoinedEmpty(threads);
    var toAssign, start, count := accounts, 0, threadCount;
    ghost var kept: seq<Depth> := [];
    if share > 0.0 {
      SyncedThreadsFit(share, threadCount);
      var synced, unsynced := Separate(accounts, splitDepth);
      toAssign := unsynced;
      if synced != [] {
        start := SyncedThreads(share, threadCount);
        count := threadCount - start;
        kept := synced;
        threads := DealSynced(threads, synced, Min(start, |synced|));
      }
      SameAccounts(unsynced, accounts);
    }
    if toAssign != [] && count > 0 {
      var part := AssignGreedy(toAssign, count, cap);
      Rest(threads, start, part);
      KeepsSynced(threads, start, part);
      threads := threads[..start] + part;
      assert threads[start..] == part;
      assert start == 0 ==> threads == part;
    }
  }

  lemma SameAccounts(some: seq<Depth>, all: seq<Depth>)
    requires multiset(some) <= multiset(all)
    ensures forall d :: d in some ==> d in all
  {
    forall d | d in some ensures d in all {
      assert d in multiset(some);
    }
  }

  lemma KeepsSynced(threads: Assignment, start: nat, part: Assignment)
    requires start <= |threads|
    ensures forall total: nat, n: nat :: n <= start && RoundRobin(threads, total, n) ==> RoundRobin(threads[..start] + part, total, n)
  {
  }

  lemma Rest(threads: Assignment, start: nat, part: Assignment)
    requires start <= |threads| && forall t :: start <= t < |threads| ==> threads[t] == []
    ensures Joined(threads[..start] + part) == Joined(threads) + Joined(part)
  {
    hide Joined;
    assert threads == threads[..start] + threads[start..];
    JoinedAppend(threads[..start], threads[start..]);
    JoinedEmpty(threads[start..]);
    JoinedAppend(threads[..start], part);
  }

  // ----- Even split -----

  /** The last thread was given the first accounts. */
  function JoinedBack<T>(threads: seq<seq<T>>): seq<T> {
    if threads == [] then [] else threads[|threads| - 1] + JoinedBack(threads[..|threads| - 1])
  }

  /** What is left allows `share` or one more account for each of the remaining threads. */
  ghost predicate Within(left: nat, threads: nat, share: nat) { share * threads <= left <= (share + 1) * threads }

  function EvenShare(left: nat, threads: nat): nat
    requires threads > 0
  {
    left / threads
  }

  lemma Shares(left: nat, threads: nat, share: nat)
    requires threads > 0 && Within(left, threads, share)
    ensures share <= EvenShare(left, threads) <= share + 1 && EvenShare(left, threads) <= left
    ensures Within(left - EvenShare(left, threads), threads - 1, share)
  {
    var count, spare := left / threads, left % threads;
    assert left == count * threads + spare;
    ShareBounds(count, spare, threads, share);
    hide EvenShare, Within;
    assert EvenShare(left, threads) == count by { TheShare(left, threads); }
    Leftover(left, count, spare, threads, share);
  }

  lemma TheShare(left: nat, threads: nat)
    requires threads > 0
    ensures EvenShare(left, threads) == left / threads
  {
  }

  lemma ShareBounds(count: nat, spare: nat, threads: nat, share: nat)
    requires spare < threads && Within(count * threads + spare, threads, share)
    ensures count == share || (count == share + 1 && spare == 0)
  {
    Distribute(count, threads);
    Distribute(share, threads);
    Distribute(share + 1, threads);
    if count < share { Larger(count + 1, share, threads); }
    if count > share + 1 { Larger(share + 2, count, threads); }
  }

  lemma Leftover(left: nat, count: nat, spare: nat, threads: nat, share: nat)
    requires left == count * threads + spare && spare < threads
    requires count == share || (count == share + 1 && spare == 0)
    ensures count <= left && Within(left - count, threads - 1, share)
  {
    assert count * threads == count * (threads - 1) + count;
    Distribute(share, threads - 1);
    NotNegative(count, threads - 1);
  }

  lemma Larger(a: nat, b: nat, n: nat)
    requires a <= b
    ensures a * n <= b * n
  {
  }

  /** Without block depths: every thread takes its share of the accounts that are left, from the end. */
  method SplitEvenly<T>(sorted: seq<T>, threadCount: nat) returns (threads: seq<seq<T>>)
    requires threadCount > 0
    ensures |threads| == threadCount && JoinedBack(threads) == sorted
    ensures forall t :: 0 <= t < threadCount ==> |sorted| / threadCount <= |threads[t]| <= |sorted| / threadCount + 1
  {
    hide JoinedBack, Within, EvenShare;
    var users := sorted;
    threads := [];
    NothingBack<T>();
    ghost var share := EvenShare(|sorted|, threadCount);
    FirstShare(|sorted|, threadCount);
    for i := 0 to threadCount
      invariant |threads| == i && sorted == users + JoinedBack(threads)
      invariant Within(|users|, threadCount - i, share)
      invariant forall t :: 0 <= t < i ==> share <= |threads[t]| <= share + 1
    {
      Shares(|users|, threadCount - i, share);
      var count := EvenShare(|users|, threadCount - i);
      var mine := users[|users| - count..];
      JoinedBackLast(threads, mine);
      TakeTail(users, count, JoinedBack(threads));
      threads := threads + [mine];
      users := users[..|users| - count];
    }
    NothingLeft(|users|, share);
    TheShare(|sorted|, threadCount);
  }

  lemma NothingLeft(left: nat, share: nat)
    requires Within(left, 0, share)
    ensures left == 0
  {
  }

  lemma NothingBack<T>()
    ensures JoinedBack<T>([]) == []
  {
  }

  lemma TakeTail<T>(users: seq<T>, count: nat, rest: seq<T>)
    requires count <= |users|
    ensures var front, tail := users[..|users| - count], users[|users| - count..];
      |tail| == count && |front| == |users| - count && users + rest == front + (tail + rest)
  {
  }

  lemma FirstShare(n: nat, k: nat)
    requires k > 0
    ensures Within(n, k, EvenShare(n, k))
  {
    assert n == (n / k) * k + n % k;
    Distribute(n / k, k);
  }

  lemma JoinedBackLast<T>(threads: seq<seq<T>>, t: seq<T>)
    ensures JoinedBack(threads + [t]) == t + JoinedBack(threads)
  {
    assert (threads + [t])[..|threads + [t]| - 1] == threads;
  }
}
