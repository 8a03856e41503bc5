/** The queue that coalesces daemon requests of `submit_raw_tx` and `get_random_outs` (src/rest_server.cpp), as steps of
    arriving requests and of the coroutines that serve them.

    Requests are numbered in the order in which they are accepted. `Broken` is whatever makes an endpoint drain its queue:
    timeouts, cancelled timers and socket errors, and for `get_random_outs` also answers that cannot be used. An answer
    that `submit_raw_tx` cannot parse goes to the front request like any other. */
module RequestQueue {
  import opened Rows

  /** What a request is resumed with: the answer to some request's message, or an error. */
  datatype Resumption = Resumption(id: nat, answer: Option<nat>)

  datatype Pc =
    | Looking                              // takes the lock, looks at the queue and prepares the front request next
    | Writing(id: nat, rounds: nat)        // sends a message for request `id`; `rounds` more exchanges follow
    | Reading(id: nat, rounds: nat)        // waits for the answer
    | Answering(id: nat)                   // takes the lock and pops the front next
    | Failing(id: nat)                     // takes the lock and drains the queue next
    | Resuming(again: bool)                // runs the callbacks it took out of the queue
    | Closed

  /** `first` and `taken`: the interval of requests accepted by this frame. `unanswered`: messages on its socket that
      were sent and not answered. */
  datatype Frame = Frame(
    pc: Pc, queue: seq<nat>, todo: seq<Resumption>, resumed: seq<Resumption>, unanswered: nat, first: nat, taken: nat)

  /** `pool`: unanswered messages of every socket in the pool. */
  datatype State = State(next: nat, frames: seq<Frame>, current: Option<nat>, pool: seq<nat>)

  datatype Outcome = Fine | Broken

  /** A request arrives (`connects`: a new socket can be made), or the coroutine of a frame takes a step (`rounds`: the
      exchanges the next request needs; with cached data `get_random_outs` may need none). */
  datatype Move = Arrive(connects: bool) | Go(frame: nat, outcome: Outcome, rounds: nat)

  function Accept(f: Frame, id: nat): Frame { f.(queue := f.queue + [id], taken := f.taken + 1) }

  function Arrived(s: State, connects: bool): State {
    if s.current.Some? && s.current.value < |s.frames| then
      s.(next := s.next + 1, frames := s.frames[s.current.value := Accept(s.frames[s.current.value], s.next)])
    else if s.pool != [] then
      State(s.next + 1, s.frames + [Frame(Looking, [s.next], [], [], s.pool[|s.pool| - 1], s.next, 1)], Some(|s.frames|),
            s.pool[..|s.pool| - 1])
    else if connects then
      State(s.next + 1, s.frames + [Frame(Looking, [s.next], [], [], 0, s.next, 1)], Some(|s.frames|), s.pool)
    else s
  }

  function Drained(queue: seq<nat>): (r: seq<Resumption>)
    ensures |r| == |queue| && forall i :: 0 <= i < |r| ==> r[i] == Resumption(queue[i], None)
  {
    seq(|queue|, i requires 0 <= i < |queue| => Resumption(queue[i], None))
  }

  /** A step of the coroutine on its own frame. */
  function Act(f: Frame, o: Outcome, rounds: nat): Frame {
    match f.pc
    case Looking =>
      f.(pc := if f.queue == [] then Closed
               else if rounds > 0 then Writing(f.queue[0], rounds - 1)
               else if o == Broken then Failing(f.queue[0])
               else Answering(f.queue[0]))
    case Writing(id, n) =>
      if o == Broken then f.(pc := Failing(id)) else f.(pc := Reading(id, n), unanswered := f.unanswered + 1)
    case Reading(id, n) =>
      if o == Broken then f.(pc := Failing(id))
      else f.(pc := if n > 0 then Writing(id, n - 1) else Answering(id), unanswered := if f.unanswered > 0 then f.unanswered - 1 else 0)
    case Answering(id) =>
      if f.queue == [] then f
      else f.(pc := Resuming(true), queue := f.queue[1..], todo := [Resumption(f.queue[0], Some(id))])
    case Failing(_) => f.(pc := Resuming(false), queue := [], todo := Drained(f.queue))
    case Resuming(again) =>
      if f.todo != [] then f.(todo := f.todo[1..], resumed := f.resumed + [f.todo[0]])
      else f.(pc := if again then Looking else Closed)
    case Closed => f
  }

  function Went(s: State, i: nat, o: Outcome, rounds: nat): State
    requires i < |s.frames|
  {
    var f := s.frames[i];
    var frames := s.frames[i := Act(f, o, rounds)];
    if f.pc.Looking? && f.queue == [] then State(s.next, frames, None, s.pool + [f.unanswered])
    else if f.pc.Failing? then State(s.next, frames, None, s.pool)
    else State(s.next, frames, s.current, s.pool)
  }

  function Next(s: State, m: Move): State {
    match m
    case Arrive(connects) => Arrived(s, connects)
    case Go(i, o, rounds) => if i < |s.frames| then Went(s, i, o, rounds) else s
  }

  function Run(s: State, moves: seq<Move>): State {
    if moves == [] then s else Next(Run(s, moves[..|moves| - 1]), moves[|moves| - 1])
  }

  function Initial(sockets: nat): State { State(0, [], None, seq(sockets, _ => 0)) }

  // ----- The invariant -----

  function IdsOf(rs: seq<Resumption>): (ids: seq<nat>)
    ensures |ids| == |rs| && forall i :: 0 <= i < |ids| ==> ids[i] == rs[i].id
  {
    seq(|rs|, i requires 0 <= i < |rs| => rs[i].id)
  }

  /** The requests of a frame in the order in which they are or will be resumed. */
  function Order(f: Frame): seq<nat> { IdsOf(f.resumed) + IdsOf(f.todo) + f.queue }

  function Interval(first: nat, taken: nat): (ids: seq<nat>)
    ensures |ids| == taken && forall i :: 0 <= i < taken ==> ids[i] == first + i
  {
    seq(taken, i => first + i)
  }

  predicate Own(r: Resumption) { r.answer.Some? ==> r.answer.value == r.id }

  predicate Serving(f: Frame) { !f.pc.Closed? && f.pc != Resuming(false) }

  ghost predicate FrameInv(f: Frame) {
    && Order(f) == Interval(f.first, f.taken)
    && (forall r :: r in f.resumed + f.todo ==> Own(r))
    && (f.pc.Resuming? || f.todo == [])
    && (Serving(f) || f.queue == [])
    && (f.pc.Writing? || f.pc.Reading? || f.pc.Answering? || f.pc.Failing? ==> f.queue != [] && f.queue[0] == f.pc.id)
    && (f.pc.Reading? ==> f.unanswered == 1)
    && (Serving(f) && !f.pc.Reading? && !f.pc.Failing? ==> f.unanswered == 0)
  }

  /** The frames accepted consecutive intervals of requests. */
  ghost predicate Tiled(s: State) {
    && (s.frames == [] ==> s.next == 0)
    && (s.frames != [] ==> s.frames[0].first == 0)
    && (forall i, j :: 0 <= i && j == i + 1 && j < |s.frames| ==> s.frames[j].first == s.frames[i].first + s.frames[i].taken)
    && (s.frames != [] ==> var f := s.frames[|s.frames| - 1]; s.next == f.first + f.taken)
  }

  /** No socket has an unanswered message. */
  predicate Clean(pool: seq<nat>) { forall i :: 0 <= i < |pool| ==> pool[i] == 0 }

  ghost predicate Inv(s: State) {
    && Tiled(s)
    && (forall f :: f in s.frames ==> FrameInv(f))
    && (forall i :: 0 <= i < |s.frames| ==> (Serving(s.frames[i]) <==> s.current == Some(i)))
    && (s.current.Some? ==> s.current.value == |s.frames| - 1)
    && Clean(s.pool)
  }

  lemma ActKeeps(f: Frame, o: Outcome, rounds: nat)
    requires FrameInv(f)
    ensures FrameInv(Act(f, o, rounds))
    ensures Act(f, o, rounds).first == f.first && Act(f, o, rounds).taken == f.taken
  {
    OrderKept(f, o, rounds);
    hide Order, Interval;
  }

  /** No step changes the order in which the requests of a frame are resumed. */
  lemma OrderKept(f: Frame, o: Outcome, rounds: nat)
    requires f.pc.Resuming? || f.todo == []
    ensures Order(Act(f, o, rounds)) == Order(f)
  {
    if f.pc.Answering? && f.queue != [] {
      PopKept(f.resumed, f.queue, f.pc.id);
    } else if f.pc.Failing? {
      DrainKept(f.resumed, f.queue);
    } else if f.pc.Resuming? && f.todo != [] {
      ResumeKept(f.resumed, f.todo);
    } else {
      hide IdsOf;
    }
  }

  lemma PopKept(resumed: seq<Resumption>, queue: seq<nat>, id: nat)
    requires queue != []
    ensures IdsOf(resumed) + IdsOf([Resumption(queue[0], Some(id))]) + queue[1..] == IdsOf(resumed) + IdsOf([]) + queue
  {
    hide IdsOf;
    assert IdsOf([Resumption(queue[0], Some(id))]) == [queue[0]] && IdsOf([]) == [];
    assert [queue[0]] + queue[1..] == queue;
  }

  lemma DrainKept(resumed: seq<Resumption>, queue: seq<nat>)
    ensures IdsOf(resumed) + IdsOf(Drained(queue)) + [] == IdsOf(resumed) + IdsOf([]) + queue
  {
    hide IdsOf, Drained;
    assert IdsOf(Drained(queue)) == queue && IdsOf([]) == [];
  }

  lemma ResumeKept(resumed: seq<Resumption>, todo: seq<Resumption>)
    requires todo != []
    ensures IdsOf(resumed + [todo[0]]) + IdsOf(todo[1..]) == IdsOf(resumed) + IdsOf(todo)
  {
    hide IdsOf;
    assert IdsOf(resumed + [todo[0]]) == IdsOf(resumed) + [todo[0].id];
    assert IdsOf(todo) == [todo[0].id] + IdsOf(todo[1..]);
  }

  lemma AcceptKeeps(f: Frame, id: nat)
    requires FrameInv(f) && Serving(f) && id == f.first + f.taken
    ensures FrameInv(Accept(f, id)) && Serving(Accept(f, id))
  {
    var g := Accept(f, id);
    assert Order(g) == Order(f) + [id];
    assert Interval(f.first, f.taken + 1) == Interval(f.first, f.taken) + [id];
  }

  lemma NewFrame(id: nat, unanswered: nat)
    requires unanswered == 0
    ensures FrameInv(Frame(Looking, [id], [], [], unanswered, id, 1)) && Serving(Frame(Looking, [id], [], [], unanswered, id, 1))
  {
    var f := Frame(Looking, [id], [], [], unanswered, id, 1);
    assert Order(f) == [id] == Interval(id, 1);
  }

  lemma ArrivedKeeps(s: State, connects: bool)
    requires Inv(s)
    ensures Inv(Arrived(s, connects))
  {
    if s.current.Some? {
      QueuedKeeps(s);
    } else if s.pool != [] {
      hide FrameInv, Serving, Tiled;
      var unanswered, rest := s.pool[|s.pool| - 1], s.pool[..|s.pool| - 1];
      PoolClean(s.pool);
      NewFrame(s.next, unanswered);
      Appended(s, Frame(Looking, [s.next], [], [], unanswered, s.next, 1), rest);
    } else if connects {
      hide FrameInv, Serving, Tiled;
      NewFrame(s.next, 0);
      Appended(s, Frame(Looking, [s.next], [], [], 0, s.next, 1), s.pool);
    }
  }

  lemma PoolClean(pool: seq<nat>)
    requires pool != [] && Clean(pool)
    ensures pool[|pool| - 1] == 0 && Clean(pool[..|pool| - 1])
  {
  }

  lemma QueuedKeeps(s: State)
    requires Inv(s) && s.current.Some?
    ensures Inv(s.(next := s.next + 1, frames := s.frames[s.current.value := Accept(s.frames[s.current.value], s.next)]))
  {
    hide FrameInv, Serving;
    var f := s.frames[s.current.value];
    assert f in s.frames;
    AcceptKeeps(f, s.next);
  }

  lemma Appended(s: State, f: Frame, pool: seq<nat>)
    requires Inv(s) && s.current.None? && FrameInv(f) && Serving(f) && f.first == s.next && f.taken == 1
    requires Clean(pool)
    ensures Inv(State(s.next + 1, s.frames + [f], Some(|s.frames|), pool))
  {
    hide FrameInv, Serving;
  }

  /** Which frame is current decides which may leave the loop. */
  lemma ActServes(f: Frame, o: Outcome, rounds: nat)
    requires FrameInv(f)
    ensures Serving(Act(f, o, rounds)) <==> Serving(f) && !(f.pc.Looking? && f.queue == []) && !f.pc.Failing?
    ensures f.pc.Looking? ==> f.unanswered == 0 && Serving(f)
    ensures f.pc.Failing? ==> Serving(f)
  {
    hide Order, Interval;
  }

  lemma WentKeeps(s: State, i: nat, o: Outcome, rounds: nat)
    requires Inv(s) && i < |s.frames|
    ensures Inv(Went(s, i, o, rounds))
  {
    hide FrameInv, Act, Serving;
    ActKeeps(s.frames[i], o, rounds);
    ActServes(s.frames[i], o, rounds);
  }

  lemma {:induction false} RunKeeps(sockets: nat, moves: seq<Move>)
    ensures Inv(Run(Initial(sockets), moves))
  {
    hide Inv, Arrived, Went;
    if moves == [] {
      InitialInv(sockets);
    } else {
      var init, m := moves[..|moves| - 1], moves[|moves| - 1];
      RunKeeps(sockets, init);
      if m.Arrive? {
        ArrivedKeeps(Run(Initial(sockets), init), m.connects);
      } else if m.frame < |Run(Initial(sockets), init).frames| {
        WentKeeps(Run(Initial(sockets), init), m.frame, m.outcome, m.rounds);
      }
    }
  }

  lemma InitialInv(sockets: nat)
    ensures Inv(Initial(sockets))
  {
  }

  // ----- The promises -----

  /** A frame resumes the requests it accepted in their order, each once, and all of them before it closes. A request
      that succeeds gets the answer to its own message. */
  lemma FrameResumesInOrder(sockets: nat, moves: seq<Move>, i: nat)
    requires i < |Run(Initial(sockets), moves).frames|
    ensures var f := Run(Initial(sockets), moves).frames[i];
      && |f.resumed| <= f.taken && IdsOf(f.resumed) == Interval(f.first, |f.resumed|)
      && (f.pc.Closed? ==> |f.resumed| == f.taken)
      && (forall r :: r in f.resumed ==> Own(r))
  {
    hide Run, Initial, Tiled;
    RunKeeps(sockets, moves);
    var s := Run(Initial(sockets), moves);
    assert s.frames[i] in s.frames;
    PrefixOfOrder(s.frames[i]);
  }

  lemma PrefixOfOrder(f: Frame)
    requires FrameInv(f)
    ensures |f.resumed| <= f.taken && IdsOf(f.resumed) == Interval(f.first, |f.resumed|)
    ensures f.pc.Closed? ==> |f.resumed| == f.taken
    ensures forall r :: r in f.resumed ==> Own(r)
  {
    var n := |f.resumed|;
    assert Order(f)[..n] == IdsOf(f.resumed);
    assert Interval(f.first, f.taken)[..n] == Interval(f.first, n);
    assert forall r :: r in f.resumed ==> r in f.resumed + f.todo;
  }

  lemma {:induction false} TilesAscend(s: State, i: nat, j: nat)
    requires Tiled(s) && i < j < |s.frames|
    ensures s.frames[i].first + s.frames[i].taken <= s.frames[j].first
    decreases j
  {
    if i + 1 < j {
      TilesAscend(s, i, j - 1);
    }
  }

  lemma {:induction false} TileOf(s: State, id: nat, n: nat) returns (i: nat)
    requires Tiled(s) && 0 < n <= |s.frames| && id < s.frames[n - 1].first + s.frames[n - 1].taken
    ensures i < |s.frames| && s.frames[i].first <= id < s.frames[i].first + s.frames[i].taken
    decreases n
  {
    if s.frames[n - 1].first <= id {
      i := n - 1;
    } else {
      i := TileOf(s, id, n - 1);
    }
  }

  /** `id` is the `k`-th request that frame `i` resumed. */
  ghost predicate ResumedAt(s: State, id: nat, i: nat, k: nat) {
    i < |s.frames| && k < |s.frames[i].resumed| && s.frames[i].resumed[k].id == id
  }

  lemma ResumedWhere(s: State, id: nat, i: nat, k: nat)
    requires Inv(s) && ResumedAt(s, id, i, k)
    ensures id == s.frames[i].first + k && k < s.frames[i].taken
  {
    var f := s.frames[i];
    assert f in s.frames;
    PrefixOfOrder(f);
    assert IdsOf(f.resumed)[k] == id;
  }

  /** No request is resumed twice; once every frame is closed, every accepted request has been resumed. */
  lemma ResumedExactlyOnce(sockets: nat, moves: seq<Move>, id: nat)
    ensures var s := Run(Initial(sockets), moves);
      && (forall i: nat, k: nat, j: nat, l: nat :: ResumedAt(s, id, i, k) && ResumedAt(s, id, j, l) ==> i == j && k == l)
      && ((forall f :: f in s.frames ==> f.pc.Closed?) && id < s.next ==>
            exists i: nat, k: nat :: ResumedAt(s, id, i, k))
  {
    hide Run, Initial, FrameInv;
    RunKeeps(sockets, moves);
    var s := Run(Initial(sockets), moves);
    forall i: nat, k: nat, j: nat, l: nat | ResumedAt(s, id, i, k) && ResumedAt(s, id, j, l) ensures i == j && k == l {
      ResumedWhere(s, id, i, k);
      ResumedWhere(s, id, j, l);
      if i < j { TilesAscend(s, i, j); }
      if j < i { TilesAscend(s, j, i); }
    }
    if (forall f :: f in s.frames ==> f.pc.Closed?) && id < s.next {
      var i := TileOf(s, id, |s.frames|);
      var f := s.frames[i];
      assert f in s.frames;
      PrefixOfOrder(f);
      assert IdsOf(f.resumed)[id - f.first] == id;
      assert ResumedAt(s, id, i, id - f.first);
    }
  }

  /** The exchange that is under way belongs to the front of the queue of the only frame that serves; no socket in the
      pool has an unanswered message, and only a frame with an empty queue puts its socket there. */
  lemma OneExchange(sockets: nat, moves: seq<Move>, m: Move)
    ensures var s := Run(Initial(sockets), moves);
      && (forall i :: 0 <= i < |s.frames| && (s.frames[i].pc.Writing? || s.frames[i].pc.Reading?) ==>
            && s.current == Some(i) && s.frames[i].queue != [] && s.frames[i].pc.id == s.frames[i].queue[0]
            && s.frames[i].unanswered == if s.frames[i].pc.Reading? then 1 else 0)
      && Clean(s.pool)
      && (|Next(s, m).pool| > |s.pool| ==>
            m.Go? && m.frame < |s.frames| && s.frames[m.frame].pc.Looking? && s.frames[m.frame].queue == []
            && s.frames[m.frame].unanswered == 0)
  {
    hide Run, Initial, Order, Interval;
    RunKeeps(sockets, moves);
    var s := Run(Initial(sockets), moves);
    forall i | 0 <= i < |s.frames| ensures FrameInv(s.frames[i]) {
      assert s.frames[i] in s.frames;
    }
  }

  // ----- Progress -----

  /** Steps one request takes at most when it needs `rounds` exchanges. */
  function Cost(rounds: nat): nat { 2 * rounds + 4 }

  /** Steps a frame takes at most until it closes, if no request needs more than `rounds` exchanges and none arrives. */
  function Work(f: Frame, rounds: nat): nat {
    match f.pc
    case Closed => 0
    case Looking => |f.queue| * Cost(rounds) + 1
    case Writing(_, n) => Less(|f.queue|) * Cost(rounds) + 2 * n + 6
    case Reading(_, n) => Less(|f.queue|) * Cost(rounds) + 2 * n + 5
    case Answering(_) => Less(|f.queue|) * Cost(rounds) + 4
    case Failing(_) => |f.queue| + 2
    case Resuming(again) => (if again then |f.queue| * Cost(rounds) + 1 else 0) + |f.todo| + 1
  }

  function Less(n: nat): nat { if n == 0 then 0 else n - 1 }

  lemma OneRequestLess(n: nat, cost: nat)
    requires n > 0 && cost >= 4
    ensures n * cost == Less(n) * cost + cost && Less(n) * cost >= Less(n) * 4
  {
    LessTimes(n - 1, cost);
  }

  lemma {:induction false} LessTimes(n: nat, cost: nat)
    requires cost >= 4
    ensures (n + 1) * cost == n * cost + cost && n * cost >= n * 4
  {
    if n > 0 {
      LessTimes(n - 1, cost);
    }
  }

  lemma WorkFalls(f: Frame, o: Outcome, needed: nat, rounds: nat)
    requires FrameInv(f) && !f.pc.Closed? && needed <= rounds
    ensures Work(Act(f, o, needed), rounds) < Work(f, rounds)
  {
    hide Order, Interval, Own;
    if f.queue != [] {
      OneRequestLess(|f.queue|, Cost(rounds));
    }
  }

  datatype Turn = Turn(outcome: Outcome, rounds: nat)

  function RunFrame(f: Frame, turns: seq<Turn>): Frame
    decreases |turns|
  {
    if turns == [] then f else RunFrame(Act(f, turns[0].outcome, turns[0].rounds), turns[1..])
  }

  /** Without further arrivals a frame closes within a bounded number of its steps, whatever goes wrong, and has then
      resumed every request it accepted. */
  lemma {:induction false} ClosesInTime(f: Frame, turns: seq<Turn>, rounds: nat)
    requires FrameInv(f) && (forall t :: t in turns ==> t.rounds <= rounds) && Work(f, rounds) <= |turns|
    ensures var g := RunFrame(f, turns); g.pc.Closed? && |g.resumed| == f.taken
    decreases |turns|
  {
    hide FrameInv, Work;
    if turns == [] {
      NoWorkIsClosed(f, rounds);
      PrefixOfOrder(f);
    } else if f.pc.Closed? {
      ClosedStays(f, turns);
      PrefixOfOrder(f);
    } else {
      assert turns[0] in turns;
      ActKeeps(f, turns[0].outcome, turns[0].rounds);
      WorkFalls(f, turns[0].outcome, turns[0].rounds, rounds);
      ClosesInTime(Act(f, turns[0].outcome, turns[0].rounds), turns[1..], rounds);
    }
  }

  lemma NoWorkIsClosed(f: Frame, rounds: nat)
    requires Work(f, rounds) == 0
    ensures f.pc.Closed?
  {
  }

  lemma {:induction false} ClosedStays(f: Frame, turns: seq<Turn>)
    requires f.pc.Closed?
    ensures RunFrame(f, turns) == f
  {
    if turns != [] {
      ClosedStays(f, turns[1..]);
    }
  }
}
