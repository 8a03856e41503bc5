/** Confirmation webhooks: the events one account collects and the notifications each check-in sends
    (`check_hooks` and `add_ongoing_hooks` in src/db/storage.cpp, called by `storage::update`). */
module Webhooks {
  import opened Rows

  /** `webhook_dupsort`: hooks of one account are sorted by payment id, then by event id. */
  datatype HookKey = HookKey(paymentId: nat, eventId: nat)

  /** `webhook_event`: an output that tripped a hook. */
  datatype Event = Event(out: OutputKey, hook: HookKey)

  /** One notification: `number` is written into the 32-bit `confirmations` field. */
  datatype Confirmation = Confirmation(event: Event, number: nat)

  type UInt32 = n: nat | n < UINT32_LIMIT

  /** Hooks of one account with the number of confirmations each one asks for. */
  type Hooks = map<HookKey, UInt32>

  // ----- What one check-in does, as functions -----

  /** Every pair of a new output and a hook with the same payment id. */
  function Triggered(hooks: Hooks, rows: seq<Output>): set<Event> {
    set r, k | r in rows && k in hooks && k.paymentId == r.paymentId :: Event(KeyOf(r), k)
  }

  /** An event is looked at when its output is below the end of the scanned blocks. */
  predicate Due(e: Event, begin: nat, end: nat) {
    Max(begin, e.out.link.height) < end
  }

  function FirstNumber(e: Event, begin: nat): nat {
    (Max(begin, e.out.link.height) - e.out.link.height + 1) % UINT32_LIMIT
  }

  function LastNumber(e: Event, wanted: nat, begin: nat, end: nat): nat
    requires Due(e, begin, end)
    ensures FirstNumber(e, begin) <= LastNumber(e, wanted, begin, end)
  {
    var first := FirstNumber(e, begin);
    if wanted <= first then first else Min(wanted, first + (end - Max(begin, e.out.link.height) - 1))
  }

  function Count(first: nat, last: nat): seq<nat>
    requires first <= last + 1
  {
    seq(last + 1 - first, i requires 0 <= i => first + i)
  }

  /** The notifications one event sends for the blocks from `begin` up to but not including `end`. */
  function Numbers(e: Event, wanted: nat, begin: nat, end: nat): seq<nat> {
    if Due(e, begin, end) then Count(FirstNumber(e, begin), LastNumber(e, wanted, begin, end)) else []
  }

  predicate Finished(e: Event, wanted: nat, begin: nat, end: nat) {
    Due(e, begin, end) && wanted <= LastNumber(e, wanted, begin, end)
  }

  predicate Stored(outputs: set<Output>, key: OutputKey) {
    exists o :: o in outputs && KeyOf(o) == key
  }

  /** The two lookups made for every due event find a row. */
  predicate Backed(hooks: Hooks, outputs: set<Output>, events: set<Event>, begin: nat, end: nat) {
    forall e | e in events && Due(e, begin, end) :: e.hook in hooks && Stored(outputs, e.out)
  }

  function Remaining(hooks: Hooks, events: set<Event>, begin: nat, end: nat): set<Event> {
    set e | e in events && !(e.hook in hooks && Finished(e, hooks[e.hook], begin, end))
  }

  function Ongoing(hooks: Hooks, outputs: set<Output>, events: set<Event>, begin: nat, end: nat): Result<set<Event>> {
    if Backed(hooks, outputs, events, begin, end) then Ok(Remaining(hooks, events, begin, end)) else Err(NotFound)
  }

  /** The numbers sent for one event, in the order they were sent. */
  function Sent(log: seq<Confirmation>, e: Event): seq<nat> {
    if log == [] then []
    else Sent(log[..|log| - 1], e) + if log[|log| - 1].event == e then [log[|log| - 1].number] else []
  }

  // ----- The loops of the source -----

  method CheckHooks(hooks: Hooks, stored: set<Event>, rows: seq<Output>) returns (events: set<Event>)
    ensures events == stored + Triggered(hooks, rows)
  {
    events := stored;
    for i := 0 to |rows|
      invariant events == stored + Triggered(hooks, rows[..i])
    {
      var out := rows[i];
      ghost var before := events;
      var todo := set k | k in hooks && k.paymentId == out.paymentId;
      ghost var matching := todo;
      while todo != {}
        invariant todo <= matching
        invariant events == before + set k | k in matching - todo :: Event(KeyOf(out), k)
        decreases todo
      {
        var k :| k in todo;
        events := events + {Event(KeyOf(out), k)};
        todo := todo - {k};
      }
      assert rows[..i + 1] == rows[..i] + [out];
      assert Triggered(hooks, rows[..i + 1]) == Triggered(hooks, rows[..i]) + set k | k in matching :: Event(KeyOf(out), k);
    }
    assert rows[..|rows|] == rows;
  }

  /** The inner loop: the first number, then one copy per further block until enough were sent. */
  method Notify(e: Event, wanted: UInt32, begin: nat, end: nat) returns (batch: seq<Confirmation>, number: nat)
    requires Due(e, begin, end)
    ensures number == LastNumber(e, wanted, begin, end)
    ensures Sent(batch, e) == Numbers(e, wanted, begin, end)
    ensures forall c :: c in batch ==> c.event == e
  {
    var thisBegin := Max(begin, e.out.link.height);
    number := (thisBegin - e.out.link.height + 1) % UINT32_LIMIT;
    ghost var first := number;
    batch := [Confirmation(e, number)];
    assert batch[..0] == [];
    assert Count(first, first) == [first];
    var block := thisBegin + 1;
    while block < end && number < wanted
      invariant thisBegin + 1 <= block <= end
      invariant number == first + (block - thisBegin - 1)
      invariant first < number ==> number <= wanted
      invariant Sent(batch, e) == Count(first, number)
      invariant forall c :: c in batch ==> c.event == e
    {
      ghost var was := batch;
      batch := batch + [Confirmation(e, number + 1)];
      assert batch[..|batch| - 1] == was;
      assert Count(first, number + 1) == Count(first, number) + [number + 1];
      number := number + 1;
      block := block + 1;
    }
  }

  lemma {:induction false} SentAppend(a: seq<Confirmation>, b: seq<Confirmation>, e: Event)
    ensures Sent(a + b, e) == Sent(a, e) + Sent(b, e)
  {
    if b == [] {
      assert a + b == a;
    } else {
      var init := b[..|b| - 1];
      assert (a + b)[..|a + b| - 1] == a + init;
      SentAppend(a, init, e);
    }
  }

  lemma {:induction false} SentNothing(log: seq<Confirmation>, e: Event)
    requires forall c :: c in log ==> c.event != e
    ensures Sent(log, e) == []
  {
    if log != [] {
      SentNothing(log[..|log| - 1], e);
    }
  }

  function Expected(hooks: Hooks, e: Event, begin: nat, end: nat): seq<nat> {
    if e.hook in hooks then Numbers(e, hooks[e.hook], begin, end) else []
  }

  /** The log holds what each event of `done` sends, and nothing for any other event. */
  ghost predicate Complete(log: seq<Confirmation>, hooks: Hooks, done: set<Event>, begin: nat, end: nat) {
    forall e :: Sent(log, e) == if e in done then Expected(hooks, e, begin, end) else []
  }

  lemma CompleteStep(log: seq<Confirmation>, batch: seq<Confirmation>, hooks: Hooks, done: set<Event>, e: Event,
                     begin: nat, end: nat)
    requires Complete(log, hooks, done, begin, end) && e !in done
    requires forall c :: c in batch ==> c.event == e
    requires Sent(batch, e) == Expected(hooks, e, begin, end)
    ensures Complete(log + batch, hooks, done + {e}, begin, end)
  {
    hide Expected, Sent;
    forall f ensures Sent(log + batch, f) == if f in done + {e} then Expected(hooks, f, begin, end) else [] {
      SentAppend(log, batch, f);
      if f != e { SentNothing(batch, f); }
    }
  }

  lemma RemainingStep(hooks: Hooks, done: set<Event>, todo: set<Event>, e: Event, finished: bool, begin: nat, end: nat)
    requires done !! todo && e in todo
    requires Remaining(hooks, {e}, begin, end) == if finished then {} else {e}
    ensures (Remaining(hooks, done, begin, end) + todo) - (if finished then {e} else {}) ==
            Remaining(hooks, done + {e}, begin, end) + (todo - {e})
  {
    assert e in {e};
    assert e in Remaining(hooks, {e}, begin, end) <==> !finished;
  }

  /** One pass of the outer loop: look the hook and the output up, notify, and tell whether the event is finished. */
  method Visit(hooks: Hooks, outputs: set<Output>, e: Event, begin: nat, end: nat)
    returns (found: bool, batch: seq<Confirmation>, finished: bool)
    ensures found <==> Backed(hooks, outputs, {e}, begin, end)
    ensures found ==> Sent(batch, e) == Expected(hooks, e, begin, end)
    ensures found ==> Remaining(hooks, {e}, begin, end) == if finished then {} else {e}
    ensures forall c :: c in batch ==> c.event == e
  {
    batch, finished := [], false;
    if !Due(e, begin, end) {
      return true, batch, finished;
    }
    if e.hook !in hooks || !Stored(outputs, e.out) {
      return false, batch, finished;
    }
    var number;
    batch, number := Notify(e, hooks[e.hook], begin, end);
    return true, batch, hooks[e.hook] <= number;
  }

  /** `add_ongoing_hooks`: on success every event sent exactly its `Numbers`, and the finished ones are gone. */
  method AddOngoingHooks(hooks: Hooks, outputs: set<Output>, stored: set<Event>, begin: nat, end: nat)
    returns (r: Result<set<Event>>, log: seq<Confirmation>)
    ensures r == Ongoing(hooks, outputs, stored, begin, end)
    ensures r.Ok? ==> Complete(log, hooks, stored, begin, end)
  {
    log := [];
    var events := stored;
    if begin == end {
      assert Remaining(hooks, stored, begin, end) == stored;
      return Ok(events), log;
    }
    var todo := stored;
    ghost var done: set<Event> := {};
    while todo != {}
      invariant todo <= stored && done == stored - todo
      invariant Backed(hooks, outputs, done, begin, end)
      invariant events == Remaining(hooks, done, begin, end) + todo
      invariant Complete(log, hooks, done, begin, end)
      decreases todo
    {
      var e :| e in todo;
      var found, batch, finished := Visit(hooks, outputs, e, begin, end);
      if !found {
        return Err(NotFound), log;
      }
      if finished {
        events := events - {e};
      }
      CompleteStep(log, batch, hooks, done, e, begin, end);
      RemainingStep(hooks, done, todo, e, finished, begin, end);
      log := log + batch;
      todo := todo - {e};
      done := done + {e};
    }
    assert done == stored && Backed(hooks, outputs, stored, begin, end);
    assert events == Remaining(hooks, stored, begin, end);
    r := Ok(events);
  }

  // ----- Many check-ins: every confirmation exactly once -----

  /** What the tables hold for one account. */
  datatype Watch = Watch(scan: nat, outputs: set<Output>, hooks: Hooks, events: set<Event>)

  /** One check-in: the blocks up to `last` were scanned and `rows` are the outputs found in them. */
  datatype Batch = Batch(last: nat, rows: seq<Output>)

  /** The account's share of `storage::update`, when the first block after the overlap is `firstNew`. */
  function CheckIn(w: Watch, firstNew: nat, b: Batch): Result<Watch> {
    var outputs := InsertOutputs(w.outputs, b.rows);
    match Ongoing(w.hooks, outputs, w.events + Triggered(w.hooks, b.rows), Max(firstNew, w.scan + 1), b.last + 1)
    case Err(error) => Err(error)
    case Ok(events) => Ok(Watch(b.last, outputs, w.hooks, events))
  }

  /** The numbers a check-in sends for `e`. */
  function Told(w: Watch, firstNew: nat, b: Batch, e: Event): seq<nat> {
    if e in w.events + Triggered(w.hooks, b.rows) && e.hook in w.hooks
    then Numbers(e, w.hooks[e.hook], Max(firstNew, w.scan + 1), b.last + 1) else []
  }

  ghost predicate Sound(w: Watch) {
    forall e :: e in w.events ==> e.hook in w.hooks && Stored(w.outputs, e.out)
  }

  /** A check-in at the stored height: the rows are exactly from the blocks after it. */
  ghost predicate AtStoredHeight(w: Watch, b: Batch) {
    w.scan < b.last && forall r :: r in b.rows ==> w.scan < r.link.height <= b.last
  }

  /** A check-in on sound tables never misses a lookup, and the tables stay sound. */
  lemma CheckInSucceeds(w: Watch, firstNew: nat, b: Batch)
    requires Sound(w)
    ensures CheckIn(w, firstNew, b).Ok? && Sound(CheckIn(w, firstNew, b).value)
  {
    var outputs := InsertOutputs(w.outputs, b.rows);
    InsertOutputsBounds(w.outputs, b.rows);
    var events := w.events + Triggered(w.hooks, b.rows);
    forall e | e in events ensures e.hook in w.hooks && Stored(outputs, e.out) {
      if e in w.events {
        var o :| o in w.outputs && KeyOf(o) == e.out;
        assert o in outputs;
      } else {
        var r :| r in b.rows && KeyOf(r) == e.out;
      }
    }
  }

  /** How many confirmations of an output at `height` should have been sent by the time `scan` is reached. */
  function Reached(wanted: nat, height: nat, scan: nat): nat {
    if scan < height then 0 else Min(Max(1, wanted), scan - height + 1)
  }

  /** The event is pending exactly while its output is scanned and not confirmed often enough. */
  ghost predicate OnTrack(w: Watch, e: Event, wanted: nat) {
    && e.hook in w.hooks && w.hooks[e.hook] == wanted
    && (e in w.events <==> e.out.link.height <= w.scan && Reached(wanted, e.out.link.height, w.scan) < Max(1, wanted))
  }

  function UpTo(n: nat): seq<nat> { seq(n, i requires 0 <= i => i + 1) }

  /** The rows of a check-in contain the event's output exactly when its block was scanned. */
  ghost predicate Faithful(w: Watch, b: Batch, e: Event) {
    (e in Triggered(w.hooks, b.rows)) <==> w.scan < e.out.link.height <= b.last
  }

  /** What a pending event sends continues the numbers sent before. */
  lemma NumbersContinue(e: Event, wanted: nat, scan: nat, last: nat)
    requires wanted < UINT32_LIMIT && scan < last && e.out.link.height <= last
    requires e.out.link.height <= scan ==> Reached(wanted, e.out.link.height, scan) < Max(1, wanted)
    ensures Due(e, scan + 1, last + 1)
    ensures LastNumber(e, wanted, scan + 1, last + 1) == Reached(wanted, e.out.link.height, last)
    ensures UpTo(Reached(wanted, e.out.link.height, scan)) + Numbers(e, wanted, scan + 1, last + 1) ==
            UpTo(Reached(wanted, e.out.link.height, last))
  {
    assert FirstNumber(e, scan + 1) == Reached(wanted, e.out.link.height, scan) + 1;
  }

  lemma CheckInAdvances(w: Watch, firstNew: nat, b: Batch, e: Event, wanted: nat)
    requires Sound(w) && AtStoredHeight(w, b) && OnTrack(w, e, wanted) && Faithful(w, b, e)
    requires firstNew <= w.scan + 1
    ensures CheckIn(w, firstNew, b).Ok? && Sound(CheckIn(w, firstNew, b).value)
    ensures OnTrack(CheckIn(w, firstNew, b).value, e, wanted)
    ensures UpTo(Reached(wanted, e.out.link.height, w.scan)) + Told(w, firstNew, b, e) ==
            UpTo(Reached(wanted, e.out.link.height, b.last))
  {
    hide Numbers, Sound, InsertOutputs;
    CheckInSucceeds(w, firstNew, b);
    if e in w.events + Triggered(w.hooks, b.rows) {
      NumbersContinue(e, wanted, w.scan, b.last);
    }
  }

  /** All check-ins of a list, each one at the height the previous one stored. */
  ghost predicate Follows(w: Watch, batches: seq<Batch>, firsts: seq<nat>, e: Event)
    requires |firsts| == |batches|
    decreases |batches|
  {
    batches != [] ==>
      && AtStoredHeight(w, batches[0]) && Faithful(w, batches[0], e) && firsts[0] <= w.scan + 1
      && (CheckIn(w, firsts[0], batches[0]).Ok? ==> Follows(CheckIn(w, firsts[0], batches[0]).value, batches[1..], firsts[1..], e))
  }

  function AllTold(w: Watch, batches: seq<Batch>, firsts: seq<nat>, e: Event): seq<nat>
    requires |firsts| == |batches|
    decreases |batches|
  {
    if batches == [] then []
    else match CheckIn(w, firsts[0], batches[0])
      case Err(_) => []
      case Ok(next) => Told(w, firsts[0], batches[0], e) + AllTold(next, batches[1..], firsts[1..], e)
  }

  function Final(w: Watch, batches: seq<Batch>, firsts: seq<nat>): Result<Watch>
    requires |firsts| == |batches|
    decreases |batches|
  {
    if batches == [] then Ok(w)
    else match CheckIn(w, firsts[0], batches[0])
      case Err(error) => Err(error)
      case Ok(next) => Final(next, batches[1..], firsts[1..])
  }

  lemma Concatenate(a: seq<nat>, b: seq<nat>, c: seq<nat>)
    ensures a + (b + c) == (a + b) + c
  {
  }

  /** However the blocks are batched, an event sends 1, 2, ... in order, each number once, up to the larger of
      one and what its hook asks for, and is removed when the last one is sent. */
  lemma {:induction false} ConfirmedExactlyOnce(w: Watch, batches: seq<Batch>, firsts: seq<nat>, e: Event, wanted: nat)
    returns (final: Watch)
    requires |firsts| == |batches|
    requires Sound(w) && OnTrack(w, e, wanted) && Follows(w, batches, firsts, e)
    ensures Final(w, batches, firsts) == Ok(final)
    ensures final.scan == if batches == [] then w.scan else batches[|batches| - 1].last
    ensures UpTo(Reached(wanted, e.out.link.height, w.scan)) + AllTold(w, batches, firsts, e) ==
            UpTo(Reached(wanted, e.out.link.height, final.scan))
    ensures OnTrack(final, e, wanted)
    decreases |batches|
  {
    if batches == [] {
      return w;
    }
    hide CheckIn, Told, Reached, UpTo, Sound, OnTrack, AtStoredHeight, Faithful;
    CheckInAdvances(w, firsts[0], batches[0], e, wanted);
    var next := CheckIn(w, firsts[0], batches[0]).value;
    final := ConfirmedExactlyOnce(next, batches[1..], firsts[1..], e, wanted);
    Concatenate(UpTo(Reached(wanted, e.out.link.height, w.scan)), Told(w, firsts[0], batches[0], e),
                AllTold(next, batches[1..], firsts[1..], e));
  }

  /** From a scan height below the output, the whole history is 1, ..., n and nothing else. */
  lemma WholeHistory(w: Watch, batches: seq<Batch>, firsts: seq<nat>, e: Event, wanted: nat) returns (final: Watch)
    requires |firsts| == |batches|
    requires Sound(w) && OnTrack(w, e, wanted) && Follows(w, batches, firsts, e)
    requires w.scan < e.out.link.height
    ensures Final(w, batches, firsts) == Ok(final)
    ensures AllTold(w, batches, firsts, e) == UpTo(Reached(wanted, e.out.link.height, final.scan))
    ensures e.out.link.height + Max(1, wanted) <= final.scan + 1 ==>
      AllTold(w, batches, firsts, e) == UpTo(Max(1, wanted)) && e !in final.events
  {
    final := ConfirmedExactlyOnce(w, batches, firsts, e, wanted);
    var told := AllTold(w, batches, firsts, e);
    assert UpTo(0) + told == told;
  }

  /** A check-in that repeats blocks below the stored height sends a notification for an already finished
      event exactly when its rows repeat the output, because `check_hooks` puts the event back. */
  lemma StaleCheckIn(w: Watch, firstNew: nat, b: Batch, e: Event, wanted: nat)
    requires Sound(w) && OnTrack(w, e, wanted)
    requires e.out.link.height <= w.scan < b.last && e !in w.events
    ensures (Told(w, firstNew, b, e) != []) <==>
            (e in Triggered(w.hooks, b.rows) && firstNew <= b.last)
  {
  }
}
