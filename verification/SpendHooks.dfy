/** Spend webhooks: the outputs table is searched for the source of every new spend, and a search that finds nothing
    aborts the whole check-in (`check_spends` in src/db/storage.cpp, called by `storage::update`). */
module SpendHooks {
  import opened Rows
  import W = Webhooks

  /** `output_compare`: height, then transaction hash, then output id. */
  predicate KeyBefore(a: OutputKey, b: OutputKey) {
    if a.link.height != b.link.height then a.link.height < b.link.height
    else if a.link.txHash != b.link.txHash then a.link.txHash < b.link.txHash
    else if a.id.high != b.id.high then a.id.high < b.id.high
    else a.id.low < b.id.low
  }

  predicate Earlier(a: Output, b: Output) { KeyBefore(KeyOf(a), KeyOf(b)) }

  /** `MDB_GET_BOTH_RANGE`: the first row at or above the height. */
  predicate FirstFrom(outputs: set<Output>, height: nat, o: Output) {
    o in outputs && height <= o.link.height && forall p :: p in outputs && height <= p.link.height ==> !Earlier(p, o)
  }

  /** `MDB_PREV_DUP`: the last row before `at`. */
  predicate LastBefore(outputs: set<Output>, at: Output, o: Output) {
    o in outputs && Earlier(o, at) && forall p :: p in outputs && Earlier(p, at) ==> !Earlier(o, p)
  }

  /** The search goes back from the first row at the height of the spend and stops at the source. */
  ghost predicate IsSource(outputs: set<Output>, s: Spend, o: Output) {
    o in outputs && o.id == s.source && exists first :: FirstFrom(outputs, s.link.height, first) && !Earlier(first, o)
  }

  ghost predicate SourceFound(outputs: set<Output>, s: Spend) { exists o :: IsSource(outputs, s, o) }

  lemma EarlierOrders()
    ensures forall a, b, c :: Earlier(a, b) && Earlier(b, c) ==> Earlier(a, c)
    ensures forall a, b :: !(Earlier(a, b) && Earlier(b, a))
    ensures forall a, b :: Earlier(a, b) || Earlier(b, a) || KeyOf(a) == KeyOf(b)
  {
  }

  predicate IsEarliest(rows: set<Output>, o: Output) { o in rows && forall p :: p in rows ==> !Earlier(p, o) }

  predicate IsLatest(rows: set<Output>, o: Output) { o in rows && forall p :: p in rows ==> !Earlier(o, p) }

  lemma {:induction false} EarliestExists(rows: set<Output>)
    requires rows != {}
    ensures exists o :: IsEarliest(rows, o)
    decreases rows
  {
    EarlierOrders();
    hide Earlier;
    var o :| o in rows;
    var rest := rows - {o};
    assert forall p :: p in rows <==> p == o || p in rest;
    if rest == {} {
      assert IsEarliest(rows, o);
    } else {
      EarliestExists(rest);
      var a :| IsEarliest(rest, a);
      assert IsEarliest(rows, if Earlier(o, a) then o else a);
    }
  }

  lemma {:induction false} LatestExists(rows: set<Output>)
    requires rows != {}
    ensures exists o :: IsLatest(rows, o)
    decreases rows
  {
    EarlierOrders();
    hide Earlier;
    var o :| o in rows;
    var rest := rows - {o};
    assert forall p :: p in rows <==> p == o || p in rest;
    if rest == {} {
      assert IsLatest(rows, o);
    } else {
      LatestExists(rest);
      var b :| IsLatest(rest, b);
      assert IsLatest(rows, if Earlier(b, o) then o else b);
    }
  }

  lemma FirstExists(outputs: set<Output>, height: nat)
    requires exists p :: p in outputs && height <= p.link.height
    ensures exists o :: FirstFrom(outputs, height, o)
  {
    hide Earlier;
    var rows := set p | p in outputs && height <= p.link.height;
    var some :| some in outputs && height <= some.link.height;
    assert some in rows;
    EarliestExists(rows);
    var o :| IsEarliest(rows, o);
    assert FirstFrom(outputs, height, o);
  }

  /** The search succeeds if and only if the account has an output at or above the height of the spend, and the source is
      stored with no output at or above that height before it. */
  lemma SourceFoundExactly(outputs: set<Output>, s: Spend)
    ensures SourceFound(outputs, s) <==>
      && (exists p :: p in outputs && s.link.height <= p.link.height)
      && (exists o :: o in outputs && o.id == s.source &&
            forall p :: p in outputs && s.link.height <= p.link.height ==> !Earlier(p, o))
  {
    hide KeyBefore;
    EarlierOrders();
    hide Earlier;
    if exists p :: p in outputs && s.link.height <= p.link.height {
      FirstExists(outputs, s.link.height);
      var first :| FirstFrom(outputs, s.link.height, first);
      if o :| o in outputs && o.id == s.source && forall p :: p in outputs && s.link.height <= p.link.height ==> !Earlier(p, o) {
        assert IsSource(outputs, s, o);
      }
      if o :| IsSource(outputs, s, o) {
        NotAfterFirst(outputs, s, o);
      }
    }
  }

  lemma NotAfterFirst(outputs: set<Output>, s: Spend, o: Output)
    requires IsSource(outputs, s, o)
    ensures forall p :: p in outputs && s.link.height <= p.link.height ==> !Earlier(p, o)
  {
    var first :| FirstFrom(outputs, s.link.height, first) && !Earlier(first, o);
  }

  /** A source received below the height of the spend is found exactly when some output is at or above that height. */
  lemma OlderSourceFound(outputs: set<Output>, s: Spend, o: Output)
    requires o in outputs && o.id == s.source && o.link.height < s.link.height
    ensures SourceFound(outputs, s) <==> exists p :: p in outputs && s.link.height <= p.link.height
  {
    SourceFoundExactly(outputs, s);
  }

  // ----- The loops of the source -----

  method LookupSource(outputs: set<Output>, s: Spend) returns (r: Option<Output>)
    ensures r.Some? <==> SourceFound(outputs, s)
    ensures r.Some? ==> IsSource(outputs, s, r.value)
  {
    hide KeyBefore;
    EarlierOrders();
    hide Earlier;
    if !exists p :: p in outputs && s.link.height <= p.link.height {
      return None;
    }
    FirstExists(outputs, s.link.height);
    var at :| at in outputs && FirstFrom(outputs, s.link.height, at);
    ghost var first := at;
    while at.id != s.source
      invariant at in outputs && !Earlier(first, at)
      invariant forall o :: o in outputs && Earlier(at, o) && !Earlier(first, o) ==> o.id != s.source
      decreases set o | o in outputs && Earlier(o, at)
    {
      if !exists p :: p in outputs && Earlier(p, at) {
        AllPassed(outputs, s, first, at);
        return None;
      }
      PreviousExists(outputs, at);
      var previous :| previous in outputs && LastBefore(outputs, at, previous);
      SearchStep(outputs, s, first, at, previous);
      at := previous;
    }
    assert IsSource(outputs, s, at);
    return Some(at);
  }

  /** One step back passes only the rows with the key of `at`. */
  lemma SearchStep(outputs: set<Output>, s: Spend, first: Output, at: Output, previous: Output)
    requires at in outputs && !Earlier(first, at) && at.id != s.source && LastBefore(outputs, at, previous)
    requires forall o :: o in outputs && Earlier(at, o) && !Earlier(first, o) ==> o.id != s.source
    ensures !Earlier(first, previous)
    ensures forall o :: o in outputs && Earlier(previous, o) && !Earlier(first, o) ==> o.id != s.source
    ensures (set o | o in outputs && Earlier(o, previous)) < (set o | o in outputs && Earlier(o, at))
  {
    hide KeyBefore;
    EarlierOrders();
    hide Earlier;
    forall o | o in outputs && Earlier(previous, o) && !Earlier(first, o) ensures o.id != s.source {
      if !Earlier(at, o) {
        assert !Earlier(o, at);
        assert KeyOf(o) == KeyOf(at);
      }
    }
    var before, shorter := set o | o in outputs && Earlier(o, at), set o | o in outputs && Earlier(o, previous);
    assert shorter <= before;
    assert !Earlier(previous, previous);
    assert previous in before && previous !in shorter;
  }

  lemma PreviousExists(outputs: set<Output>, at: Output)
    requires exists p :: p in outputs && Earlier(p, at)
    ensures exists o :: LastBefore(outputs, at, o)
  {
    hide Earlier;
    var rows := set p | p in outputs && Earlier(p, at);
    var some :| some in outputs && Earlier(some, at);
    assert some in rows;
    LatestExists(rows);
    var o :| IsLatest(rows, o);
    assert LastBefore(outputs, at, o);
  }

  lemma AllPassed(outputs: set<Output>, s: Spend, first: Output, at: Output)
    requires FirstFrom(outputs, s.link.height, first) && at in outputs && at.id != s.source
    requires forall p :: p in outputs ==> !Earlier(p, at)
    requires forall o :: o in outputs && Earlier(at, o) && !Earlier(first, o) ==> o.id != s.source
    ensures !SourceFound(outputs, s)
  {
    hide KeyBefore;
    EarlierOrders();
    hide Earlier;
    assert forall o :: o in outputs ==> Earlier(at, o) || KeyOf(o) == KeyOf(at);
    forall o ensures !IsSource(outputs, s, o) {
      if IsSource(outputs, s, o) {
        NotAfterFirst(outputs, s, o);
      }
    }
  }

  /** `webhook_tx_spend` */
  datatype Note = Note(hook: W.HookKey, spend: Spend, source: Output)

  function NotesOf(log: seq<Note>, k: W.HookKey): seq<Note> {
    if log == [] then []
    else NotesOf(log[..|log| - 1], k) + if log[|log| - 1].hook == k then [log[|log| - 1]] else []
  }

  /** One note for every spend, in order, with the source that was found. */
  ghost predicate Notes(outputs: set<Output>, spends: seq<Spend>, k: W.HookKey, notes: seq<Note>) {
    |notes| == |spends| && forall i :: 0 <= i < |notes| ==>
      notes[i].hook == k && notes[i].spend == spends[i] && IsSource(outputs, spends[i], notes[i].source)
  }

  /** Without a hook nothing is searched for. */
  ghost predicate AllFound(hooks: set<W.HookKey>, outputs: set<Output>, spends: seq<Spend>) {
    hooks == {} || forall s :: s in spends ==> SourceFound(outputs, s)
  }

  ghost predicate AllNoted(hooks: set<W.HookKey>, outputs: set<Output>, spends: seq<Spend>, log: seq<Note>) {
    forall k :: if k in hooks then Notes(outputs, spends, k, NotesOf(log, k)) else NotesOf(log, k) == []
  }

  lemma {:induction false} NotesAppend(a: seq<Note>, b: seq<Note>, k: W.HookKey)
    ensures NotesOf(a + b, k) == NotesOf(a, k) + NotesOf(b, k)
  {
    if b == [] {
      assert a + b == a;
    } else {
      assert (a + b)[..|a + b| - 1] == a + b[..|b| - 1];
      NotesAppend(a, b[..|b| - 1], k);
    }
  }

  lemma {:induction false} NotesOfHook(notes: seq<Note>, hook: W.HookKey, k: W.HookKey)
    requires forall n :: n in notes ==> n.hook == hook
    ensures NotesOf(notes, k) == if k == hook then notes else []
  {
    if notes != [] {
      NotesOfHook(notes[..|notes| - 1], hook, k);
      assert notes == notes[..|notes| - 1] + [notes[|notes| - 1]];
    }
  }

  method NoteSpends(hook: W.HookKey, outputs: set<Output>, spends: seq<Spend>) returns (found: bool, notes: seq<Note>)
    ensures found <==> forall s :: s in spends ==> SourceFound(outputs, s)
    ensures found ==> Notes(outputs, spends, hook, notes)
  {
    hide SourceFound, IsSource;
    notes := [];
    for i := 0 to |spends|
      invariant |notes| == i && forall j :: 0 <= j < i ==> SourceFound(outputs, spends[j])
      invariant forall j :: 0 <= j < i ==>
        notes[j].hook == hook && notes[j].spend == spends[j] && IsSource(outputs, spends[j], notes[j].source)
    {
      var source := LookupSource(outputs, spends[i]);
      if source.None? {
        assert spends[i] in spends;
        return false, notes;
      }
      notes := notes + [Note(hook, spends[i], source.value)];
    }
    return true, notes;
  }

  method CheckSpends(hooks: set<W.HookKey>, outputs: set<Output>, spends: seq<Spend>) returns (found: bool, log: seq<Note>)
    ensures found <==> AllFound(hooks, outputs, spends)
    ensures found ==> AllNoted(hooks, outputs, spends, log)
  {
    hide SourceFound, NotesOf, Notes;
    log := [];
    var todo := hooks;
    NothingNoted(outputs, spends);
    while todo != {}
      invariant todo <= hooks && AllNoted(hooks - todo, outputs, spends, log)
      invariant todo == hooks || forall s :: s in spends ==> SourceFound(outputs, s)
      decreases todo
    {
      var hook :| hook in todo;
      var notes;
      found, notes := NoteSpends(hook, outputs, spends);
      if !found {
        return false, log;
      }
      NoteHook(hooks - todo, outputs, spends, log, hook, notes);
      assert (hooks - todo) + {hook} == hooks - (todo - {hook});
      log := log + notes;
      todo := todo - {hook};
    }
    assert hooks - todo == hooks;
    return true, log;
  }

  lemma NothingNoted(outputs: set<Output>, spends: seq<Spend>)
    ensures AllNoted({}, outputs, spends, [])
  {
  }

  lemma NoteHook(done: set<W.HookKey>, outputs: set<Output>, spends: seq<Spend>, log: seq<Note>, hook: W.HookKey, notes: seq<Note>)
    requires hook !in done && AllNoted(done, outputs, spends, log) && Notes(outputs, spends, hook, notes)
    ensures AllNoted(done + {hook}, outputs, spends, log + notes)
  {
    hide IsSource, NotesOf;
    forall k ensures NotesOf(log + notes, k) == if k == hook then notes else NotesOf(log, k) {
      NotesAppend(log, notes, k);
      assert forall n :: n in notes ==> n.hook == hook;
      NotesOfHook(notes, hook, k);
      assert [] + notes == notes;
    }
  }
}
