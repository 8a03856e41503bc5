/** Upserting subaddress ranges of one account (`do_upsert` and `storage::upsert_subaddresses`,
    src/db/storage.cpp): the range table by major index, the expanded index table by public key, the quota and
    the reported delta. */
module Subaddresses {
  import opened Rows
  import opened Ranges

  datatype Index = Index(major: nat, minor: nat)

  /** `address_index::get_spend_public` for one account. */
  type KeyDerivation = (nat, nat) -> PublicKey

  /** `subaddress_dict`: ranges of minor indexes under one major index. */
  datatype Entry = Entry(major: nat, ranges: seq<Range>)

  datatype Table = Table(ranges: map<nat, seq<Range>>, indexes: map<PublicKey, Index>)

  function StoredRanges(t: Table, major: nat): seq<Range> { if major in t.ranges then t.ranges[major] else [] }

  function Minors(t: Table, major: nat): set<nat> { Denote(StoredRanges(t, major)) }

  ghost predicate WellFormed(t: Table) { forall m :: m in t.ranges ==> Proper(t.ranges[m]) }

  ghost predicate Injective(key: KeyDerivation) {
    forall a, b, c, d :: key(a, b) == key(c, d) ==> a == c && b == d
  }

  /** The index table holds exactly one row for every subaddress the ranges stand for. */
  ghost predicate IndexExact(key: KeyDerivation, t: Table) {
    && (forall a: nat, b :: b in Minors(t, a) ==> key(a, b) in t.indexes && t.indexes[key(a, b)] == Index(a, b))
    && (forall p :: p in t.indexes ==>
          t.indexes[p].minor in Minors(t, t.indexes[p].major) && key(t.indexes[p].major, t.indexes[p].minor) == p)
  }

  // ----- The index table -----

  /** `MDB_NODUPDATA`: a key that is present keeps its index. */
  function Put(rows: map<PublicKey, Index>, p: PublicKey, i: Index): map<PublicKey, Index> {
    if p in rows then rows else rows[p := i]
  }

  function PutSpan(key: KeyDerivation, rows: map<PublicKey, Index>, major: nat, r: Range): map<PublicKey, Index>
    decreases r.hi
  {
    if r.hi < r.lo then rows
    else if r.hi == r.lo then Put(rows, key(major, r.hi), Index(major, r.hi))
    else Put(PutSpan(key, rows, major, Range(r.lo, r.hi - 1)), key(major, r.hi), Index(major, r.hi))
  }

  function PutRanges(key: KeyDerivation, rows: map<PublicKey, Index>, major: nat, ranges: seq<Range>): map<PublicKey, Index> {
    if ranges == [] then rows
    else PutSpan(key, PutRanges(key, rows, major, ranges[..|ranges| - 1]), major, ranges[|ranges| - 1])
  }

  /** The rows of `after` are those of `before` and one for every new minor index. */
  ghost predicate Puts(key: KeyDerivation, before: map<PublicKey, Index>, major: nat, minors: set<nat>, after: map<PublicKey, Index>) {
    && (forall p :: p in before ==> p in after && after[p] == before[p])
    && (forall m :: m in minors ==> key(major, m) in after)
    && (forall p :: p in after && p !in before ==>
          after[p].major == major && after[p].minor in minors && key(major, after[p].minor) == p)
  }

  lemma PutsTwice(key: KeyDerivation, a: map<PublicKey, Index>, major: nat, m: set<nat>, b: map<PublicKey, Index>, n: set<nat>,
                  c: map<PublicKey, Index>)
    requires Puts(key, a, major, m, b) && Puts(key, b, major, n, c)
    ensures Puts(key, a, major, m + n, c)
  {
  }

  lemma {:induction false} PutSpanPuts(key: KeyDerivation, rows: map<PublicKey, Index>, major: nat, r: Range)
    ensures Puts(key, rows, major, Span(r), PutSpan(key, rows, major, r))
    decreases r.hi
  {
    if r.lo < r.hi {
      var init := Range(r.lo, r.hi - 1);
      PutSpanPuts(key, rows, major, init);
      var b := PutSpan(key, rows, major, init);
      PutsTwice(key, rows, major, Span(init), b, {r.hi}, Put(b, key(major, r.hi), Index(major, r.hi)));
    }
  }

  lemma {:induction false} PutRangesPuts(key: KeyDerivation, rows: map<PublicKey, Index>, major: nat, ranges: seq<Range>)
    ensures Puts(key, rows, major, Denote(ranges), PutRanges(key, rows, major, ranges))
  {
    if ranges != [] {
      var init, last := ranges[..|ranges| - 1], ranges[|ranges| - 1];
      PutRangesPuts(key, rows, major, init);
      var b := PutRanges(key, rows, major, init);
      PutSpanPuts(key, b, major, last);
      PutsTwice(key, rows, major, Denote(init), b, Span(last), PutSpan(key, b, major, last));
      assert ranges == init + [last];
      DenoteAppend(init, [last]);
      assert Denote([last]) == Span(last) + Denote([]);
    }
  }

  lemma {:induction false} ImageSize(key: KeyDerivation, major: nat, minors: set<nat>)
    ensures |set m | m in minors :: key(major, m)| <= |minors|
    decreases minors
  {
    if m :| m in minors {
      ImageSize(key, major, minors - {m});
      var image := set n | n in minors :: key(major, n);
      var rest := set n | n in minors - {m} :: key(major, n);
      assert image == rest + {key(major, m)};
      UnionSize(rest, {key(major, m)});
    }
  }

  /** The index table grows by at most the number of minor indexes that had no row. */
  lemma PutsSize(key: KeyDerivation, before: map<PublicKey, Index>, major: nat, minors: set<nat>,
                 after: map<PublicKey, Index>, missing: set<nat>)
    requires Puts(key, before, major, minors, after)
    requires forall m :: m in minors && m !in missing ==> key(major, m) in before
    ensures |after| <= |before| + |missing|
  {
    var image := set m | m in missing :: key(major, m);
    forall p | p in after.Keys ensures p in before.Keys + image {
      if p !in before { assert after[p].minor in missing; }
    }
    SubsetSize(after.Keys, before.Keys + image);
    UnionSize(before.Keys, image);
    ImageSize(key, major, missing);
    assert |after| == |after.Keys| && |before| == |before.Keys|;
  }

  lemma SubsetSize<T>(a: set<T>, b: set<T>)
    requires a <= b
    ensures |a| <= |b|
  {
    assert b == a + (b - a);
  }

  // ----- The upsert as functions -----

  datatype Upsert = Upsert(table: Table, count: nat, out: seq<Entry>, error: Option<Error>)

  /** `add_out`: ranges of the major index reported last extend that entry. */
  function AddOut(out: seq<Entry>, major: nat, delta: seq<Range>): seq<Entry> {
    if delta == [] then out
    else if out != [] && out[|out| - 1].major == major then
      out[..|out| - 1] + [Entry(major, out[|out| - 1].ranges + delta)]
    else out + [Entry(major, delta)]
  }

  function Written(key: KeyDerivation, t: Table, major: nat, ranges: seq<Range>): Table {
    Table(t.ranges[major := ranges], PutRanges(key, t.indexes, major, ranges))
  }

  function AfterEntry(key: KeyDerivation, u: Upsert, e: Entry, max: nat): Upsert {
    if !Canonical(e.ranges) then u.(error := Some(BadSchema))
    else if e.major !in u.table.ranges then
      if max < u.count + Total(e.ranges) then u.(error := Some(MaxSubaddresses))
      else Upsert(Written(key, u.table, e.major, e.ranges), u.count + Total(e.ranges), u.out + [e], None)
    else
      var stored := u.table.ranges[e.major];
      var delta := Delta(stored, e.ranges);
      if max < u.count + Total(delta) then
        u.(table := u.table.(ranges := u.table.ranges - {e.major}), error := Some(MaxSubaddresses))
      else
        Upsert(Written(key, u.table, e.major, Merge(stored, e.ranges)), u.count + Total(delta), AddOut(u.out, e.major, delta), None)
  }

  function AfterEntries(key: KeyDerivation, u: Upsert, request: seq<Entry>, max: nat): Upsert {
    if request == [] then u
    else
      var init := AfterEntries(key, u, request[..|request| - 1], max);
      if init.error.Some? then init else AfterEntry(key, init, request[|request| - 1], max)
  }

  function AfterUpsert(key: KeyDerivation, t: Table, request: seq<Entry>, max: nat): Upsert {
    if max < |t.indexes| then Upsert(t, |t.indexes|, [], Some(MaxSubaddresses))
    else AfterEntries(key, Upsert(t, |t.indexes|, [], None), request, max)
  }

  // ----- The loops of the source -----

  class Account {
    var table: Table
    const key: KeyDerivation

    constructor (table: Table, key: KeyDerivation)
      ensures this.table == table && this.key == key
    {
      this.table := table;
      this.key := key;
    }

    static method PutIndexes(key: KeyDerivation, stored: map<PublicKey, Index>, major: nat, ranges: seq<Range>)
      returns (rows: map<PublicKey, Index>)
      requires Proper(ranges)
      ensures rows == PutRanges(key, stored, major, ranges)
    {
      rows := stored;
      for i := 0 to |ranges|
        invariant rows == PutRanges(key, stored, major, ranges[..i])
      {
        ghost var before := rows;
        assert ranges[i] in ranges;
        for minor := ranges[i].lo to ranges[i].hi + 1
          invariant rows == if minor == ranges[i].lo then before else PutSpan(key, before, major, Range(ranges[i].lo, minor - 1))
        {
          rows := Put(rows, key(major, minor), Index(major, minor));
        }
        Prefix(ranges, i);
      }
      assert ranges[..|ranges|] == ranges;
    }

    /** One requested entry. When the quota fails in a merge, the stored ranges are deleted already. */
    method UpsertEntry(e: Entry, count: nat, out: seq<Entry>, max: nat)
      returns (error: Option<Error>, newCount: nat, newOut: seq<Entry>)
      requires WellFormed(table) && count <= max < UINT32_LIMIT
      modifies this
      ensures AfterEntry(key, Upsert(old(table), count, out, None), e, max) ==
              Upsert(table, if error.None? then newCount else count, if error.None? then newOut else out, error)
    {
      newCount, newOut := count, out;
      var checked := CheckRanges(e.ranges);
      if !checked {
        return Some(BadSchema), newCount, newOut;
      }
      var newDict := e.ranges;
      var ok;
      if e.major !in table.ranges {
        ok, newCount := CheckMaxRanges(e.ranges, count, max);
        if !ok {
          return Some(MaxSubaddresses), newCount, newOut;
        }
        newOut := out + [e];
      } else {
        var stored, delta := table.ranges[e.major], [];
        table := table.(ranges := table.ranges - {e.major});
        ok, newDict, delta, newCount := MergeRanges(stored, e.ranges, count, max);
        if !ok {
          return Some(MaxSubaddresses), newCount, newOut;
        }
        MergeDenotesUnion(stored, e.ranges);
        newOut := AddOut(out, e.major, delta);
      }
      var rows := PutIndexes(key, table.indexes, e.major, newDict);
      table := Table(table.ranges[e.major := newDict], rows);
      return None, newCount, newOut;
    }

    method DoUpsert(request: seq<Entry>, max: nat) returns (r: Result<seq<Entry>>)
      requires WellFormed(table) && max < UINT32_LIMIT
      modifies this
      ensures var u := AfterUpsert(key, old(table), request, max);
        table == u.table && r == if u.error.None? then Ok(u.out) else Err(u.error.value)
    {
      var count: nat := |table.indexes|;
      if max < count {
        return Err(MaxSubaddresses);
      }
      var out: seq<Entry> := [];
      ghost var start := Upsert(table, count, out, None);
      for i := 0 to |request|
        invariant WellFormed(table) && count <= max
        invariant AfterEntries(key, start, request[..i], max) == Upsert(table, count, out, None)
      {
        Prefix(request, i);
        EntryWellFormed(key, Upsert(table, count, out, None), request[i], max);
        var error, newCount, newOut := UpsertEntry(request[i], count, out, max);
        if error.Some? {
          EntriesFail(key, start, request, max, i + 1);
          return Err(error.value);
        }
        count, out := newCount, newOut;
      }
      assert request[..|request|] == request;
      return Ok(out);
    }

    /** `upsert_subaddresses`: an error aborts the transaction. */
    method UpsertSubaddresses(request: seq<Entry>, max: nat) returns (r: Result<seq<Entry>>)
      requires WellFormed(table) && max < UINT32_LIMIT
      modifies this
      ensures var u := AfterUpsert(key, old(table), request, max);
        if u.error.None? then r == Ok(u.out) && table == u.table
        else r == Err(u.error.value) && table == old(table)
    {
      var before := table;
      r := DoUpsert(request, max);
      if r.Err? {
        table := before;
      }
    }
  }

  lemma EntryWellFormed(key: KeyDerivation, u: Upsert, e: Entry, max: nat)
    requires WellFormed(u.table) && u.count <= max
    ensures AfterEntry(key, u, e, max).error.None? ==>
      WellFormed(AfterEntry(key, u, e, max).table) && AfterEntry(key, u, e, max).count <= max
  {
    if Canonical(e.ranges) && e.major in u.table.ranges {
      MergeDenotesUnion(u.table.ranges[e.major], e.ranges);
    }
  }

  lemma {:induction false} EntriesFail(key: KeyDerivation, u: Upsert, request: seq<Entry>, max: nat, n: nat)
    requires n <= |request| && AfterEntries(key, u, request[..n], max).error.Some?
    ensures AfterEntries(key, u, request, max) == AfterEntries(key, u, request[..n], max)
  {
    if n == |request| {
      assert request[..n] == request;
    } else {
      assert request[..|request| - 1][..n] == request[..n];
      EntriesFail(key, u, request[..|request| - 1], max, n);
    }
  }

  // ----- What a successful upsert leaves -----

  /** The running count bounds the rows of the index table. */
  ghost predicate Sound(key: KeyDerivation, t: Table, count: nat) {
    WellFormed(t) && IndexExact(key, t) && |t.indexes| <= count
  }

  /** Minor indexes the request names under one major index. */
  function Requested(request: seq<Entry>, major: nat): set<nat> {
    if request == [] then {}
    else
      var last := request[|request| - 1];
      Requested(request[..|request| - 1], major) + if last.major == major then Denote(last.ranges) else {}
  }

  /** `after` stores `ranges` under the major index and has a row for each of them. */
  ghost predicate Rewrites(key: KeyDerivation, t: Table, major: nat, ranges: seq<Range>, after: Table) {
    && Puts(key, t.indexes, major, Denote(ranges), after.indexes)
    && Minors(t, major) <= Minors(after, major) == Denote(ranges)
    && (forall m: nat :: m != major ==> Minors(after, m) == Minors(t, m))
  }

  lemma SubaddressHasRow(key: KeyDerivation, t: Table, major: nat, ranges: seq<Range>, after: Table, a: nat, b: nat)
    requires Injective(key) && IndexExact(key, t) && Rewrites(key, t, major, ranges, after) && b in Minors(after, a)
    ensures key(a, b) in after.indexes && after.indexes[key(a, b)] == Index(a, b)
  {
    hide Denote, Minors;
    if a != major { assert b in Minors(t, a); }
    assert key(a, b) in after.indexes;
    if key(a, b) in t.indexes {
      var i := t.indexes[key(a, b)];
      assert key(i.major, i.minor) == key(a, b);
    }
  }

  lemma RowHasSubaddress(key: KeyDerivation, t: Table, major: nat, ranges: seq<Range>, after: Table, p: PublicKey)
    requires IndexExact(key, t) && Rewrites(key, t, major, ranges, after) && p in after.indexes
    ensures after.indexes[p].minor in Minors(after, after.indexes[p].major)
    ensures key(after.indexes[p].major, after.indexes[p].minor) == p
  {
    hide Denote, Minors;
    if p in t.indexes { assert after.indexes[p] == t.indexes[p]; }
  }

  lemma WrittenExact(key: KeyDerivation, t: Table, major: nat, ranges: seq<Range>)
    requires Injective(key) && WellFormed(t) && IndexExact(key, t)
    requires Proper(ranges) && Minors(t, major) <= Denote(ranges)
    ensures WellFormed(Written(key, t, major, ranges)) && IndexExact(key, Written(key, t, major, ranges))
  {
    hide Denote, PutRanges, Puts, Injective;
    var after := Written(key, t, major, ranges);
    PutRangesPuts(key, t.indexes, major, ranges);
    OnlyMajor(key, t, major, ranges);
    assert Rewrites(key, t, major, ranges, after);
    forall a: nat, b | b in Minors(after, a) ensures key(a, b) in after.indexes && after.indexes[key(a, b)] == Index(a, b) {
      SubaddressHasRow(key, t, major, ranges, after, a, b);
    }
    forall p | p in after.indexes
      ensures after.indexes[p].minor in Minors(after, after.indexes[p].major) && key(after.indexes[p].major, after.indexes[p].minor) == p
    {
      RowHasSubaddress(key, t, major, ranges, after, p);
    }
  }

  /** The ranges written for one entry, and the ranges that are charged. */
  function Target(t: Table, e: Entry): seq<Range> {
    if e.major in t.ranges then Merge(t.ranges[e.major], e.ranges) else e.ranges
  }

  function Charged(t: Table, e: Entry): seq<Range> { Delta(StoredRanges(t, e.major), e.ranges) }

  lemma TargetCovers(t: Table, e: Entry)
    requires WellFormed(t) && Canonical(e.ranges)
    ensures Proper(Target(t, e)) && Denote(Target(t, e)) == Minors(t, e.major) + Denote(e.ranges)
    ensures Denote(e.ranges) - Minors(t, e.major) <= Denote(Charged(t, e)) <= Denote(e.ranges)
  {
    if e.major in t.ranges {
      MergeDenotesUnion(t.ranges[e.major], e.ranges);
      DeltaCovers(t.ranges[e.major], e.ranges);
    }
  }

  lemma WrittenSize(key: KeyDerivation, t: Table, e: Entry)
    requires WellFormed(t) && IndexExact(key, t) && Canonical(e.ranges)
    ensures |Written(key, t, e.major, Target(t, e)).indexes| <= |t.indexes| + Total(Charged(t, e))
  {
    hide Denote, Target, Charged, PutRanges, Total;
    var after := Written(key, t, e.major, Target(t, e)).indexes;
    TargetCovers(t, e);
    PutRangesPuts(key, t.indexes, e.major, Target(t, e));
    PutsSize(key, t.indexes, e.major, Denote(Target(t, e)), after, Denote(Charged(t, e)));
    DenoteSize(Charged(t, e));
  }

  /** One entry that fits: the union is stored, the index table stays exact and within the quota. */
  lemma EntryKeeps(key: KeyDerivation, u: Upsert, e: Entry, max: nat)
    requires Injective(key) && Sound(key, u.table, u.count)
    ensures var v := AfterEntry(key, u, e, max); v.error.None? ==>
      && Sound(key, v.table, v.count) && v.count <= max
      && v.count == u.count + Total(Charged(u.table, e))
      && v.table == Written(key, u.table, e.major, Target(u.table, e))
      && Minors(v.table, e.major) == Minors(u.table, e.major) + Denote(e.ranges)
  {
    hide Denote, Total, PutRanges, Injective, IndexExact;
    if Canonical(e.ranges) {
      TargetCovers(u.table, e);
      WrittenExact(key, u.table, e.major, Target(u.table, e));
      WrittenSize(key, u.table, e);
    }
  }

  ghost predicate HoldsUnion(before: Table, request: seq<Entry>, after: Table) {
    && (forall m: nat :: Minors(after, m) == Minors(before, m) + Requested(request, m))
    && (forall m: nat :: (forall e :: e in request ==> e.major != m) ==> StoredRanges(after, m) == StoredRanges(before, m))
  }

  lemma HoldsUnionStep(before: Table, request: seq<Entry>, middle: Table, after: Table)
    requires request != [] && HoldsUnion(before, request[..|request| - 1], middle)
    requires var e := request[|request| - 1];
      && Minors(after, e.major) == Minors(middle, e.major) + Denote(e.ranges)
      && (forall m: nat :: m != e.major ==> StoredRanges(after, m) == StoredRanges(middle, m))
    ensures HoldsUnion(before, request, after)
  {
    hide Denote;
    var e := request[|request| - 1];
    forall m: nat ensures Minors(after, m) == Minors(before, m) + Requested(request, m) {
      if m != e.major { assert StoredRanges(after, m) == StoredRanges(middle, m); }
    }
    assert e in request;
    assert forall x :: x in request[..|request| - 1] ==> x in request;
  }

  lemma {:induction false} EntriesKeep(key: KeyDerivation, u: Upsert, request: seq<Entry>, max: nat)
    requires Injective(key) && Sound(key, u.table, u.count) && u.count <= max && u.error.None?
    requires AfterEntries(key, u, request, max).error.None?
    ensures var v := AfterEntries(key, u, request, max);
      && Sound(key, v.table, v.count) && v.count <= max && HoldsUnion(u.table, request, v.table)
  {
    hide Sound, Injective, HoldsUnion, AfterEntry, Written;
    if request == [] {
      UnionOfNothing(u.table);
    } else {
      var init, e := request[..|request| - 1], request[|request| - 1];
      EntriesKeep(key, u, init, max);
      var middle := AfterEntries(key, u, init, max);
      EntryKeeps(key, middle, e, max);
      var v := AfterEntry(key, middle, e, max);
      OnlyMajor(key, middle.table, e.major, Target(middle.table, e));
      HoldsUnionStep(u.table, request, middle.table, v.table);
    }
  }

  lemma UnionOfNothing(t: Table)
    ensures HoldsUnion(t, [], t)
  {
  }

  lemma OnlyMajor(key: KeyDerivation, t: Table, major: nat, ranges: seq<Range>)
    ensures forall m: nat :: m != major ==> StoredRanges(Written(key, t, major, ranges), m) == StoredRanges(t, m)
  {
  }

  /** After a successful upsert every major index stands for what it held and what was requested, the index table
      holds exactly one row per subaddress, and the account is within its quota. */
  lemma UpsertHoldsUnion(key: KeyDerivation, t: Table, request: seq<Entry>, max: nat)
    requires Injective(key) && WellFormed(t) && IndexExact(key, t)
    requires AfterUpsert(key, t, request, max).error.None?
    ensures var after := AfterUpsert(key, t, request, max).table;
      WellFormed(after) && IndexExact(key, after) && |after.indexes| <= max && HoldsUnion(t, request, after)
  {
    EntriesKeep(key, Upsert(t, |t.indexes|, [], None), request, max);
  }

  // ----- What a failed upsert leaves where the transaction is committed all the same -----

  /** The deleted ranges row is lost: ranges and indexes then agree exactly when the failing entry was malformed or
      its major index held nothing. */
  lemma FailedEntry(key: KeyDerivation, u: Upsert, e: Entry, max: nat)
    requires WellFormed(u.table) && IndexExact(key, u.table) && AfterEntry(key, u, e, max).error.Some? && u.error.None?
    ensures var v := AfterEntry(key, u, e, max);
      IndexExact(key, v.table) <==> v.error == Some(BadSchema) || Minors(u.table, e.major) == {}
  {
    hide Denote, Merge, Delta, Total, PutRanges;
    var t, v := u.table, AfterEntry(key, u, e, max);
    assert forall m: nat :: m != e.major ==> StoredRanges(v.table, m) == StoredRanges(t, m);
    NothingDenoted();
    if v.error == Some(BadSchema) || e.major !in t.ranges {
      assert v.table == t;
      assert Minors(t, e.major) == {} || v.error == Some(BadSchema);
    } else {
      assert Minors(v.table, e.major) == {};
      if b :| b in Minors(t, e.major) {
        assert key(e.major, b) in v.table.indexes && v.table.indexes[key(e.major, b)] == Index(e.major, b);
        assert b !in Minors(v.table, e.major);
      } else {
        assert forall m: nat :: Minors(v.table, m) == Minors(t, m);
      }
    }
  }

  lemma NothingDenoted()
    ensures Denote([]) == {}
  {
  }

  lemma FailedUpsert(key: KeyDerivation, t: Table, request: seq<Entry>, max: nat, n: nat)
    requires Injective(key) && WellFormed(t) && IndexExact(key, t) && |t.indexes| <= max && n < |request|
    requires AfterUpsert(key, t, request[..n], max).error.None? && AfterUpsert(key, t, request[..n + 1], max).error.Some?
    ensures var v := AfterUpsert(key, t, request, max);
      && v.error.Some?
      && (IndexExact(key, v.table) <==>
            v.error == Some(BadSchema) || Minors(AfterUpsert(key, t, request[..n], max).table, request[n].major) == {})
  {
    hide IndexExact, Denote, AfterEntry;
    var start := Upsert(t, |t.indexes|, [], None);
    EntriesKeep(key, start, request[..n], max);
    Prefix(request, n);
    assert request[..n + 1][..n] == request[..n];
    assert request[..n + 1][n] == request[n];
    FailedEntry(key, AfterEntries(key, start, request[..n], max), request[n], max);
    EntriesFail(key, start, request, max, n + 1);
  }

  // ----- The report -----

  /** Minor indexes reported under one major index. */
  function Reported(out: seq<Entry>, major: nat): set<nat> {
    if out == [] then {}
    else
      var last := out[|out| - 1];
      Reported(out[..|out| - 1], major) + if last.major == major then Denote(last.ranges) else {}
  }

  lemma ReportedMore(out: seq<Entry>, e: Entry, major: nat)
    ensures Reported(out + [e], major) == Reported(out, major) + if e.major == major then Denote(e.ranges) else {}
  {
    assert (out + [e])[..|out + [e]| - 1] == out;
  }

  lemma AddOutReports(out: seq<Entry>, major: nat, delta: seq<Range>, m: nat)
    ensures Reported(AddOut(out, major, delta), m) == Reported(out, m) + if m == major then Denote(delta) else {}
  {
    hide Denote, Reported;
    NothingDenoted();
    if delta != [] {
      if out != [] && out[|out| - 1].major == major {
        var init, last := out[..|out| - 1], out[|out| - 1];
        assert out == init + [last];
        ReportedMore(init, last, m);
        ReportedMore(init, Entry(major, last.ranges + delta), m);
        DenoteAppend(last.ranges, delta);
      } else {
        ReportedMore(out, Entry(major, delta), m);
      }
    }
  }

  lemma EntryReports(key: KeyDerivation, u: Upsert, e: Entry, max: nat, m: nat)
    requires AfterEntry(key, u, e, max).error.None?
    ensures Reported(AfterEntry(key, u, e, max).out, m) ==
            Reported(u.out, m) + if m == e.major then Denote(Charged(u.table, e)) else {}
  {
    hide Denote, Reported, Merge, PutRanges, Total;
    if e.major in u.table.ranges {
      AddOutReports(u.out, e.major, Delta(u.table.ranges[e.major], e.ranges), m);
    } else {
      ReportedMore(u.out, e, m);
    }
  }

  /** Everything requested and not stored is reported, and nothing else than requested subaddresses. */
  lemma {:induction false} ReportCovers(key: KeyDerivation, u: Upsert, request: seq<Entry>, max: nat, m: nat)
    requires Injective(key) && Sound(key, u.table, u.count) && u.count <= max && u.error.None? && Reported(u.out, m) == {}
    requires AfterEntries(key, u, request, max).error.None?
    ensures Requested(request, m) - Minors(u.table, m) <= Reported(AfterEntries(key, u, request, max).out, m) <= Requested(request, m)
  {
    hide Denote, Sound, Injective, AfterEntry, Charged, Reported, HoldsUnion, Minors;
    if request != [] {
      var init, e := request[..|request| - 1], request[|request| - 1];
      ReportCovers(key, u, init, max, m);
      EntriesKeep(key, u, init, max);
      var middle := AfterEntries(key, u, init, max);
      EntryReports(key, middle, e, max, m);
      CanonicalEntry(key, middle, e, max);
      TargetCovers(middle.table, e);
      UnionAt(u.table, init, middle.table, m);
    }
  }

  lemma UnionAt(before: Table, request: seq<Entry>, after: Table, m: nat)
    requires HoldsUnion(before, request, after)
    ensures Minors(after, m) == Minors(before, m) + Requested(request, m)
  {
  }

  lemma CanonicalEntry(key: KeyDerivation, u: Upsert, e: Entry, max: nat)
    requires Sound(key, u.table, u.count) && AfterEntry(key, u, e, max).error.None?
    ensures Canonical(e.ranges) && WellFormed(u.table)
  {
  }

  predicate DistinctMajors(request: seq<Entry>) {
    forall i, j :: 0 <= i < j < |request| ==> request[i].major != request[j].major
  }

  predicate CanonicalReport(out: seq<Entry>) { forall e :: e in out ==> Canonical(e.ranges) }

  predicate OnlyMajors(out: seq<Entry>, request: seq<Entry>) {
    forall x :: x in out ==> exists e :: e in request && e.major == x.major
  }

  /** With one entry per major index every reported list is canonical. */
  lemma {:induction false} ReportCanonical(key: KeyDerivation, u: Upsert, request: seq<Entry>, max: nat)
    requires WellFormed(u.table) && u.out == [] && u.count <= max && u.error.None? && DistinctMajors(request)
    requires AfterEntries(key, u, request, max).error.None?
    ensures var v := AfterEntries(key, u, request, max);
      && WellFormed(v.table) && v.count <= max && CanonicalReport(v.out) && OnlyMajors(v.out, request)
      && (forall m: nat :: (forall e :: e in request ==> e.major != m) ==> StoredRanges(v.table, m) == StoredRanges(u.table, m))
  {
    hide Canonical, Delta, Merge, PutRanges, Total;
    if request != [] {
      var init, e := request[..|request| - 1], request[|request| - 1];
      ReportCanonical(key, u, init, max);
      var middle := AfterEntries(key, u, init, max);
      EntryWellFormed(key, middle, e, max);
      NotLast(request, middle.out);
      assert e in request && forall x :: x in init ==> x in request;
      if e.major in middle.table.ranges {
        DeltaCanonical(middle.table.ranges[e.major], e.ranges);
      }
    }
  }

  lemma NotLast(request: seq<Entry>, out: seq<Entry>)
    requires request != [] && DistinctMajors(request) && OnlyMajors(out, request[..|request| - 1])
    ensures out != [] ==> out[|out| - 1].major != request[|request| - 1].major
    ensures forall e :: e in request[..|request| - 1] ==> e.major != request[|request| - 1].major
  {
    if out != [] { assert out[|out| - 1] in out; }
  }

  /** With one entry per major index: what is reported for it, seen from the table before the upsert. */
  lemma {:induction false} ReportIsDelta(key: KeyDerivation, u: Upsert, request: seq<Entry>, max: nat, i: nat)
    requires WellFormed(u.table) && u.out == [] && u.count <= max && u.error.None? && DistinctMajors(request)
    requires AfterEntries(key, u, request, max).error.None? && i < |request|
    ensures Reported(AfterEntries(key, u, request, max).out, request[i].major) ==
            Denote(Delta(StoredRanges(u.table, request[i].major), request[i].ranges))
  {
    hide Denote, Delta, AfterEntry, CanonicalReport;
    var init, e := request[..|request| - 1], request[|request| - 1];
    var middle := AfterEntries(key, u, init, max);
    var m := request[i].major;
    EntryReports(key, middle, e, max, m);
    ReportCanonical(key, u, init, max);
    NotLast(request, middle.out);
    if i < |request| - 1 {
      ReportIsDelta(key, u, init, max, i);
      assert init[i] == request[i] && request[i] in init;
    } else {
      NotReported(middle.out, init, m);
    }
  }

  lemma {:induction false} NotReported(out: seq<Entry>, request: seq<Entry>, m: nat)
    requires OnlyMajors(out, request) && forall e :: e in request ==> e.major != m
    ensures Reported(out, m) == {}
  {
    hide Denote;
    if out != [] {
      assert out[|out| - 1] in out;
      NotReported(out[..|out| - 1], request, m);
    }
  }

  lemma {:induction false} EntryCanonical(key: KeyDerivation, u: Upsert, request: seq<Entry>, max: nat, i: nat)
    requires AfterEntries(key, u, request, max).error.None? && i < |request|
    ensures Canonical(request[i].ranges)
  {
    hide Canonical, Merge, Delta, PutRanges, Total;
    if i < |request| - 1 {
      EntryCanonical(key, u, request[..|request| - 1], max, i);
    }
  }
}
