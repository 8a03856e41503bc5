/** Quota and report of a whole upsert request, entries with the same major index included (`do_upsert`,
    src/db/storage.cpp). Both are stated over the tables before the upsert. */
module Reports {
  import opened Rows
  import opened Ranges
  import opened Subaddresses

  // ----- The ranges each entry meets -----

  /** The ranges after some entries, whatever the quota; the index table is left alone. */
  function Rewritten(t: Table, request: seq<Entry>): Table {
    if request == [] then t
    else
      var init, e := Rewritten(t, request[..|request| - 1]), request[|request| - 1];
      init.(ranges := init.ranges[e.major := Target(init, e)])
  }

  /** What the `i`-th entry is charged for and reports. */
  function ChargedAt(t: Table, request: seq<Entry>, i: nat): seq<Range>
    requires i < |request|
  {
    Charged(Rewritten(t, request[..i]), request[i])
  }

  function ChargedTotal(t: Table, request: seq<Entry>): nat {
    if request == [] then 0
    else
      var init := request[..|request| - 1];
      ChargedTotal(t, init) + Total(Charged(Rewritten(t, init), request[|request| - 1]))
  }

  predicate AllCanonical(request: seq<Entry>) { forall e :: e in request ==> Canonical(e.ranges) }

  lemma LastEntry(request: seq<Entry>)
    requires request != []
    ensures var init, e := request[..|request| - 1], request[|request| - 1];
      && AllCanonical(request) == (AllCanonical(init) && Canonical(e.ranges))
      && (forall x :: x in request <==> x in init || x == e)
  {
    hide Canonical;
    assert request == request[..|request| - 1] + [request[|request| - 1]];
  }

  /** Every stored list is ordered: what the merge writes is, and what a request writes for a new major index. */
  ghost predicate Ordered(t: Table) { forall m :: m in t.ranges ==> LowsAscend(t.ranges[m]) }

  lemma {:induction false} RewrittenKeeps(t: Table, request: seq<Entry>)
    requires WellFormed(t) && AllCanonical(request)
    ensures WellFormed(Rewritten(t, request))
    ensures forall m: nat :: Minors(Rewritten(t, request), m) == Minors(t, m) + Requested(request, m)
    ensures Ordered(t) ==> Ordered(Rewritten(t, request))
  {
    hide Denote, Canonical;
    if request != [] {
      LastEntry(request);
      var init, e := request[..|request| - 1], request[|request| - 1];
      RewrittenKeeps(t, init);
      var middle := Rewritten(t, init);
      TargetCovers(middle, e);
      TargetOrdered(middle, e);
      assert forall m: nat :: m != e.major ==> StoredRanges(Rewritten(t, request), m) == StoredRanges(middle, m);
    }
  }

  lemma TargetOrdered(t: Table, e: Entry)
    requires WellFormed(t) && Canonical(e.ranges)
    ensures Ordered(t) ==> LowsAscend(Target(t, e))
  {
    CanonicalLows(e.ranges);
    if e.major in t.ranges && Ordered(t) {
      MergeLowsAscend(t.ranges[e.major], e.ranges);
    }
  }

  // ----- The quota -----

  lemma ChargedSame(a: Table, b: Table, e: Entry)
    requires a.ranges == b.ranges
    ensures Charged(a, e) == Charged(b, e) && Target(a, e) == Target(b, e)
  {
  }

  /** Whether one entry succeeds, and what it leaves. */
  lemma EntryOutcome(key: KeyDerivation, u: Upsert, e: Entry, max: nat)
    ensures var v := AfterEntry(key, u, e, max);
      && (u.error.None? ==> (v.error.None? <==> Canonical(e.ranges) && u.count + Total(Charged(u.table, e)) <= max))
      && (v.error.None? ==>
            v.count == u.count + Total(Charged(u.table, e)) && v.table.ranges == u.table.ranges[e.major := Target(u.table, e)])
  {
    hide Canonical, Merge, Total, PutRanges;
  }

  /** An upsert succeeds if and only if every entry is well formed and everything that is charged fits; then the ranges
      are the rewritten ones. */
  lemma {:induction false} QuotaCharges(key: KeyDerivation, u: Upsert, request: seq<Entry>, max: nat)
    requires u.error.None? && u.count <= max
    ensures var v := AfterEntries(key, u, request, max);
      && (v.error.None? <==> AllCanonical(request) && u.count + ChargedTotal(u.table, request) <= max)
      && (v.error.None? ==>
            v.count == u.count + ChargedTotal(u.table, request) && v.table.ranges == Rewritten(u.table, request).ranges)
  {
    hide Canonical, Total, AfterEntry, Charged, Target;
    if request != [] {
      LastEntry(request);
      var init, e := request[..|request| - 1], request[|request| - 1];
      QuotaCharges(key, u, init, max);
      var middle := AfterEntries(key, u, init, max);
      if middle.error.None? {
        ChargedSame(middle.table, Rewritten(u.table, init), e);
        EntryOutcome(key, middle, e, max);
      }
    }
  }

  /** Requested subaddresses that are not stored. */
  function NewIndexes(t: Table, request: seq<Entry>): set<Index> {
    set e, x | e in request && x in Denote(e.ranges) && x !in Minors(t, e.major) :: Index(e.major, x)
  }

  function IndexesOf(major: nat, minors: set<nat>): set<Index> { set x | x in minors :: Index(major, x) }

  lemma {:induction false} IndexesSize(major: nat, minors: set<nat>)
    ensures |IndexesOf(major, minors)| == |minors|
    decreases minors
  {
    if x :| x in minors {
      IndexesSize(major, minors - {x});
      assert IndexesOf(major, minors) == IndexesOf(major, minors - {x}) + {Index(major, x)};
    }
  }

  /** No requested range leaks past the first range it touches, among the ranges stored when its entry is reached. */
  ghost predicate NoEntryLeaks(t: Table, request: seq<Entry>) {
    request != [] ==>
      var init, e := request[..|request| - 1], request[|request| - 1];
      NoEntryLeaks(t, init) && NoneLeaks(StoredRanges(Rewritten(t, init), e.major), e.ranges)
  }

  lemma {:induction false} CanonicalSize(rs: seq<Range>)
    requires Canonical(rs)
    ensures |Denote(rs)| == Total(rs)
  {
    if rs != [] {
      AllAbove(rs);
      CanonicalSize(rs[1..]);
      SpanSize(rs[0]);
      SpanClear(rs[0], rs[1..]);
      assert |Span(rs[0]) + Denote(rs[1..])| == |Span(rs[0])| + |Denote(rs[1..])|;
    }
  }

  lemma RequestedIn(request: seq<Entry>, m: nat, x: nat)
    ensures x in Requested(request, m) <==> exists e :: e in request && e.major == m && x in Denote(e.ranges)
  {
    hide Denote;
    if request != [] {
      LastOf(request);
      RequestedIn(request[..|request| - 1], m, x);
    }
  }

  lemma LastOf(request: seq<Entry>)
    requires request != []
    ensures forall x :: x in request <==> x in request[..|request| - 1] || x == request[|request| - 1]
  {
    assert request == request[..|request| - 1] + [request[|request| - 1]];
  }

  lemma NewOfLast(t: Table, request: seq<Entry>)
    requires request != [] && WellFormed(t) && AllCanonical(request)
    ensures var init, e := request[..|request| - 1], request[|request| - 1];
      var more := IndexesOf(e.major, Denote(e.ranges) - Minors(Rewritten(t, init), e.major));
      NewIndexes(t, request) == NewIndexes(t, init) + more && NewIndexes(t, init) !! more
  {
    hide Denote, Canonical, Minors;
    LastEntry(request);
    var init, e := request[..|request| - 1], request[|request| - 1];
    RewrittenKeeps(t, init);
    forall x: nat ensures x in Requested(init, e.major) <==> exists f :: f in init && f.major == e.major && x in Denote(f.ranges) {
      RequestedIn(init, e.major, x);
    }
  }

  /** Then exactly the new subaddresses are charged. */
  lemma {:induction false} ChargedIsNew(t: Table, request: seq<Entry>)
    requires WellFormed(t) && Ordered(t) && AllCanonical(request) && NoEntryLeaks(t, request)
    ensures ChargedTotal(t, request) == |NewIndexes(t, request)|
  {
    hide Denote, Canonical, NoneLeaks, LowsAscend, Minors;
    if request == [] {
      assert NewIndexes(t, request) == {};
    } else {
      LastEntry(request);
      var init, e := request[..|request| - 1], request[|request| - 1];
      ChargedIsNew(t, init);
      RewrittenKeeps(t, init);
      EntryChargedIsNew(Rewritten(t, init), e);
      NewOfLast(t, request);
      IndexesSize(e.major, Denote(e.ranges) - Minors(Rewritten(t, init), e.major));
    }
  }

  lemma OrderedAt(t: Table, m: nat)
    requires WellFormed(t)
    ensures Proper(StoredRanges(t, m)) && (Ordered(t) ==> LowsAscend(StoredRanges(t, m)))
  {
  }

  lemma EntryChargedIsNew(t: Table, e: Entry)
    requires WellFormed(t) && Ordered(t) && Canonical(e.ranges) && NoneLeaks(StoredRanges(t, e.major), e.ranges)
    ensures Total(Charged(t, e)) == |Denote(e.ranges) - Minors(t, e.major)|
  {
    hide Denote, Canonical, NoneLeaks, LowsAscend, Proper, Delta;
    OrderedAt(t, e.major);
    DeltaExact(StoredRanges(t, e.major), e.ranges);
    DeltaCanonical(StoredRanges(t, e.major), e.ranges);
    CanonicalSize(Charged(t, e));
  }

  /** Where no requested range leaks, a request is refused if and only if the account would hold more subaddresses than
      it may. */
  lemma QuotaExact(key: KeyDerivation, t: Table, request: seq<Entry>, max: nat)
    requires WellFormed(t) && Ordered(t) && AllCanonical(request) && NoEntryLeaks(t, request)
    ensures AfterUpsert(key, t, request, max).error.None? <==> |t.indexes| + |NewIndexes(t, request)| <= max
  {
    hide Denote, Canonical, NoneLeaks, NewIndexes, ChargedTotal, AfterEntries, Rewritten;
    ChargedIsNew(t, request);
    if |t.indexes| <= max {
      QuotaCharges(key, Upsert(t, |t.indexes|, [], None), request, max);
    }
  }

  /** Every successful upsert keeps the stored lists ordered. */
  lemma UpsertKeepsOrder(key: KeyDerivation, t: Table, request: seq<Entry>, max: nat)
    requires WellFormed(t) && Ordered(t) && AfterUpsert(key, t, request, max).error.None?
    ensures Ordered(AfterUpsert(key, t, request, max).table) && WellFormed(AfterUpsert(key, t, request, max).table)
  {
    hide LowsAscend, Proper, AfterEntries, Rewritten;
    QuotaCharges(key, Upsert(t, |t.indexes|, [], None), request, max);
    RewrittenKeeps(t, request);
  }

  // ----- The report of distinct major indexes -----

  /** The report of an entry is exactly what was requested and not stored, if and only if no requested range leaks past
      the first stored range it touches. */
  lemma ReportExact(key: KeyDerivation, t: Table, request: seq<Entry>, max: nat, i: nat)
    requires WellFormed(t) && Ordered(t) && DistinctMajors(request) && i < |request|
    requires AfterUpsert(key, t, request, max).error.None?
    ensures var out := AfterUpsert(key, t, request, max).out;
      && CanonicalReport(out)
      && (Reported(out, request[i].major) == Denote(request[i].ranges) - Minors(t, request[i].major) <==>
            NoneLeaks(StoredRanges(t, request[i].major), request[i].ranges))
  {
    hide Denote, Delta, AfterEntry, NoneLeaks, CanonicalReport, LowsAscend, Proper;
    var start := Upsert(t, |t.indexes|, [], None);
    ReportCanonical(key, start, request, max);
    ReportIsDelta(key, start, request, max, i);
    EntryCanonical(key, start, request, max, i);
    OrderedAt(t, request[i].major);
    DeltaExact(StoredRanges(t, request[i].major), request[i].ranges);
  }

  // ----- The report of repeated major indexes -----

  /** `upsert_subaddresses` sorts the request. */
  predicate SortedMajors(request: seq<Entry>) {
    forall i, j :: 0 <= i < j < |request| ==> request[i].major <= request[j].major
  }

  /** The ranges reported for one major index, in the order in which they are reported. */
  function JoinedRanges(t: Table, request: seq<Entry>, m: nat): seq<Range> {
    if request == [] then []
    else
      var init, e := request[..|request| - 1], request[|request| - 1];
      JoinedRanges(t, init, m) + if e.major == m then Charged(Rewritten(t, init), e) else []
  }

  predicate MajorsAscend(out: seq<Entry>) { forall i, j :: 0 <= i < j < |out| ==> out[i].major < out[j].major }

  /** The report holds one list per major index, which joins what its entries are charged for. */
  ghost predicate JoinsReport(t: Table, request: seq<Entry>, out: seq<Entry>) {
    && MajorsAscend(out)
    && (forall x :: x in out ==> x.ranges == JoinedRanges(t, request, x.major))
    && (forall x :: x in out ==> exists e :: e in request && e.major == x.major)
    && (forall m: nat :: JoinedRanges(t, request, m) != [] ==> exists x :: x in out && x.major == m)
  }

  lemma {:induction false} MajorsRewritten(t: Table, request: seq<Entry>)
    ensures forall m :: m in Rewritten(t, request).ranges <==> m in t.ranges || exists e :: e in request && e.major == m
  {
    hide Target;
    if request != [] {
      LastOf(request);
      MajorsRewritten(t, request[..|request| - 1]);
    }
  }

  lemma {:induction false} NothingJoined(t: Table, request: seq<Entry>, m: nat)
    requires forall e :: e in request ==> e.major != m
    ensures JoinedRanges(t, request, m) == []
  {
    if request != [] {
      LastOf(request);
      NothingJoined(t, request[..|request| - 1], m);
    }
  }

  lemma JoinedStep(t: Table, request: seq<Entry>, m: nat)
    requires request != []
    ensures var init, e := request[..|request| - 1], request[|request| - 1];
      JoinedRanges(t, request, m) ==
        if e.major == m then JoinedRanges(t, init, m) + Charged(Rewritten(t, init), e) else JoinedRanges(t, init, m)
  {
    hide Charged, Rewritten;
  }

  lemma {:induction false} JoinedSteps(t: Table, request: seq<Entry>)
    requires request != []
    ensures var init, e := request[..|request| - 1], request[|request| - 1];
      && (forall m: nat :: m != e.major ==> JoinedRanges(t, request, m) == JoinedRanges(t, init, m))
      && JoinedRanges(t, request, e.major) == JoinedRanges(t, init, e.major) + Charged(Rewritten(t, init), e)
  {
    hide JoinedRanges, Charged, Rewritten;
    forall m: nat ensures JoinedRanges(t, request, m) ==
      if request[|request| - 1].major == m
      then JoinedRanges(t, request[..|request| - 1], m) + Charged(Rewritten(t, request[..|request| - 1]), request[|request| - 1])
      else JoinedRanges(t, request[..|request| - 1], m)
    {
      JoinedStep(t, request, m);
    }
  }

  /** A list for a new, larger major index. */
  lemma PushReport(t: Table, request: seq<Entry>, out: seq<Entry>)
    requires request != [] && SortedMajors(request)
    requires JoinsReport(t, request[..|request| - 1], out)
    requires var e := request[|request| - 1]; forall x :: x in out ==> x.major < e.major
    ensures var init, e := request[..|request| - 1], request[|request| - 1];
      JoinsReport(t, request, out + [Entry(e.major, Charged(Rewritten(t, init), e))])
  {
    hide Charged, Rewritten, JoinedRanges;
    LastOf(request);
    JoinedSteps(t, request);
    var init, e := request[..|request| - 1], request[|request| - 1];
    var x := Entry(e.major, Charged(Rewritten(t, init), e));
    var longer := out + [x];
    assert JoinedRanges(t, init, e.major) == [];
    assert forall y :: y in longer <==> y in out || y == x;
    assert forall k :: 0 <= k < |out| ==> longer[k] == out[k] && out[k] in out;
    assert e in request;
    forall m: nat | JoinedRanges(t, request, m) != [] ensures exists y :: y in longer && y.major == m {
      if m == e.major {
        assert x in longer;
      }
    }
  }

  /** Further ranges for the list that is last. */
  lemma ExtendReport(t: Table, request: seq<Entry>, out: seq<Entry>)
    requires request != [] && JoinsReport(t, request[..|request| - 1], out)
    requires out != [] && out[|out| - 1].major == request[|request| - 1].major
    ensures var init, e, last := request[..|request| - 1], request[|request| - 1], out[|out| - 1];
      JoinsReport(t, request, out[..|out| - 1] + [Entry(e.major, last.ranges + Charged(Rewritten(t, init), e))])
  {
    hide Charged, Rewritten, JoinedRanges;
    LastOf(request);
    JoinedSteps(t, request);
    var init, e, front, last := request[..|request| - 1], request[|request| - 1], out[..|out| - 1], out[|out| - 1];
    var x := Entry(e.major, last.ranges + Charged(Rewritten(t, init), e));
    var longer := front + [x];
    assert last in out && forall y :: y in out <==> y in front || y == last;
    assert forall y :: y in longer <==> y in front || y == x;
    SameMajors(out, x);
    assert forall k :: 0 <= k < |front| ==> front[k] == out[k];
    assert e in request;
    forall m: nat | JoinedRanges(t, request, m) != [] ensures exists y :: y in longer && y.major == m {
      if m == e.major {
        assert x in longer;
      }
    }
  }

  lemma SameMajors(out: seq<Entry>, x: Entry)
    requires out != [] && MajorsAscend(out) && x.major == out[|out| - 1].major
    ensures MajorsAscend(out[..|out| - 1] + [x])
    ensures forall y :: y in out[..|out| - 1] ==> y.major < x.major
  {
    var longer := out[..|out| - 1] + [x];
    assert forall k :: 0 <= k < |out| ==> longer[k].major == out[k].major;
  }

  /** Nothing new to report. */
  lemma SameReport(t: Table, request: seq<Entry>, out: seq<Entry>)
    requires request != [] && JoinsReport(t, request[..|request| - 1], out)
    requires Charged(Rewritten(t, request[..|request| - 1]), request[|request| - 1]) == []
    ensures JoinsReport(t, request, out)
  {
    hide Charged, Rewritten, JoinedRanges;
    LastOf(request);
    JoinedSteps(t, request);
    var init, e := request[..|request| - 1], request[|request| - 1];
    assert JoinedRanges(t, init, e.major) + [] == JoinedRanges(t, init, e.major);
  }

  /** A list with the largest major index is the last one. */
  lemma LargestIsLast(out: seq<Entry>, major: nat)
    requires MajorsAscend(out) && forall x :: x in out ==> x.major <= major
    requires out == [] || out[|out| - 1].major != major
    ensures forall x :: x in out ==> x.major < major
  {
    if out != [] {
      assert out[|out| - 1] in out;
    }
  }

  lemma MajorsBelow(request: seq<Entry>, out: seq<Entry>)
    requires request != [] && SortedMajors(request)
    requires forall x :: x in out ==> exists e :: e in request[..|request| - 1] && e.major == x.major
    ensures forall x :: x in out ==> x.major <= request[|request| - 1].major
  {
    forall x | x in out ensures x.major <= request[|request| - 1].major {
      var e :| e in request[..|request| - 1] && e.major == x.major;
      var k :| 0 <= k < |request| - 1 && request[..|request| - 1][k] == e;
      assert request[k].major <= request[|request| - 1].major;
    }
  }

  lemma EntryJoins(key: KeyDerivation, t: Table, u: Upsert, request: seq<Entry>, max: nat)
    requires request != [] && SortedMajors(request) && u.table.ranges == Rewritten(t, request[..|request| - 1]).ranges
    requires JoinsReport(t, request[..|request| - 1], u.out)
    requires AfterEntry(key, u, request[|request| - 1], max).error.None?
    ensures JoinsReport(t, request, AfterEntry(key, u, request[|request| - 1], max).out)
  {
    hide Canonical, JoinsReport, JoinedRanges, Rewritten, Delta, Merge, PutRanges, Total, SortedMajors;
    var init, e := request[..|request| - 1], request[|request| - 1];
    var middle := Rewritten(t, init);
    ChargedSame(u.table, middle, e);
    JoinsMeans(t, init, u.out);
    MajorsBelow(request, u.out);
    if e.major !in u.table.ranges {
      MajorsRewritten(t, init);
      FirstIsWhole(middle, e);
      assert forall x :: x in u.out ==> x.major != e.major;
      PushReport(t, request, u.out);
      assert Entry(e.major, e.ranges) == e;
    } else if Charged(middle, e) == [] {
      SameReport(t, request, u.out);
    } else if u.out != [] && u.out[|u.out| - 1].major == e.major {
      ExtendReport(t, request, u.out);
    } else {
      LargestIsLast(u.out, e.major);
      PushReport(t, request, u.out);
    }
  }

  lemma JoinsMeans(t: Table, request: seq<Entry>, out: seq<Entry>)
    requires JoinsReport(t, request, out)
    ensures MajorsAscend(out) && forall x :: x in out ==> exists e :: e in request && e.major == x.major
  {
  }

  lemma FirstIsWhole(t: Table, e: Entry)
    requires e.major !in t.ranges
    ensures Charged(t, e) == e.ranges
  {
  }

  lemma {:induction false} ReportJoins(key: KeyDerivation, u: Upsert, request: seq<Entry>, max: nat)
    requires u.error.None? && u.count <= max && u.out == [] && SortedMajors(request)
    requires AfterEntries(key, u, request, max).error.None?
    ensures JoinsReport(u.table, request, AfterEntries(key, u, request, max).out)
  {
    hide JoinsReport, Rewritten, AfterEntry, AllCanonical, ChargedTotal;
    if request == [] {
      NothingReported(u.table);
    } else {
      var init := request[..|request| - 1];
      assert SortedMajors(init);
      ReportJoins(key, u, init, max);
      QuotaCharges(key, u, init, max);
      EntryJoins(key, u.table, AfterEntries(key, u, init, max), request, max);
    }
  }

  lemma NothingReported(t: Table)
    ensures JoinsReport(t, [], [])
  {
  }

  /** Every range of `a` is before every range of `b`. */
  predicate AllBefore(a: seq<Range>, b: seq<Range>) { forall x, y :: x in a && y in b ==> Before(x, y) }

  lemma CanonicalBoth(a: seq<Range>, b: seq<Range>)
    ensures Canonical(a + b) <==> Canonical(a) && Canonical(b) && AllBefore(a, b)
  {
    var all := a + b;
    assert forall x :: x in all <==> x in a || x in b;
    if Canonical(all) {
      assert forall i :: 0 <= i < |a| ==> all[i] == a[i];
      assert forall i :: 0 <= i < |b| ==> all[|a| + i] == b[i];
    }
    if Canonical(a) && Canonical(b) && AllBefore(a, b) {
      CanonicalAppend(a, b);
    }
  }

  /** Entries of one major index are charged for ascending parts. */
  ghost predicate ChargedInOrder(t: Table, request: seq<Entry>, m: nat) {
    forall i, j :: 0 <= i < j < |request| && request[i].major == m && request[j].major == m ==>
      AllBefore(ChargedAt(t, request, i), ChargedAt(t, request, j))
  }

  lemma ChargedOfPrefix(t: Table, request: seq<Entry>, i: nat)
    requires i + 1 < |request|
    ensures ChargedAt(t, request[..|request| - 1], i) == ChargedAt(t, request, i)
  {
    assert request[..|request| - 1][..i] == request[..i];
  }

  lemma {:induction false} JoinedIn(t: Table, request: seq<Entry>, m: nat, x: Range)
    ensures x in JoinedRanges(t, request, m) <==>
            exists i :: 0 <= i < |request| && request[i].major == m && x in ChargedAt(t, request, i)
  {
    hide Charged, Rewritten;
    if request != [] {
      var init, n := request[..|request| - 1], |request| - 1;
      JoinedIn(t, init, m, x);
      assert forall i :: 0 <= i < n ==> init[i] == request[i];
      forall i | 0 <= i < n ensures ChargedAt(t, init, i) == ChargedAt(t, request, i) {
        ChargedOfPrefix(t, request, i);
      }
      assert ChargedAt(t, request, n) == Charged(Rewritten(t, init), request[n]);
    }
  }

  lemma {:induction false} JoinedCanonical(t: Table, request: seq<Entry>, m: nat)
    requires WellFormed(t) && AllCanonical(request)
    ensures Canonical(JoinedRanges(t, request, m)) <==> ChargedInOrder(t, request, m)
  {
    hide Canonical, AllBefore, Charged, Rewritten, WellFormed, AllCanonical;
    if request == [] {
      NothingCanonical();
    } else {
      LastEntry(request);
      var init, e, n := request[..|request| - 1], request[|request| - 1], |request| - 1;
      var joined, charged := JoinedRanges(t, init, m), Charged(Rewritten(t, init), e);
      JoinedCanonical(t, init, m);
      LastCharged(t, init, e);
      CanonicalBoth(joined, charged);
      forall i | 0 <= i < n ensures init[i] == request[i] && ChargedAt(t, init, i) == ChargedAt(t, request, i) {
        ChargedOfPrefix(t, request, i);
      }
      assert ChargedAt(t, request, n) == charged;
      assert joined + [] == joined;
      if e.major == m {
        BeforeJoined(t, init, m, charged);
      }
    }
  }

  lemma NothingCanonical()
    ensures Canonical([])
  {
  }

  lemma LastCharged(t: Table, init: seq<Entry>, e: Entry)
    requires WellFormed(t) && AllCanonical(init) && Canonical(e.ranges)
    ensures Canonical(Charged(Rewritten(t, init), e))
  {
    hide Canonical, Delta, Rewritten;
    RewrittenKeeps(t, init);
    OrderedAt(Rewritten(t, init), e.major);
    DeltaCanonical(StoredRanges(Rewritten(t, init), e.major), e.ranges);
  }

  lemma BeforeJoined(t: Table, request: seq<Entry>, m: nat, charged: seq<Range>)
    ensures AllBefore(JoinedRanges(t, request, m), charged) <==>
      forall i :: 0 <= i < |request| && request[i].major == m ==> AllBefore(ChargedAt(t, request, i), charged)
  {
    hide Charged, Rewritten, JoinedRanges, Before;
    forall x ensures x in JoinedRanges(t, request, m) <==>
      exists i :: 0 <= i < |request| && request[i].major == m && x in ChargedAt(t, request, i)
    {
      JoinedIn(t, request, m, x);
    }
  }

  /** The report of a sorted request has canonical lists only, if and only if of two entries with the same major index the
      later one is charged for ranges above all ranges the earlier one is charged for. */
  lemma RepeatedMajors(key: KeyDerivation, t: Table, request: seq<Entry>, max: nat)
    requires WellFormed(t) && SortedMajors(request) && AfterUpsert(key, t, request, max).error.None?
    ensures CanonicalReport(AfterUpsert(key, t, request, max).out) <==>
      forall i, j :: 0 <= i < j < |request| && request[i].major == request[j].major ==>
        AllBefore(ChargedAt(t, request, i), ChargedAt(t, request, j))
  {
    hide Canonical, AllBefore, ChargedAt, JoinedRanges, AfterEntries, ChargedTotal, Rewritten, WellFormed, AllCanonical;
    var start := Upsert(t, |t.indexes|, [], None);
    QuotaCharges(key, start, request, max);
    ReportJoins(key, start, request, max);
    var out := AfterUpsert(key, t, request, max).out;
    forall m: nat ensures Canonical(JoinedRanges(t, request, m)) <==> ChargedInOrder(t, request, m) {
      JoinedCanonical(t, request, m);
    }
    NothingCanonical();
    EachList(t, request, out);
    if CanonicalReport(out) {
      forall i, j | 0 <= i < j < |request| && request[i].major == request[j].major
        ensures AllBefore(ChargedAt(t, request, i), ChargedAt(t, request, j))
      {
        assert ChargedInOrder(t, request, request[i].major);
      }
    } else {
      var m: nat :| !Canonical(JoinedRanges(t, request, m));
      assert !ChargedInOrder(t, request, m);
    }
  }

  /** Every list of the report, and every nonempty join, is looked at. */
  lemma EachList(t: Table, request: seq<Entry>, out: seq<Entry>)
    requires JoinsReport(t, request, out)
    ensures CanonicalReport(out) <==> forall m: nat :: Canonical(JoinedRanges(t, request, m))
  {
    hide Canonical, JoinedRanges;
    NothingCanonical();
    if CanonicalReport(out) {
      forall m: nat ensures Canonical(JoinedRanges(t, request, m)) {
        if JoinedRanges(t, request, m) != [] {
          var x :| x in out && x.major == m;
          assert x.ranges == JoinedRanges(t, request, m);
        }
      }
    } else {
      var x :| x in out && !Canonical(x.ranges);
      assert x.ranges == JoinedRanges(t, request, x.major);
    }
  }

  /** Without stored ranges, entries [0, 5] and [3, 9] of one major index are reported as [0, 5], [6, 9]; entries [0, 5] and
      [10, 12] are reported as they are. */
  lemma RepeatedMajorExample(t: Table)
    requires 1 !in t.ranges
    ensures var joined, apart := [Entry(1, [Range(0, 5)]), Entry(1, [Range(3, 9)])], [Entry(1, [Range(0, 5)]), Entry(1, [Range(10, 12)])];
      && !AllBefore(ChargedAt(t, joined, 0), ChargedAt(t, joined, 1))
      && AllBefore(ChargedAt(t, apart, 0), ChargedAt(t, apart, 1))
  {
    ChargedTwice(t, Range(3, 9));
    ChargedTwice(t, Range(10, 12));
    var joined := [Entry(1, [Range(0, 5)]), Entry(1, [Range(3, 9)])];
    assert Delta([Range(0, 5)], [Range(3, 9)]) == [Range(6, 9)];
    assert Delta([Range(0, 5)], [Range(10, 12)]) == [Range(10, 12)];
    assert Range(0, 5) in ChargedAt(t, joined, 0) && Range(6, 9) in ChargedAt(t, joined, 1);
  }

  lemma ChargedTwice(t: Table, r: Range)
    requires 1 !in t.ranges
    ensures var request := [Entry(1, [Range(0, 5)]), Entry(1, [r])];
      ChargedAt(t, request, 0) == [Range(0, 5)] && ChargedAt(t, request, 1) == Delta([Range(0, 5)], [r])
  {
    var request := [Entry(1, [Range(0, 5)]), Entry(1, [r])];
    assert request[..0] == [] && request[..1] == [request[0]] && request[..1][..0] == [];
    assert Rewritten(t, request[..0]) == t;
    assert Rewritten(t, request[..1]) == t.(ranges := t.ranges[1 := [Range(0, 5)]]);
  }
}
