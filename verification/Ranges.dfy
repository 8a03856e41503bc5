/** Lists of minor subaddress index ranges: the canonical form (`check_subaddress_dict`, src/db/data.cpp) and the
    two-pointer merge of a requested list into a stored one (`do_upsert`, src/db/storage.cpp). */
module Ranges {
  import opened Rows

  datatype Range = Range(lo: nat, hi: nat)

  /** `a` ends below `b` and does not touch it: at least one index lies between. */
  predicate Before(a: Range, b: Range) { a.hi + 1 < b.lo }

  predicate Touches(a: Range, b: Range) { !Before(a, b) && !Before(b, a) }

  predicate Overlaps(a: Range, b: Range) { a.lo <= b.hi && b.lo <= a.hi }

  predicate Proper(rs: seq<Range>) { forall r :: r in rs ==> r.lo <= r.hi }

  predicate Ascending(rs: seq<Range>) { forall i, j :: 0 <= i < j < |rs| ==> Before(rs[i], rs[j]) }

  /** Sorted, disjoint and non-adjacent. */
  predicate Canonical(rs: seq<Range>) { Proper(rs) && Ascending(rs) }

  function Span(r: Range): (s: set<nat>)
    ensures forall x :: x in s <==> r.lo <= x <= r.hi
    decreases r.hi
  {
    if r.hi < r.lo then {}
    else if r.hi == r.lo then {r.hi}
    else Span(Range(r.lo, r.hi - 1)) + {r.hi}
  }

  lemma {:induction false} SpanSize(r: Range)
    ensures |Span(r)| == Length(r)
    decreases r.hi
  {
    if r.lo < r.hi {
      SpanSize(Range(r.lo, r.hi - 1));
    }
  }

  /** The indexes a list of ranges stands for. */
  function Denote(rs: seq<Range>): set<nat> {
    if rs == [] then {} else Span(rs[0]) + Denote(rs[1..])
  }

  function Length(r: Range): nat { if r.lo <= r.hi then r.hi - r.lo + 1 else 0 }

  function Total(rs: seq<Range>): nat {
    if rs == [] then 0 else Length(rs[0]) + Total(rs[1..])
  }

  lemma {:induction false} DenoteAppend(a: seq<Range>, b: seq<Range>)
    ensures Denote(a + b) == Denote(a) + Denote(b)
  {
    if a == [] {
      assert a + b == b;
    } else {
      assert (a + b)[1..] == a[1..] + b;
      DenoteAppend(a[1..], b);
    }
  }

  lemma {:induction false} TotalAppend(a: seq<Range>, b: seq<Range>)
    ensures Total(a + b) == Total(a) + Total(b)
  {
    if a == [] {
      assert a + b == b;
    } else {
      assert (a + b)[1..] == a[1..] + b;
      TotalAppend(a[1..], b);
    }
  }

  lemma {:induction false} DenoteIn(rs: seq<Range>, x: nat)
    ensures x in Denote(rs) <==> exists r :: r in rs && r.lo <= x <= r.hi
  {
    if rs != [] {
      DenoteIn(rs[1..], x);
      assert forall r :: r in rs <==> r == rs[0] || r in rs[1..];
    }
  }

  lemma {:induction false} DenoteSize(rs: seq<Range>)
    ensures |Denote(rs)| <= Total(rs)
  {
    if rs != [] {
      DenoteSize(rs[1..]);
      SpanSize(rs[0]);
      UnionSize(Span(rs[0]), Denote(rs[1..]));
    }
  }

  lemma UnionSize<T>(a: set<T>, b: set<T>)
    ensures |a + b| <= |a| + |b|
  {
    assert a + b == a + (b - a);
  }

  /** In an ascending list every range is before all later ones. */
  lemma AllAbove(rs: seq<Range>)
    requires Canonical(rs) && rs != []
    ensures Canonical(rs[1..])
    ensures forall r :: r in rs[1..] ==> Before(rs[0], r)
  {
  }

  lemma CanonicalCons(r: Range, rs: seq<Range>)
    requires r.lo <= r.hi
    ensures Canonical([r] + rs) <==> Canonical(rs) && (rs == [] || Before(r, rs[0]))
  {
    var all := [r] + rs;
    if Canonical(all) {
      assert all[1..] == rs;
      AllAbove(all);
      assert rs != [] ==> all[1] == rs[0] && Before(all[0], all[1]);
    }
    if Canonical(rs) && (rs == [] || Before(r, rs[0])) {
      forall j | 0 < j < |all| ensures Before(r, all[j]) {
        assert all[j] == rs[j - 1] && rs[0] in rs;
      }
      assert forall x :: x in all ==> x == r || x in rs;
      assert forall i, j :: 0 < i < j < |all| ==> all[i] == rs[i - 1] && all[j] == rs[j - 1];
    }
  }

  // ----- The canonical form is what the source checks -----

  method CheckRanges(rs: seq<Range>) returns (ok: bool)
    ensures ok <==> Canonical(rs)
  {
    var isFirst := true;
    var last := 0;
    for i := 0 to |rs|
      invariant isFirst <==> i == 0
      invariant !isFirst ==> last == rs[i - 1].hi
      invariant forall j :: 0 <= j < i ==> rs[j].lo <= rs[j].hi
      invariant forall j, k :: 0 <= j < k < i ==> Before(rs[j], rs[k])
    {
      if rs[i].hi < rs[i].lo {
        return false;
      }
      if rs[i].lo <= last + 1 && !isFirst {
        assert !Before(rs[i - 1], rs[i]);
        return false;
      }
      isFirst := false;
      last := rs[i].hi;
    }
    return true;
  }

  // ----- The merge -----

  function Hull(a: Range, b: Range): Range { Range(Min(a.lo, b.lo), Max(a.hi, b.hi)) }

  predicate Inside(r: Range, a: Range) { a.lo <= r.lo && r.hi <= a.hi }

  /** What is stored afterwards: a requested range extends the first stored range it touches. */
  function Merge(stored: seq<Range>, wanted: seq<Range>): seq<Range>
    decreases |stored| + |wanted|
  {
    if stored == [] then wanted
    else if wanted == [] then stored
    else if Before(wanted[0], stored[0]) then [wanted[0]] + Merge(stored, wanted[1..])
    else if Before(stored[0], wanted[0]) then [stored[0]] + Merge(stored[1..], wanted)
    else if Inside(wanted[0], stored[0]) then Merge(stored, wanted[1..])
    else Merge([Hull(stored[0], wanted[0])] + stored[1..], wanted[1..])
  }

  /** The parts of a requested range on both sides of the stored range it extends. */
  function Sides(r: Range, a: Range): seq<Range> {
    (if r.lo < a.lo then [Range(r.lo, a.lo - 1)] else []) + if a.hi < r.hi then [Range(a.hi + 1, r.hi)] else []
  }

  /** The ranges that are charged and reported. */
  function Delta(stored: seq<Range>, wanted: seq<Range>): seq<Range>
    decreases |stored| + |wanted|
  {
    if stored == [] then wanted
    else if wanted == [] then []
    else if Before(wanted[0], stored[0]) then [wanted[0]] + Delta(stored, wanted[1..])
    else if Before(stored[0], wanted[0]) then Delta(stored[1..], wanted)
    else if Inside(wanted[0], stored[0]) then Delta(stored, wanted[1..])
    else Sides(wanted[0], stored[0]) + Delta([Hull(stored[0], wanted[0])] + stored[1..], wanted[1..])
  }

  lemma HullDenotes(r: Range, a: Range)
    requires Touches(a, r) && a.lo <= a.hi && r.lo <= r.hi
    ensures Span(Hull(a, r)) == Span(a) + Span(r)
  {
  }

  lemma ProperParts(stored: seq<Range>, wanted: seq<Range>)
    requires Proper(stored) && Proper(wanted) && stored != [] && wanted != []
    ensures Proper(stored[1..]) && Proper(wanted[1..]) && Proper([Hull(stored[0], wanted[0])] + stored[1..])
    ensures stored[0].lo <= stored[0].hi && wanted[0].lo <= wanted[0].hi
  {
    assert stored[0] in stored && wanted[0] in wanted;
  }

  /** The merged list stands for the union, whatever the stored list looks like. */
  lemma {:induction false} MergeDenotesUnion(stored: seq<Range>, wanted: seq<Range>)
    requires Proper(stored) && Proper(wanted)
    ensures Denote(Merge(stored, wanted)) == Denote(stored) + Denote(wanted)
    ensures Proper(Merge(stored, wanted))
    decreases |stored| + |wanted|
  {
    if stored != [] && wanted != [] {
      ProperParts(stored, wanted);
      var a, r := stored[0], wanted[0];
      if Before(r, a) {
        MergeDenotesUnion(stored, wanted[1..]);
        assert ([r] + Merge(stored, wanted[1..]))[1..] == Merge(stored, wanted[1..]);
      } else if Before(a, r) {
        MergeDenotesUnion(stored[1..], wanted);
        assert ([a] + Merge(stored[1..], wanted))[1..] == Merge(stored[1..], wanted);
      } else if Inside(r, a) {
        MergeDenotesUnion(stored, wanted[1..]);
      } else {
        var extended := [Hull(a, r)] + stored[1..];
        MergeDenotesUnion(extended, wanted[1..]);
        assert extended[1..] == stored[1..];
        HullDenotes(r, a);
      }
    }
  }

  /** The reported ranges lie inside the request and cover everything that was not stored. */
  lemma {:induction false} DeltaCovers(stored: seq<Range>, wanted: seq<Range>)
    requires Proper(stored) && Proper(wanted)
    ensures Denote(wanted) - Denote(stored) <= Denote(Delta(stored, wanted)) <= Denote(wanted)
    decreases |stored| + |wanted|
  {
    if stored != [] && wanted != [] {
      ProperParts(stored, wanted);
      var a, r := stored[0], wanted[0];
      if Before(r, a) {
        DeltaCovers(stored, wanted[1..]);
        assert ([r] + Delta(stored, wanted[1..]))[1..] == Delta(stored, wanted[1..]);
      } else if Before(a, r) {
        DeltaCovers(stored[1..], wanted);
      } else if Inside(r, a) {
        DeltaCovers(stored, wanted[1..]);
      } else {
        var extended := [Hull(a, r)] + stored[1..];
        DeltaCovers(extended, wanted[1..]);
        assert extended[1..] == stored[1..];
        DenoteAppend(Sides(r, a), Delta(extended, wanted[1..]));
        SidesDenote(r, a);
        HullDenotes(r, a);
      }
    }
  }

  lemma SidesDenote(r: Range, a: Range)
    requires Touches(a, r) && a.lo <= a.hi && r.lo <= r.hi
    ensures Denote(Sides(r, a)) == Span(r) - Span(a)
  {
    forall x: nat ensures x in Denote(Sides(r, a)) <==> x in Span(r) - Span(a) {
      SidesContain(r, a, x);
    }
  }

  lemma SidesContain(r: Range, a: Range, x: nat)
    requires Touches(a, r) && a.lo <= a.hi && r.lo <= r.hi
    ensures x in Denote(Sides(r, a)) <==> r.lo <= x <= r.hi && !(a.lo <= x <= a.hi)
  {
    hide Denote, Span;
    DenoteIn(Sides(r, a), x);
    if r.lo <= x < a.lo {
      assert Sides(r, a)[0] == Range(r.lo, a.lo - 1);
    }
    if a.hi < x <= r.hi {
      assert Sides(r, a)[|Sides(r, a)| - 1] == Range(a.hi + 1, r.hi);
    }
  }

  // ----- When the stored list stays canonical -----

  /** No requested range touches two stored ranges. */
  ghost predicate TouchesOne(stored: seq<Range>, wanted: seq<Range>) {
    forall r, a, b :: r in wanted && a in stored && b in stored && Touches(a, r) && Touches(b, r) ==> a == b
  }

  lemma {:induction false} MergeFrom(stored: seq<Range>, wanted: seq<Range>, low: nat)
    requires forall r :: r in stored ==> low <= r.lo
    requires forall r :: r in wanted ==> low <= r.lo
    ensures forall r :: r in Merge(stored, wanted) ==> low <= r.lo
    decreases |stored| + |wanted|
  {
    if stored != [] && wanted != [] {
      assert stored[0] in stored && wanted[0] in wanted;
      if Before(wanted[0], stored[0]) {
        MergeFrom(stored, wanted[1..], low);
      } else if Before(stored[0], wanted[0]) {
        MergeFrom(stored[1..], wanted, low);
      } else if Inside(wanted[0], stored[0]) {
        MergeFrom(stored, wanted[1..], low);
      } else {
        MergeFrom([Hull(stored[0], wanted[0])] + stored[1..], wanted[1..], low);
      }
    }
  }

  lemma {:induction false} MergeHead(stored: seq<Range>, wanted: seq<Range>)
    requires stored != [] && Proper(stored) && Proper(wanted)
    ensures Merge(stored, wanted) != [] && Merge(stored, wanted)[0].lo <= stored[0].lo
    decreases |stored| + |wanted|
  {
    if wanted != [] {
      ProperParts(stored, wanted);
      if Before(wanted[0], stored[0]) || Before(stored[0], wanted[0]) {
      } else if Inside(wanted[0], stored[0]) {
        MergeHead(stored, wanted[1..]);
      } else {
        MergeHead([Hull(stored[0], wanted[0])] + stored[1..], wanted[1..]);
      }
    }
  }

  /** Two stored ranges that touch stay next to each other when every request lies above the first. */
  lemma TouchingPairStays(stored: seq<Range>, wanted: seq<Range>)
    requires |stored| >= 2 && Proper(stored) && Proper(wanted)
    requires !Before(stored[0], stored[1])
    requires forall r :: r in wanted ==> Before(stored[0], r)
    ensures !Canonical(Merge(stored, wanted))
  {
    if wanted == [] {
      assert !Before(stored[1 - 1], stored[1]);
    } else {
      assert wanted[0] in wanted && stored[0] in stored;
      var rest := Merge(stored[1..], wanted);
      MergeHead(stored[1..], wanted);
      CanonicalCons(stored[0], rest);
      assert !Before(wanted[0], stored[0]);
    }
  }

  lemma CanonicalHeads(stored: seq<Range>, wanted: seq<Range>)
    requires Canonical(stored) && Canonical(wanted) && stored != [] && wanted != []
    ensures Canonical(stored[1..]) && Canonical(wanted[1..])
    ensures stored[0].lo <= stored[0].hi && wanted[0].lo <= wanted[0].hi
    ensures forall b :: b in stored[1..] ==> Before(stored[0], b)
    ensures forall s :: s in wanted[1..] ==> Before(wanted[0], s)
    ensures forall b :: b in stored <==> b == stored[0] || b in stored[1..]
    ensures forall s :: s in wanted <==> s == wanted[0] || s in wanted[1..]
    ensures forall b :: b in stored ==> b.lo <= b.hi
    ensures forall s :: s in wanted ==> s.lo <= s.hi
  {
    AllAbove(stored);
    AllAbove(wanted);
    assert stored[0] in stored && wanted[0] in wanted;
  }

  /** The stored list stays canonical exactly when no requested range touches two stored ones. */
  lemma {:induction false} MergeCanonical(stored: seq<Range>, wanted: seq<Range>)
    requires Canonical(stored) && Canonical(wanted)
    ensures Canonical(Merge(stored, wanted)) <==> TouchesOne(stored, wanted)
    decreases |stored| + |wanted|
  {
    if stored != [] && wanted != [] {
      CanonicalHeads(stored, wanted);
      var a, r := stored[0], wanted[0];
      if Before(r, a) {
        MergeCanonical(stored, wanted[1..]);
        MergeFrom(stored, wanted[1..], r.hi + 2);
        CanonicalCons(r, Merge(stored, wanted[1..]));
        assert TouchesOne(stored, wanted) <==> TouchesOne(stored, wanted[1..]);
      } else if Before(a, r) {
        MergeCanonical(stored[1..], wanted);
        MergeFrom(stored[1..], wanted, a.hi + 2);
        CanonicalCons(a, Merge(stored[1..], wanted));
        assert TouchesOne(stored, wanted) <==> TouchesOne(stored[1..], wanted);
      } else if Inside(r, a) {
        MergeCanonical(stored, wanted[1..]);
        assert TouchesOne(stored, wanted) <==> TouchesOne(stored, wanted[1..]);
      } else {
        MergeCanonicalHull(stored, wanted);
      }
    }
  }

  lemma {:induction false} MergeCanonicalHull(stored: seq<Range>, wanted: seq<Range>)
    requires Canonical(stored) && Canonical(wanted) && stored != [] && wanted != []
    requires Touches(stored[0], wanted[0]) && !Inside(wanted[0], stored[0])
    ensures Canonical(Merge(stored, wanted)) <==> TouchesOne(stored, wanted)
    decreases |stored| + |wanted|, 0
  {
    CanonicalHeads(stored, wanted);
    var a, r := stored[0], wanted[0];
    var h := Hull(a, r);
    var extended := [h] + stored[1..];
    CanonicalCons(h, stored[1..]);
    if |stored| > 1 && Touches(stored[1], r) {
      assert extended[1] == stored[1];
      TouchingPairStays(extended, wanted[1..]);
      assert a in stored && stored[1] in stored && r in wanted;
    } else {
      if |stored| > 1 {
        AllAbove(stored[1..]);
        assert forall b :: b in stored[1..] ==> b == stored[1] || b in stored[1..][1..];
      }
      assert forall b :: b in stored[1..] ==> Before(r, b);
      MergeCanonical(extended, wanted[1..]);
      assert forall s :: s in wanted[1..] ==> (Touches(h, s) <==> Touches(a, s));
      HullTouches(stored, wanted);
    }
  }

  lemma HullTouches(stored: seq<Range>, wanted: seq<Range>)
    requires Canonical(stored) && Canonical(wanted) && stored != [] && wanted != []
    requires Touches(stored[0], wanted[0])
    requires forall b :: b in stored[1..] ==> Before(wanted[0], b)
    ensures TouchesOne(stored, wanted) <==> TouchesOne([Hull(stored[0], wanted[0])] + stored[1..], wanted[1..])
  {
    CanonicalHeads(stored, wanted);
    var a, r := stored[0], wanted[0];
    var h := Hull(a, r);
    var extended := [h] + stored[1..];
    assert forall b :: b in extended <==> b == h || b in stored[1..];
    assert forall s :: s in wanted[1..] ==> (Touches(h, s) <==> Touches(a, s));
    assert forall b :: b in stored[1..] ==> a != b && h != b && !Touches(b, r);
  }

  // ----- The reported ranges -----

  lemma {:induction false} DeltaInside(stored: seq<Range>, wanted: seq<Range>)
    requires Proper(stored) && Proper(wanted)
    ensures forall d :: d in Delta(stored, wanted) ==> d.lo <= d.hi && exists r :: r in wanted && Inside(d, r)
    decreases |stored| + |wanted|
  {
    if stored == [] {
      assert forall r :: r in wanted ==> Inside(r, r);
    } else if wanted != [] {
      ProperParts(stored, wanted);
      var a, r := stored[0], wanted[0];
      assert r in wanted && Inside(r, r);
      if Before(r, a) || Inside(r, a) {
        DeltaInside(stored, wanted[1..]);
      } else if Before(a, r) {
        DeltaInside(stored[1..], wanted);
      } else {
        DeltaInside([Hull(a, r)] + stored[1..], wanted[1..]);
        assert forall d :: d in Sides(r, a) ==> d.lo <= d.hi && Inside(d, r);
      }
    }
  }

  lemma CanonicalAppend(a: seq<Range>, b: seq<Range>)
    requires Canonical(a) && Canonical(b)
    requires forall x, y :: x in a && y in b ==> Before(x, y)
    ensures Canonical(a + b)
  {
  }

  /** The pieces around one stored range, followed by what later requests add, are in canonical form. */
  lemma {:induction false} DeltaCanonical(stored: seq<Range>, wanted: seq<Range>)
    requires Proper(stored) && Canonical(wanted)
    ensures Canonical(Delta(stored, wanted))
    decreases |stored| + |wanted|
  {
    if stored != [] && wanted != [] {
      ProperParts(stored, wanted);
      AllAbove(wanted);
      var a, r := stored[0], wanted[0];
      if Before(r, a) {
        DeltaCanonical(stored, wanted[1..]);
        DeltaInside(stored, wanted[1..]);
        CanonicalAppend([r], Delta(stored, wanted[1..]));
      } else if Before(a, r) {
        DeltaCanonical(stored[1..], wanted);
      } else if Inside(r, a) {
        DeltaCanonical(stored, wanted[1..]);
      } else {
        var rest := Delta([Hull(a, r)] + stored[1..], wanted[1..]);
        DeltaCanonical([Hull(a, r)] + stored[1..], wanted[1..]);
        DeltaInside([Hull(a, r)] + stored[1..], wanted[1..]);
        CanonicalAppend(Sides(r, a), rest);
      }
    }
  }

  /** Lower bounds ascend strictly. Unlike the canonical form, this holds of every list the merge writes. */
  predicate LowsAscend(rs: seq<Range>) { forall i, j :: 0 <= i < j < |rs| ==> rs[i].lo < rs[j].lo }

  lemma LowsCons(r: Range, rs: seq<Range>)
    requires LowsAscend(rs) && forall b :: b in rs ==> r.lo < b.lo
    ensures LowsAscend([r] + rs)
  {
    var all := [r] + rs;
    assert forall i :: 0 < i < |all| ==> all[i] == rs[i - 1];
    assert forall i :: 0 <= i < |rs| ==> rs[i] in rs;
  }

  lemma LowsTail(rs: seq<Range>)
    requires LowsAscend(rs) && rs != []
    ensures LowsAscend(rs[1..]) && forall b :: b in rs[1..] ==> rs[0].lo < b.lo
  {
  }

  lemma CanonicalLows(rs: seq<Range>)
    requires Canonical(rs)
    ensures LowsAscend(rs)
  {
    assert forall i :: 0 <= i < |rs| ==> rs[i] in rs;
  }

  /** The merge keeps the lower bounds of the stored list ascending. */
  lemma {:induction false} MergeLowsAscend(stored: seq<Range>, wanted: seq<Range>)
    requires Proper(stored) && LowsAscend(stored) && Canonical(wanted)
    ensures LowsAscend(Merge(stored, wanted))
    decreases |stored| + |wanted|
  {
    CanonicalLows(wanted);
    if stored != [] && wanted != [] {
      ProperParts(stored, wanted);
      LowsTail(stored);
      AllAbove(wanted);
      var a, r := stored[0], wanted[0];
      if Before(r, a) {
        MergeLowsAscend(stored, wanted[1..]);
        MergeFrom(stored, wanted[1..], r.lo + 1);
        LowsCons(r, Merge(stored, wanted[1..]));
      } else if Before(a, r) {
        MergeLowsAscend(stored[1..], wanted);
        MergeFrom(stored[1..], wanted, a.lo + 1);
        LowsCons(a, Merge(stored[1..], wanted));
      } else if Inside(r, a) {
        MergeLowsAscend(stored, wanted[1..]);
      } else {
        LowsCons(Hull(a, r), stored[1..]);
        MergeLowsAscend([Hull(a, r)] + stored[1..], wanted[1..]);
      }
    }
  }

  /** The part of `r` inside `b` does not lie inside `a`. */
  predicate Leaks(r: Range, a: Range, b: Range) {
    Overlaps(b, r) && !Inside(Range(Max(b.lo, r.lo), Min(b.hi, r.hi)), a)
  }

  /** The first stored range that `r` touches leaves no part of `r` inside a later stored range. */
  predicate Alone(stored: seq<Range>, r: Range) {
    stored == [] ||
    if Touches(stored[0], r) then forall b :: b in stored[1..] ==> !Leaks(r, stored[0], b) else Alone(stored[1..], r)
  }

  ghost predicate NoneLeaks(stored: seq<Range>, wanted: seq<Range>) {
    forall r :: r in wanted ==> Alone(stored, r)
  }

  /** In a canonical list a range leaks exactly into the later stored ranges it overlaps, so it is enough that it touches
      one stored range at most. */
  lemma {:induction false} TouchesOneSuffices(stored: seq<Range>, wanted: seq<Range>)
    requires Canonical(stored) && Proper(wanted) && TouchesOne(stored, wanted)
    ensures NoneLeaks(stored, wanted)
  {
    if stored != [] {
      AllAbove(stored);
      assert stored[0] in stored && forall b :: b in stored[1..] ==> b in stored;
      TouchesOneSuffices(stored[1..], wanted);
      forall r | r in wanted && Touches(stored[0], r) ensures Alone(stored, r) {
        forall b | b in stored[1..] ensures !Leaks(r, stored[0], b) {
          assert Before(stored[0], b);
          assert Overlaps(b, r) ==> Touches(b, r);
        }
      }
    }
  }

  /** Nothing that is reported was stored. */
  ghost predicate Fresh(stored: seq<Range>, wanted: seq<Range>) {
    Denote(Delta(stored, wanted)) !! Denote(stored)
  }

  /** Exactly what is new is reported, if and only if no requested range leaks past the first stored range it touches. */
  lemma {:induction false} DeltaExact(stored: seq<Range>, wanted: seq<Range>)
    requires Proper(stored) && LowsAscend(stored) && Canonical(wanted)
    ensures Denote(Delta(stored, wanted)) == Denote(wanted) - Denote(stored) <==> NoneLeaks(stored, wanted)
  {
    DeltaFresh(stored, wanted);
    DeltaCovers(stored, wanted);
  }

  lemma Heads(stored: seq<Range>, wanted: seq<Range>)
    requires Proper(stored) && LowsAscend(stored) && Canonical(wanted) && stored != [] && wanted != []
    ensures Proper(stored[1..]) && LowsAscend(stored[1..]) && Canonical(wanted[1..])
    ensures stored[0].lo <= stored[0].hi && wanted[0].lo <= wanted[0].hi
    ensures forall b :: b in stored[1..] ==> stored[0].lo < b.lo <= b.hi
    ensures forall s :: s in wanted[1..] ==> Before(wanted[0], s) && s.lo <= s.hi
    ensures forall s :: s in wanted <==> s == wanted[0] || s in wanted[1..]
    ensures Denote(stored) == Span(stored[0]) + Denote(stored[1..])
    ensures Denote(wanted) == Span(wanted[0]) + Denote(wanted[1..])
  {
    LowsTail(stored);
    AllAbove(wanted);
    assert stored[0] in stored && wanted[0] in wanted;
  }

  lemma {:induction false} BeforeAllIsAlone(stored: seq<Range>, r: Range)
    requires forall b :: b in stored ==> Before(r, b)
    ensures Alone(stored, r)
  {
    if stored != [] {
      assert stored[0] in stored;
      BeforeAllIsAlone(stored[1..], r);
    }
  }

  lemma FreshBefore(stored: seq<Range>, wanted: seq<Range>)
    requires Proper(stored) && LowsAscend(stored) && Canonical(wanted) && stored != [] && wanted != []
    requires Before(wanted[0], stored[0])
    ensures Fresh(stored, wanted) <==> Fresh(stored, wanted[1..])
    ensures NoneLeaks(stored, wanted) <==> NoneLeaks(stored, wanted[1..])
  {
    hide Denote, Span, Alone;
    Heads(stored, wanted);
    assert forall b :: b in stored ==> b == stored[0] || b in stored[1..];
    BeforeAllIsAlone(stored, wanted[0]);
    var rest := Delta(stored, wanted[1..]);
    DenoteCons(wanted[0], rest);
    SpanClear(wanted[0], stored);
  }

  lemma DenoteCons(r: Range, rs: seq<Range>)
    ensures Denote([r] + rs) == Span(r) + Denote(rs)
  {
    assert ([r] + rs)[1..] == rs;
  }

  lemma FreshAfter(stored: seq<Range>, wanted: seq<Range>)
    requires Proper(stored) && LowsAscend(stored) && Canonical(wanted) && stored != [] && wanted != []
    requires Before(stored[0], wanted[0])
    ensures Fresh(stored, wanted) <==> Fresh(stored[1..], wanted)
    ensures NoneLeaks(stored, wanted) <==> NoneLeaks(stored[1..], wanted)
  {
    hide Denote, Span;
    Heads(stored, wanted);
    assert forall s :: s in wanted ==> !Touches(stored[0], s);
    DeltaAbove(stored[1..], wanted, stored[0]);
  }

  lemma FreshInside(stored: seq<Range>, wanted: seq<Range>)
    requires Proper(stored) && LowsAscend(stored) && Canonical(wanted) && stored != [] && wanted != []
    requires Inside(wanted[0], stored[0])
    ensures Fresh(stored, wanted) <==> Fresh(stored, wanted[1..])
    ensures NoneLeaks(stored, wanted) <==> NoneLeaks(stored, wanted[1..])
  {
    hide Denote, Span;
    Heads(stored, wanted);
    assert Touches(stored[0], wanted[0]);
    assert Alone(stored, wanted[0]);
  }

  predicate Within(x: nat, r: Range) { r.lo <= x <= r.hi }

  lemma LeakingPoint(r: Range, a: Range, b: Range) returns (x: nat)
    requires Leaks(r, a, b) && r.lo <= r.hi && b.lo <= b.hi
    ensures Within(x, r) && Within(x, b) && !Within(x, a)
  {
    var piece := Range(Max(b.lo, r.lo), Min(b.hi, r.hi));
    x := if piece.lo < a.lo then piece.lo else piece.hi;
  }

  lemma PointLeaks(r: Range, a: Range, b: Range, x: nat)
    requires Within(x, r) && Within(x, b) && !Within(x, a)
    ensures Leaks(r, a, b)
  {
  }

  /** What lies beside `a` meets a later stored range exactly when `r` leaks. */
  lemma SidesMeet(r: Range, a: Range, later: seq<Range>)
    requires r.lo <= r.hi && a.lo <= a.hi && Proper(later)
    ensures (Span(r) - Span(a)) !! Denote(later) <==> forall b :: b in later ==> !Leaks(r, a, b)
  {
    hide Denote, Leaks;
    var beside, stored := Span(r) - Span(a), Denote(later);
    if b :| b in later && Leaks(r, a, b) {
      var x := LeakingPoint(r, a, b);
      DenoteIn(later, x);
      assert x in beside && x in stored;
    } else {
      forall x: nat | x in beside ensures x !in stored {
        BesideIsClear(r, a, later, x);
      }
    }
  }

  lemma BesideIsClear(r: Range, a: Range, later: seq<Range>, x: nat)
    requires Within(x, r) && !Within(x, a) && forall b :: b in later ==> !Leaks(r, a, b)
    ensures x !in Denote(later)
  {
    hide Denote, Leaks;
    DenoteIn(later, x);
    forall b | b in later ensures !Within(x, b) {
      if Within(x, b) { PointLeaks(r, a, b, x); }
    }
  }

  /** For a request above `r`, the hull of `a` and `r` is touched and leaks exactly like `a`. */
  lemma HullAlike(s: Range, a: Range, r: Range)
    requires Touches(a, r) && a.lo <= a.hi && r.lo <= r.hi && Before(r, s) && s.lo <= s.hi
    ensures Touches(Hull(a, r), s) == Touches(a, s)
    ensures forall b :: Leaks(s, Hull(a, r), b) == Leaks(s, a, b)
  {
  }

  lemma AloneHull(stored: seq<Range>, wanted: seq<Range>)
    requires Proper(stored) && LowsAscend(stored) && Canonical(wanted) && stored != [] && wanted != []
    requires Touches(stored[0], wanted[0])
    ensures NoneLeaks(stored, wanted) <==>
      Alone(stored, wanted[0]) && NoneLeaks([Hull(stored[0], wanted[0])] + stored[1..], wanted[1..])
    ensures LowsAscend([Hull(stored[0], wanted[0])] + stored[1..]) && Proper([Hull(stored[0], wanted[0])] + stored[1..])
  {
    hide Denote, Span;
    Heads(stored, wanted);
    ProperParts(stored, wanted);
    var a, r := stored[0], wanted[0];
    var extended := [Hull(a, r)] + stored[1..];
    LowsCons(Hull(a, r), stored[1..]);
    forall s | s in wanted[1..] ensures Alone(stored, s) <==> Alone(extended, s) {
      HullAlike(s, a, r);
      AloneSwap(stored, Hull(a, r), s);
    }
    hide Alone;
  }

  /** Ranges that are touched and leak alike can stand in for each other. */
  lemma AloneSwap(stored: seq<Range>, h: Range, s: Range)
    requires stored != [] && Touches(h, s) == Touches(stored[0], s)
    requires forall b :: Leaks(s, h, b) == Leaks(s, stored[0], b)
    ensures Alone([h] + stored[1..], s) <==> Alone(stored, s)
  {
    hide Touches, Leaks;
    assert ([h] + stored[1..])[1..] == stored[1..];
  }

  lemma FreshHull(stored: seq<Range>, wanted: seq<Range>)
    requires Proper(stored) && LowsAscend(stored) && Canonical(wanted) && stored != [] && wanted != []
    requires Touches(stored[0], wanted[0]) && !Inside(wanted[0], stored[0])
    ensures Fresh(stored, wanted) <==>
      Alone(stored, wanted[0]) && Fresh([Hull(stored[0], wanted[0])] + stored[1..], wanted[1..])
  {
    hide Denote, Span, Leaks;
    Heads(stored, wanted);
    ProperParts(stored, wanted);
    var a, r := stored[0], wanted[0];
    var extended := [Hull(a, r)] + stored[1..];
    var rest := Delta(extended, wanted[1..]);
    DenoteAppend(Sides(r, a), rest);
    SidesDenote(r, a);
    HullDenotes(r, a);
    DenoteCons(Hull(a, r), stored[1..]);
    DeltaAbove(extended, wanted[1..], r);
    SidesMeet(r, a, stored[1..]);
    Apart(Span(r), Span(a), Denote(stored[1..]), Denote(rest));
  }

  lemma Apart(r: set<nat>, a: set<nat>, later: set<nat>, rest: set<nat>)
    requires rest !! r
    ensures ((r - a) + rest) !! (a + later) <==> (r - a) !! later && rest !! ((a + r) + later)
  {
  }

  lemma {:induction false} DeltaFresh(stored: seq<Range>, wanted: seq<Range>)
    requires Proper(stored) && LowsAscend(stored) && Canonical(wanted)
    ensures Fresh(stored, wanted) <==> NoneLeaks(stored, wanted)
    decreases |stored| + |wanted|
  {
    if stored == [] {
      assert Denote(stored) == {};
    } else if wanted == [] {
      assert Delta(stored, wanted) == [];
    } else {
      hide Denote, NoneLeaks, Fresh, Alone;
      Heads(stored, wanted);
      if Before(wanted[0], stored[0]) {
        FreshBefore(stored, wanted);
        DeltaFresh(stored, wanted[1..]);
      } else if Before(stored[0], wanted[0]) {
        FreshAfter(stored, wanted);
        DeltaFresh(stored[1..], wanted);
      } else if Inside(wanted[0], stored[0]) {
        FreshInside(stored, wanted);
        DeltaFresh(stored, wanted[1..]);
      } else {
        FreshHull(stored, wanted);
        AloneHull(stored, wanted);
        DeltaFresh([Hull(stored[0], wanted[0])] + stored[1..], wanted[1..]);
      }
    }
  }

  /** A range before all stored ones shares no index with them. */
  lemma SpanClear(r: Range, stored: seq<Range>)
    requires forall b :: b in stored ==> r.hi < b.lo
    ensures Span(r) !! Denote(stored)
  {
    forall x: nat | x in Span(r) ensures x !in Denote(stored) {
      DenoteIn(stored, x);
    }
  }

  /** What is reported for requests above `a` shares no index with `a`. */
  lemma DeltaAbove(stored: seq<Range>, wanted: seq<Range>, a: Range)
    requires Proper(stored) && Proper(wanted)
    requires forall s :: s in wanted ==> a.hi < s.lo
    ensures Denote(Delta(stored, wanted)) !! Span(a)
  {
    DeltaCovers(stored, wanted);
    SpanClear(a, wanted);
  }

  /** A list the merge writes from canonical lists, and a request that is reported exactly although it reaches a stored
      range after touching an earlier one: it does not leak. */
  lemma OverlappingListExample()
    ensures Merge([Range(0, 1), Range(5, 6)], [Range(0, 10)]) == [Range(0, 10), Range(5, 6)]
    ensures Alone([Range(0, 10), Range(5, 6)], Range(4, 15)) && !Alone([Range(0, 1), Range(5, 6)], Range(0, 10))
  {
    var stored, wanted := [Range(0, 1), Range(5, 6)], [Range(0, 10)];
    assert stored[1..] == [Range(5, 6)] && wanted[1..] == [];
    assert Range(5, 6) in stored[1..] && Leaks(Range(0, 10), Range(0, 1), Range(5, 6));
    assert [Range(0, 10), Range(5, 6)][1..] == [Range(5, 6)];
  }

  // ----- The loop of `do_upsert` -----

  /** `check_max_range`: charges the range unless the account would exceed its quota. The 32-bit sum never wraps,
      because a range that fits is shorter than the quota. */
  method CheckMaxRange(range: Range, count: nat, max: nat) returns (ok: bool, newCount: nat)
    requires range.lo <= range.hi && count <= max < UINT32_LIMIT
    ensures ok <==> count + Length(range) <= max
    ensures newCount == if ok then count + Length(range) else count
  {
    var more := range.hi - range.lo;
    if max - count <= more {
      return false, count;
    }
    return true, count + (more + 1) % UINT32_LIMIT;
  }

  method CheckMaxRanges(ranges: seq<Range>, count: nat, max: nat) returns (ok: bool, newCount: nat)
    requires Proper(ranges) && count <= max < UINT32_LIMIT
    ensures ok <==> count + Total(ranges) <= max
    ensures ok ==> newCount == count + Total(ranges)
  {
    newCount := count;
    for i := 0 to |ranges|
      invariant newCount <= max && newCount == count + Total(ranges[..i])
    {
      TotalSplit(ranges, i);
      ok, newCount := CheckMaxRange(ranges[i], newCount, max);
      if !ok {
        return false, newCount;
      }
    }
    assert ranges[..|ranges|] == ranges;
    return true, newCount;
  }

  lemma TotalSplit(ranges: seq<Range>, i: nat)
    requires i < |ranges|
    ensures Total(ranges[..i + 1]) == Total(ranges[..i]) + Length(ranges[i])
    ensures Total(ranges[..i + 1]) <= Total(ranges)
  {
    Prefix(ranges, i);
    TotalAppend(ranges[..i], [ranges[i]]);
    assert ranges == ranges[..i + 1] + ranges[i + 1..];
    TotalAppend(ranges[..i + 1], ranges[i + 1..]);
  }

  /** One pass of the two-pointer loop: at most one range is written, at most two are reported. */
  datatype Pass = Pass(stored: seq<Range>, wanted: seq<Range>, written: seq<Range>, reported: seq<Range>)

  function Advance(stored: seq<Range>, wanted: seq<Range>): Pass
    requires stored != [] && wanted != []
  {
    if Before(wanted[0], stored[0]) then Pass(stored, wanted[1..], [wanted[0]], [wanted[0]])
    else if Before(stored[0], wanted[0]) then Pass(stored[1..], wanted, [stored[0]], [])
    else if Inside(wanted[0], stored[0]) then Pass(stored, wanted[1..], [], [])
    else Pass([Hull(stored[0], wanted[0])] + stored[1..], wanted[1..], [], Sides(wanted[0], stored[0]))
  }

  /** Both recursions make the same passes. */
  lemma AdvanceStep(stored: seq<Range>, wanted: seq<Range>)
    requires stored != [] && wanted != []
    ensures var p := Advance(stored, wanted);
      && Merge(stored, wanted) == p.written + Merge(p.stored, p.wanted)
      && Delta(stored, wanted) == p.reported + Delta(p.stored, p.wanted)
  {
    var p := Advance(stored, wanted);
    assert [] + Merge(p.stored, p.wanted) == Merge(p.stored, p.wanted);
    assert [] + Delta(p.stored, p.wanted) == Delta(p.stored, p.wanted);
  }

  lemma SidesTotal(r: Range, a: Range)
    requires a.lo <= a.hi && r.lo <= r.hi && Touches(a, r)
    ensures Total(Sides(r, a)) == (if r.lo < a.lo then a.lo - r.lo else 0) + (if a.hi < r.hi then r.hi - a.hi else 0)
  {
    TotalAppend(if r.lo < a.lo then [Range(r.lo, a.lo - 1)] else [], if a.hi < r.hi then [Range(a.hi + 1, r.hi)] else []);
  }

  /** The body of the loop, with the quota checked before each reported range. */
  method MergePass(stored: seq<Range>, wanted: seq<Range>, count: nat, max: nat)
    returns (ok: bool, pass: Pass, newCount: nat)
    requires stored != [] && wanted != [] && Proper(stored) && Proper(wanted) && count <= max < UINT32_LIMIT
    ensures ok <==> count + Total(Advance(stored, wanted).reported) <= max
    ensures ok ==> pass == Advance(stored, wanted) && newCount == count + Total(pass.reported)
  {
    var oldLoc, newLoc := stored[0], wanted[0];
    assert oldLoc in stored && newLoc in wanted;
    newCount := count;
    pass := Pass(stored, wanted[1..], [], []);
    if Before(newLoc, oldLoc) {
      ok, newCount := CheckMaxRange(newLoc, count, max);
      return ok, pass.(written := [newLoc], reported := [newLoc]), newCount;
    }
    if Before(oldLoc, newLoc) {
      return true, Pass(stored[1..], wanted, [oldLoc], []), count;
    }
    if Inside(newLoc, oldLoc) {
      return true, pass, count;
    }
    SidesTotal(newLoc, oldLoc);
    var out: seq<Range> := [];
    if newLoc.lo < oldLoc.lo {
      var left := Range(newLoc.lo, oldLoc.lo - 1);
      ok, newCount := CheckMaxRange(left, newCount, max);
      if !ok {
        return false, pass, newCount;
      }
      out := [left];
      oldLoc := oldLoc.(lo := newLoc.lo);
    }
    if oldLoc.hi < newLoc.hi {
      var right := Range(oldLoc.hi + 1, newLoc.hi);
      ok, newCount := CheckMaxRange(right, newCount, max);
      if !ok {
        return false, pass, newCount;
      }
      out := out + [right];
      oldLoc := oldLoc.(hi := newLoc.hi);
    }
    return true, Pass([oldLoc] + stored[1..], wanted[1..], [], out), newCount;
  }

  /** The merge of one stored list with one requested list. It fails exactly when the reported ranges do not fit. */
  method MergeRanges(stored: seq<Range>, wanted: seq<Range>, count: nat, max: nat)
    returns (ok: bool, merged: seq<Range>, delta: seq<Range>, newCount: nat)
    requires Proper(stored) && Proper(wanted) && count <= max < UINT32_LIMIT
    ensures ok <==> count + Total(Delta(stored, wanted)) <= max
    ensures ok ==> merged == Merge(stored, wanted) && delta == Delta(stored, wanted)
    ensures ok ==> newCount == count + Total(delta)
  {
    hide Merge, Delta, Total, Advance;
    merged, delta, newCount := [], [], count;
    var left, right := stored, wanted;
    NothingTotal();
    while left != [] && right != []
      invariant Proper(left) && Proper(right)
      invariant merged + Merge(left, right) == Merge(stored, wanted)
      invariant delta + Delta(left, right) == Delta(stored, wanted)
      invariant newCount == count + Total(delta) <= max
      decreases |left| + |right|
    {
      LoopStep(stored, wanted, merged, delta, left, right);
      ghost var next := Advance(left, right);
      ChargeStep(delta, next.reported, Delta(next.stored, next.wanted), Delta(stored, wanted));
      var pass;
      ok, pass, newCount := MergePass(left, right, newCount, max);
      if !ok {
        return false, merged, delta, newCount;
      }
      merged, delta := merged + pass.written, delta + pass.reported;
      left, right := pass.stored, pass.wanted;
    }
    TotalAppend(delta, Delta(left, right));
    OneSideLeft(left, right);
    ok, newCount := CheckMaxRanges(right, newCount, max);
    if !ok {
      return false, merged, delta, newCount;
    }
    AppendAgain(merged, left, right);
    merged, delta := (merged + left) + right, delta + right;
    return true, merged, delta, newCount;
  }

  lemma NothingTotal()
    ensures Total([]) == 0
  {
  }

  lemma OneSideLeft(left: seq<Range>, right: seq<Range>)
    requires left == [] || right == []
    ensures Delta(left, right) == right && Merge(left, right) == left + right
  {
  }

  /** The invariant of the loop survives one pass. */
  lemma LoopStep(stored: seq<Range>, wanted: seq<Range>, merged: seq<Range>, delta: seq<Range>, left: seq<Range>, right: seq<Range>)
    requires left != [] && right != [] && Proper(left) && Proper(right)
    requires merged + Merge(left, right) == Merge(stored, wanted)
    requires delta + Delta(left, right) == Delta(stored, wanted)
    ensures var p := Advance(left, right);
      && Proper(p.stored) && Proper(p.wanted) && |p.stored| + |p.wanted| < |left| + |right|
      && (merged + p.written) + Merge(p.stored, p.wanted) == Merge(stored, wanted)
      && (delta + p.reported) + Delta(p.stored, p.wanted) == Delta(stored, wanted)
  {
    hide Merge, Delta, Denote;
    AdvanceStep(left, right);
    ProperParts(left, right);
    var p := Advance(left, right);
    hide Advance, Proper;
    AppendAgain(merged, p.written, Merge(p.stored, p.wanted));
    AppendAgain(delta, p.reported, Delta(p.stored, p.wanted));
  }

  /** What does not fit now does not fit at all. */
  lemma ChargeStep(delta: seq<Range>, reported: seq<Range>, rest: seq<Range>, all: seq<Range>)
    requires (delta + reported) + rest == all
    ensures Total(delta + reported) == Total(delta) + Total(reported) <= Total(all)
  {
    hide Total;
    TotalAppend(delta, reported);
    TotalAppend(delta + reported, rest);
  }

  lemma AppendAgain(a: seq<Range>, b: seq<Range>, c: seq<Range>)
    ensures a + (b + c) == (a + b) + c
  {
  }
}
