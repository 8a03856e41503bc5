/** What the balance endpoints compute from one database snapshot, and how the three results fit together
    (`get_address_info`, `get_address_txs` and `get_unspent_outs` in src/rest_server.cpp). */
module Balance {
  import opened Rows

  type UInt64 = n: nat | n < UINT64_LIMIT

  /** A received output with the fields the endpoints look at. `locked` is what `is_locked` says of its unlock time at the
      height of the snapshot. */
  datatype Funds = Funds(link: Link, id: OutputId, amount: UInt64, mixin: nat, index: nat, pub: PublicKey, locked: bool)

  /** `key_image_source`: the exact output a wallet names for one of its key images. */
  datatype Imported = Imported(image: KeyImage, source: OutputId, txHash: Hash, pub: PublicKey, index: nat)

  datatype Pending = Pending(source: OutputId, txHash: Hash, pub: PublicKey, index: nat, recorded: nat)

  /** Everything one account has in the database, and the unconfirmed outputs the daemon reported. */
  datatype Snapshot = Snapshot(
    outputs: seq<Funds>,
    spends: seq<Spend>,
    confirmed: set<KeyImage>,
    imported: seq<Imported>,
    images: map<OutputId, set<KeyImage>>,
    pending: seq<Pending>,
    overlay: seq<Funds>)

  function Sum(rows: seq<Funds>): nat {
    if rows == [] then 0 else Sum(rows[..|rows| - 1]) + rows[|rows| - 1].amount
  }

  function SumLocked(rows: seq<Funds>): nat {
    if rows == [] then 0
    else SumLocked(rows[..|rows| - 1]) + if rows[|rows| - 1].locked then rows[|rows| - 1].amount else 0
  }

  function Wrap(n: nat): UInt64 { n % UINT64_LIMIT }

  ghost predicate UniqueIds(rows: seq<Funds>) {
    forall i, j :: 0 <= i < j < |rows| ==> rows[i].id != rows[j].id
  }

  // ----- The rows both address endpoints add up -----

  predicate SameOutput(a: Funds, b: Funds) { a.link.txHash == b.link.txHash && a.index == b.index }

  predicate Listed(rows: seq<Funds>, row: Funds) { exists i :: 0 <= i < |rows| && SameOutput(rows[i], row) }

  /** Unconfirmed outputs that are not in the database yet. */
  function Added(rows: seq<Funds>, overlay: seq<Funds>): seq<Funds> {
    if overlay == [] then []
    else
      var init, last := Added(rows, overlay[..|overlay| - 1]), overlay[|overlay| - 1];
      if Listed(rows + init, last) then init else init + [last]
  }

  function All(s: Snapshot): seq<Funds> { s.outputs + Added(s.outputs, s.overlay) }

  // ----- Which output a spend consumes -----

  /** `source` is the first of the list with its key image. */
  ghost predicate IsFirst(imported: seq<Imported>, source: Imported) {
    exists k :: 0 <= k < |imported| && imported[k] == source && forall j :: 0 <= j < k ==> imported[j].image != source.image
  }

  ghost predicate HasSource(imported: seq<Imported>, image: KeyImage) {
    exists k :: 0 <= k < |imported| && imported[k].image == image
  }

  /** The first imported source of every key image. */
  function ByImage(imported: seq<Imported>): (m: map<KeyImage, Imported>)
    ensures forall i :: i in m <==> HasSource(imported, i)
    ensures forall i :: i in m ==> m[i].image == i && IsFirst(imported, m[i])
  {
    FirstStays(imported);
    if imported == [] then map[]
    else
      var init, last := ByImage(imported[..|imported| - 1]), imported[|imported| - 1];
      if last.image in init then init else init[last.image := last]
  }

  /** One more source leaves the first ones first, and is first itself when its image is new. */
  lemma FirstStays(imported: seq<Imported>)
    ensures imported != [] ==>
      var init, last := imported[..|imported| - 1], imported[|imported| - 1];
      && (forall i :: HasSource(imported, i) <==> i == last.image || HasSource(init, i))
      && (forall source :: IsFirst(init, source) ==> IsFirst(imported, source))
      && (!HasSource(init, last.image) ==> IsFirst(imported, last))
  {
    if imported != [] {
      var init, n := imported[..|imported| - 1], |imported| - 1;
      assert imported[n].image == imported[n].image;
      assert forall k :: 0 <= k < n ==> init[k] == imported[k];
      forall source | IsFirst(init, source) ensures IsFirst(imported, source) {
        var k :| 0 <= k < |init| && init[k] == source && forall j :: 0 <= j < k ==> init[j].image != source.image;
        assert imported[k] == source;
      }
    }
  }

  predicate Identifies(source: Imported, row: Funds) {
    row.id == source.source && row.index == source.index && row.pub == source.pub && row.link.txHash == source.txHash
  }

  function FirstIdentified(rows: seq<Funds>, source: Imported): (r: Option<Funds>)
    ensures r.Some? ==> r.value in rows && Identifies(source, r.value)
    ensures r.None? ==> forall row :: row in rows ==> !Identifies(source, row)
  {
    if rows == [] then None
    else if Identifies(source, rows[0]) then Some(rows[0])
    else FirstIdentified(rows[1..], source)
  }

  /** `find_output_by_imported_source` */
  function Find(rows: seq<Funds>, imported: map<KeyImage, Imported>, image: KeyImage): Option<Funds> {
    if image in imported then FirstIdentified(rows, imported[image]) else None
  }

  datatype Choice = Choice(spend: Spend, row: Funds)

  predicate IdBefore(a: OutputId, b: OutputId) { if a.high != b.high then a.high < b.high else a.low < b.low }

  predicate ShouldReplace(current: Choice, candidate: Choice) {
    if current.row.amount != candidate.row.amount then current.row.amount < candidate.row.amount
    else IdBefore(candidate.row.id, current.row.id)
  }

  function Consider(choices: map<KeyImage, Choice>, c: Choice): map<KeyImage, Choice> {
    if c.spend.image !in choices || ShouldReplace(choices[c.spend.image], c) then choices[c.spend.image := c] else choices
  }

  /** The spend chosen for every confirmed key image whose output is known. */
  function Choices(rows: seq<Funds>, imported: map<KeyImage, Imported>, confirmed: set<KeyImage>, spends: seq<Spend>)
    : map<KeyImage, Choice>
  {
    if spends == [] then map[]
    else
      var init, last := Choices(rows, imported, confirmed, spends[..|spends| - 1]), spends[|spends| - 1];
      if last.image in confirmed && Find(rows, imported, last.image).Some? then
        Consider(init, Choice(last, Find(rows, imported, last.image).value))
      else init
  }

  /** Confirmed spends whose output is not known. */
  function Missing(rows: seq<Funds>, imported: map<KeyImage, Imported>, confirmed: set<KeyImage>, spends: seq<Spend>): nat {
    if spends == [] then 0
    else
      var init, last := Missing(rows, imported, confirmed, spends[..|spends| - 1]), spends[|spends| - 1];
      if last.image in confirmed && Find(rows, imported, last.image).None? then init + 1 else init
  }

  predicate IsLeast(s: set<nat>, m: nat) { m in s && forall x :: x in s ==> m <= x }

  lemma {:induction false} HasLeast(s: set<nat>)
    requires s != {}
    ensures exists m :: IsLeast(s, m)
    decreases s
  {
    var y :| y in s;
    var rest := s - {y};
    assert forall x :: x in s <==> x == y || x in rest;
    if rest == {} {
      assert IsLeast(s, y);
    } else {
      HasLeast(rest);
      var m :| IsLeast(rest, m);
      assert IsLeast(s, Min(m, y));
    }
  }

  /** The first key of an ordered container. */
  function Least(s: set<nat>): (m: nat)
    requires s != {}
    ensures m in s && forall x :: x in s ==> m <= x
  {
    HasLeast(s);
    var m :| m in s && IsLeast(s, m);
    m
  }

  /** Choices in the order of their key images; an output is spent once. */
  function Picked(choices: map<KeyImage, Choice>, todo: set<KeyImage>, seen: set<OutputId>): seq<Choice>
    requires todo <= choices.Keys
    decreases todo
  {
    if todo == {} then []
    else
      var image := Least(todo);
      var c := choices[image];
      if c.row.id in seen then Picked(choices, todo - {image}, seen)
      else [c] + Picked(choices, todo - {image}, seen + {c.row.id})
  }

  /** The spends both address endpoints report. */
  function Sent(s: Snapshot): seq<Choice> {
    var choices := Choices(All(s), ByImage(s.imported), s.confirmed, s.spends);
    Picked(choices, choices.Keys, {})
  }

  function SumSent(list: seq<Choice>): nat {
    if list == [] then 0 else list[0].row.amount + SumSent(list[1..])
  }

  function Ids(list: seq<Choice>): set<OutputId> {
    if list == [] then {} else {list[0].row.id} + Ids(list[1..])
  }

  // ----- What `get_unspent_outs` does with one output -----

  datatype Query = Query(useDust: Option<bool>, dustThreshold: Option<nat>, mixin: Option<nat>, amount: UInt64, now: nat)

  function Dust(q: Query): nat {
    if q.useDust == Some(true) || q.dustThreshold.None? then 0 else q.dustThreshold.value
  }

  function Mixin(q: Query): nat { if q.mixin.None? then 0 else q.mixin.value }

  const PENDING_TTL: nat := 24 * 60 * 60

  predicate Active(p: Pending, now: nat) { p.recorded <= now && now - p.recorded <= PENDING_TTL }

  predicate Reserves(p: Pending, row: Funds) {
    p.source == row.id && p.index == row.index && p.txHash == row.link.txHash && p.pub == row.pub
  }

  function SourceOf(imported: map<KeyImage, Imported>, spend: Spend): OutputId {
    if spend.image in imported then imported[spend.image].source else spend.source
  }

  function ConfirmedSources(imported: map<KeyImage, Imported>, confirmed: set<KeyImage>, spends: seq<Spend>): set<OutputId> {
    set sp | sp in spends && sp.image in confirmed :: SourceOf(imported, sp)
  }

  function Images(s: Snapshot, id: OutputId): set<KeyImage> { if id in s.images then s.images[id] else {} }

  datatype Verdict = DustOrMixin | ConfirmedImage | ConfirmedSource | LocallyPending | Clean

  function Judge(s: Snapshot, q: Query, row: Funds): Verdict {
    if row.amount < Dust(q) || row.mixin < Mixin(q) then DustOrMixin
    else if exists i :: i in Images(s, row.id) && i in s.confirmed && i !in ByImage(s.imported) then ConfirmedImage
    else if row.id in ConfirmedSources(ByImage(s.imported), s.confirmed, s.spends) then ConfirmedSource
    else if exists p :: p in s.pending && Active(p, q.now) && Reserves(p, row) then LocallyPending
    else Clean
  }

  function OfVerdict(s: Snapshot, q: Query, rows: seq<Funds>, v: Verdict): seq<Funds> {
    if rows == [] then []
    else
      var init, last := OfVerdict(s, q, rows[..|rows| - 1], v), rows[|rows| - 1];
      if Judge(s, q, last) == v then init + [last] else init
  }

  /** The outputs offered for spending. */
  function Spendable(s: Snapshot, q: Query): seq<Funds> { OfVerdict(s, q, s.outputs, Clean) }

  // ----- Facts about the choices -----

  lemma {:induction false} ChoicesFound(rows: seq<Funds>, imported: map<KeyImage, Imported>, confirmed: set<KeyImage>, spends: seq<Spend>)
    ensures var choices := Choices(rows, imported, confirmed, spends);
      && (forall i :: i in choices ==>
            && i in confirmed && choices[i].spend in spends && choices[i].spend.image == i
            && Find(rows, imported, i) == Some(choices[i].row))
      && (forall sp :: sp in spends && sp.image in confirmed && Find(rows, imported, sp.image).Some? ==> sp.image in choices)
  {
    hide Find;
    if spends != [] {
      var init, last := spends[..|spends| - 1], spends[|spends| - 1];
      ChoicesFound(rows, imported, confirmed, init);
      assert forall sp :: sp in spends <==> sp in init || sp == last;
    }
  }

  /** Every candidate for one key image is the same output, so the first spend row is kept. */
  lemma NeverReplaced(rows: seq<Funds>, imported: map<KeyImage, Imported>, confirmed: set<KeyImage>, spends: seq<Spend>, c: Choice)
    requires Find(rows, imported, c.spend.image) == Some(c.row)
    requires c.spend.image in Choices(rows, imported, confirmed, spends)
    ensures Consider(Choices(rows, imported, confirmed, spends), c) == Choices(rows, imported, confirmed, spends)
  {
    ChoicesFound(rows, imported, confirmed, spends);
  }

  ghost predicate DistinctRows(list: seq<Choice>) {
    forall i, j :: 0 <= i < j < |list| ==> list[i].row.id != list[j].row.id
  }

  lemma {:induction false} IdIn(list: seq<Choice>, id: OutputId)
    ensures id in Ids(list) <==> exists c :: c in list && c.row.id == id
  {
    if list != [] {
      IdIn(list[1..], id);
      assert forall c :: c in list <==> c == list[0] || c in list[1..];
    }
  }

  /** The list holds choices only, no output twice, and every output that was chosen. */
  lemma {:induction false} PickedOnce(choices: map<KeyImage, Choice>, todo: set<KeyImage>, seen: set<OutputId>)
    requires todo <= choices.Keys
    ensures var list := Picked(choices, todo, seen);
      && (forall c :: c in list ==> c.row.id !in seen && exists i :: i in todo && choices[i] == c)
      && DistinctRows(list)
      && (forall i :: i in todo ==> choices[i].row.id in seen + Ids(list))
    decreases todo
  {
    if todo != {} {
      var image := Least(todo);
      var c := choices[image];
      var rest := todo - {image};
      assert forall i :: i in todo <==> i == image || i in rest;
      if c.row.id in seen {
        PickedOnce(choices, rest, seen);
      } else {
        PickedOnce(choices, rest, seen + {c.row.id});
        var tail := Picked(choices, rest, seen + {c.row.id});
        DistinctCons(c, tail);
        assert ([c] + tail)[1..] == tail;
      }
    }
  }

  lemma DistinctCons(c: Choice, tail: seq<Choice>)
    requires DistinctRows(tail) && forall d :: d in tail ==> d.row.id != c.row.id
    ensures DistinctRows([c] + tail)
    ensures forall d :: d in [c] + tail <==> d == c || d in tail
  {
    assert forall j :: 0 < j < |[c] + tail| ==> ([c] + tail)[j] == tail[j - 1];
  }

  /** Everything reported as spent is an output of the account whose key image is confirmed and imported, once each. */
  lemma SentIsOwned(s: Snapshot)
    ensures DistinctRows(Sent(s))
    ensures forall c :: c in Sent(s) ==>
      && c.row in All(s) && c.spend in s.spends && c.spend.image in s.confirmed
      && c.spend.image in ByImage(s.imported) && Identifies(ByImage(s.imported)[c.spend.image], c.row)
  {
    hide All, ByImage, Choices;
    var choices := Choices(All(s), ByImage(s.imported), s.confirmed, s.spends);
    ChoicesFound(All(s), ByImage(s.imported), s.confirmed, s.spends);
    PickedOnce(choices, choices.Keys, {});
  }

  /** A confirmed spend whose output is known is reported. */
  lemma KnownIsSent(s: Snapshot, sp: Spend)
    requires sp in s.spends && sp.image in s.confirmed && Find(All(s), ByImage(s.imported), sp.image).Some?
    ensures Find(All(s), ByImage(s.imported), sp.image).value.id in Ids(Sent(s))
  {
    hide All, ByImage, Choices, Find;
    var choices := Choices(All(s), ByImage(s.imported), s.confirmed, s.spends);
    ChoicesFound(All(s), ByImage(s.imported), s.confirmed, s.spends);
    PickedOnce(choices, choices.Keys, {});
  }

  // ----- Sums over outputs with unique ids -----

  function SumIn(rows: seq<Funds>, ids: set<OutputId>): nat {
    if rows == [] then 0
    else SumIn(rows[..|rows| - 1], ids) + if rows[|rows| - 1].id in ids then rows[|rows| - 1].amount else 0
  }

  lemma {:induction false} SumInOne(rows: seq<Funds>, ids: set<OutputId>, row: Funds)
    requires UniqueIds(rows) && row.id !in ids
    ensures SumIn(rows, ids + {row.id}) == SumIn(rows, ids) + if row in rows then row.amount else SumIn(rows, {row.id})
    ensures row in rows ==> SumIn(rows, {row.id}) == row.amount
    ensures (forall r :: r in rows ==> r.id != row.id) ==> SumIn(rows, {row.id}) == 0
  {
    if rows != [] {
      var init, last := rows[..|rows| - 1], rows[|rows| - 1];
      SumInOne(init, ids, row);
      assert forall r :: r in rows <==> r in init || r == last;
      assert forall r :: r in init ==> r.id != last.id;
    }
  }

  lemma {:induction false} SumOfList(rows: seq<Funds>, list: seq<Choice>)
    requires UniqueIds(rows) && DistinctRows(list) && forall c :: c in list ==> c.row in rows
    ensures SumSent(list) == SumIn(rows, Ids(list))
  {
    if list == [] {
      SumInNothing(rows);
    } else {
      SumOfList(rows, list[1..]);
      IdIn(list[1..], list[0].row.id);
      SumInOne(rows, Ids(list[1..]), list[0].row);
      assert Ids(list) == Ids(list[1..]) + {list[0].row.id};
    }
  }

  lemma {:induction false} SumInMore(rows: seq<Funds>, ids: set<OutputId>, row: Funds)
    requires row.id !in ids
    ensures SumIn(rows, ids + {row.id}) >= SumIn(rows, ids) + if row in rows then row.amount else 0
  {
    if rows != [] {
      var init, last := rows[..|rows| - 1], rows[|rows| - 1];
      SumInMore(init, ids, row);
      assert forall r :: r in rows <==> r in init || r == last;
    }
  }

  /** Outputs of different ids cannot add up to more than all rows with these ids. */
  lemma {:induction false} SumOfListAtMost(rows: seq<Funds>, list: seq<Choice>)
    requires DistinctRows(list) && forall c :: c in list ==> c.row in rows
    ensures SumSent(list) <= SumIn(rows, Ids(list))
  {
    if list != [] {
      SumOfListAtMost(rows, list[1..]);
      IdIn(list[1..], list[0].row.id);
      SumInMore(rows, Ids(list[1..]), list[0].row);
      assert Ids(list) == Ids(list[1..]) + {list[0].row.id};
    }
  }

  lemma {:induction false} SumInNothing(rows: seq<Funds>)
    ensures SumIn(rows, {}) == 0
  {
    if rows != [] {
      SumInNothing(rows[..|rows| - 1]);
    }
  }

  lemma {:induction false} SumAppend(a: seq<Funds>, b: seq<Funds>, ids: set<OutputId>)
    ensures Sum(a + b) == Sum(a) + Sum(b)
    ensures SumIn(a + b, ids) == SumIn(a, ids) + SumIn(b, ids)
  {
    if b == [] {
      assert a + b == a;
    } else {
      assert (a + b)[..|a + b| - 1] == a + b[..|b| - 1];
      SumAppend(a, b[..|b| - 1], ids);
    }
  }

  /** Outputs that are neither offered for spending nor in `ids`. */
  function SumNeither(s: Snapshot, q: Query, rows: seq<Funds>, ids: set<OutputId>): nat {
    if rows == [] then 0
    else
      var last := rows[|rows| - 1];
      SumNeither(s, q, rows[..|rows| - 1], ids) + if Judge(s, q, last) != Clean && last.id !in ids then last.amount else 0
  }

  lemma {:induction false} SumSplits(s: Snapshot, q: Query, rows: seq<Funds>, ids: set<OutputId>)
    requires forall r :: r in rows && r.id in ids ==> Judge(s, q, r) != Clean
    ensures Sum(rows) == Sum(OfVerdict(s, q, rows, Clean)) + SumIn(rows, ids) + SumNeither(s, q, rows, ids)
  {
    hide Judge;
    if rows != [] {
      var init, last := rows[..|rows| - 1], rows[|rows| - 1];
      SumSplits(s, q, init, ids);
      var clean := OfVerdict(s, q, init, Clean);
      assert (clean + [last])[..|clean + [last]| - 1] == clean;
    }
  }

  /** An output reported as spent is never offered for spending. */
  lemma SentIsNotClean(s: Snapshot, q: Query, row: Funds)
    requires row.id in Ids(Sent(s))
    ensures Judge(s, q, row) != Clean
  {
    hide Sent, All, Active, Reserves, ByImage;
    SentIsOwned(s);
    IdIn(Sent(s), row.id);
    var c :| c in Sent(s) && c.row.id == row.id;
    assert SourceOf(ByImage(s.imported), c.spend) == row.id;
  }

  lemma {:induction false} SumInBound(rows: seq<Funds>, ids: set<OutputId>)
    ensures SumIn(rows, ids) <= Sum(rows)
  {
    if rows != [] {
      SumInBound(rows[..|rows| - 1], ids);
    }
  }

  /** What is offered for spending and what is reported as spent are disjoint, and together never more than what was
      received, for every snapshot. */
  lemma NeverBothSpentAndSpendable(s: Snapshot, q: Query)
    ensures Sum(Spendable(s, q)) + SumSent(Sent(s)) <= Sum(All(s))
    ensures forall row: Funds :: row.id in Ids(Sent(s)) ==> row !in Spendable(s, q)
  {
    hide Judge, Sent, Added, SumSent;
    SentIsOwned(s);
    SumOfListAtMost(All(s), Sent(s));
    forall row: Funds | row.id in Ids(Sent(s)) ensures Judge(s, q, row) != Clean && row !in Spendable(s, q) {
      SentIsNotClean(s, q, row);
      OnlyOfVerdict(s, q, s.outputs, Clean, row);
    }
    SumSplits(s, q, s.outputs, Ids(Sent(s)));
    SumAppend(s.outputs, Added(s.outputs, s.overlay), Ids(Sent(s)));
    SumInBound(Added(s.outputs, s.overlay), Ids(Sent(s)));
  }

  /** `output_id::txpool()`: the one id of all unconfirmed outputs. */
  const TXPOOL := OutputId(0, UINT64_LIMIT - 1)

  /** Unconfirmed outputs have the id of the pool, and no imported source names it. */
  ghost predicate PoolApart(s: Snapshot) {
    (forall r :: r in s.overlay ==> r.id == TXPOOL) && forall i :: i in s.imported ==> i.source != TXPOOL
  }

  lemma {:induction false} AddedFromOverlay(rows: seq<Funds>, overlay: seq<Funds>)
    ensures forall r :: r in Added(rows, overlay) ==> r in overlay
  {
    if overlay != [] {
      AddedFromOverlay(rows, overlay[..|overlay| - 1]);
    }
  }

  /** With one id per stored output, what none of the endpoints accounts for is what was filtered, reserved or of unknown
      fate, and what is not confirmed yet. */
  lemma SpentAndSpendableAccount(s: Snapshot, q: Query)
    requires UniqueIds(s.outputs) && PoolApart(s)
    ensures Sum(Spendable(s, q)) + SumSent(Sent(s)) + SumNeither(s, q, s.outputs, Ids(Sent(s))) == Sum(s.outputs)
    ensures Sum(All(s)) == Sum(s.outputs) + Sum(Added(s.outputs, s.overlay))
  {
    hide Judge, Sent, Added, SumSent, UniqueIds;
    SentIsOwned(s);
    AddedFromOverlay(s.outputs, s.overlay);
    forall c | c in Sent(s) ensures c.row in s.outputs {
      var source := ByImage(s.imported)[c.spend.image];
      assert source in s.imported && c.row.id == source.source;
    }
    SumOfList(s.outputs, Sent(s));
    forall row | row in s.outputs && row.id in Ids(Sent(s)) ensures Judge(s, q, row) != Clean {
      SentIsNotClean(s, q, row);
    }
    SumSplits(s, q, s.outputs, Ids(Sent(s)));
    SumAppend(s.outputs, Added(s.outputs, s.overlay), {});
  }

  lemma {:induction false} OnlyOfVerdict(s: Snapshot, q: Query, rows: seq<Funds>, v: Verdict, row: Funds)
    ensures row in OfVerdict(s, q, rows, v) <==> row in rows && Judge(s, q, row) == v
  {
    hide Judge;
    if rows != [] {
      var init, last := rows[..|rows| - 1], rows[|rows| - 1];
      OnlyOfVerdict(s, q, init, v, row);
      assert rows == init + [last];
    }
  }

  /** The snapshot after one more relayed transaction was recorded. */
  function Recorded(s: Snapshot, p: Pending): Snapshot { s.(pending := s.pending + [p]) }

  lemma JudgeRecorded(s: Snapshot, q: Query, p: Pending, row: Funds)
    ensures Judge(Recorded(s, p), q, row) == Clean <==> Judge(s, q, row) == Clean && !(Active(p, q.now) && Reserves(p, row))
  {
    hide Active, Reserves, ByImage, Images, ConfirmedSources;
    assert forall x :: x in Recorded(s, p).pending <==> x in s.pending || x == p;
    assert Images(s, row.id) == Images(Recorded(s, p), row.id) by { SameImages(s, p, row.id); }
  }

  lemma SameImages(s: Snapshot, p: Pending, id: OutputId)
    ensures Images(Recorded(s, p), id) == Images(s, id)
  {
  }

  lemma {:induction false} RecordedRows(s: Snapshot, q: Query, p: Pending, rows: seq<Funds>, row: Funds)
    requires Reserves(p, row) && forall r :: r in rows && r.id == row.id ==> r == row
    requires UniqueIds(rows)
    ensures Sum(OfVerdict(Recorded(s, p), q, rows, Clean)) +
            (if Active(p, q.now) && row in rows && Judge(s, q, row) == Clean then row.amount else 0) ==
            Sum(OfVerdict(s, q, rows, Clean))
    ensures !Active(p, q.now) ==> OfVerdict(Recorded(s, p), q, rows, Clean) == OfVerdict(s, q, rows, Clean)
  {
    hide Judge, Active;
    if rows != [] {
      var init, last := rows[..|rows| - 1], rows[|rows| - 1];
      RecordedRows(s, q, p, init, row);
      JudgeRecorded(s, q, p, last);
      assert forall r :: r in rows <==> r in init || r == last;
      assert forall r :: r in init ==> r.id != last.id;
      SumPush(OfVerdict(s, q, init, Clean), last);
      SumPush(OfVerdict(Recorded(s, p), q, init, Clean), last);
    }
  }

  lemma SumPush(rows: seq<Funds>, row: Funds)
    ensures Sum(rows + [row]) == Sum(rows) + row.amount
  {
    assert (rows + [row])[..|rows + [row]| - 1] == rows;
  }

  /** A relayed transaction lowers the offered amount by exactly the output it spends, for one day; before and after, the
      offer is what it would be without. */
  lemma RelayedSpendIsWithheld(s: Snapshot, q: Query, p: Pending, row: Funds)
    requires UniqueIds(s.outputs) && row in s.outputs && Reserves(p, row)
    ensures p.recorded <= q.now <= p.recorded + 86400 ==>
      && row !in Spendable(Recorded(s, p), q)
      && Sum(Spendable(Recorded(s, p), q)) + (if row in Spendable(s, q) then row.amount else 0) == Sum(Spendable(s, q))
    ensures !(p.recorded <= q.now <= p.recorded + 86400) ==> Spendable(Recorded(s, p), q) == Spendable(s, q)
  {
    hide Judge, Reserves, Sum;
    assert forall r :: r in s.outputs && r.id == row.id ==> r == row;
    RecordedRows(s, q, p, s.outputs, row);
    OnlyOfVerdict(s, q, s.outputs, Clean, row);
    OnlyOfVerdict(Recorded(s, p), q, s.outputs, Clean, row);
    JudgeRecorded(s, q, p, row);
  }

  /** `images` holds only pairs of stored spends, as the storage layer keeps it. */
  ghost predicate ImagesBacked(s: Snapshot) {
    forall id, i :: i in Images(s, id) ==> exists sp :: sp in s.spends && sp.source == id && sp.image == i
  }

  lemma {:induction false} MissingNone(rows: seq<Funds>, imported: map<KeyImage, Imported>, confirmed: set<KeyImage>, spends: seq<Spend>)
    ensures Missing(rows, imported, confirmed, spends) == 0 <==>
            forall sp :: sp in spends && sp.image in confirmed ==> Find(rows, imported, sp.image).Some?
  {
    hide Find;
    if spends != [] {
      var init, last := spends[..|spends| - 1], spends[|spends| - 1];
      MissingNone(rows, imported, confirmed, init);
      assert forall sp :: sp in spends <==> sp in init || sp == last;
    }
  }

  /** Without filters, reservations and unknown outputs, every output is either offered or reported as spent. */
  lemma SpentOrClean(s: Snapshot, q: Query, row: Funds)
    requires ImagesBacked(s) && Missing(All(s), ByImage(s.imported), s.confirmed, s.spends) == 0
    requires Dust(q) == 0 && Mixin(q) == 0 && forall p :: p in s.pending ==> !Active(p, q.now)
    ensures Judge(s, q, row) == Clean || row.id in Ids(Sent(s))
  {
    hide Sent, All, ByImage, Missing, Dust, Mixin, Active, Images;
    MissingNone(All(s), ByImage(s.imported), s.confirmed, s.spends);
    var sources := ConfirmedSources(ByImage(s.imported), s.confirmed, s.spends);
    if row.id in sources {
      var sp :| sp in s.spends && sp.image in s.confirmed && SourceOf(ByImage(s.imported), sp) == row.id;
      KnownIsSent(s, sp);
    }
    assert forall i :: i in Images(s, row.id) && i in s.confirmed ==> i in ByImage(s.imported);
  }

  lemma {:induction false} NoneNeither(s: Snapshot, q: Query, rows: seq<Funds>, ids: set<OutputId>)
    requires forall row :: row in rows ==> Judge(s, q, row) == Clean || row.id in ids
    ensures SumNeither(s, q, rows, ids) == 0
  {
    hide Judge;
    if rows != [] {
      NoneNeither(s, q, rows[..|rows| - 1], ids);
    }
  }

  /** Then what is offered and what is spent add up to every stored output. */
  lemma SpentAndSpendableAreEverything(s: Snapshot, q: Query)
    requires UniqueIds(s.outputs) && PoolApart(s)
    requires ImagesBacked(s) && Missing(All(s), ByImage(s.imported), s.confirmed, s.spends) == 0
    requires Dust(q) == 0 && Mixin(q) == 0 && forall p :: p in s.pending ==> !Active(p, q.now)
    ensures Sum(Spendable(s, q)) + SumSent(Sent(s)) == Sum(s.outputs)
    ensures Sum(All(s)) == Sum(s.outputs) + Sum(Added(s.outputs, s.overlay))
  {
    hide Judge, Sent, Added, SumSent, UniqueIds, ImagesBacked, Missing, Dust, Mixin, Active, OfVerdict;
    SpentAndSpendableAccount(s, q);
    forall row | row in s.outputs ensures Judge(s, q, row) == Clean || row.id in Ids(Sent(s)) {
      SpentOrClean(s, q, row);
    }
    NoneNeither(s, q, s.outputs, Ids(Sent(s)));
  }

  // ----- The transaction list of `get_address_txs` -----

  datatype Tx = Tx(link: Link, amount: UInt64, spent: nat, spends: seq<Choice>)

  /** An output joins the last entry when it belongs to the same transaction. */
  function AddRow(txs: seq<Tx>, row: Funds): seq<Tx> {
    if txs == [] || txs[|txs| - 1].link.txHash != row.link.txHash then txs + [Tx(row.link, row.amount, 0, [])]
    else txs[..|txs| - 1] + [txs[|txs| - 1].(amount := Wrap(txs[|txs| - 1].amount + row.amount))]
  }

  function Grouped(rows: seq<Funds>): seq<Tx> {
    if rows == [] then [] else AddRow(Grouped(rows[..|rows| - 1]), rows[|rows| - 1])
  }

  function Single(rows: seq<Funds>): seq<Tx> {
    if rows == [] then []
    else Single(rows[..|rows| - 1]) + [Tx(rows[|rows| - 1].link, rows[|rows| - 1].amount, 0, [])]
  }

  /** `find_tx_index`: the first entry of the transaction, or the length of the list. */
  function FirstTx(txs: seq<Tx>, hash: Hash): (i: nat)
    ensures i <= |txs| && (i < |txs| ==> txs[i].link.txHash == hash)
    ensures forall j :: 0 <= j < i ==> txs[j].link.txHash != hash
  {
    if txs == [] then 0 else if txs[0].link.txHash == hash then 0 else 1 + FirstTx(txs[1..], hash)
  }

  /** A spend is charged to its transaction; a transaction without received outputs gets an entry of its own. */
  function Charge(txs: seq<Tx>, c: Choice): seq<Tx> {
    var i := FirstTx(txs, c.spend.link.txHash);
    if i == |txs| then txs + [Tx(c.spend.link, 0, c.row.amount, [c])]
    else txs[i := txs[i].(spent := txs[i].spent + c.row.amount, spends := txs[i].spends + [c])]
  }

  function ChargeAll(txs: seq<Tx>, list: seq<Choice>): seq<Tx> {
    if list == [] then txs else Charge(ChargeAll(txs, list[..|list| - 1]), list[|list| - 1])
  }

  function Transactions(s: Snapshot): seq<Tx> {
    ChargeAll(Grouped(s.outputs) + Single(Added(s.outputs, s.overlay)), Sent(s))
  }

  /** Sums over the entries of one transaction, or over all entries. */
  predicate Counts(of: Option<Hash>, link: Link) { of.None? || of.value == link.txHash }

  function ReceivedIn(txs: seq<Tx>, of: Option<Hash>): nat {
    if txs == [] then 0
    else ReceivedIn(txs[..|txs| - 1], of) + if Counts(of, txs[|txs| - 1].link) then txs[|txs| - 1].amount else 0
  }

  function SpentIn(txs: seq<Tx>, of: Option<Hash>): nat {
    if txs == [] then 0
    else SpentIn(txs[..|txs| - 1], of) + if Counts(of, txs[|txs| - 1].link) then txs[|txs| - 1].spent else 0
  }

  function SumRows(rows: seq<Funds>, of: Option<Hash>): nat {
    if rows == [] then 0
    else SumRows(rows[..|rows| - 1], of) + if Counts(of, rows[|rows| - 1].link) then rows[|rows| - 1].amount else 0
  }

  function SumSpends(list: seq<Choice>, of: Option<Hash>): nat {
    if list == [] then 0
    else SumSpends(list[..|list| - 1], of) + if Counts(of, list[|list| - 1].spend.link) then list[|list| - 1].row.amount else 0
  }

  lemma WrapAdd(a: nat, b: nat)
    ensures Wrap(Wrap(a) + b) == Wrap(a + b)
    ensures Wrap(a + Wrap(b)) == Wrap(a + b)
    ensures Wrap(a) <= a
  {
    var p, q := a / UINT64_LIMIT, b / UINT64_LIMIT;
    assert a == p * UINT64_LIMIT + Wrap(a) && b == q * UINT64_LIMIT + Wrap(b);
    WrapMultiple(Wrap(a) + b, p);
    WrapMultiple(a + Wrap(b), q);
  }

  lemma WrapMultiple(n: nat, k: nat)
    ensures Wrap(k * UINT64_LIMIT + n) == Wrap(n)
  {
  }

  lemma LastTx(init: seq<Tx>, tx: Tx, of: Option<Hash>)
    ensures ReceivedIn(init + [tx], of) == ReceivedIn(init, of) + if Counts(of, tx.link) then tx.amount else 0
    ensures SpentIn(init + [tx], of) == SpentIn(init, of) + if Counts(of, tx.link) then tx.spent else 0
  {
    assert (init + [tx])[..|init + [tx]| - 1] == init;
  }

  lemma AddRowConserves(txs: seq<Tx>, row: Funds, of: Option<Hash>)
    ensures var more := if Counts(of, row.link) then row.amount else 0;
      && Wrap(ReceivedIn(AddRow(txs, row), of)) == Wrap(ReceivedIn(txs, of) + more)
      && ReceivedIn(AddRow(txs, row), of) <= ReceivedIn(txs, of) + more
      && SpentIn(AddRow(txs, row), of) == SpentIn(txs, of)
  {
    hide Wrap, ReceivedIn, SpentIn;
    if txs == [] || txs[|txs| - 1].link.txHash != row.link.txHash {
      LastTx(txs, Tx(row.link, row.amount, 0, []), of);
    } else {
      var front, tx := txs[..|txs| - 1], txs[|txs| - 1];
      SplitLast(txs);
      LastTx(front, tx, of);
      LastTx(front, tx.(amount := Wrap(tx.amount + row.amount)), of);
      WrapAdd(ReceivedIn(front, of), tx.amount + row.amount);
      WrapAdd(tx.amount + row.amount, 0);
    }
  }

  lemma NothingSums(of: Option<Hash>)
    ensures ReceivedIn([], of) == SpentIn([], of) == SumRows([], of) == 0
  {
  }

  lemma SplitLast<T>(s: seq<T>)
    requires s != []
    ensures s == s[..|s| - 1] + [s[|s| - 1]]
  {
  }

  lemma LastRow(rows: seq<Funds>, of: Option<Hash>)
    requires rows != []
    ensures var row := rows[|rows| - 1];
      SumRows(rows, of) == SumRows(rows[..|rows| - 1], of) + if Counts(of, row.link) then row.amount else 0
  {
  }

  /** Grouping conserves what every transaction received, up to the 64-bit wrap. */
  lemma {:induction false} GroupedConserves(rows: seq<Funds>, of: Option<Hash>)
    ensures Wrap(ReceivedIn(Grouped(rows), of)) == Wrap(SumRows(rows, of))
    ensures ReceivedIn(Grouped(rows), of) <= SumRows(rows, of)
    ensures SpentIn(Grouped(rows), of) == 0
  {
    hide Wrap, ReceivedIn, SpentIn, SumRows, Counts, AddRow;
    if rows == [] {
      NothingSums(of);
    } else {
      var init, row := rows[..|rows| - 1], rows[|rows| - 1];
      GroupedConserves(init, of);
      LastRow(rows, of);
      AddRowConserves(Grouped(init), row, of);
      var more := if Counts(of, row.link) then row.amount else 0;
      WrapAdd(ReceivedIn(Grouped(init), of), more);
      WrapAdd(SumRows(init, of), more);
    }
  }

  lemma {:induction false} SingleConserves(txs: seq<Tx>, rows: seq<Funds>, of: Option<Hash>)
    ensures ReceivedIn(txs + Single(rows), of) == ReceivedIn(txs, of) + SumRows(rows, of)
    ensures SpentIn(txs + Single(rows), of) == SpentIn(txs, of)
  {
    if rows == [] {
      assert txs + Single(rows) == txs;
    } else {
      var init, row := rows[..|rows| - 1], rows[|rows| - 1];
      SingleConserves(txs, init, of);
      var tx := Tx(row.link, row.amount, 0, []);
      assert txs + Single(rows) == (txs + Single(init)) + [tx];
      LastTx(txs + Single(init), tx, of);
    }
  }

  /** Replacing one entry moves the sums by the difference. */
  lemma {:induction false} ReplaceTx(txs: seq<Tx>, i: nat, tx: Tx, of: Option<Hash>)
    requires i < |txs| && tx.link == txs[i].link && tx.amount == txs[i].amount
    ensures ReceivedIn(txs[i := tx], of) == ReceivedIn(txs, of)
    ensures SpentIn(txs[i := tx], of) + (if Counts(of, tx.link) then txs[i].spent else 0) ==
            SpentIn(txs, of) + if Counts(of, tx.link) then tx.spent else 0
  {
    var n := |txs| - 1;
    if i == n {
      assert txs[i := tx][..n] == txs[..n];
    } else {
      assert txs[i := tx][..n] == txs[..n][i := tx];
      ReplaceTx(txs[..n], i, tx, of);
    }
  }

  lemma {:induction false} ChargeConserves(txs: seq<Tx>, list: seq<Choice>, of: Option<Hash>)
    ensures ReceivedIn(ChargeAll(txs, list), of) == ReceivedIn(txs, of)
    ensures SpentIn(ChargeAll(txs, list), of) == SpentIn(txs, of) + SumSpends(list, of)
  {
    hide ReceivedIn, SpentIn, Counts, Charge;
    if list != [] {
      var init, c := list[..|list| - 1], list[|list| - 1];
      ChargeConserves(txs, init, of);
      var before := ChargeAll(txs, init);
      ChargeOne(before, c, of);
    }
  }

  lemma ChargeOne(txs: seq<Tx>, c: Choice, of: Option<Hash>)
    ensures ReceivedIn(Charge(txs, c), of) == ReceivedIn(txs, of)
    ensures SpentIn(Charge(txs, c), of) == SpentIn(txs, of) + if Counts(of, c.spend.link) then c.row.amount else 0
  {
    hide ReceivedIn, SpentIn;
    var i := FirstTx(txs, c.spend.link.txHash);
    if i == |txs| {
      LastTx(txs, Tx(c.spend.link, 0, c.row.amount, [c]), of);
    } else {
      ReplaceTx(txs, i, txs[i].(spent := txs[i].spent + c.row.amount, spends := txs[i].spends + [c]), of);
    }
  }

  lemma {:induction false} SumRowsAppend(a: seq<Funds>, b: seq<Funds>, of: Option<Hash>)
    ensures SumRows(a + b, of) == SumRows(a, of) + SumRows(b, of)
  {
    if b == [] {
      assert a + b == a;
    } else {
      assert (a + b)[..|a + b| - 1] == a + b[..|b| - 1];
      SumRowsAppend(a, b[..|b| - 1], of);
    }
  }

  /** Every transaction shows what its outputs received and what its spends consumed, up to the 64-bit wrap of the
      received amount; nothing is lost when the sum fits. */
  lemma TransactionsConserve(s: Snapshot, of: Option<Hash>)
    ensures Wrap(ReceivedIn(Transactions(s), of)) == Wrap(SumRows(All(s), of))
    ensures SumRows(All(s), of) < UINT64_LIMIT ==> ReceivedIn(Transactions(s), of) == SumRows(All(s), of)
    ensures SpentIn(Transactions(s), of) == SumSpends(Sent(s), of)
  {
    hide Grouped, Single, ChargeAll, Sent, Added, SumRows, ReceivedIn, SpentIn;
    var added := Added(s.outputs, s.overlay);
    GroupedConserves(s.outputs, of);
    SingleConserves(Grouped(s.outputs), added, of);
    ChargeConserves(Grouped(s.outputs) + Single(added), Sent(s), of);
    SumRowsAppend(s.outputs, added, of);
    WrapAdd(ReceivedIn(Grouped(s.outputs), of), SumRows(added, of));
    WrapAdd(SumRows(s.outputs, of), SumRows(added, of));
  }

  lemma {:induction false} SumRowsOfAll(rows: seq<Funds>)
    ensures SumRows(rows, None) == Sum(rows)
  {
    if rows != [] {
      SumRowsOfAll(rows[..|rows| - 1]);
    }
  }

  lemma {:induction false} SumSpendsOfAll(list: seq<Choice>)
    ensures SumSpends(list, None) == SumSent(list)
  {
    if list != [] {
      SumSpendsOfAll(list[..|list| - 1]);
      SumSentLast(list);
    }
  }

  lemma {:induction false} SumSentLast(list: seq<Choice>)
    requires list != []
    ensures SumSent(list) == SumSent(list[..|list| - 1]) + list[|list| - 1].row.amount
  {
    if |list| > 1 {
      SumSentLast(list[1..]);
      assert list[1..][..|list| - 2] == list[..|list| - 1][1..];
    }
  }

  /** The transaction list adds up to the totals that `get_address_info` reports for the same snapshot. */
  lemma ListAddsUp(s: Snapshot)
    ensures Wrap(ReceivedIn(Transactions(s), None)) == Wrap(Sum(All(s)))
    ensures Sum(All(s)) < UINT64_LIMIT ==> ReceivedIn(Transactions(s), None) == Sum(All(s))
    ensures SpentIn(Transactions(s), None) == SumSent(Sent(s))
  {
    hide Transactions, All, Sent;
    TransactionsConserve(s, None);
    SumRowsOfAll(All(s));
    SumSpendsOfAll(Sent(s));
  }
}
