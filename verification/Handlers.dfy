/** The loops of the three balance endpoints (src/rest_server.cpp), each proved against the snapshot functions. */
module Handlers {
  import opened Rows
  import opened Balance

  // ----- Diagnostic sums of `get_address_info` that can fail the request -----

  function ById(rows: seq<Funds>): map<OutputId, Funds> {
    if rows == [] then map[]
    else
      var init, last := ById(rows[..|rows| - 1]), rows[|rows| - 1];
      if last.id in init then init else init[last.id := last]
  }

  datatype Sources = Sources(ids: set<OutputId>, amount: nat)

  /** The outputs that unconfirmed spends may consume, each counted once. */
  function Unconfirmed(byId: map<OutputId, Funds>, confirmed: set<KeyImage>, spends: seq<Spend>): Sources {
    if spends == [] then Sources({}, 0)
    else
      var init, last := Unconfirmed(byId, confirmed, spends[..|spends| - 1]), spends[|spends| - 1];
      if last.image !in confirmed && last.source in byId && last.source !in init.ids then
        Sources(init.ids + {last.source}, init.amount + byId[last.source].amount)
      else init
  }

  lemma {:induction false} UnconfirmedGrows(byId: map<OutputId, Funds>, confirmed: set<KeyImage>, spends: seq<Spend>, n: nat)
    requires n <= |spends|
    ensures Unconfirmed(byId, confirmed, spends[..n]).amount <= Unconfirmed(byId, confirmed, spends).amount
  {
    if n == |spends| {
      assert spends[..n] == spends;
    } else {
      assert spends[..|spends| - 1][..n] == spends[..n];
      UnconfirmedGrows(byId, confirmed, spends[..|spends| - 1], n);
    }
  }

  function AmountOf(row: Option<Funds>): nat { if row.Some? then row.value.amount else 0 }

  /** Imported sources of images that no spend row has, in the order of the images. */
  function Unspent(rows: seq<Funds>, imported: map<KeyImage, Imported>, present: set<KeyImage>, todo: set<KeyImage>): nat
    decreases todo
  {
    if todo == {} then 0
    else
      var image := Least(todo);
      (if image in present then 0 else AmountOf(Find(rows, imported, image))) + Unspent(rows, imported, present, todo - {image})
  }

  function ImagesOf(spends: seq<Spend>): set<KeyImage> { set sp | sp in spends :: sp.image }

  function UnconfirmedOf(s: Snapshot): Sources { Unconfirmed(ById(All(s)), s.confirmed, s.spends) }

  function UnspentOf(s: Snapshot): nat {
    Unspent(All(s), ByImage(s.imported), ImagesOf(s.spends), ByImage(s.imported).Keys)
  }

  function MissingOf(s: Snapshot): nat { Missing(All(s), ByImage(s.imported), s.confirmed, s.spends) }

  // ----- Loops shared by the two address endpoints -----

  lemma {:induction false} AddedGrows(rows: seq<Funds>, overlay: seq<Funds>, n: nat)
    requires n <= |overlay|
    ensures Sum(Added(rows, overlay[..n])) <= Sum(Added(rows, overlay))
  {
    if n == |overlay| {
      assert overlay[..n] == overlay;
    } else {
      assert overlay[..|overlay| - 1][..n] == overlay[..n];
      AddedGrows(rows, overlay[..|overlay| - 1], n);
      SumLast(Added(rows, overlay[..|overlay| - 1]), overlay[|overlay| - 1]);
    }
  }

  lemma SumLast(rows: seq<Funds>, row: Funds)
    ensures Sum(rows + [row]) == Sum(rows) + row.amount
  {
    assert (rows + [row])[..|rows + [row]| - 1] == rows;
  }

  /** `output_exists_in_rows` */
  method Exists(rows: seq<Funds>, row: Funds) returns (found: bool)
    ensures found <==> Listed(rows, row)
  {
    for i := 0 to |rows|
      invariant forall j :: 0 <= j < i ==> !SameOutput(rows[j], row)
    {
      if SameOutput(rows[i], row) {
        return true;
      }
    }
    return false;
  }

  /** Unconfirmed outputs count as received and as locked. */
  method AddOverlay(rows: seq<Funds>, overlay: seq<Funds>, received: UInt64, locked: UInt64)
    returns (ok: bool, all: seq<Funds>, total: UInt64, allLocked: UInt64)
    ensures ok <==> Sum(Added(rows, overlay)) < UINT64_LIMIT
    ensures ok ==> all == rows + Added(rows, overlay)
    ensures ok ==> total == Wrap(received + Sum(Added(rows, overlay))) && allLocked == Wrap(locked + Sum(Added(rows, overlay)))
  {
    hide Sum, Wrap;
    all, total, allLocked := rows, received, locked;
    var amount: UInt64 := 0;
    NoSum();
    WrapAdd(received, 0);
    WrapSmall(received);
    WrapSmall(locked);
    for i := 0 to |overlay|
      invariant all == rows + Added(rows, overlay[..i])
      invariant amount == Sum(Added(rows, overlay[..i]))
      invariant total == Wrap(received + amount) && allLocked == Wrap(locked + amount)
    {
      Prefix(overlay, i);
      AddedGrows(rows, overlay, i + 1);
      var listed := Exists(all, overlay[i]);
      if !listed {
        SumLast(Added(rows, overlay[..i]), overlay[i]);
        WrapAdd(received + amount, overlay[i].amount);
        WrapAdd(locked + amount, overlay[i].amount);
        total := Wrap(total + overlay[i].amount);
        allLocked := Wrap(allLocked + overlay[i].amount);
        if UINT64_LIMIT - 1 - amount < overlay[i].amount {
          return false, all, total, allLocked;
        }
        all := all + [overlay[i]];
        amount := amount + overlay[i].amount;
      }
    }
    assert overlay[..|overlay|] == overlay;
    return true, all, total, allLocked;
  }

  lemma NoSum()
    ensures Sum([]) == 0
  {
  }

  lemma WrapSmall(n: nat)
    ensures n < UINT64_LIMIT ==> Wrap(n) == n
  {
  }

  /** `emplace`: the first source of a key image wins. */
  method ImportedMap(sources: seq<Imported>) returns (byImage: map<KeyImage, Imported>)
    ensures byImage == ByImage(sources)
    ensures forall i :: i in byImage <==> HasSource(sources, i)
    ensures forall i :: i in byImage ==> byImage[i].image == i && IsFirst(sources, byImage[i])
  {
    hide IsFirst, HasSource;
    byImage := map[];
    for i := 0 to |sources|
      invariant byImage == ByImage(sources[..i])
    {
      Prefix(sources, i);
      if sources[i].image !in byImage {
        byImage := byImage[sources[i].image := sources[i]];
      }
    }
    assert sources[..|sources|] == sources;
  }

  method FindOutput(rows: seq<Funds>, imported: map<KeyImage, Imported>, image: KeyImage) returns (row: Option<Funds>)
    ensures row == Find(rows, imported, image)
  {
    if image !in imported {
      return None;
    }
    var i := 0;
    while i < |rows|
      invariant i <= |rows| && Find(rows, imported, image) == FirstIdentified(rows[i..], imported[image])
    {
      if Identifies(imported[image], rows[i]) {
        return Some(rows[i]);
      }
      i := i + 1;
    }
    return None;
  }

  // ----- `get_address_info` -----

  datatype Info = Info(
    totalReceived: UInt64, lockedFunds: UInt64, totalSent: UInt64, spentOutputs: seq<Choice>, missing: nat, unconfirmed: Sources)

  /** Locked outputs, and everything that is not confirmed yet. */
  function LockedOf(s: Snapshot): nat { SumLocked(s.outputs) + Sum(Added(s.outputs, s.overlay)) }

  lemma {:induction false} LockedAtMost(rows: seq<Funds>)
    ensures SumLocked(rows) <= Sum(rows)
  {
    if rows != [] {
      LockedAtMost(rows[..|rows| - 1]);
    }
  }

  /** Locked funds are part of what was received. */
  lemma LockedIsReceived(s: Snapshot)
    ensures LockedOf(s) <= Sum(All(s))
  {
    hide Sum, SumLocked, Added;
    LockedAtMost(s.outputs);
    SumAppend(s.outputs, Added(s.outputs, s.overlay), {});
  }

  method ReadOutputs(outputs: seq<Funds>) returns (total: UInt64, locked: UInt64)
    ensures total == Wrap(Sum(outputs)) && locked == Wrap(SumLocked(outputs))
  {
    hide Wrap;
    total, locked := 0, 0;
    WrapSmall(0);
    for i := 0 to |outputs|
      invariant total == Wrap(Sum(outputs[..i])) && locked == Wrap(SumLocked(outputs[..i]))
    {
      Prefix(outputs, i);
      WrapAdd(Sum(outputs[..i]), outputs[i].amount);
      WrapAdd(SumLocked(outputs[..i]), outputs[i].amount);
      total := Wrap(total + outputs[i].amount);
      if outputs[i].locked {
        locked := Wrap(locked + outputs[i].amount);
      }
    }
    assert outputs[..|outputs|] == outputs;
  }

  method MetaById(rows: seq<Funds>) returns (byId: map<OutputId, Funds>)
    ensures byId == ById(rows)
  {
    byId := map[];
    for i := 0 to |rows|
      invariant byId == ById(rows[..i])
    {
      Prefix(rows, i);
      if rows[i].id !in byId {
        byId := byId[rows[i].id := rows[i]];
      }
    }
    assert rows[..|rows|] == rows;
  }

  lemma NothingChosen(rows: seq<Funds>, imported: map<KeyImage, Imported>, byId: map<OutputId, Funds>, confirmed: set<KeyImage>)
    ensures Choices(rows, imported, confirmed, []) == map[] && Missing(rows, imported, confirmed, []) == 0
    ensures Unconfirmed(byId, confirmed, []) == Sources({}, 0)
  {
  }

  /** The three folds over the spends take one more spend. */
  lemma ChooseOne(rows: seq<Funds>, imported: map<KeyImage, Imported>, byId: map<OutputId, Funds>, confirmed: set<KeyImage>,
                  spends: seq<Spend>, i: nat)
    requires i < |spends|
    ensures var sp, row := spends[i], Find(rows, imported, spends[i].image);
      var choices, sources := Choices(rows, imported, confirmed, spends[..i]), Unconfirmed(byId, confirmed, spends[..i]);
      && Choices(rows, imported, confirmed, spends[..i + 1]) ==
           (if sp.image in confirmed && row.Some? then Consider(choices, Choice(sp, row.value)) else choices)
      && Missing(rows, imported, confirmed, spends[..i + 1]) ==
           Missing(rows, imported, confirmed, spends[..i]) + (if sp.image in confirmed && row.None? then 1 else 0)
      && Unconfirmed(byId, confirmed, spends[..i + 1]) ==
           (if sp.image !in confirmed && sp.source in byId && sp.source !in sources.ids then
              Sources(sources.ids + {sp.source}, sources.amount + byId[sp.source].amount)
            else sources)
  {
    hide Find, Consider;
    Prefix(spends, i);
  }

  method ChooseForInfo(rows: seq<Funds>, byId: map<OutputId, Funds>, imported: map<KeyImage, Imported>, s: Snapshot)
    returns (ok: bool, choices: map<KeyImage, Choice>, missing: nat, unconfirmed: Sources, present: set<KeyImage>)
    ensures ok <==> Unconfirmed(byId, s.confirmed, s.spends).amount < UINT64_LIMIT
    ensures ok ==> choices == Choices(rows, imported, s.confirmed, s.spends)
    ensures ok ==> missing == Missing(rows, imported, s.confirmed, s.spends)
    ensures ok ==> unconfirmed == Unconfirmed(byId, s.confirmed, s.spends) && present == ImagesOf(s.spends)
  {
    hide Find, Consider, Choices, Missing, Unconfirmed;
    NothingChosen(rows, imported, byId, s.confirmed);
    choices, missing, unconfirmed, present := map[], 0, Sources({}, 0), {};
    for i := 0 to |s.spends|
      invariant choices == Choices(rows, imported, s.confirmed, s.spends[..i])
      invariant missing == Missing(rows, imported, s.confirmed, s.spends[..i])
      invariant unconfirmed == Unconfirmed(byId, s.confirmed, s.spends[..i]) && unconfirmed.amount < UINT64_LIMIT
      invariant present == ImagesOf(s.spends[..i])
    {
      Prefix(s.spends, i);
      ChooseOne(rows, imported, byId, s.confirmed, s.spends, i);
      UnconfirmedGrows(byId, s.confirmed, s.spends, i + 1);
      var spend := s.spends[i];
      present := present + {spend.image};
      if spend.image !in s.confirmed {
        if spend.source in byId && spend.source !in unconfirmed.ids {
          if UINT64_LIMIT - 1 - unconfirmed.amount < byId[spend.source].amount {
            return false, choices, missing, unconfirmed, present;
          }
          unconfirmed := Sources(unconfirmed.ids + {spend.source}, unconfirmed.amount + byId[spend.source].amount);
        }
      } else {
        var row := FindOutput(rows, imported, spend.image);
        if row.None? {
          missing := missing + 1;
        } else {
          choices := Consider(choices, Choice(spend, row.value));
        }
      }
    }
    assert s.spends[..|s.spends|] == s.spends;
    return true, choices, missing, unconfirmed, present;
  }

  method SumUnspent(rows: seq<Funds>, imported: map<KeyImage, Imported>, present: set<KeyImage>) returns (ok: bool)
    ensures ok <==> Unspent(rows, imported, present, imported.Keys) < UINT64_LIMIT
  {
    hide Find;
    var amount: nat, todo := 0, imported.Keys;
    while todo != {}
      invariant todo <= imported.Keys && amount < UINT64_LIMIT
      invariant amount + Unspent(rows, imported, present, todo) == Unspent(rows, imported, present, imported.Keys)
      decreases todo
    {
      var image := Least(todo);
      if image !in present {
        var row := FindOutput(rows, imported, image);
        if row.Some? {
          if UINT64_LIMIT - 1 - amount < row.value.amount {
            return false;
          }
          amount := amount + row.value.amount;
        }
      }
      todo := todo - {image};
    }
    return true;
  }

  lemma SentCons(c: Choice, tail: seq<Choice>)
    ensures SumSent([c] + tail) == c.row.amount + SumSent(tail)
  {
    assert ([c] + tail)[1..] == tail;
  }

  /** The first choice of an ordered walk. */
  lemma PickStep(choices: map<KeyImage, Choice>, todo: set<KeyImage>, seen: set<OutputId>)
    requires todo <= choices.Keys && todo != {}
    ensures var c := choices[Least(todo)];
      var rest := todo - {Least(todo)};
      var tail := Picked(choices, rest, seen + {c.row.id});
      if c.row.id in seen then Picked(choices, todo, seen) == Picked(choices, rest, seen)
      else Picked(choices, todo, seen) == [c] + tail && SumSent([c] + tail) == c.row.amount + SumSent(tail)
  {
    var c := choices[Least(todo)];
    SentCons(c, Picked(choices, todo - {Least(todo)}, seen + {c.row.id}));
  }

  lemma Reassociate(done: seq<Choice>, c: Choice, tail: seq<Choice>)
    ensures done + ([c] + tail) == (done + [c]) + tail
  {
  }

  lemma NothingPicked(choices: map<KeyImage, Choice>, seen: set<OutputId>)
    ensures Picked(choices, {}, seen) == [] && SumSent([]) == 0
  {
  }

  method SumChoices(choices: map<KeyImage, Choice>) returns (ok: bool, total: nat, spent: seq<Choice>)
    ensures ok <==> SumSent(Picked(choices, choices.Keys, {})) < UINT64_LIMIT
    ensures ok ==> spent == Picked(choices, choices.Keys, {}) && total == SumSent(spent)
  {
    hide Picked, SumSent;
    var todo: set<KeyImage>, seen: set<OutputId> := choices.Keys, {};
    total, spent := 0, [];
    while todo != {}
      invariant todo <= choices.Keys && total < UINT64_LIMIT
      invariant total + SumSent(Picked(choices, todo, seen)) == SumSent(Picked(choices, choices.Keys, {}))
      invariant spent + Picked(choices, todo, seen) == Picked(choices, choices.Keys, {})
      decreases todo
    {
      PickStep(choices, todo, seen);
      var image := Least(todo);
      var choice := choices[image];
      todo := todo - {image};
      if choice.row.id !in seen {
        seen := seen + {choice.row.id};
        if UINT64_LIMIT - 1 - total < choice.row.amount {
          return false, total, spent;
        }
        Reassociate(spent, choice, Picked(choices, todo, seen));
        total, spent := total + choice.row.amount, spent + [choice];
      }
    }
    NothingPicked(choices, seen);
    assert spent + [] == spent;
    return true, total, spent;
  }

  predicate InfoFits(s: Snapshot) {
    && Sum(Added(s.outputs, s.overlay)) < UINT64_LIMIT
    && UnconfirmedOf(s).amount < UINT64_LIMIT
    && UnspentOf(s) < UINT64_LIMIT
    && SumSent(Sent(s)) < UINT64_LIMIT
  }

  method GetAddressInfo(s: Snapshot) returns (r: Result<Info>)
    ensures r.Ok? <==> InfoFits(s)
    ensures r.Err? ==> r == Err(BadDaemonResponse)
    ensures r.Ok? ==> r.value == Info(Wrap(Sum(All(s))), Wrap(LockedOf(s)), SumSent(Sent(s)), Sent(s), MissingOf(s), UnconfirmedOf(s))
  {
    hide Sum, SumLocked, Wrap, Added, ByImage, Choices, Picked, SumSent, Unspent, Unconfirmed, Missing, IsFirst, HasSource;
    var received, isLocked := ReadOutputs(s.outputs);
    var ok, rows, total, locked := AddOverlay(s.outputs, s.overlay, received, isLocked);
    if !ok {
      return Err(BadDaemonResponse);
    }
    SumAppend(s.outputs, Added(s.outputs, s.overlay), {});
    WrapAdd(Sum(s.outputs), Sum(Added(s.outputs, s.overlay)));
    WrapAdd(SumLocked(s.outputs), Sum(Added(s.outputs, s.overlay)));
    var byId := MetaById(rows);
    var imported := ImportedMap(s.imported);
    var choices, missing, unconfirmed, present;
    ok, choices, missing, unconfirmed, present := ChooseForInfo(rows, byId, imported, s);
    if !ok {
      return Err(BadDaemonResponse);
    }
    ok := SumUnspent(rows, imported, present);
    if !ok {
      return Err(BadDaemonResponse);
    }
    var sent, spent;
    ok, sent, spent := SumChoices(choices);
    if !ok {
      return Err(BadDaemonResponse);
    }
    return Ok(Info(total, locked, sent, spent, missing, unconfirmed));
  }

  // ----- `get_address_txs` -----

  predicate LinkBefore(a: Link, b: Link) { if a.height == b.height then a.txHash < b.txHash else a.height < b.height }

  /** No output is before the entry that is last when it is read. */
  predicate OrderHolds(rows: seq<Funds>) {
    rows == [] ||
    var init, row := rows[..|rows| - 1], rows[|rows| - 1];
    OrderHolds(init) && (Grouped(init) == [] || !LinkBefore(row.link, Grouped(init)[|Grouped(init)| - 1].link))
  }

  lemma AddRowLinks(txs: seq<Tx>, row: Funds)
    ensures |txs| <= |AddRow(txs, row)| <= |txs| + 1 && AddRow(txs, row) != []
    ensures forall i :: 0 <= i < |txs| ==> AddRow(txs, row)[i].link == txs[i].link
    ensures |AddRow(txs, row)| == |txs| + 1 ==> AddRow(txs, row)[|txs|].link == row.link
  {
  }

  lemma {:induction false} GroupedLinks(rows: seq<Funds>)
    ensures rows != [] ==> Grouped(rows) != []
    ensures forall tx :: tx in Grouped(rows) ==> exists row :: row in rows && row.link == tx.link
  {
    hide AddRow;
    if rows != [] {
      var init, last := rows[..|rows| - 1], rows[|rows| - 1];
      GroupedLinks(init);
      AddRowLinks(Grouped(init), last);
      assert last in rows && forall r :: r in init ==> r in rows;
      forall tx | tx in Grouped(rows) ensures exists row :: row in rows && row.link == tx.link {
        var i :| 0 <= i < |Grouped(rows)| && Grouped(rows)[i] == tx;
        if i < |Grouped(init)| {
          assert Grouped(init)[i] in Grouped(init);
        }
      }
    }
  }

  /** Rows in the order of the table never trip the check. */
  lemma {:induction false} SortedRowsPass(rows: seq<Funds>)
    requires forall i, j :: 0 <= i < j < |rows| ==> !LinkBefore(rows[j].link, rows[i].link)
    ensures OrderHolds(rows)
  {
    hide Grouped;
    if rows != [] {
      var init := rows[..|rows| - 1];
      SortedRowsPass(init);
      GroupedLinks(init);
      if Grouped(init) != [] {
        assert Grouped(init)[|Grouped(init)| - 1] in Grouped(init);
      }
    }
  }

  lemma {:induction false} OrderOfPrefix(rows: seq<Funds>, n: nat)
    requires n <= |rows| && OrderHolds(rows)
    ensures OrderHolds(rows[..n])
  {
    hide Grouped;
    if n == |rows| {
      assert rows[..n] == rows;
    } else {
      assert rows[..|rows| - 1][..n] == rows[..n];
      OrderOfPrefix(rows[..|rows| - 1], n);
    }
  }

  datatype TxList = TxList(totalReceived: UInt64, transactions: seq<Tx>)

  /** One more output is read. */
  lemma ReadOne(outputs: seq<Funds>, i: nat)
    requires i < |outputs|
    ensures Sum(outputs[..i + 1]) == Sum(outputs[..i]) + outputs[i].amount
    ensures Grouped(outputs[..i + 1]) == AddRow(Grouped(outputs[..i]), outputs[i])
    ensures OrderHolds(outputs[..i + 1]) <==>
      OrderHolds(outputs[..i]) &&
      (Grouped(outputs[..i]) == [] || !LinkBefore(outputs[i].link, Grouped(outputs[..i])[|Grouped(outputs[..i])| - 1].link))
  {
    hide AddRow, LinkBefore;
    Prefix(outputs, i);
  }

  method GroupOutputs(outputs: seq<Funds>) returns (ok: bool, txs: seq<Tx>, total: UInt64)
    ensures ok <==> OrderHolds(outputs)
    ensures ok ==> txs == Grouped(outputs) && total == Wrap(Sum(outputs))
  {
    hide Wrap, LinkBefore, Sum, Grouped, OrderHolds;
    txs, total := [], 0;
    NothingGrouped();
    for i := 0 to |outputs|
      invariant OrderHolds(outputs[..i]) && txs == Grouped(outputs[..i]) && total == Wrap(Sum(outputs[..i]))
    {
      var row := outputs[i];
      ReadOne(outputs, i);
      if txs != [] && LinkBefore(row.link, txs[|txs| - 1].link) {
        if OrderHolds(outputs) { OrderOfPrefix(outputs, i + 1); }
        return false, txs, total;
      }
      WrapAdd(Sum(outputs[..i]), row.amount);
      if txs == [] || txs[|txs| - 1].link.txHash != row.link.txHash {
        txs := txs + [Tx(row.link, row.amount, 0, [])];
      } else {
        txs := txs[..|txs| - 1] + [txs[|txs| - 1].(amount := Wrap(txs[|txs| - 1].amount + row.amount))];
      }
      total := Wrap(total + row.amount);
    }
    assert outputs[..|outputs|] == outputs;
    return true, txs, total;
  }

  lemma NothingGrouped()
    ensures OrderHolds([]) && Grouped([]) == [] && Wrap(Sum([])) == 0
  {
  }

  method AppendSingles(txs: seq<Tx>, added: seq<Funds>) returns (all: seq<Tx>)
    ensures all == txs + Single(added)
  {
    all := txs;
    for i := 0 to |added|
      invariant all == txs + Single(added[..i])
    {
      Prefix(added, i);
      all := all + [Tx(added[i].link, added[i].amount, 0, [])];
    }
    assert added[..|added|] == added;
  }

  method ChooseForTxs(rows: seq<Funds>, imported: map<KeyImage, Imported>, s: Snapshot) returns (choices: map<KeyImage, Choice>)
    ensures choices == Choices(rows, imported, s.confirmed, s.spends)
  {
    hide Find, Consider;
    choices := map[];
    for i := 0 to |s.spends|
      invariant choices == Choices(rows, imported, s.confirmed, s.spends[..i])
    {
      Prefix(s.spends, i);
      if s.spends[i].image in s.confirmed {
        var row := FindOutput(rows, imported, s.spends[i].image);
        if row.Some? {
          choices := Consider(choices, Choice(s.spends[i], row.value));
        }
      }
    }
    assert s.spends[..|s.spends|] == s.spends;
  }

  method FindTxIndex(txs: seq<Tx>, hash: Hash) returns (index: nat)
    ensures index == FirstTx(txs, hash)
  {
    index := 0;
    while index < |txs|
      invariant index <= |txs| && FirstTx(txs, hash) == index + FirstTx(txs[index..], hash)
    {
      if txs[index].link.txHash == hash {
        return;
      }
      index := index + 1;
    }
  }

  lemma ChargeAllLast(txs: seq<Tx>, done: seq<Choice>, c: Choice)
    ensures ChargeAll(txs, done + [c]) == Charge(ChargeAll(txs, done), c)
  {
    assert (done + [c])[..|done + [c]| - 1] == done;
  }

  lemma {:induction false} SpentOfOne(txs: seq<Tx>, i: nat)
    requires i < |txs|
    ensures txs[i].spent <= SpentIn(txs, None)
  {
    if i < |txs| - 1 {
      SpentOfOne(txs[..|txs| - 1], i);
    }
  }

  method ChargeChoices(start: seq<Tx>, choices: map<KeyImage, Choice>) returns (ok: bool, txs: seq<Tx>)
    requires SpentIn(start, None) == 0
    ensures ok <==> SumSent(Picked(choices, choices.Keys, {})) < UINT64_LIMIT
    ensures ok ==> txs == ChargeAll(start, Picked(choices, choices.Keys, {}))
  {
    hide Charge, ChargeAll, SpentIn, Picked, SumSent;
    var todo: set<KeyImage>, seen: set<OutputId> := choices.Keys, {};
    var total: nat := 0;
    ghost var done: seq<Choice> := [];
    txs := start;
    NothingCharged(start);
    while todo != {}
      invariant todo <= choices.Keys && total < UINT64_LIMIT
      invariant total + SumSent(Picked(choices, todo, seen)) == SumSent(Picked(choices, choices.Keys, {}))
      invariant done + Picked(choices, todo, seen) == Picked(choices, choices.Keys, {})
      invariant txs == ChargeAll(start, done) && SpentIn(txs, None) == total
      decreases todo
    {
      PickStep(choices, todo, seen);
      var image := Least(todo);
      var choice := choices[image];
      todo := todo - {image};
      if choice.row.id !in seen {
        seen := seen + {choice.row.id};
        ChargeAllLast(start, done, choice);
        ChargeOne(txs, choice, None);
        ok, txs := ChargeTx(txs, choice);
        if !ok || UINT64_LIMIT - 1 - total < choice.row.amount {
          return false, txs;
        }
        Reassociate(done, choice, Picked(choices, todo, seen));
        total, done := total + choice.row.amount, done + [choice];
      }
    }
    NothingPicked(choices, seen);
    assert done + [] == done;
    return true, txs;
  }

  lemma NothingCharged(txs: seq<Tx>)
    ensures ChargeAll(txs, []) == txs
  {
  }

  method ChargeTx(before: seq<Tx>, choice: Choice) returns (ok: bool, txs: seq<Tx>)
    ensures txs == Charge(before, choice) || !ok
    ensures !ok ==> SpentIn(before, None) + choice.row.amount >= UINT64_LIMIT
  {
    hide SpentIn;
    txs := before;
    var index := FindTxIndex(txs, choice.spend.link.txHash);
    if index == |txs| {
      txs := txs + [Tx(choice.spend.link, 0, 0, [])];
      assert txs[index := Tx(choice.spend.link, 0, choice.row.amount, [choice])] == Charge(before, choice);
      assert [] + [choice] == [choice];
    } else {
      SpentOfOne(txs, index);
    }
    if txs[index].spent + choice.row.amount >= UINT64_LIMIT {
      return false, txs;
    }
    txs := txs[index := txs[index].(spent := txs[index].spent + choice.row.amount, spends := txs[index].spends + [choice])];
    return true, txs;
  }

  predicate TxsFit(s: Snapshot) {
    OrderHolds(s.outputs) && Sum(Added(s.outputs, s.overlay)) < UINT64_LIMIT && SumSent(Sent(s)) < UINT64_LIMIT
  }

  method GetAddressTxs(s: Snapshot) returns (r: Result<TxList>)
    ensures r.Ok? <==> TxsFit(s)
    ensures r == Err(UnexpectedOrder) <==> !OrderHolds(s.outputs)
    ensures r.Ok? ==> r.value == TxList(Wrap(Sum(All(s))), Transactions(s))
  {
    hide Sum, Wrap, Added, ByImage, Choices, Picked, SumSent, OrderHolds, Grouped, Single, ChargeAll, SpentIn, ReceivedIn;
    var ok, txs, received := GroupOutputs(s.outputs);
    if !ok {
      return Err(UnexpectedOrder);
    }
    var rows, total, unused;
    ok, rows, total, unused := AddOverlay(s.outputs, s.overlay, received, 0);
    if !ok {
      return Err(BadDaemonResponse);
    }
    ghost var added := Added(s.outputs, s.overlay);
    SumAppend(s.outputs, added, {});
    WrapAdd(Sum(s.outputs), Sum(added));
    assert rows[|s.outputs|..] == added;
    txs := AppendSingles(txs, rows[|s.outputs|..]);
    GroupedConserves(s.outputs, None);
    SingleConserves(Grouped(s.outputs), added, None);
    var imported := ImportedMap(s.imported);
    var choices := ChooseForTxs(rows, imported, s);
    ok, txs := ChargeChoices(txs, choices);
    if !ok {
      return Err(BadDaemonResponse);
    }
    return Ok(TxList(total, txs));
  }

  // ----- `get_unspent_outs` -----

  /** Outputs that passed the filter and have at least one possible key image. */
  function Candidates(s: Snapshot, q: Query, rows: seq<Funds>): seq<Funds> {
    if rows == [] then []
    else
      var init, last := Candidates(s, q, rows[..|rows| - 1]), rows[|rows| - 1];
      if Judge(s, q, last) != DustOrMixin && Images(s, last.id) != {} then init + [last] else init
  }

  lemma {:induction false} VerdictGrows(s: Snapshot, q: Query, rows: seq<Funds>, n: nat, v: Verdict)
    requires n <= |rows|
    ensures Sum(OfVerdict(s, q, rows[..n], v)) <= Sum(OfVerdict(s, q, rows, v))
  {
    hide Judge;
    if n == |rows| {
      assert rows[..n] == rows;
    } else {
      assert rows[..|rows| - 1][..n] == rows[..n];
      VerdictGrows(s, q, rows[..|rows| - 1], n, v);
      SumLast(OfVerdict(s, q, rows[..|rows| - 1], v), rows[|rows| - 1]);
    }
  }

  lemma {:induction false} CandidatesGrow(s: Snapshot, q: Query, rows: seq<Funds>, n: nat)
    requires n <= |rows|
    ensures Sum(Candidates(s, q, rows[..n])) <= Sum(Candidates(s, q, rows))
  {
    hide Judge;
    if n == |rows| {
      assert rows[..n] == rows;
    } else {
      assert rows[..|rows| - 1][..n] == rows[..n];
      CandidatesGrow(s, q, rows[..|rows| - 1], n);
      SumLast(Candidates(s, q, rows[..|rows| - 1]), rows[|rows| - 1]);
    }
  }

  method ReadConfirmedSources(imported: map<KeyImage, Imported>, s: Snapshot) returns (sources: set<OutputId>)
    ensures sources == ConfirmedSources(imported, s.confirmed, s.spends)
  {
    sources := {};
    for i := 0 to |s.spends|
      invariant sources == ConfirmedSources(imported, s.confirmed, s.spends[..i])
    {
      Prefix(s.spends, i);
      if s.spends[i].image in s.confirmed {
        if s.spends[i].image in imported {
          sources := sources + {imported[s.spends[i].image].source};
        } else {
          sources := sources + {s.spends[i].source};
        }
      }
    }
    assert s.spends[..|s.spends|] == s.spends;
  }

  method ReadPending(pending: seq<Pending>, now: nat) returns (active: seq<Pending>)
    ensures forall p :: p in active <==> p in pending && Active(p, now)
  {
    active := [];
    for i := 0 to |pending|
      invariant forall p :: p in active <==> p in pending[..i] && Active(p, now)
    {
      Prefix(pending, i);
      if Active(pending[i], now) {
        active := active + [pending[i]];
      }
    }
    assert pending[..|pending|] == pending;
  }

  method AnyReserves(active: seq<Pending>, row: Funds) returns (found: bool)
    ensures found <==> exists p :: p in active && Reserves(p, row)
  {
    for i := 0 to |active|
      invariant forall j :: 0 <= j < i ==> !Reserves(active[j], row)
    {
      if Reserves(active[i], row) {
        return true;
      }
    }
    return false;
  }

  /** The chain of checks one output goes through. */
  method Decide(s: Snapshot, q: Query, imported: map<KeyImage, Imported>, sources: set<OutputId>, active: seq<Pending>, row: Funds)
    returns (v: Verdict)
    requires imported == ByImage(s.imported) && sources == ConfirmedSources(imported, s.confirmed, s.spends)
    requires forall p :: p in active <==> p in s.pending && Active(p, q.now)
    ensures v == Judge(s, q, row)
  {
    hide ByImage, Active, Reserves, ConfirmedSources;
    if row.amount < Dust(q) || row.mixin < Mixin(q) {
      return DustOrMixin;
    }
    var images := Images(s, row.id);
    if exists i :: i in images && i in s.confirmed && i !in imported {
      return ConfirmedImage;
    }
    if row.id in sources {
      return ConfirmedSource;
    }
    var pending := AnyReserves(active, row);
    return if pending then LocallyPending else Clean;
  }

  datatype Amounts = Amounts(dust: UInt64, candidates: UInt64, image: UInt64, source: UInt64, pending: UInt64, clean: UInt64)

  /** The accumulators after some outputs. */
  ghost predicate Accumulated(s: Snapshot, q: Query, rows: seq<Funds>, a: Amounts) {
    && a.dust == Sum(OfVerdict(s, q, rows, DustOrMixin))
    && a.candidates == Sum(Candidates(s, q, rows))
    && a.image == Sum(OfVerdict(s, q, rows, ConfirmedImage))
    && a.source == Sum(OfVerdict(s, q, rows, ConfirmedSource))
    && a.pending == Sum(OfVerdict(s, q, rows, LocallyPending))
    && a.clean == Sum(OfVerdict(s, q, rows, Clean))
  }

  ghost predicate UnspentFits(s: Snapshot, q: Query, rows: seq<Funds>) {
    Sum(Candidates(s, q, rows)) < UINT64_LIMIT && forall v :: Sum(OfVerdict(s, q, rows, v)) < UINT64_LIMIT
  }

  lemma FitsPrefix(s: Snapshot, q: Query, rows: seq<Funds>, n: nat)
    requires n <= |rows| && UnspentFits(s, q, rows)
    ensures UnspentFits(s, q, rows[..n])
  {
    hide Sum, OfVerdict, Candidates;
    CandidatesGrow(s, q, rows, n);
    forall v ensures Sum(OfVerdict(s, q, rows[..n], v)) < UINT64_LIMIT {
      VerdictGrows(s, q, rows, n, v);
    }
  }

  method Accumulate(s: Snapshot, q: Query, ghost rows: seq<Funds>, row: Funds, v: Verdict, a: Amounts) returns (ok: bool, b: Amounts)
    requires v == Judge(s, q, row) && Accumulated(s, q, rows, a)
    ensures ok ==> Accumulated(s, q, rows + [row], b)
    ensures !ok ==> !UnspentFits(s, q, rows + [row])
  {
    hide Judge, Sum, Images;
    ghost var all := rows + [row];
    assert all[..|all| - 1] == rows && all[|all| - 1] == row;
    assert OfVerdict(s, q, all, v) == OfVerdict(s, q, rows, v) + [row];
    SumLast(OfVerdict(s, q, rows, v), row);
    SumLast(Candidates(s, q, rows), row);
    var top := UINT64_LIMIT - 1 - row.amount;
    b := a;
    if v == DustOrMixin {
      if top < a.dust { return false, b; }
      return true, b.(dust := a.dust + row.amount);
    }
    if Images(s, row.id) != {} {
      if top < a.candidates { return false, b; }
      b := b.(candidates := a.candidates + row.amount);
    }
    if v == ConfirmedImage {
      if top < a.image { return false, b; }
      b := b.(image := a.image + row.amount);
    } else if v == ConfirmedSource {
      if top < a.source { return false, b; }
      b := b.(source := a.source + row.amount);
    } else if v == LocallyPending {
      if top < a.pending { return false, b; }
      b := b.(pending := a.pending + row.amount);
    } else {
      if top < a.clean { return false, b; }
      b := b.(clean := a.clean + row.amount);
    }
    return true, b;
  }

  datatype Unspents = Unspents(amount: UInt64, outputs: seq<Funds>, perByteFee: nat, feeMask: nat)

  /** What the daemon answers: its fee estimate, and the transactions it returned, unless that request failed. */
  datatype Daemon = Daemon(sizeScale: nat, feeMask: nat, baseFee: nat, transactions: Option<set<Hash>>)

  predicate FeesValid(d: Daemon) { 0 < d.sizeScale <= 1024 && d.feeMask != 0 }

  /** Every offered output's transaction was returned; without outputs nothing is asked. */
  predicate KeysFetched(d: Daemon, rows: seq<Funds>) {
    rows == [] || (d.transactions.Some? && forall row :: row in rows ==> row.link.txHash in d.transactions.value)
  }

  method FetchKeys(d: Daemon, rows: seq<Funds>) returns (ok: bool)
    ensures ok <==> KeysFetched(d, rows)
  {
    if rows == [] {
      return true;
    }
    if d.transactions.None? {
      return false;
    }
    for i := 0 to |rows|
      invariant forall j :: 0 <= j < i ==> rows[j].link.txHash in d.transactions.value
    {
      if rows[i].link.txHash !in d.transactions.value {
        assert rows[i] in rows;
        return false;
      }
    }
    return true;
  }

  /** Any failure of the daemon is `BadDaemonResponse` here. */
  method GetUnspentOuts(s: Snapshot, q: Query, d: Daemon) returns (r: Result<Unspents>)
    ensures r.Ok? <==>
      UnspentFits(s, q, s.outputs) && KeysFetched(d, Spendable(s, q)) && q.amount <= Sum(Spendable(s, q)) && FeesValid(d)
    ensures r == Err(NotEnoughAmount) <==>
      UnspentFits(s, q, s.outputs) && KeysFetched(d, Spendable(s, q)) && Sum(Spendable(s, q)) < q.amount
    ensures r.Err? ==> r.error.BadDaemonResponse? || r.error.NotEnoughAmount?
    ensures r.Ok? ==> r.value == Unspents(Sum(Spendable(s, q)), Spendable(s, q), d.baseFee / d.sizeScale, d.feeMask)
  {
    hide Judge, Sum, Images, ByImage, Candidates, ConfirmedSources, Active, IsFirst, HasSource, KeysFetched;
    var imported := ImportedMap(s.imported);
    var sources := ReadConfirmedSources(imported, s);
    var active := ReadPending(s.pending, q.now);
    var a := Amounts(0, 0, 0, 0, 0, 0);
    var unspent: seq<Funds> := [];
    NothingAccumulated(s, q);
    for i := 0 to |s.outputs|
      invariant Accumulated(s, q, s.outputs[..i], a)
      invariant unspent == OfVerdict(s, q, s.outputs[..i], Clean)
    {
      Prefix(s.outputs, i);
      var v := Decide(s, q, imported, sources, active, s.outputs[i]);
      var ok;
      ok, a := Accumulate(s, q, s.outputs[..i], s.outputs[i], v, a);
      if !ok {
        if UnspentFits(s, q, s.outputs) { FitsPrefix(s, q, s.outputs, i + 1); }
        return Err(BadDaemonResponse);
      }
      if v == Clean {
        unspent := unspent + [s.outputs[i]];
      }
    }
    assert s.outputs[..|s.outputs|] == s.outputs;
    AllFit(s, q, s.outputs, a);
    var fetched := FetchKeys(d, unspent);
    if !fetched {
      return Err(BadDaemonResponse);
    }
    if a.clean < q.amount {
      return Err(NotEnoughAmount);
    }
    if d.sizeScale == 0 || 1024 < d.sizeScale || d.feeMask == 0 {
      return Err(BadDaemonResponse);
    }
    return Ok(Unspents(a.clean, unspent, d.baseFee / d.sizeScale, d.feeMask));
  }

  lemma NothingAccumulated(s: Snapshot, q: Query)
    ensures Accumulated(s, q, [], Amounts(0, 0, 0, 0, 0, 0))
  {
  }

  lemma AllFit(s: Snapshot, q: Query, rows: seq<Funds>, a: Amounts)
    requires Accumulated(s, q, rows, a)
    ensures UnspentFits(s, q, rows)
  {
    hide Sum, OfVerdict, Candidates;
    forall v ensures Sum(OfVerdict(s, q, rows, v)) < UINT64_LIMIT {
      match v case DustOrMixin => case ConfirmedImage => case ConfirmedSource => case LocallyPending => case Clean =>
    }
  }

  /** The three answers for one snapshot: no coin is both spent and spendable, locked funds were received, and the
      transaction list adds up to the totals of the address. */
  method AskAll(s: Snapshot, q: Query, d: Daemon)
    returns (info: Result<Info>, list: Result<TxList>, unspent: Result<Unspents>)
    requires Sum(All(s)) < UINT64_LIMIT
    ensures info.Ok? && unspent.Ok? ==> unspent.value.amount + info.value.totalSent <= info.value.totalReceived
    ensures info.Ok? ==> info.value.lockedFunds <= info.value.totalReceived
    ensures info.Ok? && list.Ok? ==>
      && ReceivedIn(list.value.transactions, None) == list.value.totalReceived == info.value.totalReceived
      && SpentIn(list.value.transactions, None) == info.value.totalSent
  {
    hide Sum, SumSent, Transactions, Sent, All, ReceivedIn, SpentIn, Spendable, InfoFits, TxsFit, UnspentFits, LockedOf;
    info := GetAddressInfo(s);
    list := GetAddressTxs(s);
    unspent := GetUnspentOuts(s, q, d);
    NeverBothSpentAndSpendable(s, q);
    LockedIsReceived(s);
    ListAddsUp(s);
    WrapSmall(Sum(All(s)));
    WrapSmall(LockedOf(s));
  }
}
