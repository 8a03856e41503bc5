/** Importing key images and their exact sources for one account (`storage::import_key_images`,
    src/db/storage.cpp). */
module KeyImages {
  import opened Rows
  import opened Balance

  // ----- Confirming images -----

  /** Counts of the first loop. */
  datatype Confirmations = Confirmations(unique: nat, unconfirmed: nat, imported: nat, already: nat)

  /** Images without a spend, images confirmed now, and images confirmed `before`. */
  predicate Counted(images: set<KeyImage>, known: set<KeyImage>, before: set<KeyImage>, c: Confirmations) {
    && c.unconfirmed == |images - known|
    && c.imported == |(images * known) - before|
    && c.already == |images * known * before|
  }

  // ----- Naming sources -----

  /** The output rows are compared by the low half of the id only. */
  predicate Names(source: Imported, row: Funds) {
    row.id.low == source.source.low && row.index == source.index && row.link.txHash == source.txHash && row.pub == source.pub
  }

  /** The source with the id of the first output it names. */
  function Resolve(outputs: seq<Funds>, source: Imported): Option<Imported> {
    if outputs == [] then None
    else if Names(source, outputs[0]) then Some(source.(source := outputs[0].id))
    else Resolve(outputs[1..], source)
  }

  function SameImage(rows: set<Imported>, image: KeyImage): set<Imported> { set r | r in rows && r.image == image }

  /** `key_image_source_compare`: two rows with the same image and output id cannot both be stored. */
  predicate Stored(rows: set<Imported>, source: Imported) {
    exists r :: r in rows && r.image == source.image && r.source == source.source
  }

  datatype Tally = Tally(
    rows: set<Imported>, known: nat, unknown: nat, matched: nat, missing: nat, inserted: nat, present: nat, replaced: nat)

  /** One candidate. */
  function ImportOne(t: Tally, known: set<KeyImage>, outputs: seq<Funds>, c: Imported): Tally {
    if c.image !in known then t.(unknown := t.unknown + 1)
    else if Resolve(outputs, c).None? then t.(known := t.known + 1, missing := t.missing + 1)
    else
      var r := Resolve(outputs, c).value;
      var u := t.(known := t.known + 1, matched := t.matched + 1);
      if r in t.rows then u.(present := t.present + 1)
      else
        var prior := SameImage(t.rows, c.image);
        var rest := t.rows - prior;
        if Stored(rest, r) then u.(rows := rest, replaced := t.replaced + |prior|, present := t.present + 1)
        else u.(rows := rest + {r}, replaced := t.replaced + |prior|, inserted := t.inserted + 1)
  }

  function ImportAll(t: Tally, known: set<KeyImage>, outputs: seq<Funds>, candidates: seq<Imported>): Tally {
    if candidates == [] then t
    else ImportOne(ImportAll(t, known, outputs, candidates[..|candidates| - 1]), known, outputs, candidates[|candidates| - 1])
  }

  function NoTally(rows: set<Imported>): Tally { Tally(rows, 0, 0, 0, 0, 0, 0, 0) }

  class Images {
    var confirmed: set<KeyImage>
    var sources: set<Imported>
    const spends: seq<Spend>
    const outputs: seq<Funds>

    constructor (spends: seq<Spend>, outputs: seq<Funds>)
      ensures this.spends == spends && this.outputs == outputs && confirmed == {} && sources == {}
    {
      this.spends, this.outputs, confirmed, sources := spends, outputs, {}, {};
    }

    method KnownSpends() returns (known: set<KeyImage>)
      ensures known == Known(spends)
    {
      known := {};
      for i := 0 to |spends|
        invariant known == Known(spends[..i])
      {
        Prefix(spends, i);
        known := known + {spends[i].image};
      }
      assert spends[..|spends|] == spends;
    }

    /** Every image counts once: as unknown, as newly confirmed or as confirmed before. */
    static method Confirm(images: set<KeyImage>, known: set<KeyImage>, before: set<KeyImage>)
      returns (after: set<KeyImage>, c: Confirmations)
      ensures after == before + (images * known)
      ensures c.unique == |images| == c.unconfirmed + c.imported + c.already
      ensures Counted(images, known, before, c)
    {
      hide Counted;
      var todo := images;
      ghost var done: set<KeyImage> := {};
      after, c := before, Confirmations(|images|, 0, 0, 0);
      NothingCounted(known, before, c);
      while todo != {}
        invariant todo <= images && done == images - todo && after == before + (done * known)
        invariant c.unique == |images| && Counted(done, known, before, c)
        decreases todo
      {
        var image := Least(todo);
        OneMore(done, known, before, image, c);
        if image !in known {
          c := c.(unconfirmed := c.unconfirmed + 1);
        } else if image !in after {
          after := after + {image};
          c := c.(imported := c.imported + 1);
        } else {
          c := c.(already := c.already + 1);
        }
        todo, done := todo - {image}, done + {image};
      }
      assert done == images;
      Parts(images, known, before, c);
    }

    method FindMatch(candidate: Imported) returns (r: Option<Imported>)
      ensures r == Resolve(outputs, candidate)
    {
      var i := 0;
      while i < |outputs|
        invariant i <= |outputs| && Resolve(outputs, candidate) == Resolve(outputs[i..], candidate)
      {
        if Names(candidate, outputs[i]) {
          return Some(candidate.(source := outputs[i].id));
        }
        i := i + 1;
      }
      return None;
    }

    /** Deletes every stored source of the image. */
    static method DeleteSources(rows: set<Imported>, image: KeyImage) returns (rest: set<Imported>, count: nat)
      ensures rest == rows - SameImage(rows, image) && count == |SameImage(rows, image)|
    {
      var todo := SameImage(rows, image);
      ghost var done: set<Imported> := {};
      rest, count := rows, 0;
      while todo != {}
        invariant done + todo == SameImage(rows, image) && done !! todo
        invariant rest == rows - done && count == |done|
        decreases todo
      {
        var r :| r in todo;
        rest, count := rest - {r}, count + 1;
        todo, done := todo - {r}, done + {r};
      }
      assert done == SameImage(rows, image);
    }

    method ImportSources(candidates: seq<Imported>, known: set<KeyImage>) returns (t: Tally)
      modifies this`sources
      ensures t == ImportAll(NoTally(old(sources)), known, outputs, candidates) && sources == t.rows
    {
      t := NoTally(sources);
      for i := 0 to |candidates|
        invariant t == ImportAll(NoTally(old(sources)), known, outputs, candidates[..i]) && sources == t.rows
      {
        Prefix(candidates, i);
        var c := candidates[i];
        if c.image !in known {
          t := t.(unknown := t.unknown + 1);
        } else {
          t := t.(known := t.known + 1);
          var r := FindMatch(c);
          if r.None? {
            t := t.(missing := t.missing + 1);
          } else {
            t := t.(matched := t.matched + 1);
            if r.value in sources {
              t := t.(present := t.present + 1);
            } else {
              var rest, count := DeleteSources(sources, c.image);
              t := t.(replaced := t.replaced + count);
              if Stored(rest, r.value) {
                sources := rest;
                t := t.(rows := rest, present := t.present + 1);
              } else {
                sources := rest + {r.value};
                t := t.(rows := sources, inserted := t.inserted + 1);
              }
            }
          }
        }
      }
      assert candidates[..|candidates|] == candidates;
    }

    /** The whole call: images first, then the candidates for their sources. */
    method ImportKeyImages(images: set<KeyImage>, candidates: seq<Imported>) returns (c: Confirmations, t: Tally)
      modifies this
      ensures confirmed == old(confirmed) + (images * Known(spends))
      ensures c.unique == |images| == c.unconfirmed + c.imported + c.already
      ensures Counted(images, Known(spends), old(confirmed), c)
      ensures t == ImportAll(NoTally(old(sources)), Known(spends), outputs, candidates) && sources == t.rows
    {
      var known := KnownSpends();
      confirmed, c := Confirm(images, known, confirmed);
      t := ImportSources(candidates, known);
    }
  }

  function Known(spends: seq<Spend>): set<KeyImage> { set sp | sp in spends :: sp.image }

  /** One more image joins exactly one of the three counts. */
  lemma OneMore(done: set<KeyImage>, known: set<KeyImage>, before: set<KeyImage>, image: KeyImage, c: Confirmations)
    requires image !in done && Counted(done, known, before, c)
    ensures Counted(done + {image}, known, before,
      if image !in known then c.(unconfirmed := c.unconfirmed + 1)
      else if image !in before then c.(imported := c.imported + 1)
      else c.(already := c.already + 1))
  {
    var more := done + {image};
    if image !in known {
      assert more - known == (done - known) + {image} && more * known == done * known;
    } else {
      assert more - known == done - known;
      if image in before {
        assert more * known * before == (done * known * before) + {image};
        assert (more * known) - before == (done * known) - before;
      } else {
        assert more * known * before == done * known * before;
        assert (more * known) - before == ((done * known) - before) + {image};
      }
    }
  }

  lemma NothingCounted(known: set<KeyImage>, before: set<KeyImage>, c: Confirmations)
    requires c.unconfirmed == c.imported == c.already == 0
    ensures Counted({}, known, before, c)
  {
    assert {} * known == {};
  }

  lemma Parts(images: set<KeyImage>, known: set<KeyImage>, before: set<KeyImage>, c: Confirmations)
    requires Counted(images, known, before, c)
    ensures |images| == c.unconfirmed + c.imported + c.already
  {
    var both := images * known;
    assert images == (images - known) + both;
    assert both == (both - before) + (both * before);
  }

  // ----- Bookkeeping -----

  /** Each key image has at most one source. */
  ghost predicate OnePerImage(rows: set<Imported>) {
    forall a, b :: a in rows && b in rows && a.image == b.image ==> a == b
  }

  lemma SameImageSize(rows: set<Imported>, image: KeyImage)
    requires OnePerImage(rows)
    ensures |SameImage(rows, image)| <= 1
  {
    if r :| r in SameImage(rows, image) {
      assert SameImage(rows, image) == {r};
    }
  }

  /** Every candidate is counted once at each level, and the table grows by what was inserted and not replaced. */
  ghost predicate Balanced(before: set<Imported>, candidates: nat, t: Tally) {
    && candidates == t.known + t.unknown
    && t.known == t.matched + t.missing
    && t.matched == t.inserted + t.present
    && |t.rows| + t.replaced == |before| + t.inserted
    && t.replaced <= t.inserted
  }

  lemma ImportOneBalances(before: set<Imported>, n: nat, t: Tally, known: set<KeyImage>, outputs: seq<Funds>, c: Imported)
    requires OnePerImage(t.rows) && Balanced(before, n, t)
    ensures Balanced(before, n + 1, ImportOne(t, known, outputs, c)) && OnePerImage(ImportOne(t, known, outputs, c).rows)
  {
    hide Resolve, OnePerImage, SameImage, Stored, Identifies;
    ResolveKeepsImage(outputs, c);
    if Usable(known, outputs, c) && Resolve(outputs, c).value !in t.rows {
      ReplaceOne(t.rows, Resolve(outputs, c).value);
    }
  }

  lemma ReplaceOne(rows: set<Imported>, r: Imported)
    requires OnePerImage(rows) && r !in rows
    ensures var prior := SameImage(rows, r.image);
      && |prior| <= 1 && !Stored(rows - prior, r) && OnePerImage(rows - prior + {r})
      && |rows - prior + {r}| + |prior| == |rows| + 1
  {
    var prior := SameImage(rows, r.image);
    SameImageSize(rows, r.image);
    assert rows == (rows - prior) + prior;
  }

  lemma {:induction false} ResolveKeepsImage(outputs: seq<Funds>, c: Imported)
    ensures Resolve(outputs, c).Some? ==>
      && Resolve(outputs, c).value.image == c.image
      && exists row :: row in outputs && Identifies(Resolve(outputs, c).value, row)
  {
    if outputs != [] {
      if Names(c, outputs[0]) {
        assert outputs[0] in outputs && Identifies(c.(source := outputs[0].id), outputs[0]);
      } else {
        ResolveKeepsImage(outputs[1..], c);
        if Resolve(outputs, c).Some? {
          var row :| row in outputs[1..] && Identifies(Resolve(outputs[1..], c).value, row);
          assert row in outputs;
        }
      }
    }
  }

  /** The counts of one call, for a table with one source per image. */
  lemma {:induction false} ImportBalances(rows: set<Imported>, known: set<KeyImage>, outputs: seq<Funds>, candidates: seq<Imported>)
    requires OnePerImage(rows)
    ensures var t := ImportAll(NoTally(rows), known, outputs, candidates);
      Balanced(rows, |candidates|, t) && OnePerImage(t.rows)
  {
    hide ImportOne, OnePerImage, Balanced;
    if candidates == [] {
      NothingImported(rows);
    } else {
      var init := candidates[..|candidates| - 1];
      ImportBalances(rows, known, outputs, init);
      ImportOneBalances(rows, |init|, ImportAll(NoTally(rows), known, outputs, init), known, outputs, candidates[|candidates| - 1]);
    }
  }

  lemma NothingImported(rows: set<Imported>)
    ensures Balanced(rows, 0, NoTally(rows))
  {
  }

  /** One call of `import_key_images` on the tables of an account. */
  datatype Call = Call(known: set<KeyImage>, outputs: seq<Funds>, candidates: seq<Imported>)

  function SourcesAfter(calls: seq<Call>): set<Imported> {
    if calls == [] then {}
    else
      var c := calls[|calls| - 1];
      ImportAll(NoTally(SourcesAfter(calls[..|calls| - 1])), c.known, c.outputs, c.candidates).rows
  }

  /** After any sequence of imports every key image has at most one exact source. */
  lemma {:induction false} AtMostOneSource(calls: seq<Call>)
    ensures OnePerImage(SourcesAfter(calls))
  {
    if calls != [] {
      var c := calls[|calls| - 1];
      AtMostOneSource(calls[..|calls| - 1]);
      ImportBalances(SourcesAfter(calls[..|calls| - 1]), c.known, c.outputs, c.candidates);
    }
  }

  // ----- Which source is kept -----

  predicate Usable(known: set<KeyImage>, outputs: seq<Funds>, c: Imported) {
    c.image in known && Resolve(outputs, c).Some?
  }

  /** The sources of an image after the candidates: what the last usable one names, or what was stored before. */
  function LastNamed(rows: set<Imported>, known: set<KeyImage>, outputs: seq<Funds>, candidates: seq<Imported>, image: KeyImage)
    : set<Imported>
  {
    if candidates == [] then SameImage(rows, image)
    else
      var c := candidates[|candidates| - 1];
      if c.image == image && Usable(known, outputs, c) then {Resolve(outputs, c).value}
      else LastNamed(rows, known, outputs, candidates[..|candidates| - 1], image)
  }

  lemma ImportOneNames(t: Tally, known: set<KeyImage>, outputs: seq<Funds>, c: Imported, image: KeyImage)
    requires OnePerImage(t.rows)
    ensures SameImage(ImportOne(t, known, outputs, c).rows, image) ==
      if c.image == image && Usable(known, outputs, c) then {Resolve(outputs, c).value} else SameImage(t.rows, image)
  {
    ResolveKeepsImage(outputs, c);
  }

  /** The last usable candidate wins, and no other image is touched. */
  lemma {:induction false} LastCandidateWins(
    rows: set<Imported>, known: set<KeyImage>, outputs: seq<Funds>, candidates: seq<Imported>, image: KeyImage)
    requires OnePerImage(rows)
    ensures SameImage(ImportAll(NoTally(rows), known, outputs, candidates).rows, image) ==
            LastNamed(rows, known, outputs, candidates, image)
  {
    hide ImportOne, Resolve, SameImage, OnePerImage;
    if candidates != [] {
      var init, c := candidates[..|candidates| - 1], candidates[|candidates| - 1];
      LastCandidateWins(rows, known, outputs, init, image);
      ImportBalances(rows, known, outputs, init);
      ImportOneNames(ImportAll(NoTally(rows), known, outputs, init), known, outputs, c, image);
    }
  }

  /** Every stored source was there before or identifies an output of the account whose spend is known. */
  lemma {:induction false} SourcesIdentifyOutputs(rows: set<Imported>, known: set<KeyImage>, outputs: seq<Funds>, candidates: seq<Imported>)
    ensures forall r :: r in ImportAll(NoTally(rows), known, outputs, candidates).rows ==>
      r in rows || (r.image in known && exists row :: row in outputs && Identifies(r, row))
  {
    hide Resolve, Identifies;
    if candidates != [] {
      SourcesIdentifyOutputs(rows, known, outputs, candidates[..|candidates| - 1]);
      ResolveKeepsImage(outputs, candidates[|candidates| - 1]);
    }
  }
}
