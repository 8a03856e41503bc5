/** The write transactions of src/db/storage.cpp, statement by statement over the tables. A cursor walk over the
    rows of one key visits them in an order the method does not depend on. A transaction that fails is aborted:
    it leaves the tables as they were. */
module Storage {
  import opened Rows
  import opened Tables
  import T = Tables
  import S = SpendHooks
  import W = Webhooks

  class Database {
    var tables: Tables
    const checkpoint: nat  // height of the last checkpoint

    constructor (tables: Tables, checkpoint: nat)
      ensures this.tables == tables && this.checkpoint == checkpoint
    {
      this.tables := tables;
      this.checkpoint := checkpoint;
    }

    // ----- Rollback -----

    method RollbackOutputs(user: AccountId, height: nat)
      modifies this
      ensures tables == DropOutputs(old(tables), user, height)
    {
      var rows := tables.outputs;
      while exists o :: o in rows && o.user == user && height <= o.row.link.height
        invariant DropOutputs(tables, user, height).outputs <= rows <= tables.outputs
        decreases rows
      {
        var o :| o in rows && o.user == user && height <= o.row.link.height;
        rows := rows - {o};
      }
      tables := tables.(outputs := rows);
    }

    /** Every deleted spend has its key image row, so the mandatory lookup finds one. */
    method RollbackSpends(user: AccountId, height: nat)
      requires ImagesAgree(tables)
      modifies this
      ensures tables == DropSpends(old(tables), user, height)
      ensures ImagesAgree(tables)
    {
      var rows, images := tables.spends, tables.images;
      while exists s :: s in rows && s.user == user && height <= s.row.link.height
        invariant tables == old(tables)
        invariant DropSpends(tables, user, height).spends <= rows <= tables.spends
        invariant PairsUnique(rows) && images == ImagesOf(rows)
        decreases rows
      {
        var s :| s in rows && s.user == user && height <= s.row.link.height;
        DropOneSpend(rows, s);
        var image :| image in images && image.source == s.row.source && image.image == s.row.image;
        images, rows := images - {image}, rows - {s};
      }
      DropManySpends(tables, user, height);
      assert rows == DropSpends(tables, user, height).spends;
      tables := tables.(spends := rows, images := images);
    }

    /** Walks the height index from `height` up, collects the lookups and files them again just below `height`. */
    method RollbackAccounts(height: nat)
      requires Indexed(tables) && ImagesAgree(tables)
      modifies this
      ensures tables == T.RollbackAccounts(old(tables), height)
    {
      hide RollRows, Indexed, PairsUnique, ImagesOf, DropOutputs, DropSpends;
      var newHeight := Max(height, 1) - 1;
      var lookups: seq<AccountKey> := [];
      ghost var before := tables;
      ghost var done: set<HeightRow> := {};
      RollNothing(before, height);
      while exists r :: r in tables.byHeight && height <= r.height
        invariant done <= RowsFrom(before, height)
        invariant tables == RollRows(before, done, height)
        invariant ImagesAgree(tables)
        invariant forall k :: k in lookups <==> exists r :: r in done && k == AccountKey(r.status, r.id)
        decreases tables.byHeight
      {
        var row :| row in tables.byHeight && height <= row.height;
        var key := AccountKey(row.status, row.id);
        RollOne(before, done, row, height);
        OwnRows(tables, key, row.id, RollAccount(tables.accounts[key], height), height);
        var user := tables.accounts[key];
        tables := tables.(accounts := tables.accounts[key :=
          user.(scan := newHeight, start := Min(newHeight, user.start))]);
        lookups := lookups + [key];
        RollbackOutputs(user.id, height);
        RollbackSpends(user.id, height);
        tables := tables.(byHeight := tables.byHeight - {row});
        done := done + {row};
      }
      RowsLeft(before, done, height);
      InsertHeights(lookups, newHeight);
      LookupsAtHeight(done, lookups, newHeight);
    }

    /** `bulk_insert` into the height index. */
    method InsertHeights(lookups: seq<AccountKey>, height: nat)
      modifies this
      ensures tables == old(tables).(byHeight := old(tables).byHeight + Filed(lookups, height))
    {
      var rows := tables.byHeight;
      for i := 0 to |lookups|
        invariant tables == old(tables) && rows == tables.byHeight + Filed(lookups[..i], height)
      {
        rows := rows + {HeightRow(height, lookups[i].id, lookups[i].status)};
        Prefix(lookups, i);
      }
      assert lookups[..|lookups|] == lookups;
      tables := tables.(byHeight := rows);
    }

    /** Walks every account's events from the highest down and stops at the first one below `height`. */
    method RollbackEvents(height: nat)
      modifies this
      ensures tables == T.RollbackEvents(old(tables), height)
    {
      var events := tables.events;
      var todo := set e | e in events :: e.user;
      ghost var all := todo;
      while todo != {}
        invariant tables == old(tables) && todo <= all
        invariant events == tables.events - set e | e in EventsFrom(tables.events, height) && e.user in all - todo
        decreases todo
      {
        var user :| user in todo;
        var rows := RemainingEvents(Of(events, user), height);
        events := (events - Own(user, Of(events, user))) + Own(user, rows);
        todo := todo - {user};
      }
      assert events == tables.events - EventsFrom(tables.events, height);
      tables := tables.(events := events);
    }

    static method RemainingEvents(stored: set<W.Event>, height: nat) returns (rows: set<W.Event>)
      ensures rows == set e | e in stored && e.out.link.height < height
    {
      rows := stored;
      while rows != {}
        invariant (set e | e in stored && e.out.link.height < height) <= rows <= stored
        decreases rows
      {
        HighestEvent(rows);
        var e :| IsHighest(rows, e);
        if e.out.link.height < height {
          break;
        }
        rows := rows - {e};
      }
    }

    static method DeleteFrom<T>(stored: map<nat, T>, height: nat) returns (rows: map<nat, T>)
      ensures rows == Truncate(stored, height)
    {
      rows := stored;
      while exists i :: i in rows && height <= i
        invariant rows.Keys <= stored.Keys
        invariant forall i :: i in rows ==> rows[i] == stored[i]
        invariant forall i :: i in stored && i < height ==> i in rows
        decreases rows.Keys
      {
        var i :| i in rows && height <= i;
        rows := rows - {i};
      }
    }

    /** Blocks are deleted from the cursor on; proof-of-work rows only if one is stored at `height` exactly. */
    method RollbackChain(at: nat, height: nat)
      requires Indexed(tables) && ImagesAgree(tables)
      modifies this
      ensures tables == T.RollbackChain(old(tables), at, height)
    {
      var blocks := DeleteFrom(tables.blocks, at);
      var pows := tables.pows;
      if height in pows {
        pows := DeleteFrom(pows, height);
      }
      tables := tables.(blocks := blocks, pows := pows);
      RollbackAccounts(height);
      RollbackEvents(height);
    }

    method Rollback(height: nat)
      requires Indexed(tables) && ImagesAgree(tables)
      modifies this
      ensures tables == T.Rollback(old(tables), height)
    {
      if height in tables.blocks {
        RollbackChain(height, height);
      }
    }

    // ----- Chain synchronisation -----

    /** Hashes are written in batches of at most 25. */
    static method AppendBlockHashes(stored: map<nat, Hash>, first: nat, chain: seq<Hash>) returns (blocks: map<nat, Hash>)
      ensures blocks == Append(stored, first, chain)
    {
      blocks := stored;
      var hashes: seq<Hash> := [];
      var flushed := 0;
      AppendNothing(stored, first);
      for i := 0 to |chain|
        invariant flushed <= i && i - flushed == |hashes| <= 25 && hashes == chain[flushed..i]
        invariant blocks == Append(stored, first, chain[..flushed])
      {
        if |hashes| == 25 {
          blocks := Append(blocks, first + flushed, hashes);
          AppendTwice(stored, first, chain, flushed, i);
          flushed, hashes := i, [];
        }
        hashes := hashes + [chain[i]];
      }
      blocks := Append(blocks, first + flushed, hashes);
      AppendTwice(stored, first, chain, flushed, |chain|);
      assert chain[..|chain|] == chain;
    }

    /** The walk of `sync_chain` over the stored blocks and the daemon's hashes. */
    static method Walk(blocks: map<nat, Hash>, height: nat, hashes: seq<Hash>) returns (fork: Fork)
      ensures fork == FindFork(blocks, height, height + 1, hashes)
    {
      var at: nat, current: nat, chain := height, height + 1, hashes;
      while chain != []
        invariant FindFork(blocks, at, current, chain) == FindFork(blocks, height, height + 1, hashes)
      {
        if !exists n :: n in blocks && at < n {
          break;
        }
        ghost var above :| above in blocks && at < above;
        NextExists(blocks.Keys, at, above);
        var next :| next in blocks && IsNext(blocks.Keys, at, next);
        if blocks[next] != chain[0] {
          return Differs(current, next);
        }
        at, current, chain := next, current + 1, chain[1..];
      }
      return Exhausted(current);
    }

    method SyncChain(height: nat, hashes: seq<Hash>, regtest: bool) returns (error: Option<Error>)
      requires Indexed(tables) && ImagesAgree(tables)
      modifies this
      ensures error.Some? ==> T.SyncChain(old(tables), checkpoint, height, hashes, regtest) == Err(error.value)
      ensures error.Some? ==> tables == old(tables)
      ensures error.None? ==> T.SyncChain(old(tables), checkpoint, height, hashes, regtest) == Ok(tables)
    {
      hide Adopt, FindFork, Indexed, ImagesAgree;
      if hashes == [] {
        return Some(InvalidArgument);
      }
      if height !in tables.blocks {
        return Some(NotFound);
      }
      if tables.blocks[height] != hashes[0] {
        return Some(BadBlockchain);
      }
      var fork := Walk(tables.blocks, height, hashes[1..]);
      FindForkBounds(tables.blocks, height, height + 1, hashes[1..]);
      if fork.Differs? && !regtest && fork.current <= checkpoint {
        return Some(BadBlockchain);
      }
      AdoptChain(fork, hashes[fork.current - height..]);
      return None;
    }

    method AdoptChain(fork: Fork, chain: seq<Hash>)
      requires Indexed(tables) && ImagesAgree(tables)
      modifies this
      ensures tables == Adopt(old(tables), fork, chain)
    {
      if fork.Differs? {
        RollbackChain(fork.at, fork.current);
      }
      var blocks := AppendBlockHashes(tables.blocks, fork.current, chain);
      tables := tables.(blocks := blocks);
    }

    // ----- Accounts -----

    /** `MDB_LAST_DUP`: the largest id filed under one status. */
    static method LastOf(accounts: map<AccountKey, Account>, status: Status, best: AccountId) returns (r: AccountId)
      ensures best <= r && forall k :: k in accounts && k.status == status ==> k.id <= r
      ensures r == best || AccountKey(status, r) in accounts
    {
      var ids := set k | k in accounts && k.status == status :: k.id;
      if ids == {} {
        assert forall k :: k in accounts && k.status == status ==> k.id in ids;
        return best;
      }
      TipExists(ids);
      var last :| last in ids && IsTip(ids, last);
      assert forall k :: k in accounts && k.status == status ==> k.id in ids;
      return Max(best, last);
    }

    /** The largest id over all statuses, zero without accounts. */
    method FindLastId() returns (best: AccountId)
      requires Keyed(tables.accounts)
      ensures IsLastId(tables.accounts, best)
    {
      best := LastOf(tables.accounts, Active, 0);
      best := LastOf(tables.accounts, Inactive, best);
      best := LastOf(tables.accounts, Hidden, best);
      if tables.accounts != map[] {
        var some :| some in tables.accounts;
      }
    }

    method AddAccount(address: Address, keyValid: bool, admin: bool) returns (error: Option<Error>)
      requires Indexed(tables)
      modifies this
      ensures tables.blocks == map[] ==> error == Some(NotFound)
      ensures old(tables.blocks) != map[] ==>
        (exists last :: IsLastId(old(tables.accounts), last) &&
          match T.AddAccount(old(tables), last, Tip(old(tables.blocks)), address, keyValid, admin)
          case Ok(t) => error == None && tables == t
          case Err(e) => error == Some(e) && tables == old(tables))
    {
      var last := FindLastId();
      if tables.blocks == map[] {
        return Some(NotFound);
      }
      assert tables.blocks.Keys != {};
      TipExists(tables.blocks.Keys);
      var tip :| tip in tables.blocks && IsTip(tables.blocks.Keys, tip);
      var next := NextId(last);
      var user := Account(next, address, tip, tip, 0, 0);
      if !keyValid {
        return Some(BadViewKey);
      }
      var key := AccountKey(if admin then Hidden else Active, user.id);
      if address.viewPublic in tables.byAddress {
        return Some(AccountExists);
      }
      if exists r :: r in tables.byHeight && r.height == user.scan && r.id == user.id {
        return Some(AccountExists);
      }
      if key in tables.accounts {
        return Some(AccountExists);
      }
      tables := tables.(byAddress := tables.byAddress[address.viewPublic := key],
                        byHeight := tables.byHeight + {RowOf(key, user)},
                        accounts := tables.accounts[key := user]);
      return None;
    }

    method ChangeStatusOf(status: Status, address: Address) returns (known: bool)
      requires Indexed(tables)
      modifies this
      ensures tables == ChangeOne(old(tables), status, address) && Indexed(tables)
      ensures known <==> address.viewPublic in old(tables).byAddress
      ensures tables.byAddress.Keys == old(tables).byAddress.Keys
    {
      if address.viewPublic !in tables.byAddress {
        return false;
      }
      ChangeOneIndexed(tables, status, address);
      var lookup := tables.byAddress[address.viewPublic];
      if lookup.status != status {
        var key := AccountKey(status, lookup.id);
        var user := tables.accounts[lookup];
        tables := tables.(byAddress := tables.byAddress[address.viewPublic := key],
                          accounts := (tables.accounts - {lookup})[key := user],
                          byHeight := (tables.byHeight - {RowOf(lookup, user)}) + {RowOf(key, user)});
      }
      return true;
    }

    method ChangeStatus(status: Status, addresses: seq<Address>) returns (changed: seq<Address>)
      requires Indexed(tables)
      modifies this
      ensures tables == T.ChangeStatus(old(tables), status, addresses)
      ensures changed == Known(old(tables), addresses)
    {
      changed := [];
      for i := 0 to |addresses|
        invariant Indexed(tables) && tables == T.ChangeStatus(old(tables), status, addresses[..i])
        invariant tables.byAddress.Keys == old(tables).byAddress.Keys
        invariant changed == Known(old(tables), addresses[..i])
      {
        var known := ChangeStatusOf(status, addresses[i]);
        if known {
          changed := changed + [addresses[i]];
        }
        Prefix(addresses, i);
      }
      assert addresses[..|addresses|] == addresses;
    }

    method ChangeHeight(height: nat, address: Address) returns (error: Option<Error>)
      requires ImagesAgree(tables)
      modifies this
      ensures ImagesAgree(tables) && tables.byAddress == old(tables).byAddress
      ensures match T.ChangeHeight(old(tables), height, address)
        case Ok(t) => error == None && tables == t
        case Err(e) => error == Some(e) && (e == AccountNotFound ==> tables == old(tables))
    {
      if address.viewPublic !in tables.byAddress {
        return Some(AccountNotFound);
      }
      var lookup := tables.byAddress[address.viewPublic];
      if lookup !in tables.accounts {
        return Some(NotFound);
      }
      var user := tables.accounts[lookup];
      var currentHeight := user.scan;
      user := user.(scan := Min(height, user.scan), start := Min(height, user.start));
      if height <= user.lookaheadFail {
        user := user.(lookaheadFail := 0);
      }
      RollbackOutputs(lookup.id, height);
      RollbackSpends(lookup.id, height);
      tables := tables.(accounts := tables.accounts[lookup := user]);
      var rows := RowsAt(tables.byHeight, currentHeight, lookup.id);
      if rows == {} {
        return Some(NotFound);
      }
      tables := tables.(byHeight := tables.byHeight - rows);
      if RowsAt(tables.byHeight, height, lookup.id) != {} {
        return Some(AccountExists);
      }
      tables := tables.(byHeight := tables.byHeight + {HeightRow(height, lookup.id, lookup.status)});
      return None;
    }

    method Rescan(height: nat, addresses: seq<Address>) returns (r: Result<seq<Address>>)
      requires ImagesAgree(tables)
      modifies this
      ensures match T.Rescan(old(tables), height, addresses)
        case Ok(t) => r == Ok(Known(old(tables), addresses)) && tables == t
        case Err(e) => r == Err(e) && tables == old(tables)
    {
      if tables.blocks == map[] {
        return Err(NotFound);
      }
      assert tables.blocks.Keys != {};
      TipExists(tables.blocks.Keys);
      var tip :| tip in tables.blocks && IsTip(tables.blocks.Keys, tip);
      if tip < height {
        return Err(BadHeight);
      }
      var before := tables;
      var updated: seq<Address> := [];
      for i := 0 to |addresses|
        invariant ImagesAgree(tables) && tables.byAddress == before.byAddress
        invariant ChangeHeights(before, height, addresses[..i]) == Ok(tables)
        invariant updated == Known(before, addresses[..i])
      {
        var changed := ChangeHeight(height, addresses[i]);
        Prefix(addresses, i);
        if changed == None {
          updated := updated + [addresses[i]];
        } else if changed != Some(AccountNotFound) {
          ChangeHeightsFails(before, height, addresses, i + 1);
          tables := before;
          return Err(changed.value);
        }
      }
      assert addresses[..|addresses|] == addresses;
      return Ok(updated);
    }

    // ----- Check-in of scanned accounts -----

    /** `add_spends`: every spend row, then one key image row for each source and image. */
    static method AddSpends(stored: set<Spend>, images: set<ImageRow>, spends: seq<Spend>)
      returns (rows: set<Spend>, newImages: set<ImageRow>)
      ensures rows == InsertSpends(stored, spends) && newImages == AddImages(images, spends)
    {
      rows := stored;
      for i := 0 to |spends|
        invariant rows == InsertSpends(stored, spends[..i])
      {
        rows := InsertSpend(rows, spends[i]);
        Prefix(spends, i);
      }
      assert spends[..|spends|] == spends;
      newImages := images;
      for i := 0 to |spends|
        invariant newImages == AddImages(images, spends[..i])
      {
        newImages := AddImage(newImages, ImageOf(spends[i]));
        Prefix(spends, i);
      }
    }

    static method AddOutputs(stored: set<Output>, outputs: seq<Output>) returns (rows: set<Output>)
      ensures rows == InsertOutputs(stored, outputs)
    {
      rows := stored;
      for i := 0 to |outputs|
        invariant rows == InsertOutputs(stored, outputs[..i])
      {
        rows := InsertOutput(rows, outputs[i]);
        Prefix(outputs, i);
      }
      assert outputs[..|outputs|] == outputs;
    }

    /** The rows one accepted account adds, before anything is written: its notifications go to `log`. */
    method FindRows(key: AccountKey, firstNew: nat, last: nat, user: Scanned)
      returns (remaining: Result<set<W.Event>>, outputs: set<Output>, spends: set<Spend>, images: set<ImageRow>,
               log: seq<W.Confirmation>)
      requires key in tables.accounts
      ensures outputs == InsertOutputs(Of(tables.outputs, user.id), user.outputs)
      ensures spends == InsertSpends(Of(tables.spends, user.id), user.spends)
      ensures images == AddImages(tables.images, user.spends)
      ensures remaining == Ongoing(tables, key, firstNew, last, user)
      ensures remaining.Ok? ==> W.Complete(log, HooksOf(tables, user.id), Tripped(tables, user),
                                           OngoingStart(tables, key, firstNew), last + 1)
    {
      hide InsertOutputs, InsertSpends, AddImages, W.Ongoing, W.Triggered, W.Complete;
      var existing := tables.accounts[key];
      outputs := AddOutputs(Of(tables.outputs, user.id), user.outputs);
      spends, images := AddSpends(Of(tables.spends, user.id), tables.images, user.spends);
      var hooks := HooksOf(tables, user.id);
      var events := W.CheckHooks(hooks, Of(tables.events, user.id), user.outputs);
      remaining, log := W.AddOngoingHooks(hooks, outputs, events, Max(firstNew, existing.scan + 1), last + 1);
    }

    /** One accepted account of `update`: its confirmations and spend notes are complete. Its new height row is left to the
        caller, which files it with the next batch. */
    method StoreUser(key: AccountKey, firstNew: nat, last: nat, user: Scanned)
      returns (error: Option<Error>, log: seq<W.Confirmation>, notes: seq<S.Note>)
      requires key in tables.accounts && key.id == user.id
      requires RowOf(key, tables.accounts[key]) in tables.byHeight
      modifies this
      ensures Store(old(tables), key, firstNew, last, user).Err? <==> error.Some?
      ensures error.Some? ==> Store(old(tables), key, firstNew, last, user).error == error.value
      ensures error.None? ==> tables == Unfiled(Store(old(tables), key, firstNew, last, user).value, old(tables), key)
      ensures error.None? ==> W.Complete(log, HooksOf(old(tables), user.id), Tripped(old(tables), user),
                                         OngoingStart(old(tables), key, firstNew), last + 1)
      ensures error.None? ==> S.AllNoted(SpendHooksOf(old(tables), user.id),
                                         InsertOutputs(Of(old(tables).outputs, user.id), user.outputs), user.spends, notes)
    {
      hide S.AllNoted, S.SourceFound, W.Complete;
      notes := [];
      var existing := tables.accounts[key];
      var remaining, outputs, spends, images;
      remaining, outputs, spends, images, log := FindRows(key, firstNew, last, user);
      if remaining.Err? {
        return Some(remaining.error), log, notes;
      }
      var found;
      found, notes := S.CheckSpends(SpendHooksOf(tables, user.id), outputs, user.spends);
      if !found {
        return Some(NotFound), log, notes;
      }
      tables := tables.(
        accounts := tables.accounts[key := existing.(scan := last)],
        byHeight := tables.byHeight - {RowOf(key, existing)},
        outputs := tables.outputs + Own(user.id, outputs),
        spends := tables.spends + Own(user.id, spends),
        images := images,
        events := (tables.events - Own(user.id, Of(tables.events, user.id))) + Own(user.id, remaining.value));
      return None, log, notes;
    }

    /** Proof-of-work rows that are already stored are skipped. */
    static method AppendPowRows(stored: map<nat, nat>, first: nat, chain: seq<nat>) returns (pows: map<nat, nat>)
      ensures pows == AppendPow(stored, first, chain)
    {
      pows := stored;
      for i := 0 to |chain|
        invariant pows == AppendPow(stored, first, chain[..i])
      {
        if first + i !in pows {
          pows := pows[first + i := chain[i]];
        }
        AppendPowStep(stored, first, chain, i);
      }
      assert chain[..|chain|] == chain;
    }

    static method LastBlock(blocks: map<nat, Hash>) returns (last: nat)
      requires blocks != map[]
      ensures last == Tip(blocks)
    {
      assert blocks.Keys != {};
      TipExists(blocks.Keys);
      last :| last in blocks && IsTip(blocks.Keys, last);
    }

    /** The only hash comparison of `update`. */
    method CompareHash(height: nat, chain: seq<Hash>) returns (r: Compared)
      requires chain != []
      ensures r == Compare(tables.blocks, checkpoint, height, chain)
    {
      var lastUpdate := height + |chain| - 1;
      if checkpoint <= lastUpdate {
        if tables.blocks == map[] {
          return Reject(NotFound);
        }
        var lastBlock := LastBlock(tables.blocks);
        if lastBlock < height {
          return Reject(BadBlockchain);
        }
        var lastSame := Min(lastBlock, lastUpdate);
        if lastSame !in tables.blocks {
          return Reject(NotFound);
        }
        if tables.blocks[lastSame] != chain[lastSame - height] {
          return Reject(BlockchainReorg);
        }
        return Same(lastSame);
      }
      if lastUpdate in tables.blocks && tables.blocks[lastUpdate] != chain[|chain| - 1] {
        return Reject(BadBlockchain);
      }
      return Unchecked;
    }

    /** The chain part of `update`: only the blocks after the compared one are written. */
    method ExtendChain(height: nat, chain: seq<Hash>, pow: seq<nat>) returns (error: Option<Error>)
      requires chain != [] && (pow == [] || |pow| == |chain|)
      modifies this
      ensures error.Some? ==> T.ExtendChain(old(tables), checkpoint, height, chain, pow) == Err(error.value)
      ensures error.Some? ==> tables == old(tables)
      ensures error.None? ==> T.ExtendChain(old(tables), checkpoint, height, chain, pow) == Ok(tables)
    {
      hide Compare, T.AppendChain, Skip;
      var compared := CompareHash(height, chain);
      if compared.Reject? {
        return Some(compared.error);
      }
      if compared.Same? {
        AppendChain(compared.height + 1, Skip(chain, compared.height + 1 - height), Skip(pow, compared.height + 1 - height));
      }
      return None;
    }

    method AppendChain(first: nat, chain: seq<Hash>, pow: seq<nat>)
      modifies this
      ensures tables == T.AppendChain(old(tables), first, chain, pow)
    {
      var blocks := AppendBlockHashes(tables.blocks, first, chain);
      var pows := AppendPowRows(tables.pows, first, pow);
      tables := tables.(blocks := blocks, pows := pows);
    }

    /** One account of `update`; `state` is what the tables would be if the waiting height rows were filed. */
    method CheckInUser(firstNew: nat, last: nat, user: Scanned, heights: seq<AccountKey>, ghost state: Tables)
      returns (r: Result<bool>, newHeights: seq<AccountKey>, log: seq<Owned<W.Confirmation>>, ghost next: Tables)
      requires Indexed(state) && Waiting(tables, state, heights, last)
      modifies this
      ensures r.Err? ==> UpdateUser(state, firstNew, last, user) == Err(r.error)
      ensures r.Ok? ==> UpdateUser(state, firstNew, last, user) == Ok(next) && r.value == Counted(state, user)
      ensures r.Ok? ==> Waiting(tables, next, newHeights, last)
      ensures r.Ok? ==> forall u, e :: SentTo(log, u, e) == ToldBy(state, firstNew, last, user, u, e)
      ensures |newHeights| <= |heights| + 1
    {
      hide Store, Keyed, AddressIndexed, Filed, WatchOf, W.Told, W.Complete, SentTo;
      newHeights, next, log := heights, state, [];
      NothingSent();
      match Locate(tables, user)
      case Missing => return Ok(false), newHeights, log, next;
      case Dangling => return Err(NotFound), newHeights, log, next;
      case At(key) =>
        var existing := tables.accounts[key];
        if existing.scan < user.scan {
          return Ok(false), newHeights, log, next;
        }
        if last <= existing.scan {
          return Ok(true), newHeights, log, next;
        }
        StillFiled(tables, state, heights, last, key);
        ghost var before := tables;
        next := WaitingStep(tables, state, heights, key, firstNew, last, user);
        var error, sent, _ := StoreUser(key, firstNew, last, user);
        if error != None {
          return Err(error.value), newHeights, log, next;
        }
        log := Addressed(user.id, sent);
        SentIsTold(before, state, key, firstNew, last, user, sent);
        return Ok(true), newHeights + [key], log, next;
    }

    /** The account loop of `update`. Height rows are deleted one by one and filed again in batches of 127. */
    method UpdateUsers(firstNew: nat, last: nat, users: seq<Scanned>) returns (r: Result<nat>, log: seq<Owned<W.Confirmation>>)
      requires Indexed(tables)
      modifies this
      ensures match T.UpdateUsers(old(tables), firstNew, last, users)
        case Ok(t) => r == Ok(CountUsers(old(tables), firstNew, last, users)) && tables == t
        case Err(e) => r == Err(e)
      ensures r.Ok? ==> LogIs(log, old(tables), firstNew, last, users)
    {
      hide LogIs, Waiting, ToldBy;
      var counted := 0;
      var heights: seq<AccountKey> := [];
      log := [];
      ghost var before, state := tables, tables;
      NothingLogged(before, firstNew, last);
      NothingWaits(tables, last);
      for i := 0 to |users|
        invariant T.UpdateUsers(before, firstNew, last, users[..i]) == Ok(state)
        invariant counted == CountUsers(before, firstNew, last, users[..i])
        invariant Indexed(state) && |heights| <= 127 && Waiting(tables, state, heights, last)
        invariant LogIs(log, before, firstNew, last, users[..i])
      {
        if |heights| == 127 {
          FileAll(tables, state, heights, last);
          InsertHeights(heights, last);
          heights := [];
        }
        Prefix(users, i);
        var visited, more;
        UpdateUserIndexed(state, firstNew, last, users[i]);
        ghost var was := state;
        visited, heights, more, state := CheckInUser(firstNew, last, users[i], heights, state);
        if visited.Err? {
          UpdateUsersFails(before, firstNew, last, users, i + 1);
          return Err(visited.error), log;
        }
        LogStep(log, more, before, was, firstNew, last, users, i);
        log := log + more;
        counted := counted + if visited.value then 1 else 0;
      }
      FileAll(tables, state, heights, last);
      InsertHeights(heights, last);
      assert users[..|users|] == users;
      return Ok(counted), log;
    }

    /** On success the log holds, for every account and event, exactly the numbers its check-ins send. */
    method Update(height: nat, chain: seq<Hash>, users: seq<Scanned>, pow: seq<nat>)
      returns (r: Result<nat>, log: seq<Owned<W.Confirmation>>)
      requires Indexed(tables)
      modifies this
      ensures match T.Update(old(tables), checkpoint, height, chain, users, pow)
        case Ok(t) => r == Ok(CountedByUpdate(old(tables), checkpoint, height, chain, users, pow)) && tables == t
        case Err(e) => r == Err(e) && tables == old(tables)
      ensures r.Ok? ==>
        forall u, e :: SentTo(log, u, e) == ToldByUpdate(old(tables), checkpoint, height, chain, users, pow, u, e)
    {
      hide T.UpdateUsers, T.ExtendChain, CountUsers, ToldAll, SentTo, Keyed, HeightIndexed, AddressIndexed;
      log := [];
      NothingSent();
      if users == [] && chain == [] {
        return Ok(0), log;
      }
      if chain == [] || (pow != [] && |pow| != |chain|) {
        return Err(InvalidArgument), log;
      }
      var before := tables;
      var error := ExtendChain(height, chain, pow);
      if error != None {
        return Err(error.value), log;
      }
      SameAccounts(before, tables, checkpoint, height, chain, pow);
      r, log := UpdateUsers(height + 1, height + |chain| - 1, users);
      if r.Err? {
        tables := before;
      }
    }
  }

  lemma SameAccounts(t: Tables, r: Tables, checkpoint: nat, height: nat, chain: seq<Hash>, pow: seq<nat>)
    requires chain != [] && (pow == [] || |pow| == |chain|) && T.ExtendChain(t, checkpoint, height, chain, pow) == Ok(r)
    ensures r.accounts == t.accounts && r.byHeight == t.byHeight && r.byAddress == t.byAddress
  {
    hide Compare, Append, AppendPow;
  }

  lemma NothingSent()
    ensures forall u, e :: SentTo([], u, e) == []
  {
  }

  /** The log holds what `ToldAll` says, for every account and event. */
  ghost predicate LogIs(log: seq<Owned<W.Confirmation>>, t: Tables, firstNew: nat, last: nat, users: seq<Scanned>) {
    forall u, e :: SentTo(log, u, e) == ToldAll(t, firstNew, last, users, u, e)
  }

  lemma NothingLogged(t: Tables, firstNew: nat, last: nat)
    ensures LogIs([], t, firstNew, last, [])
  {
  }

  lemma LogStep(log: seq<Owned<W.Confirmation>>, more: seq<Owned<W.Confirmation>>, before: Tables, state: Tables, firstNew: nat,
                last: nat, users: seq<Scanned>, i: nat)
    requires i < |users| && LogIs(log, before, firstNew, last, users[..i])
    requires T.UpdateUsers(before, firstNew, last, users[..i]) == Ok(state)
    requires forall u, e :: SentTo(more, u, e) == ToldBy(state, firstNew, last, users[i], u, e)
    ensures LogIs(log + more, before, firstNew, last, users[..i + 1])
  {
    hide SentTo, ToldBy, T.UpdateUsers;
    Prefix(users, i);
    forall u, e ensures SentTo(log + more, u, e) == ToldAll(before, firstNew, last, users[..i + 1], u, e) {
      SentToAppend(log, more, u, e);
    }
  }

  /** What one stored account sent is what its check-in tells. */
  lemma SentIsTold(t: Tables, state: Tables, key: AccountKey, firstNew: nat, last: nat, user: Scanned, sent: seq<W.Confirmation>)
    requires t == state.(byHeight := t.byHeight) && Locate(t, user) == At(key) && Accepts(t.accounts[key], user, last)
    requires W.Complete(sent, HooksOf(t, user.id), Tripped(t, user), OngoingStart(t, key, firstNew), last + 1)
    ensures forall u, e :: SentTo(Addressed(user.id, sent), u, e) == ToldBy(state, firstNew, last, user, u, e)
  {
    hide W.Numbers, W.Triggered, SentTo, W.Sent;
    forall u, e ensures SentTo(Addressed(user.id, sent), u, e) == ToldBy(state, firstNew, last, user, u, e) {
      SentToAddressed(user.id, sent, u, e);
    }
  }

  // ----- Steps of the loops -----

  /** `t` before the new height row of `key` is filed. */
  function Unfiled(t: Tables, before: Tables, key: AccountKey): Tables
    requires key in before.accounts
  {
    t.(byHeight := before.byHeight - {RowOf(key, before.accounts[key])})
  }

  lemma DropOneSpend(spends: set<Owned<Spend>>, s: Owned<Spend>)
    requires PairsUnique(spends) && s in spends
    ensures ImageOf(s.row) in ImagesOf(spends)
    ensures forall i :: i in ImagesOf(spends) && i.source == s.row.source && i.image == s.row.image ==> i == ImageOf(s.row)
    ensures ImagesOf(spends) - {ImageOf(s.row)} == ImagesOf(spends - {s})
  {
  }

  /** Without the images of the dropped spends, the table holds exactly the images of the others. */
  lemma DropManySpends(t: Tables, user: AccountId, height: nat)
    requires ImagesAgree(t)
    ensures ImagesAgree(DropSpends(t, user, height))
  {
  }

  lemma RollNothing(t: Tables, height: nat)
    ensures RollRows(t, {}, height) == t
  {
    assert RollRows(t, {}, height).accounts == t.accounts;
    assert RollRows(t, {}, height).outputs == t.outputs;
    assert RollRows(t, {}, height).spends == t.spends;
    assert RollRows(t, {}, height).images == t.images;
  }

  lemma RollOneAccount(t: Tables, done: set<HeightRow>, row: HeightRow, height: nat)
    requires Indexed(t) && done <= RowsFrom(t, height)
    requires row in RollRows(t, done, height).byHeight && height <= row.height
    ensures row in t.byHeight && row !in done
    ensures var r := RollRows(t, done, height); var key := AccountKey(row.status, row.id);
      && key in r.accounts && r.accounts[key] == t.accounts[key]
      && r.accounts[key := RollAccount(r.accounts[key], height)] == RollRows(t, done + {row}, height).accounts
      && r.byHeight - {row} == RollRows(t, done + {row}, height).byHeight
  {
    hide SpendsFrom, OutputsFrom, ImagesOf, AddressIndexed;
  }

  lemma IdsMore(rows: set<HeightRow>, row: HeightRow)
    ensures Ids(rows + {row}) == Ids(rows) + {row.id}
  {
  }

  lemma OutputsMore(rows: set<Owned<Output>>, ids: set<AccountId>, id: AccountId, height: nat)
    ensures var before := set o | o in OutputsFrom(rows, height) && o.user in ids;
      var now := set o | o in OutputsFrom(rows - before, height) && o.user == id;
      (rows - before) - now == rows - set o | o in OutputsFrom(rows, height) && o.user in ids + {id}
  {
  }

  lemma SpendsMore(rows: set<Owned<Spend>>, ids: set<AccountId>, id: AccountId, height: nat)
    ensures var before := set s | s in SpendsFrom(rows, height) && s.user in ids;
      var now := set s | s in SpendsFrom(rows - before, height) && s.user == id;
      var after := set s | s in SpendsFrom(rows, height) && s.user in ids + {id};
      after == before + now && (rows - before) - now == rows - after
  {
  }

  lemma ImagesUnion(a: set<Owned<Spend>>, b: set<Owned<Spend>>, images: set<ImageRow>)
    ensures (images - ImagesOf(a)) - ImagesOf(b) == images - ImagesOf(a + b)
  {
    assert ImagesOf(a + b) == ImagesOf(a) + ImagesOf(b);
  }

  lemma RollOneRows(t: Tables, done: set<HeightRow>, row: HeightRow, height: nat)
    ensures var r := RollRows(t, done, height);
      && DropOutputs(r, row.id, height).outputs == RollRows(t, done + {row}, height).outputs
      && DropSpends(r, row.id, height).spends == RollRows(t, done + {row}, height).spends
      && DropSpends(r, row.id, height).images == RollRows(t, done + {row}, height).images
  {
    hide Ids, SpendsFrom, OutputsFrom, ImagesOf, RollAccount, RowOf;
    IdsMore(done, row);
    OutputsMore(t.outputs, Ids(done), row.id, height);
    SpendsMore(t.spends, Ids(done), row.id, height);
    var before := set s | s in SpendsFrom(t.spends, height) && s.user in Ids(done);
    var now := set s | s in SpendsFrom(t.spends - before, height) && s.user == row.id;
    ImagesUnion(before, now, t.images);
  }

  /** Dropping an account's rows does not look at the account itself. */
  lemma OwnRows(t: Tables, key: AccountKey, user: AccountId, a: Account, height: nat)
    ensures DropOutputs(t.(accounts := t.accounts[key := a]), user, height) ==
            t.(accounts := t.accounts[key := a], outputs := DropOutputs(t, user, height).outputs)
    ensures var r := t.(accounts := t.accounts[key := a], outputs := DropOutputs(t, user, height).outputs);
      DropSpends(r, user, height) == r.(spends := DropSpends(t, user, height).spends, images := DropSpends(t, user, height).images)
    ensures ImagesAgree(t) ==>
      ImagesAgree(t.(accounts := t.accounts[key := a], outputs := DropOutputs(t, user, height).outputs))
  {
  }

  lemma RowsLeft(t: Tables, done: set<HeightRow>, height: nat)
    requires done <= RowsFrom(t, height) && forall r :: r in RollRows(t, done, height).byHeight ==> r.height < height
    ensures done == RowsFrom(t, height)
  {
  }

  /** Rolling one more account back is one more pass of the loop. */
  lemma RollOne(t: Tables, done: set<HeightRow>, row: HeightRow, height: nat)
    requires Indexed(t) && done <= RowsFrom(t, height)
    requires row in RollRows(t, done, height).byHeight && height <= row.height
    ensures row in t.byHeight && row !in done && done + {row} <= RowsFrom(t, height)
    ensures var r := RollRows(t, done, height); var key := AccountKey(row.status, row.id);
      && key in r.accounts && r.accounts[key].id == key.id
      && RollRows(t, done + {row}, height) ==
           r.(accounts := r.accounts[key := RollAccount(r.accounts[key], height)],
              byHeight := r.byHeight - {row},
              outputs := DropOutputs(r, row.id, height).outputs,
              spends := DropSpends(r, row.id, height).spends,
              images := DropSpends(r, row.id, height).images)
  {
    RollOneAccount(t, done, row, height);
    RollOneRows(t, done, row, height);
    var r, next := RollRows(t, done, height), RollRows(t, done + {row}, height);
    assert t.accounts[AccountKey(row.status, row.id)].id == row.id;
    hide Indexed, DropOutputs, DropSpends, RollAccount;
    assert next == r.(accounts := next.accounts, byHeight := next.byHeight, outputs := next.outputs, spends := next.spends,
                      images := next.images);
  }

  function Filed(lookups: seq<AccountKey>, height: nat): set<HeightRow> {
    set k | k in lookups :: HeightRow(height, k.id, k.status)
  }

  lemma LookupsAtHeight(rows: set<HeightRow>, lookups: seq<AccountKey>, height: nat)
    requires forall k :: k in lookups <==> exists r :: r in rows && k == AccountKey(r.status, r.id)
    ensures AtHeight(rows, height) == Filed(lookups, height)
  {
    forall r | r in rows ensures HeightRow(height, r.id, r.status) in Filed(lookups, height) {
      assert AccountKey(r.status, r.id) in lookups;
    }
  }

  /** The addresses whose view key belongs to an account. */
  function Known(t: Tables, addresses: seq<Address>): seq<Address> {
    if addresses == [] then []
    else
      var last := addresses[|addresses| - 1];
      Known(t, addresses[..|addresses| - 1]) + if last.viewPublic in t.byAddress then [last] else []
  }

  lemma {:induction false} ChangeHeightsFails(t: Tables, height: nat, addresses: seq<Address>, n: nat)
    requires n <= |addresses| && ChangeHeights(t, height, addresses[..n]).Err?
    ensures ChangeHeights(t, height, addresses) == ChangeHeights(t, height, addresses[..n])
  {
    if n == |addresses| {
      assert addresses[..n] == addresses;
    } else {
      assert addresses[..|addresses| - 1][..n] == addresses[..n];
      ChangeHeightsFails(t, height, addresses[..|addresses| - 1], n);
    }
  }

  lemma AppendPowStep(pows: map<nat, nat>, first: nat, chain: seq<nat>, i: nat)
    requires i < |chain|
    ensures AppendPow(pows, first, chain[..i + 1]) ==
      if first + i in AppendPow(pows, first, chain[..i]) then AppendPow(pows, first, chain[..i])
      else AppendPow(pows, first, chain[..i])[first + i := chain[i]]
  {
  }

  lemma {:induction false} UpdateUsersFails(t: Tables, firstNew: nat, last: nat, users: seq<Scanned>, n: nat)
    requires n <= |users| && T.UpdateUsers(t, firstNew, last, users[..n]).Err?
    ensures T.UpdateUsers(t, firstNew, last, users) == T.UpdateUsers(t, firstNew, last, users[..n])
  {
    if n == |users| {
      assert users[..n] == users;
    } else {
      assert users[..|users| - 1][..n] == users[..n];
      UpdateUsersFails(t, firstNew, last, users[..|users| - 1], n);
    }
  }

  /** The tables are `state` except that the height rows of `heights` wait to be filed under `last`. */
  ghost predicate Waiting(t: Tables, state: Tables, heights: seq<AccountKey>, last: nat) {
    t == state.(byHeight := t.byHeight) && t.byHeight + Filed(heights, last) == state.byHeight
  }

  lemma NothingWaits(t: Tables, last: nat)
    ensures Waiting(t, t, [], last)
  {
  }

  /** Filing the waiting rows gives `state`. */
  lemma FileAll(t: Tables, state: Tables, heights: seq<AccountKey>, last: nat)
    requires Waiting(t, state, heights, last)
    ensures t.(byHeight := t.byHeight + Filed(heights, last)) == state && Waiting(state, state, [], last)
  {
  }

  /** An account that is behind `last` still has its height row: the mandatory lookup finds it. */
  lemma StillFiled(t: Tables, state: Tables, heights: seq<AccountKey>, last: nat, key: AccountKey)
    requires Indexed(state) && Waiting(t, state, heights, last)
    requires key in t.accounts && t.accounts[key].scan < last
    ensures RowOf(key, t.accounts[key]) in t.byHeight
  {
    assert RowOf(key, state.accounts[key]) in state.byHeight;
  }

  lemma WaitingStep(t: Tables, state: Tables, heights: seq<AccountKey>, key: AccountKey, firstNew: nat, last: nat, user: Scanned)
    returns (next: Tables)
    requires Waiting(t, state, heights, last)
    requires key in t.accounts && t.accounts[key].scan < last
    ensures match Store(t, key, firstNew, last, user)
      case Err(e) => Store(state, key, firstNew, last, user) == Err(e)
      case Ok(r) => Store(state, key, firstNew, last, user) == Ok(next)
    ensures Store(t, key, firstNew, last, user).Ok? ==>
      Waiting(Unfiled(Store(t, key, firstNew, last, user).value, t, key), next, heights + [key], last)
  {
    hide InsertOutputs, InsertSpends, AddImages, Of, Own, W.Ongoing, W.Triggered;
    var stored := Store(state, key, firstNew, last, user);
    next := if stored.Ok? then stored.value else state;
    var row := RowOf(key, t.accounts[key]);
    assert Filed(heights + [key], last) == Filed(heights, last) + {HeightRow(last, key.id, key.status)};
    assert row !in Filed(heights, last);
    assert (t.byHeight - {row}) + Filed(heights, last) == state.byHeight - {row};
  }

  lemma AppendNothing(blocks: map<nat, Hash>, first: nat)
    ensures Append(blocks, first, []) == blocks
  {
  }

  lemma AppendTwice(blocks: map<nat, Hash>, first: nat, chain: seq<Hash>, i: nat, j: nat)
    requires i <= j <= |chain|
    ensures Append(Append(blocks, first, chain[..i]), first + i, chain[i..j]) == Append(blocks, first, chain[..j])
  {
    var a := Append(Append(blocks, first, chain[..i]), first + i, chain[i..j]);
    var b := Append(blocks, first, chain[..j]);
    assert forall k :: k in a <==> k in b;
    forall k | k in a ensures a[k] == b[k] {
    }
  }

  predicate IsHighest(rows: set<W.Event>, e: W.Event) {
    e in rows && forall f :: f in rows ==> f.out.link.height <= e.out.link.height
  }

  lemma {:induction false} HighestEvent(rows: set<W.Event>)
    requires rows != {}
    ensures exists e :: IsHighest(rows, e)
    decreases rows
  {
    var e :| e in rows;
    if rows == {e} {
      assert IsHighest(rows, e);
    } else {
      assert rows == (rows - {e}) + {e};
      HighestEvent(rows - {e});
      var f :| IsHighest(rows - {e}, f);
      assert IsHighest(rows, if f.out.link.height < e.out.link.height then e else f);
    }
  }
}
