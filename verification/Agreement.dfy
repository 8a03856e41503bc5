/** Every write transaction keeps the tables in agreement, and a rollback is exact. */
module Agreement {
  import opened Rows
  import opened Tables
  import S = SpendHooks
  import W = Webhooks

  // ----- Rollback -----

  /** Each table holds exactly its old rows below `h`; accounts above are set back just below `h`. Proof-of-work
      rows survive at or above `h` exactly when none was stored at `h` itself. */
  ghost predicate ExactBelow(t: Tables, r: Tables, h: nat) {
    && (forall i :: i in r.blocks <==> i in t.blocks && i < h)
    && (forall i :: i in r.blocks ==> r.blocks[i] == t.blocks[i])
    && (forall k :: k in r.accounts <==> k in t.accounts)
    && (forall k :: k in r.accounts ==>
          r.accounts[k] == if t.accounts[k].scan < h then t.accounts[k] else RollAccount(t.accounts[k], h))
    && r.outputs == t.outputs - OutputsFrom(t.outputs, h)
    && r.spends == t.spends - SpendsFrom(t.spends, h)
    && r.events == t.events - EventsFrom(t.events, h)
    && r.byAddress == t.byAddress
  }

  lemma RollbackIsExact(t: Tables, h: nat)
    requires Consistent(t)
    ensures ExactBelow(t, RollbackChain(t, h, h), h)
    ensures (exists p :: p in RollbackChain(t, h, h).pows && h <= p) <==> (h !in t.pows && exists p :: p in t.pows && h < p)
    ensures 0 < h ==> forall k :: k in RollbackChain(t, h, h).accounts ==> RollbackChain(t, h, h).accounts[k].scan < h
    ensures Consistent(RollbackChain(t, h, h))
  {
    RollbackConsistent(t, h, h);
    RollbackKeepsBelow(t, h, h);
  }

  lemma IdsFrom(t: Tables, h: nat, u: AccountId)
    requires Indexed(t)
    ensures u in Ids(RowsFrom(t, h)) <==> exists k :: k in t.accounts && k.id == u && h <= t.accounts[k].scan
  {
    if u in Ids(RowsFrom(t, h)) {
      var r :| r in RowsFrom(t, h) && r.id == u;
      assert AccountKey(r.status, r.id) in t.accounts;
    }
    if k :| k in t.accounts && k.id == u && h <= t.accounts[k].scan {
      assert RowOf(k, t.accounts[k]) in RowsFrom(t, h);
    }
  }

  /** No account below `h` has rows at or above it, so the walk over the height index misses none. */
  lemma RollbackKeepsBelow(t: Tables, at: nat, h: nat)
    requires Consistent(t)
    ensures RollbackChain(t, at, h).outputs == t.outputs - OutputsFrom(t.outputs, h)
    ensures RollbackChain(t, at, h).spends == t.spends - SpendsFrom(t.spends, h)
    ensures RollbackChain(t, at, h).images == t.images - ImagesOf(SpendsFrom(t.spends, h))
    ensures forall k :: k in t.accounts ==> (RowOf(k, t.accounts[k]) in RowsFrom(t, h) <==> h <= t.accounts[k].scan)
  {
    forall o | o in OutputsFrom(t.outputs, h) ensures o.user in Ids(RowsFrom(t, h)) {
      assert ScannedTo(t, o.user, o.row.link.height);
      IdsFrom(t, h, o.user);
    }
    forall s | s in SpendsFrom(t.spends, h) ensures s.user in Ids(RowsFrom(t, h)) {
      assert ScannedTo(t, s.user, s.row.link.height);
      IdsFrom(t, h, s.user);
    }
    assert OutputsFrom(t.outputs, h) == set o | o in OutputsFrom(t.outputs, h) && o.user in Ids(RowsFrom(t, h));
    assert SpendsFrom(t.spends, h) == set s | s in SpendsFrom(t.spends, h) && s.user in Ids(RowsFrom(t, h));
  }

  /** Accounts set back to just below `h`, and nothing else of the three tables. */
  lemma RolledBack(t: Tables, h: nat)
    ensures var r := RollbackAccounts(t, h);
      && r.byAddress == t.byAddress
      && r.byHeight == (t.byHeight - RowsFrom(t, h)) + AtHeight(RowsFrom(t, h), Max(h, 1) - 1)
      && r.accounts.Keys == t.accounts.Keys
      && (forall k :: k in r.accounts ==>
            r.accounts[k] == if RowOf(k, t.accounts[k]) in RowsFrom(t, h) then RollAccount(t.accounts[k], h) else t.accounts[k])
  {
    hide RowsFrom, AtHeight, RollAccount, SpendsFrom, OutputsFrom, ImagesOf;
  }

  lemma RolledHeights(t: Tables, r: Tables, h: nat)
    requires HeightIndexed(t.accounts, t.byHeight) && r.accounts.Keys == t.accounts.Keys
    requires r.byHeight == (t.byHeight - RowsFrom(t, h)) + AtHeight(RowsFrom(t, h), Max(h, 1) - 1)
    requires forall k :: k in r.accounts ==>
      r.accounts[k] == if RowOf(k, t.accounts[k]) in RowsFrom(t, h) then RollAccount(t.accounts[k], h) else t.accounts[k]
    ensures HeightIndexed(r.accounts, r.byHeight)
  {
    var height := Max(h, 1) - 1;
    forall k | k in r.accounts ensures RowOf(k, r.accounts[k]) in r.byHeight {
      if RowOf(k, t.accounts[k]) in RowsFrom(t, h) {
        assert HeightRow(height, k.id, k.status) in AtHeight(RowsFrom(t, h), height);
      }
    }
    forall row | row in r.byHeight
      ensures AccountKey(row.status, row.id) in r.accounts && r.accounts[AccountKey(row.status, row.id)].scan == row.height
    {
      if row in AtHeight(RowsFrom(t, h), height) {
        var before :| before in RowsFrom(t, h) && row == HeightRow(height, before.id, before.status);
        assert RowOf(AccountKey(row.status, row.id), t.accounts[AccountKey(row.status, row.id)]) == before;
      }
    }
  }

  lemma RollbackIndexes(t: Tables, h: nat)
    requires Indexed(t)
    ensures Indexed(RollbackAccounts(t, h))
  {
    hide RollbackAccounts, RowsFrom, AtHeight;
    RolledBack(t, h);
    RolledHeights(t, RollbackAccounts(t, h), h);
    hide HeightIndexed;
    assert AddressIndexed(RollbackAccounts(t, h).accounts, RollbackAccounts(t, h).byAddress);
  }

  lemma DropImages(spends: set<Owned<Spend>>, dropped: set<Owned<Spend>>)
    requires PairsUnique(spends) && dropped <= spends
    ensures PairsUnique(spends - dropped) && ImagesOf(spends) - ImagesOf(dropped) == ImagesOf(spends - dropped)
  {
  }

  lemma RollbackConsistent(t: Tables, at: nat, h: nat)
    requires Consistent(t)
    ensures Consistent(RollbackChain(t, at, h))
  {
    var r := RollbackChain(t, at, h);
    RollbackIndexes(t, h);
    RollbackKeepsBelow(t, at, h);
    DropImages(t.spends, SpendsFrom(t.spends, h));
    RollbackBounded(t, r, h);
  }

  lemma RollbackBounded(t: Tables, r: Tables, h: nat)
    requires Bounded(t)
    requires r.outputs == t.outputs - OutputsFrom(t.outputs, h) && r.spends == t.spends - SpendsFrom(t.spends, h)
    requires forall k :: k in t.accounts <==> k in r.accounts
    requires forall k :: k in t.accounts ==> r.accounts[k] == t.accounts[k] || r.accounts[k] == RollAccount(t.accounts[k], h)
    ensures Bounded(r)
  {
    forall u, height: nat | ScannedTo(t, u, height) && height < h ensures ScannedTo(r, u, height) {
      var k :| k in t.accounts && k.id == u && height <= t.accounts[k].scan;
      assert k in r.accounts && height <= r.accounts[k].scan;
    }
    StillBounded(t, r);
  }

  // ----- Accounts -----

  /** The next id is already held exactly when the largest 32-bit id is in use and so is id zero. */
  lemma NextIdHeld(accounts: map<AccountKey, Account>, last: AccountId)
    requires Keyed(accounts) && IsLastId(accounts, last) && last < UINT32_LIMIT
    ensures Held(accounts, NextId(last)) <==> (last == UINT32_LIMIT - 1 && Held(accounts, 0))
  {
    if last < UINT32_LIMIT - 1 {
      assert NextId(last) == last + 1;
    }
  }

  lemma AddIndexed(accounts: map<AccountKey, Account>, byHeight: set<HeightRow>, byAddress: map<PublicKey, AccountKey>,
                   key: AccountKey, a: Account)
    requires Keyed(accounts) && HeightIndexed(accounts, byHeight) && AddressIndexed(accounts, byAddress)
    requires a.id == key.id && a.address.viewPublic !in byAddress && forall k :: k in accounts ==> k.id != key.id
    ensures Keyed(accounts[key := a]) && AddressIndexed(accounts[key := a], byAddress[a.address.viewPublic := key])
    ensures HeightIndexed(accounts[key := a], byHeight + {RowOf(key, a)})
  {
  }

  /** Rows stay bounded when accounts are only added or moved up. */
  lemma StillBounded(t: Tables, r: Tables)
    requires Bounded(t) && r.outputs <= t.outputs && r.spends <= t.spends
    requires forall k :: k in r.accounts ==> r.accounts[k].start <= r.accounts[k].scan
    requires forall o :: o in r.outputs && ScannedTo(t, o.user, o.row.link.height) ==> ScannedTo(r, o.user, o.row.link.height)
    requires forall s :: s in r.spends && ScannedTo(t, s.user, s.row.link.height) ==> ScannedTo(r, s.user, s.row.link.height)
    ensures Bounded(r)
  {
  }

  lemma ScannedKept(t: Tables, r: Tables, u: AccountId, height: nat, from: AccountKey, to: AccountKey)
    requires ScannedTo(t, u, height)
    requires forall k :: k in t.accounts && k != from ==> k in r.accounts && r.accounts[k].scan == t.accounts[k].scan
    requires from in t.accounts ==> to in r.accounts && to.id == from.id && r.accounts[to].scan >= t.accounts[from].scan
    ensures ScannedTo(r, u, height)
  {
    var k :| k in t.accounts && k.id == u && height <= t.accounts[k].scan;
    assert (if k == from then to else k) in r.accounts;
  }

  lemma AddAccountSucceeds(t: Tables, last: AccountId, tip: nat, address: Address, keyValid: bool, admin: bool)
    requires Indexed(t) && !Held(t.accounts, NextId(last))
    ensures AddAccount(t, last, tip, address, keyValid, admin).Ok? <==> keyValid && address.viewPublic !in t.byAddress
  {
    forall r | r in t.byHeight ensures r.id != NextId(last) {
      assert AccountKey(r.status, r.id) in t.accounts;
    }
  }

  lemma AddAccountConsistent(t: Tables, last: AccountId, tip: nat, address: Address, keyValid: bool, admin: bool)
    requires Consistent(t) && !Held(t.accounts, NextId(last))
    ensures AddAccount(t, last, tip, address, keyValid, admin).Ok? ==>
      Consistent(AddAccount(t, last, tip, address, keyValid, admin).value)
  {
    var added := AddAccount(t, last, tip, address, keyValid, admin);
    if added.Ok? {
      var r := added.value;
      var next := NextId(last);
      var key := AccountKey(if admin then Hidden else Active, next);
      AddIndexed(t.accounts, t.byHeight, t.byAddress, key, Account(next, address, tip, tip, 0, 0));
      forall u, height: nat | ScannedTo(t, u, height) ensures ScannedTo(r, u, height) {
        ScannedKept(t, r, u, height, key, key);
      }
      StillBounded(t, r);
    }
  }

  lemma ChangeOneConsistent(t: Tables, status: Status, address: Address)
    requires Consistent(t)
    ensures Consistent(ChangeOne(t, status, address))
  {
    ChangeOneIndexed(t, status, address);
    var r := ChangeOne(t, status, address);
    if address.viewPublic in t.byAddress && t.byAddress[address.viewPublic].status != status {
      var from := t.byAddress[address.viewPublic];
      forall u, height: nat | ScannedTo(t, u, height) ensures ScannedTo(r, u, height) {
        ScannedKept(t, r, u, height, from, AccountKey(status, from.id));
      }
      StillBounded(t, r);
    }
  }

  /** A status change gives the account the new status, keeps everything else of it, and moves no other account. */
  lemma ChangeOneTakesEffect(t: Tables, status: Status, address: Address, other: PublicKey)
    requires Indexed(t) && address.viewPublic in t.byAddress && other in t.byAddress && other != address.viewPublic
    ensures var r, from := ChangeOne(t, status, address), t.byAddress[address.viewPublic];
      && r.byAddress[address.viewPublic] == AccountKey(status, from.id)
      && AccountKey(status, from.id) in r.accounts && r.accounts[AccountKey(status, from.id)] == t.accounts[from]
      && r.byAddress[other] == t.byAddress[other]
      && r.byAddress[other] in r.accounts && r.accounts[r.byAddress[other]] == t.accounts[t.byAddress[other]]
  {
    assert t.byAddress[other] != t.byAddress[address.viewPublic];
    assert t.accounts[t.byAddress[other]].address.viewPublic == other;
    if t.byAddress[address.viewPublic].status != status {
      RefileKeyed(t.accounts, t.byAddress[address.viewPublic], AccountKey(status, t.byAddress[address.viewPublic].id));
    }
  }

  lemma RefileBack(accounts: map<AccountKey, Account>, from: AccountKey, to: AccountKey)
    requires from in accounts && to !in accounts
    ensures Refile(Refile(accounts, from, to), to, from) == accounts
  {
  }

  lemma RowBack(byHeight: set<HeightRow>, from: HeightRow, to: HeightRow)
    requires from in byHeight && to !in byHeight
    ensures (((byHeight - {from}) + {to}) - {to}) + {from} == byHeight
  {
  }

  /** What a real change of status does. */
  lemma ChangedTo(t: Tables, status: Status, address: Address)
    requires Indexed(t) && address.viewPublic in t.byAddress && t.byAddress[address.viewPublic].status != status
    ensures var from := t.byAddress[address.viewPublic];
      var to := AccountKey(status, from.id);
      && from in t.accounts && to !in t.accounts && RowOf(from, t.accounts[from]) in t.byHeight
      && RowOf(to, t.accounts[from]) !in t.byHeight
      && ChangeOne(t, status, address) ==
           t.(accounts := Refile(t.accounts, from, to), byAddress := t.byAddress[address.viewPublic := to],
              byHeight := (t.byHeight - {RowOf(from, t.accounts[from])}) + {RowOf(to, t.accounts[from])})
  {
    var from := t.byAddress[address.viewPublic];
    RefileKeyed(t.accounts, from, AccountKey(status, from.id));
  }

  /** Changing the status back restores every table. */
  lemma ChangeBackRestores(t: Tables, status: Status, address: Address)
    requires Indexed(t) && address.viewPublic in t.byAddress
    ensures ChangeOne(ChangeOne(t, status, address), t.byAddress[address.viewPublic].status, address) == t
  {
    hide Indexed, Refile;
    var from := t.byAddress[address.viewPublic];
    var to := AccountKey(status, from.id);
    if from.status != status {
      ChangedTo(t, status, address);
      var r := ChangeOne(t, status, address);
      ChangeOneIndexed(t, status, address);
      ChangedTo(r, from.status, address);
      RefileBack(t.accounts, from, to);
      RowBack(t.byHeight, RowOf(from, t.accounts[from]), RowOf(to, t.accounts[from]));
      assert AccountKey(from.status, to.id) == from;
      assert t.byAddress[address.viewPublic := to][address.viewPublic := from] == t.byAddress;
      assert r.accounts[to] == t.accounts[from] by { Refiled(t.accounts, from, to); }
    }
  }

  lemma Refiled(accounts: map<AccountKey, Account>, from: AccountKey, to: AccountKey)
    requires from in accounts
    ensures to in Refile(accounts, from, to) && Refile(accounts, from, to)[to] == accounts[from]
    ensures forall k :: k in accounts && k != from && k != to ==>
      k in Refile(accounts, from, to) && Refile(accounts, from, to)[k] == accounts[k]
  {
  }

  // ----- Moving an account's scan height -----

  /** After `change_height` the indexes agree exactly when the height was not above the scan height: the height
      index is filed under the requested height, the account under the smaller of the two. */
  lemma ChangeHeightIndexes(t: Tables, height: nat, address: Address)
    requires Indexed(t) && address.viewPublic in t.byAddress
    ensures ChangeHeight(t, height, address).Ok?
    ensures Indexed(ChangeHeight(t, height, address).value) <==>
            height <= t.accounts[t.byAddress[address.viewPublic]].scan
  {
    var key := t.byAddress[address.viewPublic];
    var user := t.accounts[key];
    assert RowOf(key, user) in t.byHeight;
    assert RowsAt(t.byHeight, user.scan, key.id) == {RowOf(key, user)};
    var moved := MovedTo(user, height);
    if height <= user.scan {
      MoveIndexed(t.accounts, t.byHeight, t.byAddress, key, moved);
    } else {
      var r := ChangeHeight(t, height, address).value;
      assert RowOf(key, r.accounts[key]) !in r.byHeight;
    }
  }

  lemma ChangeHeightConsistent(t: Tables, height: nat, address: Address)
    requires Consistent(t) && address.viewPublic in t.byAddress
    requires height <= t.accounts[t.byAddress[address.viewPublic]].scan
    ensures ChangeHeight(t, height, address).Ok? && Consistent(ChangeHeight(t, height, address).value)
  {
    hide HeightIndexed, PairsUnique, ImagesOf;
    ChangeHeightIndexes(t, height, address);
    var r := ChangeHeight(t, height, address).value;
    var key := t.byAddress[address.viewPublic];
    DropImages(t.spends, set s | s in SpendsFrom(t.spends, height) && s.user == key.id);
    forall u, h: nat | ScannedTo(t, u, h) && (u == key.id ==> h < height) ensures ScannedTo(r, u, h) {
      var k :| k in t.accounts && k.id == u && h <= t.accounts[k].scan;
      assert k in r.accounts;
    }
    StillBounded(t, r);
  }

  // ----- Check-in -----

  lemma {:induction false} AddImagesAgree(stored: set<Owned<Spend>>, u: AccountId, rows: seq<Spend>)
    requires PairsUnique(stored + Own(u, InsertSpends(Of(stored, u), rows)))
    ensures AddImages(ImagesOf(stored), rows) == ImagesOf(stored + Own(u, InsertSpends(Of(stored, u), rows)))
  {
    if rows == [] {
      assert stored + Own(u, Of(stored, u)) == stored;
    } else {
      var init, last := rows[..|rows| - 1], rows[|rows| - 1];
      var before := stored + Own(u, InsertSpends(Of(stored, u), init));
      var after := stored + Own(u, InsertSpends(Of(stored, u), rows));
      assert before <= after;
      AddImagesAgree(stored, u, init);
      AddImageAgrees(before, after, Owned(u, last), InsertSpends(Of(stored, u), init));
    }
  }

  lemma AddImageAgrees(before: set<Owned<Spend>>, after: set<Owned<Spend>>, last: Owned<Spend>, mine: set<Spend>)
    requires PairsUnique(after) && Own(last.user, mine) <= before
    requires after == if exists s :: s in mine && SpendKeyOf(s) == SpendKeyOf(last.row) then before else before + {last}
    ensures AddImage(ImagesOf(before), ImageOf(last.row)) == ImagesOf(after)
  {
    if s :| s in mine && SpendKeyOf(s) == SpendKeyOf(last.row) {
      assert Owned(last.user, s) in before;
      assert ImageOf(s) in ImagesOf(before) && ImageOf(s) == ImageOf(last.row);
    } else if i :| i in ImagesOf(before) && i.source == last.row.source && i.image == last.row.image {
      var s :| s in before && ImageOf(s.row) == i;
      assert s in after && last in after;
    }
  }

  /** The scanner never reports a row above the last block it scanned. */
  ghost predicate RowsUpTo(user: Scanned, last: nat) {
    && (forall o :: o in user.outputs ==> o.link.height <= last)
    && (forall s :: s in user.spends ==> s.link.height <= last)
  }

  /** As long as the new spends share no source and image with others, a check-in keeps all tables in agreement. */
  lemma UpdateUserConsistent(t: Tables, firstNew: nat, last: nat, user: Scanned)
    requires Consistent(t) && RowsUpTo(user, last)
    requires UpdateUser(t, firstNew, last, user).Ok? && PairsUnique(UpdateUser(t, firstNew, last, user).value.spends)
    ensures Consistent(UpdateUser(t, firstNew, last, user).value)
  {
    UpdateUserIndexed(t, firstNew, last, user);
    var r := UpdateUser(t, firstNew, last, user).value;
    if Locate(t, user).At? && Accepts(t.accounts[Locate(t, user).key], user, last) {
      AddImagesAgree(t.spends, user.id, user.spends);
      InsertSpendsBounds(Of(t.spends, user.id), user.spends);
      InsertOutputsBounds(Of(t.outputs, user.id), user.outputs);
      StoredBounded(t, Locate(t, user).key, last, user, r);
    }
  }

  lemma StoredBounded(t: Tables, key: AccountKey, last: nat, user: Scanned, r: Tables)
    requires Indexed(t) && Bounded(t) && RowsUpTo(user, last)
    requires key in t.accounts && key.id == user.id && t.accounts[key].scan < last
    requires r.accounts == t.accounts[key := t.accounts[key].(scan := last)]
    requires forall o :: o in r.outputs ==> o in t.outputs || (o.user == user.id && o.row in user.outputs)
    requires forall s :: s in r.spends ==> s in t.spends || (s.user == user.id && s.row in user.spends)
    ensures Bounded(r)
  {
    forall u, height: nat | ScannedTo(t, u, height) || (u == user.id && height <= last) ensures ScannedTo(r, u, height) {
      if u == user.id && height <= last {
        assert key in r.accounts;
      } else {
        var k :| k in t.accounts && k.id == u && height <= t.accounts[k].scan;
        assert k in r.accounts;
      }
    }
  }

  // ----- Check-in and webhooks -----

  /** A check-in on the tables is one step of the webhook protocol for its account, unless a spend's source is missing. */
  lemma StoreIsCheckIn(t: Tables, key: AccountKey, firstNew: nat, last: nat, user: Scanned)
    requires key in t.accounts && key.id == user.id
    ensures match W.CheckIn(WatchOf(t, key), firstNew, W.Batch(last, user.outputs))
      case Err(error) => Store(t, key, firstNew, last, user) == Err(error)
      case Ok(w) =>
        && (Store(t, key, firstNew, last, user).Ok? <==> SpendsFound(t, user))
        && (Store(t, key, firstNew, last, user).Ok? ==> WatchOf(Store(t, key, firstNew, last, user).value, key) == w)
  {
    hide W.Ongoing, W.Triggered, InsertSpends, AddImages, SpendsFound;
    InsertOutputsBounds(Of(t.outputs, key.id), user.outputs);
    hide InsertOutputs;
    var ongoing := Ongoing(t, key, firstNew, last, user);
    if ongoing.Ok? {
      var r := Stored(t, key, last, user, ongoing.value);
      assert Of(r.events, key.id) == ongoing.value;
      assert Of(r.outputs, key.id) == InsertOutputs(Of(t.outputs, key.id), user.outputs);
    }
  }

  /** The scanner's copy names an account under its own id, if the view key is known. */
  ghost predicate KnownAs(t: Tables, user: Scanned) {
    user.viewPublic in t.byAddress ==> t.byAddress[user.viewPublic].id == user.id
  }

  /** Every event of the account has its hook and its output row. */
  ghost predicate EventsBacked(t: Tables, u: AccountId) {
    forall k :: k in t.accounts && k.id == u ==> W.Sound(WatchOf(t, k))
  }

  /** With backed events a check-in succeeds if and only if the account is skipped, has no spend hook, or every new spend
      finds its source. */
  lemma CheckInSucceedsExactly(t: Tables, firstNew: nat, last: nat, user: Scanned)
    requires Indexed(t) && KnownAs(t, user) && EventsBacked(t, user.id)
    ensures Locate(t, user).At? || Locate(t, user).Missing?
    ensures UpdateUser(t, firstNew, last, user).Ok? <==>
      (Locate(t, user).At? && Accepts(t.accounts[Locate(t, user).key], user, last) ==> SpendsFound(t, user))
  {
    hide Store, SpendsFound, HeightIndexed, W.CheckIn, W.Sound;
    if Locate(t, user).At? {
      var key := Locate(t, user).key;
      W.CheckInSucceeds(WatchOf(t, key), firstNew, W.Batch(last, user.outputs));
      StoreIsCheckIn(t, key, firstNew, last, user);
    }
  }

  /** A spend above all outputs of an account with a spend hook aborts the check-in of every account. */
  lemma SpendAfterLastOutputAborts(t: Tables, firstNew: nat, last: nat, users: seq<Scanned>, i: nat, s: Spend)
    requires i < |users| && UpdateUsers(t, firstNew, last, users[..i]).Ok? && s in users[i].spends
    requires var r := UpdateUsers(t, firstNew, last, users[..i]).value;
      && Locate(r, users[i]).At? && Accepts(r.accounts[Locate(r, users[i]).key], users[i], last)
      && SpendHooksOf(r, users[i].id) != {}
      && (forall o :: o in Of(r.outputs, users[i].id) ==> o.link.height < s.link.height)
      && (forall o :: o in users[i].outputs ==> o.link.height < s.link.height)
    ensures UpdateUsers(t, firstNew, last, users).Err?
  {
    var r := UpdateUsers(t, firstNew, last, users[..i]).value;
    var outputs := InsertOutputs(Of(r.outputs, users[i].id), users[i].outputs);
    InsertOutputsBounds(Of(r.outputs, users[i].id), users[i].outputs);
    S.SourceFoundExactly(outputs, s);
    assert !SpendsFound(r, users[i]);
    hide S.AllFound, SpendsFound, Stored, Ongoing, Locate;
    Prefix(users, i);
    FailureStays(t, firstNew, last, users, i + 1);
  }

  lemma {:induction false} FailureStays(t: Tables, firstNew: nat, last: nat, users: seq<Scanned>, n: nat)
    requires n <= |users| && UpdateUsers(t, firstNew, last, users[..n]).Err?
    ensures UpdateUsers(t, firstNew, last, users) == UpdateUsers(t, firstNew, last, users[..n])
  {
    if n == |users| {
      assert users[..n] == users;
    } else {
      assert users[..|users| - 1][..n] == users[..n];
      FailureStays(t, firstNew, last, users[..|users| - 1], n);
    }
  }

  /** It is no step for any other account. */
  lemma StoreSparesOthers(t: Tables, key: AccountKey, firstNew: nat, last: nat, user: Scanned, other: AccountKey)
    requires key in t.accounts && key.id == user.id && other in t.accounts && other.id != key.id
    ensures Store(t, key, firstNew, last, user).Ok? ==>
      WatchOf(Store(t, key, firstNew, last, user).value, other) == WatchOf(t, other)
  {
    hide W.Ongoing, W.Triggered, InsertSpends, AddImages, InsertOutputs, SpendsFound;
    var ongoing := Ongoing(t, key, firstNew, last, user);
    if ongoing.Ok? {
      var r := Stored(t, key, last, user, ongoing.value);
      assert Of(r.events, other.id) == Of(t.events, other.id);
      assert Of(r.outputs, other.id) == Of(t.outputs, other.id);
    }
  }

  // ----- Spends that share source and key image -----

  predicate Matches(i: ImageRow, s: Spend) { i.source == s.source && i.image == s.image }

  /** `rollback_spends` deletes the spends in turn, and the lookup of each one's key image row must succeed. */
  ghost predicate DeletesAll(images: set<ImageRow>, spends: seq<Spend>) {
    spends != [] ==>
      && (exists i :: i in images && Matches(i, spends[0]))
      && DeletesAll(images - (set i | i in images && Matches(i, spends[0])), spends[1..])
  }

  lemma {:induction false} NoImageFails(images: set<ImageRow>, spends: seq<Spend>, n: nat)
    requires n < |spends| && forall i :: i in images ==> !Matches(i, spends[n])
    ensures !DeletesAll(images, spends)
  {
    if n > 0 {
      NoImageFails(images - (set i | i in images && Matches(i, spends[0])), spends[1..], n - 1);
    }
  }

  /** With one row per pair, the rollback of an account's spends succeeds if and only if no two of them share source
      and key image. */
  lemma {:induction false} SharedPairFails(images: set<ImageRow>, spends: seq<Spend>)
    requires forall n :: 0 <= n < |spends| ==> exists i :: i in images && Matches(i, spends[n])
    ensures DeletesAll(images, spends) <==>
      forall m, n :: 0 <= m < n < |spends| ==> !(spends[m].source == spends[n].source && spends[m].image == spends[n].image)
  {
    if spends != [] {
      var s, tail := spends[0], spends[1..];
      var rest := images - (set i | i in images && Matches(i, s));
      if n :| 0 <= n < |tail| && tail[n].source == s.source && tail[n].image == s.image {
        NoImageFails(rest, tail, n);
        assert spends[n + 1] == tail[n];
      } else {
        forall n | 0 <= n < |tail| ensures exists i :: i in rest && Matches(i, tail[n]) {
          assert spends[n + 1] == tail[n];
          var i :| i in images && Matches(i, spends[n + 1]);
          assert i in rest;
        }
        SharedPairFails(rest, tail);
        assert forall n :: 0 < n < |spends| ==> spends[n] == tail[n - 1];
      }
    }
  }
}
