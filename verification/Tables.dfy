/** The light-wallet database as one value (`storage_internal::tables_` in src/db/storage.cpp), the effect
    of every write transaction as a function on it, and the agreement its tables must keep. */
module Tables {
  import opened Rows
  import S = SpendHooks
  import W = Webhooks

  datatype Status = Active | Inactive | Hidden

  datatype Address = Address(viewPublic: PublicKey, spendPublic: PublicKey)

  /** `data` stands for the fields that no modelled operation changes. */
  datatype Account = Account(id: AccountId, address: Address, scan: nat, start: nat, lookaheadFail: nat, data: nat)

  /** Accounts are stored by status, then id; the two account indexes refer to them by this pair. */
  datatype AccountKey = AccountKey(status: Status, id: AccountId)

  datatype HeightRow = HeightRow(height: nat, id: AccountId, status: Status)

  datatype ImageRow = ImageRow(source: OutputId, image: KeyImage, link: Link)

  /** A row filed under an account id. */
  datatype Owned<T> = Owned(user: AccountId, row: T)

  datatype Tables = Tables(
    blocks: map<nat, Hash>,
    pows: map<nat, nat>,
    accounts: map<AccountKey, Account>,
    byAddress: map<PublicKey, AccountKey>,
    byHeight: set<HeightRow>,
    outputs: set<Owned<Output>>,
    spends: set<Owned<Spend>>,
    images: set<ImageRow>,
    hooks: map<AccountId, W.Hooks>,
    spendHooks: map<AccountId, set<W.HookKey>>,
    events: set<Owned<W.Event>>)

  /** The rows of one account. */
  function Of<T(==,!new)>(rows: set<Owned<T>>, u: AccountId): (r: set<T>)
    ensures forall x :: x in r <==> Owned(u, x) in rows
  {
    set o | o in rows && o.user == u :: o.row
  }

  function Own<T(==,!new)>(u: AccountId, rows: set<T>): (r: set<Owned<T>>)
    ensures forall o :: o in r <==> o.user == u && o.row in rows
  {
    set x | x in rows :: Owned(u, x)
  }

  function HooksOf(t: Tables, u: AccountId): W.Hooks { if u in t.hooks then t.hooks[u] else map[] }

  function SpendHooksOf(t: Tables, u: AccountId): set<W.HookKey> { if u in t.spendHooks then t.spendHooks[u] else {} }

  function ImageOf(s: Spend): ImageRow { ImageRow(s.source, s.image, s.link) }

  function ImagesOf(rows: set<Owned<Spend>>): set<ImageRow> { set s | s in rows :: ImageOf(s.row) }

  function RowOf(k: AccountKey, a: Account): HeightRow { HeightRow(a.scan, k.id, k.status) }

  // ----- Agreement of the tables -----

  /** Accounts are filed under their own id, and no two accounts share one. */
  ghost predicate Keyed(accounts: map<AccountKey, Account>) {
    && (forall k :: k in accounts ==> accounts[k].id == k.id)
    && (forall j, k :: j in accounts && k in accounts && j.id == k.id ==> j == k)
  }

  /** The height index holds exactly one row for every account: its scan height, id and status. */
  ghost predicate HeightIndexed(accounts: map<AccountKey, Account>, byHeight: set<HeightRow>) {
    && (forall k :: k in accounts ==> RowOf(k, accounts[k]) in byHeight)
    && (forall r :: r in byHeight ==>
          AccountKey(r.status, r.id) in accounts && accounts[AccountKey(r.status, r.id)].scan == r.height)
  }

  /** The address index maps every account's view key to its id and status, and nothing else. */
  ghost predicate AddressIndexed(accounts: map<AccountKey, Account>, byAddress: map<PublicKey, AccountKey>) {
    && (forall k :: k in accounts ==>
          accounts[k].address.viewPublic in byAddress && byAddress[accounts[k].address.viewPublic] == k)
    && (forall v :: v in byAddress ==> byAddress[v] in accounts && accounts[byAddress[v]].address.viewPublic == v)
  }

  /** The three account tables describe the same accounts: same ids, statuses and scan heights. */
  ghost predicate Indexed(t: Tables) {
    Keyed(t.accounts) && HeightIndexed(t.accounts, t.byHeight) && AddressIndexed(t.accounts, t.byAddress)
  }

  /** No two stored spends have the same source and key image. */
  ghost predicate PairsUnique(spends: set<Owned<Spend>>) {
    forall s, r :: s in spends && r in spends && s.row.source == r.row.source && s.row.image == r.row.image ==> s == r
  }

  /** The key image table holds exactly the source and image of every stored spend. */
  ghost predicate ImagesAgree(t: Tables) {
    PairsUnique(t.spends) && t.images == ImagesOf(t.spends)
  }

  /** No row is newer than its account's scan height, and no account starts after it. */
  ghost predicate Bounded(t: Tables) {
    && (forall k :: k in t.accounts ==> t.accounts[k].start <= t.accounts[k].scan)
    && (forall o :: o in t.outputs ==> ScannedTo(t, o.user, o.row.link.height))
    && (forall s :: s in t.spends ==> ScannedTo(t, s.user, s.row.link.height))
  }

  ghost predicate ScannedTo(t: Tables, u: AccountId, height: nat) {
    exists k :: k in t.accounts && k.id == u && height <= t.accounts[k].scan
  }

  ghost predicate Consistent(t: Tables) {
    Indexed(t) && ImagesAgree(t) && Bounded(t)
  }

  // ----- Blocks -----

  predicate IsTip(heights: set<nat>, n: nat) {
    n in heights && forall m :: m in heights ==> m <= n
  }

  lemma {:induction false} TipExists(heights: set<nat>)
    requires heights != {}
    ensures exists n :: IsTip(heights, n)
    decreases heights
  {
    var n :| n in heights;
    if heights == {n} {
      assert IsTip(heights, n);
    } else {
      assert heights == (heights - {n}) + {n};
      TipExists(heights - {n});
      var m :| IsTip(heights - {n}, m);
      assert IsTip(heights, if m < n then n else m);
    }
  }

  ghost function Tip(blocks: map<nat, Hash>): nat
    requires blocks != map[]
    ensures IsTip(blocks.Keys, Tip(blocks))
  {
    assert blocks.Keys != {};
    TipExists(blocks.Keys);
    var n :| IsTip(blocks.Keys, n);
    n
  }

  /** `MDB_NEXT_DUP`: the next stored height. */
  predicate IsNext(heights: set<nat>, k: nat, n: nat) {
    n in heights && k < n && forall m :: m in heights && k < m ==> n <= m
  }

  lemma {:induction false} NextExists(heights: set<nat>, k: nat, n: nat)
    requires n in heights && k < n
    ensures exists least :: IsNext(heights, k, least)
    decreases n
  {
    if m :| m in heights && k < m < n {
      NextExists(heights, k, m);
    } else {
      assert IsNext(heights, k, n);
    }
  }

  ghost function NextKey(blocks: map<nat, Hash>, k: nat): (r: Option<nat>)
    ensures r == None <==> forall n :: n in blocks ==> n <= k
    ensures r.Some? ==> IsNext(blocks.Keys, k, r.value)
  {
    if exists n :: n in blocks && k < n then
      var n :| n in blocks && k < n;
      NextExists(blocks.Keys, k, n);
      var least :| IsNext(blocks.Keys, k, least);
      Some(least)
    else None
  }

  /** `append_block_hashes`: consecutive heights from `first`; later hashes overwrite. */
  function Append(blocks: map<nat, Hash>, first: nat, chain: seq<Hash>): (r: map<nat, Hash>)
    ensures forall i :: i in r <==> i in blocks || first <= i < first + |chain|
    ensures forall i :: i in r ==> r[i] == if first <= i < first + |chain| then chain[i - first] else blocks[i]
    decreases |chain|
  {
    if chain == [] then blocks else Append(blocks[first := chain[0]], first + 1, chain[1..])
  }

  /** `append_pow`: rows that are stored already win. */
  function AppendPow(pows: map<nat, nat>, first: nat, chain: seq<nat>): (r: map<nat, nat>)
    ensures forall i :: i in r <==> i in pows || first <= i < first + |chain|
    ensures forall i :: i in r ==> r[i] == if i in pows then pows[i] else chain[i - first]
    decreases |chain|
  {
    if chain == [] then pows
    else AppendPow(if first in pows then pows else pows[first := chain[0]], first + 1, chain[1..])
  }

  function Truncate<T>(rows: map<nat, T>, h: nat): map<nat, T> {
    map i | i in rows && i < h :: rows[i]
  }

  // ----- Rollback -----

  function RollAccount(a: Account, h: nat): Account {
    a.(scan := Max(h, 1) - 1, start := Min(Max(h, 1) - 1, a.start))
  }

  /** Rows of `height` or more. */
  function OutputsFrom(rows: set<Owned<Output>>, h: nat): set<Owned<Output>> { set o | o in rows && h <= o.row.link.height }

  function SpendsFrom(rows: set<Owned<Spend>>, h: nat): set<Owned<Spend>> { set s | s in rows && h <= s.row.link.height }

  function EventsFrom(rows: set<Owned<W.Event>>, h: nat): set<Owned<W.Event>> { set e | e in rows && h <= e.row.out.link.height }

  function DropOutputs(t: Tables, u: AccountId, h: nat): Tables {
    t.(outputs := t.outputs - set o | o in OutputsFrom(t.outputs, h) && o.user == u)
  }

  function DropSpends(t: Tables, u: AccountId, h: nat): Tables {
    var dropped := set s | s in SpendsFrom(t.spends, h) && s.user == u;
    t.(spends := t.spends - dropped, images := t.images - ImagesOf(dropped))
  }

  function Ids(rows: set<HeightRow>): set<AccountId> { set r | r in rows :: r.id }

  /** The accounts of `rows` rolled back; their height rows wait to be inserted again. */
  function RollRows(t: Tables, rows: set<HeightRow>, h: nat): Tables {
    var dropped := set s | s in SpendsFrom(t.spends, h) && s.user in Ids(rows);
    t.(accounts := map k | k in t.accounts ::
         if RowOf(k, t.accounts[k]) in rows then RollAccount(t.accounts[k], h) else t.accounts[k],
       byHeight := t.byHeight - rows,
       outputs := t.outputs - (set o | o in OutputsFrom(t.outputs, h) && o.user in Ids(rows)),
       spends := t.spends - dropped,
       images := t.images - ImagesOf(dropped))
  }

  function RowsFrom(t: Tables, h: nat): set<HeightRow> { set r | r in t.byHeight && h <= r.height }

  function AtHeight(rows: set<HeightRow>, height: nat): set<HeightRow> {
    set r | r in rows :: HeightRow(height, r.id, r.status)
  }

  function RollbackAccounts(t: Tables, h: nat): Tables {
    var r := RollRows(t, RowsFrom(t, h), h);
    r.(byHeight := r.byHeight + AtHeight(RowsFrom(t, h), Max(h, 1) - 1))
  }

  function RollbackEvents(t: Tables, h: nat): Tables {
    t.(events := t.events - EventsFrom(t.events, h))
  }

  /** `rollback_chain` with the block cursor at `at`: proof-of-work rows go only when one is stored at `h`. */
  function RollbackChain(t: Tables, at: nat, h: nat): Tables {
    var blocks := t.(blocks := Truncate(t.blocks, at), pows := if h in t.pows then Truncate(t.pows, h) else t.pows);
    RollbackEvents(RollbackAccounts(blocks, h), h)
  }

  /** `storage::rollback`. */
  function Rollback(t: Tables, h: nat): Tables {
    if h in t.blocks then RollbackChain(t, h, h) else t
  }

  // ----- Chain synchronisation -----

  /** Where the walk over the stored blocks stopped: ran out, or met a different hash stored at `at`. */
  datatype Fork = Exhausted(current: nat) | Differs(current: nat, at: nat)

  ghost function FindFork(blocks: map<nat, Hash>, at: nat, current: nat, chain: seq<Hash>): Fork
    decreases |chain|
  {
    if chain == [] then Exhausted(current)
    else match NextKey(blocks, at)
      case None => Exhausted(current)
      case Some(n) =>
        if blocks[n] != chain[0] then Differs(current, n) else FindFork(blocks, n, current + 1, chain[1..])
  }

  lemma {:induction false} FindForkBounds(blocks: map<nat, Hash>, at: nat, current: nat, chain: seq<Hash>)
    ensures current <= FindFork(blocks, at, current, chain).current <= current + |chain|
    ensures FindFork(blocks, at, current, chain).Differs? ==> FindFork(blocks, at, current, chain).at in blocks
    decreases |chain|
  {
    if chain != [] && NextKey(blocks, at).Some? {
      FindForkBounds(blocks, NextKey(blocks, at).value, current + 1, chain[1..]);
    }
  }

  /** From the fork on, the daemon's hashes replace the stored blocks. */
  function Adopt(t: Tables, fork: Fork, chain: seq<Hash>): Tables {
    var r := if fork.Differs? then RollbackChain(t, fork.at, fork.current) else t;
    r.(blocks := Append(r.blocks, fork.current, chain))
  }

  /** `storage::sync_chain`, where `checkpoint` is the height of the last checkpoint. */
  ghost function SyncChain(t: Tables, checkpoint: nat, height: nat, hashes: seq<Hash>, regtest: bool): Result<Tables> {
    if hashes == [] then Err(InvalidArgument)
    else if height !in t.blocks then Err(NotFound)
    else if t.blocks[height] != hashes[0] then Err(BadBlockchain)
    else
      FindForkBounds(t.blocks, height, height + 1, hashes[1..]);
      var fork := FindFork(t.blocks, height, height + 1, hashes[1..]);
      if fork.Differs? && !regtest && fork.current <= checkpoint then Err(BadBlockchain)
      else Ok(Adopt(t, fork, hashes[fork.current - height..]))
  }

  // ----- Accounts -----

  predicate IsLastId(accounts: map<AccountKey, Account>, id: AccountId) {
    && (forall k :: k in accounts ==> accounts[k].id <= id)
    && ((id == 0 && accounts == map[]) || exists k :: k in accounts && accounts[k].id == id)
  }

  /** Account ids are 32-bit. */
  function NextId(last: AccountId): AccountId { (last + 1) % UINT32_LIMIT }

  ghost predicate Held(accounts: map<AccountKey, Account>, id: AccountId) {
    exists k :: k in accounts && k.id == id
  }

  /** `add_account` once the last id and the tip are read; `keyValid` tells whether the view key matches. */
  function AddAccount(t: Tables, last: AccountId, tip: nat, address: Address, keyValid: bool, admin: bool): Result<Tables> {
    var next := NextId(last);
    var key := AccountKey(if admin then Hidden else Active, next);
    if !keyValid then Err(BadViewKey)
    else if address.viewPublic in t.byAddress then Err(AccountExists)
    else if exists r :: r in t.byHeight && r.height == tip && r.id == next then Err(AccountExists)
    else if key in t.accounts then Err(AccountExists)
    else Ok(t.(accounts := t.accounts[key := Account(next, address, tip, tip, 0, 0)],
               byAddress := t.byAddress[address.viewPublic := key],
               byHeight := t.byHeight + {HeightRow(tip, next, key.status)}))
  }

  /** One address of `change_status`: the account moves to another status in all three tables. */
  function ChangeOne(t: Tables, status: Status, address: Address): Tables {
    if address.viewPublic !in t.byAddress then t
    else
      var current := t.byAddress[address.viewPublic];
      if current.status == status || current !in t.accounts then t
      else
        var key := AccountKey(status, current.id);
        var user := t.accounts[current];
        t.(accounts := Refile(t.accounts, current, key),
           byAddress := t.byAddress[address.viewPublic := key],
           byHeight := (t.byHeight - {RowOf(current, user)}) + {RowOf(key, user)})
  }

  function ChangeStatus(t: Tables, status: Status, addresses: seq<Address>): Tables {
    if addresses == [] then t
    else ChangeOne(ChangeStatus(t, status, addresses[..|addresses| - 1]), status, addresses[|addresses| - 1])
  }

  function Refile(accounts: map<AccountKey, Account>, from: AccountKey, to: AccountKey): map<AccountKey, Account>
    requires from in accounts
  {
    (accounts - {from})[to := accounts[from]]
  }

  lemma RefileKeyed(accounts: map<AccountKey, Account>, from: AccountKey, to: AccountKey)
    requires Keyed(accounts) && from in accounts && to.id == from.id && to != from
    ensures Keyed(Refile(accounts, from, to)) && to !in accounts
  {
  }

  lemma RefileByHeight(accounts: map<AccountKey, Account>, byHeight: set<HeightRow>, from: AccountKey, to: AccountKey)
    requires Keyed(accounts) && HeightIndexed(accounts, byHeight)
    requires from in accounts && to.id == from.id && to != from
    ensures HeightIndexed(Refile(accounts, from, to), (byHeight - {RowOf(from, accounts[from])}) + {RowOf(to, accounts[from])})
  {
    assert to !in accounts;
  }

  lemma RefileByAddress(accounts: map<AccountKey, Account>, byAddress: map<PublicKey, AccountKey>, from: AccountKey, to: AccountKey)
    requires AddressIndexed(accounts, byAddress)
    requires from in accounts && to !in accounts
    ensures AddressIndexed(Refile(accounts, from, to), byAddress[accounts[from].address.viewPublic := to])
  {
  }

  /** Refiling an account under another status keeps the indexes in agreement. */
  lemma ChangeOneIndexed(t: Tables, status: Status, address: Address)
    requires Indexed(t)
    ensures Indexed(ChangeOne(t, status, address))
  {
    if address.viewPublic in t.byAddress && t.byAddress[address.viewPublic].status != status {
      var from := t.byAddress[address.viewPublic];
      var to := AccountKey(status, from.id);
      RefileKeyed(t.accounts, from, to);
      RefileByHeight(t.accounts, t.byHeight, from, to);
      RefileByAddress(t.accounts, t.byAddress, from, to);
    }
  }

  function RowsAt(rows: set<HeightRow>, height: nat, id: AccountId): set<HeightRow> {
    set r | r in rows && r.height == height && r.id == id
  }

  /** A failed lookahead at or above the height is forgotten. */
  function MovedTo(user: Account, height: nat): Account {
    user.(scan := Min(height, user.scan), start := Min(height, user.start),
          lookaheadFail := if height <= user.lookaheadFail then 0 else user.lookaheadFail)
  }

  /** `change_height` without a lookahead: the height index is filed under `height`, the account under the smaller
      of `height` and its scan height. */
  function ChangeHeight(t: Tables, height: nat, address: Address): Result<Tables> {
    if address.viewPublic !in t.byAddress then Err(AccountNotFound)
    else if t.byAddress[address.viewPublic] !in t.accounts then Err(NotFound)
    else
      var key := t.byAddress[address.viewPublic];
      var user := t.accounts[key];
      var rows := t.byHeight - RowsAt(t.byHeight, user.scan, key.id);
      if RowsAt(t.byHeight, user.scan, key.id) == {} then Err(NotFound)
      else if RowsAt(rows, height, key.id) != {} then Err(AccountExists)
      else
        Ok(DropSpends(DropOutputs(t, key.id, height), key.id, height).(
           accounts := t.accounts[key := MovedTo(user, height)],
           byHeight := rows + {HeightRow(height, key.id, key.status)}))
  }

  function ChangeHeights(t: Tables, height: nat, addresses: seq<Address>): Result<Tables> {
    if addresses == [] then Ok(t)
    else match ChangeHeights(t, height, addresses[..|addresses| - 1])
      case Err(error) => Err(error)
      case Ok(init) =>
        var r := ChangeHeight(init, height, addresses[|addresses| - 1]);
        if r == Err(AccountNotFound) then Ok(init) else r
  }

  /** `storage::rescan`. */
  ghost function Rescan(t: Tables, height: nat, addresses: seq<Address>): Result<Tables> {
    if t.blocks == map[] then Err(NotFound)
    else if Tip(t.blocks) < height then Err(BadHeight)
    else ChangeHeights(t, height, addresses)
  }

  // ----- Check-in of scanned accounts -----

  /** An in-memory account with what the scanner found since `scan`. */
  datatype Scanned = Scanned(id: AccountId, viewPublic: PublicKey, scan: nat, outputs: seq<Output>, spends: seq<Spend>)

  function AddImage(images: set<ImageRow>, row: ImageRow): set<ImageRow> {
    if exists i :: i in images && i.source == row.source && i.image == row.image then images else images + {row}
  }

  function AddImages(images: set<ImageRow>, spends: seq<Spend>): set<ImageRow> {
    if spends == [] then images
    else AddImage(AddImages(images, spends[..|spends| - 1]), ImageOf(spends[|spends| - 1]))
  }

  datatype Location = Missing | Dangling | At(key: AccountKey)

  function Locate(t: Tables, user: Scanned): Location {
    if AccountKey(Active, user.id) in t.accounts then At(AccountKey(Active, user.id))
    else if user.viewPublic !in t.byAddress then Missing
    else
      var key := AccountKey(t.byAddress[user.viewPublic].status, user.id);
      if key in t.accounts then At(key) else Dangling
  }

  /** The stored account is behind the end of the blocks and not behind the scanner's copy. */
  predicate Accepts(a: Account, user: Scanned, last: nat) {
    user.scan <= a.scan < last
  }

  /** The account's events once `check_hooks` added those its new outputs trip. */
  function Tripped(t: Tables, user: Scanned): set<W.Event> {
    Of(t.events, user.id) + W.Triggered(HooksOf(t, user.id), user.outputs)
  }

  /** The first block whose confirmations are still to be sent. */
  function OngoingStart(t: Tables, key: AccountKey, firstNew: nat): nat
    requires key in t.accounts
  {
    Max(firstNew, t.accounts[key].scan + 1)
  }

  /** All rows of an accepted account, when `remaining` are the events that stay. */
  function Stored(t: Tables, key: AccountKey, last: nat, user: Scanned, remaining: set<W.Event>): Tables
    requires key in t.accounts
  {
    var a := t.accounts[key];
    t.(accounts := t.accounts[key := a.(scan := last)],
       byHeight := (t.byHeight - {RowOf(key, a)}) + {HeightRow(last, key.id, key.status)},
       outputs := t.outputs + Own(user.id, InsertOutputs(Of(t.outputs, user.id), user.outputs)),
       spends := t.spends + Own(user.id, InsertSpends(Of(t.spends, user.id), user.spends)),
       images := AddImages(t.images, user.spends),
       events := (t.events - Own(user.id, Of(t.events, user.id))) + Own(user.id, remaining))
  }

  /** The account's events that still wait for confirmations. */
  function Ongoing(t: Tables, key: AccountKey, firstNew: nat, last: nat, user: Scanned): Result<set<W.Event>>
    requires key in t.accounts
  {
    W.Ongoing(HooksOf(t, user.id), InsertOutputs(Of(t.outputs, user.id), user.outputs), Tripped(t, user),
              OngoingStart(t, key, firstNew), last + 1)
  }

  /** The source of every new spend is found, if the account has a spend hook. */
  ghost predicate SpendsFound(t: Tables, user: Scanned) {
    S.AllFound(SpendHooksOf(t, user.id), InsertOutputs(Of(t.outputs, user.id), user.outputs), user.spends)
  }

  ghost function Store(t: Tables, key: AccountKey, firstNew: nat, last: nat, user: Scanned): Result<Tables>
    requires key in t.accounts
  {
    match Ongoing(t, key, firstNew, last, user)
    case Err(error) => Err(error)
    case Ok(remaining) => if SpendsFound(t, user) then Ok(Stored(t, key, last, user, remaining)) else Err(NotFound)
  }

  ghost function UpdateUser(t: Tables, firstNew: nat, last: nat, user: Scanned): Result<Tables> {
    match Locate(t, user)
    case Missing => Ok(t)
    case Dangling => Err(NotFound)
    case At(key) => if Accepts(t.accounts[key], user, last) then Store(t, key, firstNew, last, user) else Ok(t)
  }

  /** Moving one account's scan height and its height row together keeps the indexes in agreement. */
  lemma MoveIndexed(accounts: map<AccountKey, Account>, byHeight: set<HeightRow>, byAddress: map<PublicKey, AccountKey>,
                    key: AccountKey, a: Account)
    requires Keyed(accounts) && HeightIndexed(accounts, byHeight) && AddressIndexed(accounts, byAddress)
    requires key in accounts && a.id == key.id && a.address == accounts[key].address
    ensures Keyed(accounts[key := a]) && AddressIndexed(accounts[key := a], byAddress)
    ensures HeightIndexed(accounts[key := a], (byHeight - {RowOf(key, accounts[key])}) + {RowOf(key, a)})
  {
  }

  lemma UpdateUserIndexed(t: Tables, firstNew: nat, last: nat, user: Scanned)
    requires Indexed(t)
    ensures UpdateUser(t, firstNew, last, user).Ok? ==> Indexed(UpdateUser(t, firstNew, last, user).value)
  {
    if Locate(t, user).At? {
      var key := Locate(t, user).key;
      MoveIndexed(t.accounts, t.byHeight, t.byAddress, key, t.accounts[key].(scan := last));
    }
  }

  /** Whether `update` counts the account as updated. */
  predicate Counted(t: Tables, user: Scanned) {
    Locate(t, user).At? && user.scan <= t.accounts[Locate(t, user).key].scan
  }

  ghost function UpdateUsers(t: Tables, firstNew: nat, last: nat, users: seq<Scanned>): Result<Tables> {
    if users == [] then Ok(t)
    else match UpdateUsers(t, firstNew, last, users[..|users| - 1])
      case Err(error) => Err(error)
      case Ok(init) => UpdateUser(init, firstNew, last, users[|users| - 1])
  }

  /** How many of the accounts the check-in reports as updated. */
  ghost function CountUsers(t: Tables, firstNew: nat, last: nat, users: seq<Scanned>): nat {
    if users == [] then 0
    else
      var init := users[..|users| - 1];
      CountUsers(t, firstNew, last, init) +
      match UpdateUsers(t, firstNew, last, init)
      case Err(_) => 0
      case Ok(r) => if Counted(r, users[|users| - 1]) then 1 else 0
  }

  /** The outcome of the only hash comparison of `update`; `Same` is the end of the part that is stored already. */
  datatype Compared = Reject(error: Error) | Unchecked | Same(height: nat)

  ghost function Compare(blocks: map<nat, Hash>, checkpoint: nat, height: nat, chain: seq<Hash>): (r: Compared)
    requires chain != []
    ensures r.Same? ==> height <= r.height < height + |chain| && r.height in blocks && blocks[r.height] == chain[r.height - height]
  {
    var last := height + |chain| - 1;
    if last < checkpoint then
      if last in blocks && blocks[last] != chain[|chain| - 1] then Reject(BadBlockchain) else Unchecked
    else if blocks == map[] then Reject(NotFound)
    else if Tip(blocks) < height then Reject(BadBlockchain)
    else
      var same := Min(Tip(blocks), last);
      if same !in blocks then Reject(NotFound)
      else if blocks[same] != chain[same - height] then Reject(BlockchainReorg)
      else Same(same)
  }

  function AppendChain(t: Tables, first: nat, chain: seq<Hash>, pow: seq<nat>): Tables {
    t.(blocks := Append(t.blocks, first, chain), pows := AppendPow(t.pows, first, pow))
  }

  /** `remove_prefix`; an empty list stays empty. */
  function Skip(rows: seq<nat>, n: nat): seq<nat> { if n <= |rows| then rows[n..] else [] }

  ghost function ExtendChain(t: Tables, checkpoint: nat, height: nat, chain: seq<Hash>, pow: seq<nat>): Result<Tables>
    requires chain != [] && (pow == [] || |pow| == |chain|)
  {
    var c := Compare(t.blocks, checkpoint, height, chain);
    if c.Reject? then Err(c.error)
    else if c.Unchecked? then Ok(t)
    else Ok(AppendChain(t, c.height + 1, Skip(chain, c.height + 1 - height), Skip(pow, c.height + 1 - height)))
  }

  /** `storage::update`. */
  ghost function Update(t: Tables, checkpoint: nat, height: nat, chain: seq<Hash>, users: seq<Scanned>, pow: seq<nat>): Result<Tables> {
    if users == [] && chain == [] then Ok(t)
    else if chain == [] || (pow != [] && |pow| != |chain|) then Err(InvalidArgument)
    else match ExtendChain(t, checkpoint, height, chain, pow)
      case Err(error) => Err(error)
      case Ok(r) => UpdateUsers(r, height + 1, height + |chain| - 1, users)
  }

  // ----- Notifications -----

  /** What the tables hold for one account, as the webhook protocol sees it. */
  function WatchOf(t: Tables, key: AccountKey): W.Watch
    requires key in t.accounts
  {
    W.Watch(t.accounts[key].scan, Of(t.outputs, key.id), HooksOf(t, key.id), Of(t.events, key.id))
  }

  /** The confirmation numbers that the check-in of `user` sends for event `e` of account `u`. */
  function ToldBy(t: Tables, firstNew: nat, last: nat, user: Scanned, u: AccountId, e: W.Event): seq<nat> {
    var at := Locate(t, user);
    if user.id == u && at.At? && Accepts(t.accounts[at.key], user, last)
    then W.Told(WatchOf(t, at.key), firstNew, W.Batch(last, user.outputs), e) else []
  }

  /** The numbers that the check-ins of `update` send for it, in their order. */
  ghost function ToldAll(t: Tables, firstNew: nat, last: nat, users: seq<Scanned>, u: AccountId, e: W.Event): seq<nat> {
    if users == [] then []
    else
      var init := users[..|users| - 1];
      ToldAll(t, firstNew, last, init, u, e) +
      match UpdateUsers(t, firstNew, last, init)
      case Err(_) => []
      case Ok(r) => ToldBy(r, firstNew, last, users[|users| - 1], u, e)
  }

  /** The numbers a whole `update` sends; a failed one sends nothing. */
  ghost function ToldByUpdate(t: Tables, checkpoint: nat, height: nat, chain: seq<Hash>, users: seq<Scanned>, pow: seq<nat>,
                              u: AccountId, e: W.Event): seq<nat>
  {
    if chain == [] || Update(t, checkpoint, height, chain, users, pow).Err? then []
    else ToldAll(ExtendChain(t, checkpoint, height, chain, pow).value, height + 1, height + |chain| - 1, users, u, e)
  }

  /** How many accounts a whole `update` reports as updated. */
  ghost function CountedByUpdate(t: Tables, checkpoint: nat, height: nat, chain: seq<Hash>, users: seq<Scanned>, pow: seq<nat>): nat {
    if chain == [] || Update(t, checkpoint, height, chain, users, pow).Err? then 0
    else CountUsers(ExtendChain(t, checkpoint, height, chain, pow).value, height + 1, height + |chain| - 1, users)
  }

  /** The numbers a list of notifications holds for one event of one account. */
  function SentTo(log: seq<Owned<W.Confirmation>>, u: AccountId, e: W.Event): seq<nat> {
    if log == [] then []
    else
      var last := log[|log| - 1];
      SentTo(log[..|log| - 1], u, e) + if last.user == u && last.row.event == e then [last.row.number] else []
  }

  function Addressed(u: AccountId, log: seq<W.Confirmation>): seq<Owned<W.Confirmation>> {
    if log == [] then [] else Addressed(u, log[..|log| - 1]) + [Owned(u, log[|log| - 1])]
  }

  lemma {:induction false} SentToAppend(a: seq<Owned<W.Confirmation>>, b: seq<Owned<W.Confirmation>>, u: AccountId, e: W.Event)
    ensures SentTo(a + b, u, e) == SentTo(a, u, e) + SentTo(b, u, e)
  {
    if b == [] {
      assert a + b == a;
    } else {
      assert (a + b)[..|a + b| - 1] == a + b[..|b| - 1];
      SentToAppend(a, b[..|b| - 1], u, e);
    }
  }

  lemma {:induction false} SentToAddressed(owner: AccountId, log: seq<W.Confirmation>, u: AccountId, e: W.Event)
    ensures SentTo(Addressed(owner, log), u, e) == if u == owner then W.Sent(log, e) else []
  {
    if log != [] {
      var init, last := log[..|log| - 1], log[|log| - 1];
      SentToAddressed(owner, init, u, e);
      var all := Addressed(owner, init) + [Owned(owner, last)];
      assert all[..|all| - 1] == Addressed(owner, init);
    }
  }
}
