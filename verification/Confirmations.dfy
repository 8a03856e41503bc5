/** Confirmations over whole runs of the database: the protocol of one account, composed over all accounts of an
    `update` and over all transactions of a run. */
module Confirmations {
  import opened Rows
  import opened Tables
  import opened Agreement
  import opened Recompute
  import W = Webhooks

  /** What the tables hold for an account, whatever its status. */
  ghost function WatchFor(t: Tables, u: AccountId): W.Watch
    requires Held(t.accounts, u)
  {
    var k :| k in t.accounts && k.id == u;
    WatchOf(t, k)
  }

  lemma WatchForKey(t: Tables, k: AccountKey)
    requires Keyed(t.accounts) && k in t.accounts
    ensures Held(t.accounts, k.id) && WatchFor(t, k.id) == WatchOf(t, k)
  {
  }

  lemma HeldKey(t: Tables, u: AccountId) returns (k: AccountKey)
    requires Keyed(t.accounts) && Held(t.accounts, u)
    ensures k in t.accounts && k.id == u && WatchFor(t, u) == WatchOf(t, k)
  {
    k :| k in t.accounts && k.id == u;
    WatchForKey(t, k);
  }

  /** The hook of the event asks for `wanted` confirmations, and the tables show how many were due so far. */
  ghost predicate OnCourse(t: Tables, u: AccountId, e: W.Event, wanted: nat) {
    Held(t.accounts, u) && W.Sound(WatchFor(t, u)) && W.OnTrack(WatchFor(t, u), e, wanted)
  }

  /** An accepted check-in of the account is at its stored height, and reports the event's output when it scanned it. */
  ghost predicate GoodCheckIn(t: Tables, firstNew: nat, last: nat, user: Scanned, u: AccountId, e: W.Event) {
    var at := Locate(t, user);
    user.id == u && at.At? && Accepts(t.accounts[at.key], user, last) ==>
      var w, b := WatchOf(t, at.key), W.Batch(last, user.outputs);
      W.AtStoredHeight(w, b) && W.Faithful(w, b, e) && firstNew <= w.scan + 1
  }

  ghost predicate GoodCheckIns(t: Tables, firstNew: nat, last: nat, users: seq<Scanned>, u: AccountId, e: W.Event) {
    users != [] ==>
      var init := users[..|users| - 1];
      GoodCheckIns(t, firstNew, last, init, u, e) &&
      (UpdateUsers(t, firstNew, last, init).Ok? ==>
         GoodCheckIn(UpdateUsers(t, firstNew, last, init).value, firstNew, last, users[|users| - 1], u, e))
  }

  /** `told` continues the numbers due before with those due afterwards. */
  ghost predicate Continues(t: Tables, told: seq<nat>, r: Tables, u: AccountId, e: W.Event, wanted: nat) {
    && Held(t.accounts, u) && OnCourse(r, u, e, wanted)
    && var height := e.out.link.height;
       W.UpTo(W.Reached(wanted, height, WatchFor(t, u).scan)) + told == W.UpTo(W.Reached(wanted, height, WatchFor(r, u).scan))
  }

  lemma ContinuesTwice(t: Tables, a: seq<nat>, r: Tables, b: seq<nat>, q: Tables, u: AccountId, e: W.Event, wanted: nat)
    requires Continues(t, a, r, u, e, wanted) && Continues(r, b, q, u, e, wanted)
    ensures Continues(t, a + b, q, u, e, wanted)
  {
    hide W.UpTo, W.Reached, OnCourse, WatchFor;
    W.Concatenate(W.UpTo(W.Reached(wanted, e.out.link.height, WatchFor(t, u).scan)), a, b);
  }

  lemma ContinuesSame(t: Tables, r: Tables, u: AccountId, e: W.Event, wanted: nat)
    requires OnCourse(t, u, e, wanted) && Held(r.accounts, u) && WatchFor(r, u) == WatchFor(t, u)
    ensures Continues(t, [], r, u, e, wanted)
  {
    hide W.UpTo, W.Reached, W.Sound, W.OnTrack;
    var told := W.UpTo(W.Reached(wanted, e.out.link.height, WatchFor(t, u).scan));
    assert told + [] == told;
  }

  // ----- One update -----

  /** The check-in of the account itself. */
  lemma OwnCheckIn(t: Tables, firstNew: nat, last: nat, user: Scanned, key: AccountKey, u: AccountId, e: W.Event, wanted: nat)
    requires Indexed(t) && OnCourse(t, u, e, wanted) && GoodCheckIn(t, firstNew, last, user, u, e)
    requires Locate(t, user) == At(key) && Accepts(t.accounts[key], user, last) && key.id == u && user.id == u
    requires Store(t, key, firstNew, last, user).Ok? && Keyed(Store(t, key, firstNew, last, user).value.accounts)
    ensures Continues(t, ToldBy(t, firstNew, last, user, u, e), Store(t, key, firstNew, last, user).value, u, e, wanted)
  {
    hide W.UpTo, W.Reached, W.Sound, W.OnTrack, W.CheckIn, W.Told, W.AtStoredHeight, W.Faithful, HeightIndexed, AddressIndexed,
         SpendsFound, WatchOf;
    WatchForKey(t, key);
    var b := W.Batch(last, user.outputs);
    StoreIsCheckIn(t, key, firstNew, last, user);
    W.CheckInAdvances(WatchOf(t, key), firstNew, b, e, wanted);
    var r := Store(t, key, firstNew, last, user).value;
    WatchForKey(r, key);
    assert W.CheckIn(WatchOf(t, key), firstNew, b).value == WatchOf(r, key);
    CheckInReaches(WatchOf(t, key), firstNew, b);
  }

  lemma CheckInReaches(w: W.Watch, firstNew: nat, b: W.Batch)
    ensures W.CheckIn(w, firstNew, b).Ok? ==> W.CheckIn(w, firstNew, b).value.scan == b.last
  {
  }

  lemma OtherCheckIn(t: Tables, firstNew: nat, last: nat, user: Scanned, key: AccountKey, u: AccountId, e: W.Event, wanted: nat)
    requires Indexed(t) && OnCourse(t, u, e, wanted)
    requires key in t.accounts && key.id == user.id && user.id != u
    requires Store(t, key, firstNew, last, user).Ok? && Keyed(Store(t, key, firstNew, last, user).value.accounts)
    ensures Continues(t, [], Store(t, key, firstNew, last, user).value, u, e, wanted)
  {
    hide W.UpTo, W.Reached, W.Sound, W.OnTrack, HeightIndexed, AddressIndexed, SpendsFound, WatchOf, OnCourse;
    assert Held(t.accounts, u) by { CourseHeld(t, u, e, wanted); }
    var other := HeldKey(t, u);
    StoreSparesOthers(t, key, firstNew, last, user, other);
    var r := Store(t, key, firstNew, last, user).value;
    WatchForKey(r, other);
    ContinuesSame(t, r, u, e, wanted);
  }

  lemma CourseHeld(t: Tables, u: AccountId, e: W.Event, wanted: nat)
    requires OnCourse(t, u, e, wanted)
    ensures Held(t.accounts, u)
  {
  }

  lemma UserContinues(t: Tables, firstNew: nat, last: nat, user: Scanned, u: AccountId, e: W.Event, wanted: nat)
    requires Indexed(t) && OnCourse(t, u, e, wanted) && GoodCheckIn(t, firstNew, last, user, u, e)
    requires UpdateUser(t, firstNew, last, user).Ok?
    ensures Indexed(UpdateUser(t, firstNew, last, user).value)
    ensures Continues(t, ToldBy(t, firstNew, last, user, u, e), UpdateUser(t, firstNew, last, user).value, u, e, wanted)
  {
    hide Store, Continues, OnCourse, GoodCheckIn, WatchOf, W.Told;
    UpdateUserIndexed(t, firstNew, last, user);
    if Locate(t, user).At? && Accepts(t.accounts[Locate(t, user).key], user, last) {
      if user.id == u {
        OwnCheckIn(t, firstNew, last, user, Locate(t, user).key, u, e, wanted);
      } else {
        OtherCheckIn(t, firstNew, last, user, Locate(t, user).key, u, e, wanted);
      }
    } else {
      CourseHeld(t, u, e, wanted);
      ContinuesSame(t, t, u, e, wanted);
    }
  }

  lemma ContinuesOnCourse(t: Tables, told: seq<nat>, r: Tables, u: AccountId, e: W.Event, wanted: nat)
    requires Continues(t, told, r, u, e, wanted)
    ensures OnCourse(r, u, e, wanted)
  {
  }

  lemma {:induction false} UsersContinue(t: Tables, firstNew: nat, last: nat, users: seq<Scanned>, u: AccountId, e: W.Event, wanted: nat)
    requires Indexed(t) && OnCourse(t, u, e, wanted) && GoodCheckIns(t, firstNew, last, users, u, e)
    requires UpdateUsers(t, firstNew, last, users).Ok?
    ensures Indexed(UpdateUsers(t, firstNew, last, users).value)
    ensures Continues(t, ToldAll(t, firstNew, last, users, u, e), UpdateUsers(t, firstNew, last, users).value, u, e, wanted)
  {
    hide Indexed, OnCourse, Continues, GoodCheckIn, UpdateUser, ToldBy;
    if users == [] {
      CourseHeld(t, u, e, wanted);
      ContinuesSame(t, t, u, e, wanted);
    } else {
      var init, user := users[..|users| - 1], users[|users| - 1];
      UsersContinue(t, firstNew, last, init, u, e, wanted);
      var r := UpdateUsers(t, firstNew, last, init).value;
      ContinuesOnCourse(t, ToldAll(t, firstNew, last, init, u, e), r, u, e, wanted);
      UserContinues(r, firstNew, last, user, u, e, wanted);
      ContinuesTwice(t, ToldAll(t, firstNew, last, init, u, e), r, ToldBy(r, firstNew, last, user, u, e),
                     UpdateUser(r, firstNew, last, user).value, u, e, wanted);
    }
  }

  // ----- Runs -----

  ghost function ToldByStep(checkpoint: nat, t: Tables, step: Step, u: AccountId, e: W.Event): seq<nat> {
    match step
    case DoUpdate(height, chain, users, pow) => ToldByUpdate(t, checkpoint, height, chain, users, pow, u, e)
    case _ => []
  }

  /** Updates check the account in at its stored height; syncs, rollbacks and rescans do not touch it. */
  ghost predicate Calm(checkpoint: nat, t: Tables, step: Step, u: AccountId, e: W.Event) {
    match step
    case DoUpdate(height, chain, users, pow) =>
      chain != [] && Update(t, checkpoint, height, chain, users, pow).Ok? ==>
        GoodCheckIns(ExtendChain(t, checkpoint, height, chain, pow).value, height + 1, height + |chain| - 1, users, u, e)
    case DoAddAccount(_, _, _) => true
    case DoChangeStatus(_, _) => true
    case _ =>
      Held(t.accounts, u) ==>
        Held(Next(checkpoint, t, step).accounts, u) && WatchFor(Next(checkpoint, t, step), u) == WatchFor(t, u)
  }

  ghost predicate AllCalm(checkpoint: nat, t: Tables, steps: seq<Step>, u: AccountId, e: W.Event) {
    steps != [] ==>
      && AllCalm(checkpoint, t, steps[..|steps| - 1], u, e)
      && Calm(checkpoint, Run(checkpoint, t, steps[..|steps| - 1]), steps[|steps| - 1], u, e)
  }

  ghost function ToldInRun(checkpoint: nat, t: Tables, steps: seq<Step>, u: AccountId, e: W.Event): seq<nat> {
    if steps == [] then []
    else
      var init := steps[..|steps| - 1];
      ToldInRun(checkpoint, t, init, u, e) + ToldByStep(checkpoint, Run(checkpoint, t, init), steps[|steps| - 1], u, e)
  }

  lemma AddKeepsWatch(t: Tables, last: AccountId, tip: nat, address: Address, keyValid: bool, admin: bool, u: AccountId)
    requires Indexed(t) && Held(t.accounts, u) && !Held(t.accounts, NextId(last))
    requires AddAccount(t, last, tip, address, keyValid, admin).Ok?
    ensures var r := AddAccount(t, last, tip, address, keyValid, admin).value;
      Held(r.accounts, u) && WatchFor(r, u) == WatchFor(t, u)
  {
    hide HeightIndexed, AddressIndexed;
    var r := AddAccount(t, last, tip, address, keyValid, admin).value;
    var k := HeldKey(t, u);
    assert Keyed(r.accounts);
    WatchForKey(r, k);
  }

  lemma ChangeOneKeepsWatch(t: Tables, status: Status, address: Address, u: AccountId)
    requires Indexed(t) && Held(t.accounts, u)
    ensures var r := ChangeOne(t, status, address);
      Indexed(r) && Held(r.accounts, u) && WatchFor(r, u) == WatchFor(t, u)
  {
    hide Indexed, Refile, WatchFor;
    ChangeOneIndexed(t, status, address);
    var r := ChangeOne(t, status, address);
    IndexedKeyed(t);
    IndexedKeyed(r);
    if address.viewPublic in t.byAddress && t.byAddress[address.viewPublic].status != status {
      ChangedTo(t, status, address);
      var from := t.byAddress[address.viewPublic];
      var to := AccountKey(status, from.id);
      Refiled(t.accounts, from, to);
      var k := HeldKey(t, u);
      WatchForKey(r, if k == from then to else k);
    }
  }

  lemma {:induction false} ChangeStatusKeepsWatch(t: Tables, status: Status, addresses: seq<Address>, u: AccountId)
    requires Indexed(t) && Held(t.accounts, u)
    ensures var r := ChangeStatus(t, status, addresses);
      Indexed(r) && Held(r.accounts, u) && WatchFor(r, u) == WatchFor(t, u)
  {
    hide Indexed, WatchFor, ChangeOne;
    if addresses != [] {
      var init := addresses[..|addresses| - 1];
      ChangeStatusKeepsWatch(t, status, init, u);
      ChangeOneKeepsWatch(ChangeStatus(t, status, init), status, addresses[|addresses| - 1], u);
    }
  }

  lemma ExtendKeepsWatch(t: Tables, checkpoint: nat, height: nat, chain: seq<Hash>, pow: seq<nat>, u: AccountId)
    requires chain != [] && (pow == [] || |pow| == |chain|) && Held(t.accounts, u) && Keyed(t.accounts)
    requires ExtendChain(t, checkpoint, height, chain, pow).Ok?
    ensures var r := ExtendChain(t, checkpoint, height, chain, pow).value;
      && Held(r.accounts, u) && WatchFor(r, u) == WatchFor(t, u)
      && (Indexed(t) ==> Indexed(r))
  {
    hide Compare, HeightIndexed, AddressIndexed;
    var r := ExtendChain(t, checkpoint, height, chain, pow).value;
    assert r == t.(blocks := r.blocks, pows := r.pows);
    var k := HeldKey(t, u);
    WatchForKey(r, k);
  }

  lemma UpdateContinues(checkpoint: nat, t: Tables, height: nat, chain: seq<Hash>, users: seq<Scanned>, pow: seq<nat>,
                        u: AccountId, e: W.Event, wanted: nat)
    requires Indexed(t) && OnCourse(t, u, e, wanted)
    requires Calm(checkpoint, t, DoUpdate(height, chain, users, pow), u, e)
    requires chain != [] && Update(t, checkpoint, height, chain, users, pow).Ok?
    ensures Continues(t, ToldByUpdate(t, checkpoint, height, chain, users, pow, u, e),
                      Update(t, checkpoint, height, chain, users, pow).value, u, e, wanted)
  {
    hide Indexed, OnCourse, Continues, GoodCheckIns, ExtendChain, UpdateUsers, ToldAll;
    CourseHeld(t, u, e, wanted);
    assert Keyed(t.accounts) by { IndexedKeyed(t); }
    ExtendKeepsWatch(t, checkpoint, height, chain, pow, u);
    var r := ExtendChain(t, checkpoint, height, chain, pow).value;
    ContinuesSame(t, r, u, e, wanted);
    ContinuesOnCourse(t, [], r, u, e, wanted);
    UsersContinue(r, height + 1, height + |chain| - 1, users, u, e, wanted);
    var told := ToldAll(r, height + 1, height + |chain| - 1, users, u, e);
    ContinuesTwice(t, [], r, told, UpdateUsers(r, height + 1, height + |chain| - 1, users).value, u, e, wanted);
    assert [] + told == told;
  }

  lemma IndexedKeyed(t: Tables)
    requires Indexed(t)
    ensures Keyed(t.accounts)
  {
  }

  lemma StepContinues(w: World, checkpoint: nat, t: Tables, step: Step, u: AccountId, e: W.Event, wanted: nat)
    requires Inv(w, checkpoint, t) && Admissible(w, checkpoint, t, step)
    requires OnCourse(t, u, e, wanted) && Calm(checkpoint, t, step, u, e)
    ensures Continues(t, ToldByStep(checkpoint, t, step, u, e), Next(checkpoint, t, step), u, e, wanted)
  {
    hide CacheExact, Linked, ImagesAgree, Bounded, Indexed, OnCourse, Continues, SyncChain, Update, Rescan, AddAccount, Rollback,
         ChangeStatus, WatchFor, GoodCheckIns, IsChain, AllFaithful, PairsUnique;
    CourseHeld(t, u, e, wanted);
    var r := Next(checkpoint, t, step);
    if Attempt(checkpoint, t, step).Err? {
      ContinuesSame(t, t, u, e, wanted);
    } else {
      match step
      case DoUpdate(height, chain, users, pow) =>
        if chain == [] {
          UpdateNothing(t, checkpoint, height, users, pow);
          ContinuesSame(t, t, u, e, wanted);
        } else {
          UpdateContinues(checkpoint, t, height, chain, users, pow, u, e, wanted);
        }
      case DoAddAccount(address, keyValid, admin) =>
        AddKeepsWatch(t, LastId(t.accounts), Tip(t.blocks), address, keyValid, admin, u);
        ContinuesSame(t, r, u, e, wanted);
      case DoChangeStatus(status, addresses) =>
        ChangeStatusKeepsWatch(t, status, addresses, u);
        ContinuesSame(t, r, u, e, wanted);
      case DoSync(_, _) => ContinuesSame(t, r, u, e, wanted);
      case DoRollback(_) => ContinuesSame(t, r, u, e, wanted);
      case DoRescan(_, _) => ContinuesSame(t, r, u, e, wanted);
    }
  }

  lemma {:induction false} RunContinues(w: World, checkpoint: nat, t: Tables, steps: seq<Step>, u: AccountId, e: W.Event, wanted: nat)
    requires Inv(w, checkpoint, t) && AllAdmissible(w, checkpoint, t, steps)
    requires OnCourse(t, u, e, wanted) && AllCalm(checkpoint, t, steps, u, e)
    ensures Continues(t, ToldInRun(checkpoint, t, steps, u, e), Run(checkpoint, t, steps), u, e, wanted)
  {
    hide Inv, Admissible, Calm, OnCourse, Continues, Next, ToldByStep;
    if steps == [] {
      CourseHeld(t, u, e, wanted);
      ContinuesSame(t, t, u, e, wanted);
    } else {
      var init, step := steps[..|steps| - 1], steps[|steps| - 1];
      RunContinues(w, checkpoint, t, init, u, e, wanted);
      CacheIsRecomputation(w, checkpoint, t, init);
      var r := Run(checkpoint, t, init);
      var told := ToldInRun(checkpoint, t, init, u, e);
      ContinuesOnCourse(t, told, r, u, e, wanted);
      StepContinues(w, checkpoint, r, step, u, e, wanted);
      ContinuesTwice(t, told, r, ToldByStep(checkpoint, r, step, u, e), Next(checkpoint, r, step), u, e, wanted);
    }
  }

  /** Over any run in which syncs, rollbacks and rescans leave the account alone, and whatever other accounts do, an event
      whose output is scanned during the run sends 1, 2, ... in order, each number once, and is removed when it has sent the
      larger of one and what its hook asks for. */
  lemma ConfirmedOnceInRun(w: World, checkpoint: nat, t: Tables, steps: seq<Step>, u: AccountId, e: W.Event, wanted: nat)
    requires Inv(w, checkpoint, t) && AllAdmissible(w, checkpoint, t, steps)
    requires OnCourse(t, u, e, wanted) && AllCalm(checkpoint, t, steps, u, e)
    requires WatchFor(t, u).scan < e.out.link.height
    ensures var r := Run(checkpoint, t, steps);
      && Held(r.accounts, u)
      && ToldInRun(checkpoint, t, steps, u, e) == W.UpTo(W.Reached(wanted, e.out.link.height, WatchFor(r, u).scan))
      && (e.out.link.height + Max(1, wanted) <= WatchFor(r, u).scan + 1 ==>
            ToldInRun(checkpoint, t, steps, u, e) == W.UpTo(Max(1, wanted)) && e !in WatchFor(r, u).events)
  {
    hide Inv, AllAdmissible, AllCalm, Run, W.Sound;
    RunContinues(w, checkpoint, t, steps, u, e, wanted);
    var told := ToldInRun(checkpoint, t, steps, u, e);
    assert W.UpTo(0) + told == told;
  }
}
