/** The stored rows are a cache of what an account owns on the stored chain. This file defines the simple
    recomputation and proves that, after any run of write transactions, the cache is equal to it. */
module Recompute {
  import opened Rows
  import opened Tables
  import opened Agreement
  import W = Webhooks

  datatype Found = Found(outputs: set<Output>, spends: set<Spend>)

  /** The facts about the block chain that the storage layer cannot see: a hash fixes its parent and its height,
      and the scanner finds rows in a block, given what it found for the account before. */
  datatype World = World(prev: Hash -> Hash, heightOf: Hash -> nat, scan: (AccountId, Hash, Found) -> Found)

  // ----- The recomputation -----

  /** Every row carries the height of its block. */
  function AtBlock(w: World, u: AccountId, height: nat, hash: Hash, known: Found): Found {
    var f := w.scan(u, hash, known);
    Found(set o | o in f.outputs && o.link.height == height, set s | s in f.spends && s.link.height == height)
  }

  /** What the account owns in the blocks of (start, h], scanned one block after the other. */
  function Recomputed(w: World, u: AccountId, blocks: map<nat, Hash>, start: nat, h: nat): Found {
    if h <= start then Found({}, {})
    else
      var known := Recomputed(w, u, blocks, start, h - 1);
      if h !in blocks then known
      else
        var f := AtBlock(w, u, h, blocks[h], known);
        Found(known.outputs + f.outputs, known.spends + f.spends)
  }

  lemma {:induction false} RecomputedBounds(w: World, u: AccountId, blocks: map<nat, Hash>, start: nat, h: nat)
    ensures forall o :: o in Recomputed(w, u, blocks, start, h).outputs ==> start < o.link.height <= h
    ensures forall s :: s in Recomputed(w, u, blocks, start, h).spends ==> start < s.link.height <= h
  {
    if start < h {
      RecomputedBounds(w, u, blocks, start, h - 1);
    }
  }

  ghost predicate SameAt(a: map<nat, Hash>, b: map<nat, Hash>, i: nat) {
    (i in a <==> i in b) && (i in a ==> a[i] == b[i])
  }

  ghost predicate AgreeOn(a: map<nat, Hash>, b: map<nat, Hash>, from: nat, to: nat) {
    forall i :: from <= i <= to ==> SameAt(a, b, i)
  }

  lemma {:induction false} RecomputedAgrees(w: World, u: AccountId, a: map<nat, Hash>, b: map<nat, Hash>, start: nat, h: nat)
    requires AgreeOn(a, b, start + 1, h)
    ensures Recomputed(w, u, a, start, h) == Recomputed(w, u, b, start, h)
  {
    if start < h {
      assert SameAt(a, b, h);
      RecomputedAgrees(w, u, a, b, start, h - 1);
    }
  }

  /** Rows below a height are what is recomputed below it. */
  lemma {:induction false} RecomputedBelow(w: World, u: AccountId, blocks: map<nat, Hash>, start: nat, h: nat, below: nat)
    requires below <= h
    ensures Recomputed(w, u, blocks, start, below).outputs ==
            set o | o in Recomputed(w, u, blocks, start, h).outputs && o.link.height <= below
    ensures Recomputed(w, u, blocks, start, below).spends ==
            set s | s in Recomputed(w, u, blocks, start, h).spends && s.link.height <= below
  {
    RecomputedBounds(w, u, blocks, start, h);
    if start < h && below < h {
      RecomputedBelow(w, u, blocks, start, h - 1, below);
      RecomputedBounds(w, u, blocks, start, h - 1);
    }
  }

  // ----- What holds between transactions -----

  /** Above the last checkpoint the blocks are contiguous and hash-linked. */
  ghost predicate Linked(w: World, checkpoint: nat, blocks: map<nat, Hash>) {
    && checkpoint in blocks
    && (forall h :: h in blocks ==> w.heightOf(blocks[h]) == h)
    && (forall h :: h in blocks && checkpoint < h ==> h - 1 in blocks && w.prev(blocks[h]) == blocks[h - 1])
  }

  /** Hashes a daemon or scanner supplies from `height` on are consecutive blocks of one chain. */
  ghost predicate IsChain(w: World, height: nat, hashes: seq<Hash>) {
    && (forall i :: 0 <= i < |hashes| ==> w.heightOf(hashes[i]) == height + i)
    && (forall i :: 0 < i < |hashes| ==> w.prev(hashes[i]) == hashes[i - 1])
  }

  /** The account's stored rows are the recomputed ones. */
  ghost predicate Exact(w: World, t: Tables, a: Account) {
    && a.scan in t.blocks
    && Of(t.outputs, a.id) == Recomputed(w, a.id, t.blocks, a.start, a.scan).outputs
    && Of(t.spends, a.id) == Recomputed(w, a.id, t.blocks, a.start, a.scan).spends
  }

  /** Every account that started at or above the last checkpoint has exact rows. */
  ghost predicate CacheExact(w: World, checkpoint: nat, t: Tables) {
    forall k :: k in t.accounts && checkpoint <= t.accounts[k].start ==> Exact(w, t, t.accounts[k])
  }

  ghost predicate Inv(w: World, checkpoint: nat, t: Tables) {
    Consistent(t) && Linked(w, checkpoint, t.blocks) && CacheExact(w, checkpoint, t)
  }

  /** Two hash-linked chains that agree at one height agree below it, down to the last checkpoint. */
  lemma {:induction false} AgreeBelow(w: World, checkpoint: nat, blocks: map<nat, Hash>, height: nat, chain: seq<Hash>, at: nat, i: nat)
    requires Linked(w, checkpoint, blocks) && IsChain(w, height, chain)
    requires height <= i <= at < height + |chain| && checkpoint <= i
    requires at in blocks && blocks[at] == chain[at - height]
    ensures i in blocks && blocks[i] == chain[i - height]
    decreases at - i
  {
    if i < at {
      AgreeBelow(w, checkpoint, blocks, height, chain, at, i + 1);
      assert w.prev(chain[i + 1 - height]) == chain[i - height];
    }
  }

  lemma {:induction false} Contiguous(w: World, checkpoint: nat, blocks: map<nat, Hash>, at: nat, i: nat)
    requires Linked(w, checkpoint, blocks) && at in blocks && checkpoint <= i <= at
    ensures i in blocks
    decreases at - i
  {
    if i < at {
      Contiguous(w, checkpoint, blocks, at, i + 1);
    }
  }

  // ----- Rollback -----

  lemma RollbackExactAccount(w: World, t: Tables, r: Tables, h: nat, a: Account)
    requires Exact(w, t, a) && 0 < h
    requires r.outputs == t.outputs - OutputsFrom(t.outputs, h) && r.spends == t.spends - SpendsFrom(t.spends, h)
    requires r.blocks == Truncate(t.blocks, h) && (h <= a.scan ==> h - 1 in t.blocks)
    ensures Exact(w, r, if a.scan < h then a else RollAccount(a, h))
  {
    var b := if a.scan < h then a else RollAccount(a, h);
    RecomputedBounds(w, a.id, t.blocks, a.start, a.scan);
    RecomputedBelow(w, a.id, t.blocks, a.start, a.scan, b.scan);
    RecomputedAgrees(w, a.id, t.blocks, r.blocks, a.start, b.scan);
  }

  lemma RollbackKeepsInv(w: World, checkpoint: nat, t: Tables, h: nat)
    requires Inv(w, checkpoint, t) && checkpoint < h && h - 1 in t.blocks
    ensures Inv(w, checkpoint, RollbackChain(t, h, h))
  {
    hide Consistent, Exact;
    RollbackIsExact(t, h);
    var r := RollbackChain(t, h, h);
    assert r.blocks == Truncate(t.blocks, h);
    hide RollbackChain;
    forall k | k in r.accounts && checkpoint <= r.accounts[k].start ensures Exact(w, r, r.accounts[k]) {
      RollbackExactAccount(w, t, r, h, t.accounts[k]);
    }
  }

  // ----- Chain synchronisation -----

  lemma SameRowsConsistent(t: Tables, r: Tables)
    requires Consistent(t) && r == t.(blocks := r.blocks, pows := r.pows)
    ensures Consistent(r)
  {
    assert forall u, height: nat :: ScannedTo(t, u, height) ==> ScannedTo(r, u, height);
  }

  /** Growing the blocks above every scan height changes no recomputation. */
  lemma ExtendKeepsInv(w: World, checkpoint: nat, t: Tables, first: nat, chain: seq<Hash>, r: Tables)
    requires Inv(w, checkpoint, t) && checkpoint < first && first - 1 in t.blocks
    requires forall i :: i in t.blocks ==> i < first
    requires chain == [] || (IsChain(w, first, chain) && w.prev(chain[0]) == t.blocks[first - 1])
    requires r == t.(blocks := Append(t.blocks, first, chain), pows := r.pows)
    ensures Inv(w, checkpoint, r)
  {
    SameRowsConsistent(t, r);
    hide Consistent;
    forall h | h in r.blocks && checkpoint < h ensures h - 1 in r.blocks && w.prev(r.blocks[h]) == r.blocks[h - 1] {
      if first < h { assert w.prev(chain[h - first]) == chain[h - first - 1]; }
    }
    forall k | k in r.accounts && checkpoint <= r.accounts[k].start ensures Exact(w, r, r.accounts[k]) {
      var a := t.accounts[k];
      assert Exact(w, t, a);
      RecomputedAgrees(w, a.id, t.blocks, r.blocks, a.start, a.scan);
    }
  }

  /** The walk passed only stored blocks with the daemon's hash at the same height, and it stopped at the end of the
      stored blocks, at the end of the daemon's, or (above the last checkpoint) at the first height that differs. */
  ghost predicate Aligned(checkpoint: nat, blocks: map<nat, Hash>, first: nat, chain: seq<Hash>, fork: Fork) {
    && first <= fork.current <= first + |chain|
    && (forall i :: first <= i < fork.current ==> i in blocks && blocks[i] == chain[i - first])
    && (fork.Exhausted? && fork.current < first + |chain| ==> forall i :: i in blocks ==> i < fork.current)
    && (fork.Differs? ==> fork.current < first + |chain|)
    && (fork.Differs? && checkpoint < fork.current ==>
          fork.at == fork.current && fork.at in blocks && blocks[fork.at] != chain[fork.at - first])
  }

  lemma NextIsAdjacent(w: World, checkpoint: nat, blocks: map<nat, Hash>, at: nat)
    requires Linked(w, checkpoint, blocks) && checkpoint <= at
    ensures NextKey(blocks, at).Some? ==> NextKey(blocks, at).value == at + 1
  {
    if NextKey(blocks, at).Some? {
      assert NextKey(blocks, at).value - 1 in blocks;
    }
  }

  /** One stored block with the daemon's hash at the same height is passed. */
  lemma ForkPasses(blocks: map<nat, Hash>, at: nat, chain: seq<Hash>)
    requires chain != [] && NextKey(blocks, at) == Some(at + 1) && blocks[at + 1] == chain[0]
    ensures FindFork(blocks, at, at + 1, chain) == FindFork(blocks, at + 1, at + 2, chain[1..])
  {
  }

  lemma ForkStops(w: World, checkpoint: nat, blocks: map<nat, Hash>, at: nat, chain: seq<Hash>)
    requires Linked(w, checkpoint, blocks)
    requires chain == [] || NextKey(blocks, at) == None || blocks[NextKey(blocks, at).value] != chain[0]
    ensures Aligned(checkpoint, blocks, at + 1, chain, FindFork(blocks, at, at + 1, chain))
  {
    if checkpoint <= at {
      NextIsAdjacent(w, checkpoint, blocks, at);
    }
  }

  /** A stored block with the daemon's hash is the next one, and what follows it is again a chain. */
  lemma ForkNext(w: World, checkpoint: nat, blocks: map<nat, Hash>, at: nat, chain: seq<Hash>)
    requires Linked(w, checkpoint, blocks) && IsChain(w, at + 1, chain) && chain != []
    requires NextKey(blocks, at).Some? && blocks[NextKey(blocks, at).value] == chain[0]
    ensures NextKey(blocks, at) == Some(at + 1) && at + 1 in blocks && blocks[at + 1] == chain[0]
    ensures IsChain(w, at + 2, chain[1..])
  {
    assert w.heightOf(chain[0]) == at + 1;
    TailIsChain(w, at + 1, chain, 1);
    hide IsChain, NextKey;
    assert NextKey(blocks, at).value in blocks;
  }

  lemma {:induction false} ForkAligned(w: World, checkpoint: nat, blocks: map<nat, Hash>, at: nat, chain: seq<Hash>)
    requires Linked(w, checkpoint, blocks) && IsChain(w, at + 1, chain) && at in blocks
    ensures Aligned(checkpoint, blocks, at + 1, chain, FindFork(blocks, at, at + 1, chain))
    decreases |chain|
  {
    hide Linked, IsChain, Aligned, FindFork, NextKey;
    if chain != [] && NextKey(blocks, at).Some? && blocks[NextKey(blocks, at).value] == chain[0] {
      ForkNext(w, checkpoint, blocks, at, chain);
      ForkPasses(blocks, at, chain);
      ForkAligned(w, checkpoint, blocks, at + 1, chain[1..]);
      AlignedCons(checkpoint, blocks, at + 1, chain, FindFork(blocks, at + 1, at + 2, chain[1..]));
    } else {
      ForkStops(w, checkpoint, blocks, at, chain);
    }
  }

  lemma AlignedCons(checkpoint: nat, blocks: map<nat, Hash>, first: nat, chain: seq<Hash>, fork: Fork)
    requires chain != [] && first in blocks && blocks[first] == chain[0]
    requires Aligned(checkpoint, blocks, first + 1, chain[1..], fork)
    ensures Aligned(checkpoint, blocks, first, chain, fork) && first < fork.current
  {
    forall i | first <= i < fork.current ensures i in blocks && blocks[i] == chain[i - first] {
      if first < i { assert blocks[i] == chain[1..][i - first - 1]; }
    }
  }

  lemma TailIsChain(w: World, height: nat, hashes: seq<Hash>, n: nat)
    requires IsChain(w, height, hashes) && n <= |hashes|
    ensures IsChain(w, height + n, hashes[n..])
    ensures 0 < n < |hashes| ==> w.prev(hashes[n..][0]) == hashes[n - 1]
  {
    forall i | 0 <= i < |hashes| - n ensures w.heightOf(hashes[n..][i]) == height + n + i {
      assert hashes[n..][i] == hashes[n + i];
    }
    forall i | 0 < i < |hashes| - n ensures w.prev(hashes[n..][i]) == hashes[n..][i - 1] {
      assert hashes[n..][i] == hashes[n + i];
    }
  }

  /** The stored blocks contradict the daemon somewhere. */
  ghost predicate Contradicts(blocks: map<nat, Hash>, height: nat, hashes: seq<Hash>) {
    exists i :: height <= i < height + |hashes| && i in blocks && blocks[i] != hashes[i - height]
  }

  /** A successful `sync_chain` outside regtest leaves the daemon's hash at every supplied height, keeps the stored
      blocks below, and never touches a block at or below the last checkpoint. Nothing is lost unless a stored
      block contradicts the daemon; then the daemon's last hash is the new tip. */
  ghost predicate Synced(checkpoint: nat, t: Tables, r: Tables, height: nat, hashes: seq<Hash>) {
    && (forall i :: height <= i < height + |hashes| ==> i in r.blocks && r.blocks[i] == hashes[i - height])
    && AgreeOn(t.blocks, r.blocks, 0, checkpoint) && (0 < height ==> AgreeOn(t.blocks, r.blocks, 0, height - 1))
    && (if Contradicts(t.blocks, height, hashes)
        then forall i :: i in r.blocks ==> i < height + |hashes|
        else (forall i :: i in t.blocks ==> SameAt(t.blocks, r.blocks, i)) && r == t.(blocks := r.blocks))
  }

  lemma AdoptSynced(checkpoint: nat, t: Tables, height: nat, hashes: seq<Hash>, fork: Fork)
    requires Aligned(checkpoint, t.blocks, height, hashes, fork) && height < fork.current
    requires fork.Differs? ==> checkpoint < fork.current
    requires checkpoint in t.blocks
    ensures Synced(checkpoint, t, Adopt(t, fork, hashes[fork.current - height..]), height, hashes)
  {
    var r := Adopt(t, fork, hashes[fork.current - height..]);
    if fork.Differs? {
      assert Contradicts(t.blocks, height, hashes);
    }
  }

  lemma SyncChainKeepsInv(w: World, checkpoint: nat, t: Tables, height: nat, hashes: seq<Hash>)
    requires Inv(w, checkpoint, t) && IsChain(w, height, hashes)
    requires SyncChain(t, checkpoint, height, hashes, false).Ok?
    ensures Inv(w, checkpoint, SyncChain(t, checkpoint, height, hashes, false).value)
    ensures Synced(checkpoint, t, SyncChain(t, checkpoint, height, hashes, false).value, height, hashes)
  {
    hide Consistent, CacheExact, Adopt, Synced, Aligned, FindFork, IsChain;
    var fork := FindFork(t.blocks, height, height + 1, hashes[1..]);
    TailIsChain(w, height, hashes, 1);
    ForkAligned(w, checkpoint, t.blocks, height, hashes[1..]);
    AlignedCons(checkpoint, t.blocks, height, hashes, fork);
    AdoptSynced(checkpoint, t, height, hashes, fork);
    AdoptKeepsInv(w, checkpoint, t, height, hashes, fork);
  }

  lemma AdoptKeepsInv(w: World, checkpoint: nat, t: Tables, height: nat, hashes: seq<Hash>, fork: Fork)
    requires Inv(w, checkpoint, t) && IsChain(w, height, hashes)
    requires Aligned(checkpoint, t.blocks, height, hashes, fork) && height < fork.current
    requires fork.Differs? ==> checkpoint < fork.current
    ensures Inv(w, checkpoint, Adopt(t, fork, hashes[fork.current - height..]))
  {
    var current := fork.current;
    var rest := hashes[current - height..];
    var r := Adopt(t, fork, rest);
    assert current - 1 in t.blocks && t.blocks[current - 1] == hashes[current - 1 - height];
    TailIsChain(w, height, hashes, current - height);
    if fork.Differs? {
      RollbackKeepsInv(w, checkpoint, t, current);
      ExtendKeepsInv(w, checkpoint, RollbackChain(t, current, current), current, rest, r);
    } else if rest == [] {
      assert r.blocks == t.blocks;
      assert r == t;
    } else {
      ExtendKeepsInv(w, checkpoint, t, current, rest, r);
    }
  }

  // ----- Check-in of scanned accounts -----

  /** The stored blocks with the scanner's chain written over them. */
  function Overlay(blocks: map<nat, Hash>, height: nat, chain: seq<Hash>): map<nat, Hash> {
    Append(blocks, height, chain)
  }

  /** `update` compares one hash, yet every block above the last checkpoint ends up as the scanner saw it. */
  lemma ExtendedIsOverlay(w: World, checkpoint: nat, blocks: map<nat, Hash>, height: nat, chain: seq<Hash>, same: nat)
    requires Linked(w, checkpoint, blocks) && IsChain(w, height, chain)
    requires height <= same < height + |chain| && same in blocks && blocks[same] == chain[same - height]
    ensures AgreeOn(Append(blocks, same + 1, Skip(chain, same + 1 - height)), Overlay(blocks, height, chain),
                    checkpoint, height + |chain| - 1)
  {
    var a := Append(blocks, same + 1, Skip(chain, same + 1 - height));
    var b := Overlay(blocks, height, chain);
    hide Linked, IsChain;
    forall i: nat | checkpoint <= i < height + |chain| ensures SameAt(a, b, i) {
      if height <= i <= same {
        AgreeBelow(w, checkpoint, blocks, height, chain, same, i);
      }
      SkipAt(blocks, height, chain, same, i);
    }
  }

  /** Above `same` both write the scanner's hash, and below `height` neither writes. */
  lemma SkipAt(blocks: map<nat, Hash>, height: nat, chain: seq<Hash>, same: nat, i: nat)
    requires height <= same < height + |chain| && i < height + |chain|
    requires height <= i <= same ==> i in blocks && blocks[i] == chain[i - height]
    ensures SameAt(Append(blocks, same + 1, Skip(chain, same + 1 - height)), Overlay(blocks, height, chain), i)
  {
  }

  lemma AppendKeepsInv(w: World, checkpoint: nat, t: Tables, height: nat, chain: seq<Hash>, pow: seq<nat>, same: nat)
    requires Inv(w, checkpoint, t) && IsChain(w, height, chain) && checkpoint <= same
    requires height <= same < height + |chain| && same in t.blocks && t.blocks[same] == chain[same - height]
    requires same + 1 == height + |chain| || forall i :: i in t.blocks ==> i <= same
    ensures Inv(w, checkpoint, AppendChain(t, same + 1, Skip(chain, same + 1 - height), pow))
  {
    hide Consistent, CacheExact, Linked, IsChain;
    var rest := Skip(chain, same + 1 - height);
    var r := AppendChain(t, same + 1, rest, pow);
    TailIsChain(w, height, chain, same + 1 - height);
    if rest == [] {
      assert r.blocks == t.blocks;
      SameBlocksKeepInv(w, checkpoint, t, r);
    } else {
      ExtendKeepsInv(w, checkpoint, t, same + 1, rest, r);
    }
  }

  lemma ComparedBounds(w: World, checkpoint: nat, blocks: map<nat, Hash>, height: nat, chain: seq<Hash>)
    requires Linked(w, checkpoint, blocks) && chain != []
    ensures var c := Compare(blocks, checkpoint, height, chain); c.Same? ==>
      checkpoint <= c.height && (c.height + 1 == height + |chain| || forall i :: i in blocks ==> i <= c.height)
    ensures Compare(blocks, checkpoint, height, chain).Unchecked? <==>
      height + |chain| <= checkpoint && !(height + |chain| - 1 in blocks && blocks[height + |chain| - 1] != chain[|chain| - 1])
  {
  }

  /** Only blocks and proof-of-work rows above the last checkpoint are added, and the blocks are the scanner's. */
  ghost predicate Extended(checkpoint: nat, t: Tables, r: Tables, height: nat, chain: seq<Hash>) {
    && r == t.(blocks := r.blocks, pows := r.pows)
    && AgreeOn(t.blocks, r.blocks, 0, checkpoint)
    && (checkpoint < height + |chain| ==>
          height + |chain| - 1 in r.blocks && AgreeOn(r.blocks, Overlay(t.blocks, height, chain), checkpoint, height + |chain| - 1))
  }

  lemma AppendExtends(w: World, checkpoint: nat, t: Tables, height: nat, chain: seq<Hash>, pow: seq<nat>, same: nat)
    requires Linked(w, checkpoint, t.blocks) && IsChain(w, height, chain) && checkpoint <= same
    requires height <= same < height + |chain| && same in t.blocks && t.blocks[same] == chain[same - height]
    ensures Extended(checkpoint, t, AppendChain(t, same + 1, Skip(chain, same + 1 - height), pow), height, chain)
  {
    ExtendedIsOverlay(w, checkpoint, t.blocks, height, chain, same);
  }

  lemma ExtendSameKeepsInv(w: World, checkpoint: nat, t: Tables, height: nat, chain: seq<Hash>, pow: seq<nat>)
    requires Inv(w, checkpoint, t) && IsChain(w, height, chain) && chain != [] && (pow == [] || |pow| == |chain|)
    requires Compare(t.blocks, checkpoint, height, chain).Same?
    ensures ExtendChain(t, checkpoint, height, chain, pow).Ok?
    ensures Inv(w, checkpoint, ExtendChain(t, checkpoint, height, chain, pow).value)
    ensures Extended(checkpoint, t, ExtendChain(t, checkpoint, height, chain, pow).value, height, chain)
  {
    hide Consistent, CacheExact, IsChain, Linked, Compare, Extended, AppendChain, Skip;
    ComparedBounds(w, checkpoint, t.blocks, height, chain);
    var compared := Compare(t.blocks, checkpoint, height, chain);
    AppendExtends(w, checkpoint, t, height, chain, Skip(pow, compared.height + 1 - height), compared.height);
    AppendKeepsInv(w, checkpoint, t, height, chain, Skip(pow, compared.height + 1 - height), compared.height);
  }

  lemma ExtendChainKeepsInv(w: World, checkpoint: nat, t: Tables, height: nat, chain: seq<Hash>, pow: seq<nat>)
    requires Inv(w, checkpoint, t) && IsChain(w, height, chain) && chain != [] && (pow == [] || |pow| == |chain|)
    requires ExtendChain(t, checkpoint, height, chain, pow).Ok?
    ensures Inv(w, checkpoint, ExtendChain(t, checkpoint, height, chain, pow).value)
    ensures Extended(checkpoint, t, ExtendChain(t, checkpoint, height, chain, pow).value, height, chain)
  {
    var compared := Compare(t.blocks, checkpoint, height, chain);
    if compared.Same? {
      ExtendSameKeepsInv(w, checkpoint, t, height, chain, pow);
    } else {
      assert ExtendChain(t, checkpoint, height, chain, pow).value == t;
    }
  }

  lemma SameBlocksKeepInv(w: World, checkpoint: nat, t: Tables, r: Tables)
    requires Inv(w, checkpoint, t) && r == t.(pows := r.pows)
    ensures Inv(w, checkpoint, r)
  {
    forall k | k in r.accounts && checkpoint <= r.accounts[k].start ensures Exact(w, r, r.accounts[k]) {
      assert Exact(w, t, t.accounts[k]);
    }
  }

  /** The rows of a scanned account are what the recomputation finds after its scan height. */
  ghost predicate FaithfulFrom(w: World, start: nat, blocks: map<nat, Hash>, last: nat, user: Scanned) {
    var all := Recomputed(w, user.id, blocks, start, last);
    && KeysDistinct(all.outputs) && SpendKeysDistinct(all.spends)
    && (forall o :: o in user.outputs <==> o in all.outputs && user.scan < o.link.height)
    && (forall s :: s in user.spends <==> s in all.spends && user.scan < s.link.height)
  }

  ghost predicate Faithful(w: World, checkpoint: nat, accounts: map<AccountKey, Account>, blocks: map<nat, Hash>, last: nat,
                           user: Scanned) {
    && RowsUpTo(user, last)
    && forall k :: k in accounts && k.id == user.id && checkpoint <= accounts[k].start ==>
         FaithfulFrom(w, accounts[k].start, blocks, last, user)
  }

  /** Only rows after the stored scan height are new, and together with the stored ones they are the recomputation. */
  lemma StoreExact(w: World, t: Tables, key: AccountKey, last: nat, user: Scanned, remaining: set<W.Event>)
    requires key in t.accounts && key.id == user.id && t.accounts[key].id == key.id
    requires Exact(w, t, t.accounts[key]) && Accepts(t.accounts[key], user, last) && last in t.blocks
    requires FaithfulFrom(w, t.accounts[key].start, t.blocks, last, user)
    ensures Exact(w, Stored(t, key, last, user, remaining), t.accounts[key].(scan := last))
  {
    var a := t.accounts[key];
    var r := Stored(t, key, last, user, remaining);
    var all := Recomputed(w, user.id, t.blocks, a.start, last);
    RecomputedBelow(w, user.id, t.blocks, a.start, last, a.scan);
    RecomputedBounds(w, user.id, t.blocks, a.start, last);
    InsertOutputsIsUnion(Of(t.outputs, a.id), user.outputs, all.outputs);
    InsertSpendsIsUnion(Of(t.spends, a.id), user.spends, all.spends);
    assert Of(r.outputs, a.id) == all.outputs;
    assert Of(r.spends, a.id) == all.spends;
  }

  lemma OtherRowsKept(w: World, t: Tables, r: Tables, a: Account)
    requires Exact(w, t, a) && r.blocks == t.blocks
    requires Of(r.outputs, a.id) == Of(t.outputs, a.id) && Of(r.spends, a.id) == Of(t.spends, a.id)
    ensures Exact(w, r, a)
  {
  }

  lemma StoredCacheExact(w: World, checkpoint: nat, t: Tables, key: AccountKey, last: nat, user: Scanned, remaining: set<W.Event>)
    requires CacheExact(w, checkpoint, t) && Keyed(t.accounts) && key in t.accounts && key.id == user.id
    requires Accepts(t.accounts[key], user, last)
    requires checkpoint <= t.accounts[key].start ==> last in t.blocks && FaithfulFrom(w, t.accounts[key].start, t.blocks, last, user)
    ensures CacheExact(w, checkpoint, Stored(t, key, last, user, remaining))
  {
    hide FaithfulFrom, Exact;
    var r := Stored(t, key, last, user, remaining);
    forall k | k in r.accounts && checkpoint <= r.accounts[k].start ensures Exact(w, r, r.accounts[k]) {
      assert Exact(w, t, t.accounts[k]);
      if k == key {
        StoreExact(w, t, key, last, user, remaining);
      } else {
        assert Of(r.outputs, k.id) == Of(t.outputs, k.id);
        assert Of(r.spends, k.id) == Of(t.spends, k.id);
        OtherRowsKept(w, t, r, t.accounts[k]);
      }
    }
  }

  lemma UpdateUserKeepsInv(w: World, checkpoint: nat, t: Tables, firstNew: nat, last: nat, user: Scanned)
    requires Inv(w, checkpoint, t) && (checkpoint <= last ==> last in t.blocks)
    requires Faithful(w, checkpoint, t.accounts, t.blocks, last, user)
    requires UpdateUser(t, firstNew, last, user).Ok? && PairsUnique(UpdateUser(t, firstNew, last, user).value.spends)
    ensures Inv(w, checkpoint, UpdateUser(t, firstNew, last, user).value)
  {
    UpdateUserConsistent(t, firstNew, last, user);
    hide FaithfulFrom, CacheExact, HeightIndexed, AddressIndexed, ImagesAgree, PairsUnique;
    var r := UpdateUser(t, firstNew, last, user).value;
    if Locate(t, user).At? && Accepts(t.accounts[Locate(t, user).key], user, last) {
      var key := Locate(t, user).key;
      StoredCacheExact(w, checkpoint, t, key, last, user, Ongoing(t, key, firstNew, last, user).value);
    }
  }

  /** Check-ins of accounts change no block and no start height. */
  ghost predicate StartsKept(t: Tables, r: Tables) {
    && r.blocks == t.blocks && r.pows == t.pows && t.spends <= r.spends
    && (forall k :: k in r.accounts <==> k in t.accounts)
    && (forall k :: k in t.accounts ==> r.accounts[k].start == t.accounts[k].start)
  }

  lemma {:induction false} UpdateUsersKeepStarts(t: Tables, firstNew: nat, last: nat, users: seq<Scanned>)
    requires UpdateUsers(t, firstNew, last, users).Ok?
    ensures StartsKept(t, UpdateUsers(t, firstNew, last, users).value)
  {
    if users != [] {
      UpdateUsersKeepStarts(t, firstNew, last, users[..|users| - 1]);
    }
  }

  lemma {:induction false} UpdateUsersKeepInv(w: World, checkpoint: nat, t: Tables, firstNew: nat, last: nat, users: seq<Scanned>)
    requires Inv(w, checkpoint, t) && (checkpoint <= last ==> last in t.blocks)
    requires forall user :: user in users ==> Faithful(w, checkpoint, t.accounts, t.blocks, last, user)
    requires UpdateUsers(t, firstNew, last, users).Ok? && PairsUnique(UpdateUsers(t, firstNew, last, users).value.spends)
    ensures Inv(w, checkpoint, UpdateUsers(t, firstNew, last, users).value)
  {
    if users != [] {
      var init, user := users[..|users| - 1], users[|users| - 1];
      var r := UpdateUsers(t, firstNew, last, init).value;
      assert r.spends <= UpdateUsers(t, firstNew, last, users).value.spends;
      UpdateUsersKeepInv(w, checkpoint, t, firstNew, last, init);
      UpdateUsersKeepStarts(t, firstNew, last, init);
      FaithfulKept(w, checkpoint, t, r, last, user);
      UpdateUserKeepsInv(w, checkpoint, r, firstNew, last, user);
    }
  }

  lemma FaithfulKept(w: World, checkpoint: nat, t: Tables, r: Tables, last: nat, user: Scanned)
    requires StartsKept(t, r) && Faithful(w, checkpoint, t.accounts, t.blocks, last, user)
    ensures Faithful(w, checkpoint, r.accounts, r.blocks, last, user)
  {
    forall k | k in r.accounts && k.id == user.id && checkpoint <= r.accounts[k].start
      ensures FaithfulFrom(w, r.accounts[k].start, r.blocks, last, user)
    {
      assert FaithfulFrom(w, t.accounts[k].start, t.blocks, last, user);
    }
  }

  ghost predicate AllFaithful(w: World, checkpoint: nat, t: Tables, height: nat, chain: seq<Hash>, users: seq<Scanned>)
    requires chain != []
  {
    forall user :: user in users ==>
      Faithful(w, checkpoint, t.accounts, Overlay(t.blocks, height, chain), height + |chain| - 1, user)
  }

  lemma FaithfulExtended(w: World, checkpoint: nat, t: Tables, r: Tables, height: nat, chain: seq<Hash>, user: Scanned)
    requires chain != [] && Extended(checkpoint, t, r, height, chain)
    requires Faithful(w, checkpoint, t.accounts, Overlay(t.blocks, height, chain), height + |chain| - 1, user)
    ensures Faithful(w, checkpoint, r.accounts, r.blocks, height + |chain| - 1, user)
  {
    var last := height + |chain| - 1;
    forall k | k in r.accounts && k.id == user.id && checkpoint <= r.accounts[k].start
      ensures FaithfulFrom(w, r.accounts[k].start, r.blocks, last, user)
    {
      assert FaithfulFrom(w, t.accounts[k].start, Overlay(t.blocks, height, chain), last, user);
      if checkpoint <= last {
        RecomputedAgrees(w, user.id, r.blocks, Overlay(t.blocks, height, chain), r.accounts[k].start, last);
      }
    }
  }

  lemma UpdateKeepsInv(w: World, checkpoint: nat, t: Tables, height: nat, chain: seq<Hash>, users: seq<Scanned>, pow: seq<nat>)
    requires Inv(w, checkpoint, t) && IsChain(w, height, chain)
    requires chain != [] && AllFaithful(w, checkpoint, t, height, chain, users)
    requires Update(t, checkpoint, height, chain, users, pow).Ok?
    requires PairsUnique(Update(t, checkpoint, height, chain, users, pow).value.spends)
    ensures Inv(w, checkpoint, Update(t, checkpoint, height, chain, users, pow).value)
    ensures AgreeOn(t.blocks, Update(t, checkpoint, height, chain, users, pow).value.blocks, 0, checkpoint)
  {
    hide Consistent, CacheExact, Linked, IsChain, ExtendChain, UpdateUsers, Faithful, PairsUnique;
    ExtendChainKeepsInv(w, checkpoint, t, height, chain, pow);
    var last := height + |chain| - 1;
    var r := ExtendChain(t, checkpoint, height, chain, pow).value;
    forall user | user in users ensures Faithful(w, checkpoint, r.accounts, r.blocks, last, user) {
      FaithfulExtended(w, checkpoint, t, r, height, chain, user);
    }
    UpdateUsersKeepInv(w, checkpoint, r, height + 1, last, users);
    UpdateUsersKeepStarts(r, height + 1, last, users);
  }

  // ----- Accounts -----

  lemma AddAccountKeepsInv(w: World, checkpoint: nat, t: Tables, last: AccountId, tip: nat, address: Address, keyValid: bool, admin: bool)
    requires Inv(w, checkpoint, t) && !Held(t.accounts, NextId(last)) && tip in t.blocks
    requires AddAccount(t, last, tip, address, keyValid, admin).Ok?
    ensures Inv(w, checkpoint, AddAccount(t, last, tip, address, keyValid, admin).value)
  {
    AddAccountConsistent(t, last, tip, address, keyValid, admin);
    var r := AddAccount(t, last, tip, address, keyValid, admin).value;
    forall k | k in r.accounts && checkpoint <= r.accounts[k].start ensures Exact(w, r, r.accounts[k]) {
      if k in t.accounts {
        assert k.id != NextId(last);
        assert Exact(w, t, t.accounts[k]);
      } else {
        NoRows(t, NextId(last));
      }
    }
  }

  lemma RowOwnersHeld(t: Tables)
    requires Bounded(t)
    ensures forall o :: o in t.outputs ==> Held(t.accounts, o.user)
    ensures forall s :: s in t.spends ==> Held(t.accounts, s.user)
  {
    forall o | o in t.outputs ensures Held(t.accounts, o.user) {
      assert ScannedTo(t, o.user, o.row.link.height);
    }
    forall s | s in t.spends ensures Held(t.accounts, s.user) {
      assert ScannedTo(t, s.user, s.row.link.height);
    }
  }

  lemma NoRows(t: Tables, u: AccountId)
    requires Bounded(t) && !Held(t.accounts, u)
    ensures Of(t.outputs, u) == {} && Of(t.spends, u) == {}
  {
    RowOwnersHeld(t);
  }

  lemma ChangeOneKeepsInv(w: World, checkpoint: nat, t: Tables, status: Status, address: Address)
    requires Inv(w, checkpoint, t)
    ensures Inv(w, checkpoint, ChangeOne(t, status, address))
  {
    hide HeightIndexed, ImagesAgree, Bounded;
    ChangeOneConsistent(t, status, address);
    var r := ChangeOne(t, status, address);
    forall k | k in r.accounts && checkpoint <= r.accounts[k].start ensures Exact(w, r, r.accounts[k]) {
      var from := if k in t.accounts && t.accounts[k] == r.accounts[k] then k else t.byAddress[address.viewPublic];
      assert Exact(w, t, t.accounts[from]);
    }
  }

  lemma {:induction false} ChangeStatusKeepsInv(w: World, checkpoint: nat, t: Tables, status: Status, addresses: seq<Address>)
    requires Inv(w, checkpoint, t)
    ensures Inv(w, checkpoint, ChangeStatus(t, status, addresses))
    ensures ChangeStatus(t, status, addresses).blocks == t.blocks
  {
    if addresses != [] {
      var init := addresses[..|addresses| - 1];
      ChangeStatusKeepsInv(w, checkpoint, t, status, init);
      ChangeOneKeepsInv(w, checkpoint, ChangeStatus(t, status, init), status, addresses[|addresses| - 1]);
    }
  }

  // ----- Rescan -----

  /** No stored output or spend of the account has that height. */
  ghost predicate NoRowAt(t: Tables, u: AccountId, height: nat) {
    (forall o :: o in Of(t.outputs, u) ==> o.link.height != height) && forall s :: s in Of(t.spends, u) ==> s.link.height != height
  }

  /** Moving an exact account to a height at or below its scan height keeps its rows exact if and only if the height
      is not above its start, or the account has no row at that height: such rows are deleted, yet the block counts as
      scanned. */
  lemma ChangeHeightExact(w: World, t: Tables, height: nat, address: Address)
    requires Consistent(t) && address.viewPublic in t.byAddress && height in t.blocks
    requires height <= t.accounts[t.byAddress[address.viewPublic]].scan
    requires Exact(w, t, t.accounts[t.byAddress[address.viewPublic]])
    ensures ChangeHeight(t, height, address).Ok?
    ensures var key := t.byAddress[address.viewPublic]; var r := ChangeHeight(t, height, address).value;
      Exact(w, r, r.accounts[key]) <==> (height <= t.accounts[key].start || NoRowAt(t, key.id, height))
  {
    hide AtBlock, ImagesAgree, HeightIndexed;
    ChangeHeightIndexes(t, height, address);
    var key := t.byAddress[address.viewPublic];
    var a := t.accounts[key];
    var r := ChangeHeight(t, height, address).value;
    RecomputedBounds(w, a.id, t.blocks, a.start, a.scan);
    if a.start < height {
      RecomputedBelow(w, a.id, t.blocks, a.start, a.scan, height);
      assert Of(r.outputs, a.id) == set o | o in Of(t.outputs, a.id) && o.link.height < height;
      assert Of(r.spends, a.id) == set s | s in Of(t.spends, a.id) && s.link.height < height;
      hide Recomputed, ChangeHeight;
      KeptExactly(t, r, a.id, height, Recomputed(w, a.id, t.blocks, a.start, height));
    } else {
      assert Of(r.outputs, a.id) == {};
      assert Of(r.spends, a.id) == {};
    }
  }

  /** Dropping the rows from a height on drops nothing of what was found up to it, if and only if nothing is at it. */
  lemma KeptExactly(t: Tables, r: Tables, u: AccountId, height: nat, f: Found)
    requires Of(r.outputs, u) == set o | o in Of(t.outputs, u) && o.link.height < height
    requires Of(r.spends, u) == set s | s in Of(t.spends, u) && s.link.height < height
    requires f.outputs == set o | o in Of(t.outputs, u) && o.link.height <= height
    requires f.spends == set s | s in Of(t.spends, u) && s.link.height <= height
    ensures Of(r.outputs, u) == f.outputs && Of(r.spends, u) == f.spends <==> NoRowAt(t, u, height)
  {
    if Of(r.outputs, u) == f.outputs && Of(r.spends, u) == f.spends {
      forall o | o in Of(t.outputs, u) ensures o.link.height != height {
        assert o in f.outputs <==> o in Of(r.outputs, u);
      }
      forall s | s in Of(t.spends, u) ensures s.link.height != height {
        assert s in f.spends <==> s in Of(r.spends, u);
      }
    }
  }

  /** Every addressed account restarts at or below its own start height, as `/request_rescan` asks. */
  ghost predicate ToStart(t: Tables, height: nat, addresses: seq<Address>) {
    forall a :: a in addresses && a.viewPublic in t.byAddress && t.byAddress[a.viewPublic] in t.accounts ==>
      height <= t.accounts[t.byAddress[a.viewPublic]].start
  }

  lemma ChangeHeightCacheExact(w: World, checkpoint: nat, t: Tables, height: nat, address: Address)
    requires Consistent(t) && CacheExact(w, checkpoint, t) && (checkpoint <= height ==> height in t.blocks)
    requires address.viewPublic in t.byAddress
    requires height <= t.accounts[t.byAddress[address.viewPublic]].start
    ensures ChangeHeight(t, height, address).Ok?
    ensures CacheExact(w, checkpoint, ChangeHeight(t, height, address).value)
  {
    hide ImagesAgree, HeightIndexed, Exact;
    ChangeHeightIndexes(t, height, address);
    var r := ChangeHeight(t, height, address).value;
    var key := t.byAddress[address.viewPublic];
    forall k | k in r.accounts && checkpoint <= r.accounts[k].start ensures Exact(w, r, r.accounts[k]) {
      assert Exact(w, t, t.accounts[k]);
      if k == key {
        ChangeHeightExact(w, t, height, address);
      } else {
        RowsOfOthers(t, r, height, key.id, k.id);
        OtherRowsKept(w, t, r, t.accounts[k]);
      }
    }
  }

  lemma RowsOfOthers(t: Tables, r: Tables, height: nat, moved: AccountId, other: AccountId)
    requires moved != other
    requires r.outputs == DropOutputs(t, moved, height).outputs && r.spends == DropSpends(t, moved, height).spends
    ensures Of(r.outputs, other) == Of(t.outputs, other) && Of(r.spends, other) == Of(t.spends, other)
  {
  }

  /** `r` differs from `t` only in rows and heights, and start heights were kept or set to `height`. */
  ghost predicate Rewound(t: Tables, r: Tables, height: nat) {
    && r.blocks == t.blocks && r.byAddress == t.byAddress
    && (forall k :: k in t.accounts <==> k in r.accounts)
    && (forall k :: k in t.accounts ==> r.accounts[k].start == t.accounts[k].start || r.accounts[k].start == height)
  }

  lemma ChangeHeightKeepsInv(w: World, checkpoint: nat, t: Tables, height: nat, address: Address)
    requires Inv(w, checkpoint, t) && (checkpoint <= height ==> height in t.blocks)
    requires address.viewPublic in t.byAddress
    requires height <= t.accounts[t.byAddress[address.viewPublic]].start
    ensures ChangeHeight(t, height, address).Ok?
    ensures Inv(w, checkpoint, ChangeHeight(t, height, address).value)
    ensures Rewound(t, ChangeHeight(t, height, address).value, height)
  {
    hide CacheExact, ImagesAgree, Linked;
    ChangeHeightConsistent(t, height, address);
    ChangeHeightCacheExact(w, checkpoint, t, height, address);
  }

  lemma {:induction false} ChangeHeightsKeepInv(w: World, checkpoint: nat, t: Tables, height: nat, addresses: seq<Address>)
    requires Inv(w, checkpoint, t) && (checkpoint <= height ==> height in t.blocks)
    requires ToStart(t, height, addresses)
    ensures ChangeHeights(t, height, addresses).Ok?
    ensures Inv(w, checkpoint, ChangeHeights(t, height, addresses).value)
    ensures Rewound(t, ChangeHeights(t, height, addresses).value, height)
  {
    hide CacheExact, ImagesAgree, Linked, Bounded, HeightIndexed, Keyed, ChangeHeight;
    if addresses != [] {
      var init, last := addresses[..|addresses| - 1], addresses[|addresses| - 1];
      ChangeHeightsKeepInv(w, checkpoint, t, height, init);
      var r := ChangeHeights(t, height, init).value;
      if last.viewPublic in t.byAddress {
        ChangeHeightKeepsInv(w, checkpoint, r, height, last);
      } else {
        UnknownAddress(r, height, last);
      }
    }
  }

  lemma UnknownAddress(t: Tables, height: nat, address: Address)
    requires address.viewPublic !in t.byAddress
    ensures ChangeHeight(t, height, address) == Err(AccountNotFound)
  {
  }

  // ----- Runs -----

  datatype Step =
    | DoAddAccount(address: Address, keyValid: bool, admin: bool)
    | DoChangeStatus(status: Status, addresses: seq<Address>)
    | DoSync(height: nat, hashes: seq<Hash>)
    | DoUpdate(height: nat, chain: seq<Hash>, users: seq<Scanned>, pow: seq<nat>)
    | DoRollback(height: nat)
    | DoRescan(height: nat, addresses: seq<Address>)

  lemma LastIdExists(accounts: map<AccountKey, Account>)
    ensures exists id :: IsLastId(accounts, id)
  {
    var ids := set k | k in accounts :: accounts[k].id;
    if accounts == map[] {
      assert IsLastId(accounts, 0);
    } else {
      var k :| k in accounts;
      assert accounts[k].id in ids;
      TipExists(ids);
      var id :| IsTip(ids, id);
      assert forall k :: k in accounts ==> accounts[k].id in ids;
      assert IsLastId(accounts, id);
    }
  }

  ghost function LastId(accounts: map<AccountKey, Account>): AccountId
    ensures IsLastId(accounts, LastId(accounts))
  {
    LastIdExists(accounts);
    var id :| IsLastId(accounts, id);
    id
  }

  ghost function Attempt(checkpoint: nat, t: Tables, step: Step): Result<Tables> {
    match step
    case DoAddAccount(address, keyValid, admin) =>
      if t.blocks == map[] then Err(NotFound) else AddAccount(t, LastId(t.accounts), Tip(t.blocks), address, keyValid, admin)
    case DoChangeStatus(status, addresses) => Ok(ChangeStatus(t, status, addresses))
    case DoSync(height, hashes) => SyncChain(t, checkpoint, height, hashes, false)
    case DoUpdate(height, chain, users, pow) => Update(t, checkpoint, height, chain, users, pow)
    case DoRollback(height) => Ok(Rollback(t, height))
    case DoRescan(height, addresses) => Rescan(t, height, addresses)
  }

  /** A transaction that fails leaves the tables alone. */
  ghost function Next(checkpoint: nat, t: Tables, step: Step): Tables {
    var r := Attempt(checkpoint, t, step);
    if r.Ok? then r.value else t
  }

  ghost function Run(checkpoint: nat, t: Tables, steps: seq<Step>): Tables {
    if steps == [] then t else Next(checkpoint, Run(checkpoint, t, steps[..|steps| - 1]), steps[|steps| - 1])
  }

  /** What the environment supplies: free account ids, consecutive blocks, faithful scans, no two spends with the same
      source and key image, rollbacks above the last checkpoint and rescans from the start height or below. */
  ghost predicate Admissible(w: World, checkpoint: nat, t: Tables, step: Step) {
    match step
    case DoAddAccount(_, _, _) => !Held(t.accounts, NextId(LastId(t.accounts)))
    case DoChangeStatus(_, _) => true
    case DoSync(height, hashes) => IsChain(w, height, hashes)
    case DoUpdate(height, chain, users, pow) =>
      chain != [] ==>
        (IsChain(w, height, chain) && AllFaithful(w, checkpoint, t, height, chain, users) &&
         PairsUnique(Next(checkpoint, t, step).spends))
    case DoRollback(height) => checkpoint < height
    case DoRescan(height, addresses) => ToStart(t, height, addresses)
  }

  ghost predicate AllAdmissible(w: World, checkpoint: nat, t: Tables, steps: seq<Step>) {
    steps != [] ==>
      && AllAdmissible(w, checkpoint, t, steps[..|steps| - 1])
      && Admissible(w, checkpoint, Run(checkpoint, t, steps[..|steps| - 1]), steps[|steps| - 1])
  }

  lemma RescanKeepsInv(w: World, checkpoint: nat, t: Tables, height: nat, addresses: seq<Address>)
    requires Inv(w, checkpoint, t) && ToStart(t, height, addresses) && Rescan(t, height, addresses).Ok?
    ensures Inv(w, checkpoint, Rescan(t, height, addresses).value) && Rescan(t, height, addresses).value.blocks == t.blocks
  {
    hide Consistent, CacheExact;
    if checkpoint <= height {
      Contiguous(w, checkpoint, t.blocks, Tip(t.blocks), height);
    }
    ChangeHeightsKeepInv(w, checkpoint, t, height, addresses);
  }

  lemma StepKeepsInv(w: World, checkpoint: nat, t: Tables, step: Step)
    requires Inv(w, checkpoint, t) && Admissible(w, checkpoint, t, step)
    ensures Inv(w, checkpoint, Next(checkpoint, t, step))
    ensures AgreeOn(t.blocks, Next(checkpoint, t, step).blocks, 0, checkpoint)
  {
    hide Consistent, CacheExact, IsChain, SyncChain, Update, Rescan, AddAccount, RollbackChain, PairsUnique;
    if Attempt(checkpoint, t, step).Ok? {
      match step
      case DoAddAccount(address, keyValid, admin) =>
        AddAccountKeepsInv(w, checkpoint, t, LastId(t.accounts), Tip(t.blocks), address, keyValid, admin);
        AddAccountKeepsBlocks(t, LastId(t.accounts), Tip(t.blocks), address, keyValid, admin);
      case DoChangeStatus(status, addresses) =>
        ChangeStatusKeepsInv(w, checkpoint, t, status, addresses);
      case DoSync(height, hashes) =>
        SyncChainKeepsInv(w, checkpoint, t, height, hashes);
      case DoUpdate(height, chain, users, pow) =>
        if chain == [] {
          UpdateNothing(t, checkpoint, height, users, pow);
        } else {
          UpdateKeepsInv(w, checkpoint, t, height, chain, users, pow);
        }
      case DoRollback(height) =>
        if height in t.blocks {
          RollbackKeepsInv(w, checkpoint, t, height);
          RollbackKeepsLow(t, checkpoint, height);
        }
      case DoRescan(height, addresses) =>
        RescanKeepsInv(w, checkpoint, t, height, addresses);
    }
  }

  lemma AddAccountKeepsBlocks(t: Tables, last: AccountId, tip: nat, address: Address, keyValid: bool, admin: bool)
    requires AddAccount(t, last, tip, address, keyValid, admin).Ok?
    ensures AddAccount(t, last, tip, address, keyValid, admin).value.blocks == t.blocks
  {
  }

  lemma UpdateNothing(t: Tables, checkpoint: nat, height: nat, users: seq<Scanned>, pow: seq<nat>)
    requires Update(t, checkpoint, height, [], users, pow).Ok?
    ensures Update(t, checkpoint, height, [], users, pow).value == t
  {
  }

  lemma RollbackKeepsLow(t: Tables, checkpoint: nat, h: nat)
    requires checkpoint < h
    ensures AgreeOn(t.blocks, RollbackChain(t, h, h).blocks, 0, checkpoint)
  {
  }

  /** After any run, every account that started at or above the last checkpoint holds exactly the rows the simple
      recomputation finds in the blocks now stored, the tables agree, and no block at or below the checkpoint changed. */
  lemma {:induction false} CacheIsRecomputation(w: World, checkpoint: nat, t: Tables, steps: seq<Step>)
    requires Inv(w, checkpoint, t) && AllAdmissible(w, checkpoint, t, steps)
    ensures Inv(w, checkpoint, Run(checkpoint, t, steps))
    ensures AgreeOn(t.blocks, Run(checkpoint, t, steps).blocks, 0, checkpoint)
  {
    if steps != [] {
      var init := steps[..|steps| - 1];
      CacheIsRecomputation(w, checkpoint, t, init);
      var before := Run(checkpoint, t, init);
      StepKeepsInv(w, checkpoint, before, steps[|steps| - 1]);
      forall i: nat | i <= checkpoint ensures SameAt(t.blocks, Run(checkpoint, t, steps).blocks, i) {
        assert SameAt(t.blocks, before.blocks, i) && SameAt(before.blocks, Run(checkpoint, t, steps).blocks, i);
      }
    }
  }

  /** A new database: the genesis block, the last checkpoint, and nothing else (`check_blockchain`). */
  function NewDatabase(genesis: Hash, checkpoint: nat, last: Hash): Tables {
    Tables(map[0 := genesis][checkpoint := last], map[0 := 0], map[], map[], {}, {}, {}, {}, map[], map[], {})
  }

  lemma NewDatabaseInv(w: World, genesis: Hash, checkpoint: nat, last: Hash)
    requires w.heightOf(genesis) == 0 && w.heightOf(last) == checkpoint
    ensures Inv(w, checkpoint, NewDatabase(genesis, checkpoint, last))
  {
  }
}
