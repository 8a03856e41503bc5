/** Rows of the light-wallet tables (src/db/data.h) and the error results of the storage layer.

    Hashes, keys, key images and payment ids are natural numbers: the source compares them with
    `memcmp`, which is the order of the big-endian numbers they spell. Block heights are unbounded. */
module Rows {

  datatype Option<+T> = None | Some(value: T)

  datatype Result<+T> = Ok(value: T) | Err(error: Error)

  datatype Error =
    | NotFound
    | InvalidArgument
    | BadBlockchain
    | BlockchainReorg
    | AccountExists
    | AccountNotFound
    | BadViewKey
    | BadHeight
    | MaxSubaddresses
    | BadSchema
    | BadDaemonResponse
    | NotEnoughAmount
    | UnexpectedOrder

  const UINT32_LIMIT: nat := 0x1_0000_0000
  const UINT64_LIMIT: nat := 0x1_0000_0000_0000_0000

  type Hash = nat
  type PublicKey = nat
  type KeyImage = nat
  type AccountId = nat

  datatype OutputId = OutputId(high: nat, low: nat)

  datatype Link = Link(height: nat, txHash: Hash)

  /** `data` stands for the fields that no modelled operation looks at. */
  datatype Output = Output(link: Link, id: OutputId, paymentId: nat, data: nat)

  datatype Spend = Spend(link: Link, image: KeyImage, source: OutputId, data: nat)

  /** The part of an output that `output_compare` sorts by: height, transaction hash, output id. */
  datatype OutputKey = OutputKey(link: Link, id: OutputId)

  function KeyOf(o: Output): OutputKey { OutputKey(o.link, o.id) }

  lemma Prefix<T>(s: seq<T>, i: nat)
    requires i < |s|
    ensures s[..i + 1][..i] == s[..i] && s[..i + 1] == s[..i] + [s[i]]
  {
  }

  function Max(a: nat, b: nat): nat { if a < b then b else a }

  function Min(a: nat, b: nat): nat { if a < b then a else b }

  /** `MDB_NODUPDATA`: a row whose sort key is already stored is left as it is. */
  function InsertOutput(stored: set<Output>, row: Output): set<Output> {
    if exists o :: o in stored && KeyOf(o) == KeyOf(row) then stored else stored + {row}
  }

  function InsertOutputs(stored: set<Output>, rows: seq<Output>): set<Output> {
    if rows == [] then stored
    else InsertOutput(InsertOutputs(stored, rows[..|rows| - 1]), rows[|rows| - 1])
  }

  /** No two different rows share a sort key. */
  ghost predicate KeysDistinct(rows: set<Output>) {
    forall o, p :: o in rows && p in rows && KeyOf(o) == KeyOf(p) ==> o == p
  }

  lemma {:induction false} InsertOutputsIsUnion(stored: set<Output>, rows: seq<Output>, all: set<Output>)
    requires KeysDistinct(all) && stored <= all
    requires forall r :: r in rows ==> r in all
    ensures InsertOutputs(stored, rows) == stored + set r | r in rows
  {
    if rows != [] {
      var init, last := rows[..|rows| - 1], rows[|rows| - 1];
      assert rows == init + [last];
      InsertOutputsIsUnion(stored, init, all);
    }
  }

  lemma {:induction false} InsertOutputsBounds(stored: set<Output>, rows: seq<Output>)
    ensures stored <= InsertOutputs(stored, rows) <= stored + set r | r in rows
    ensures forall r :: r in rows ==> exists o :: o in InsertOutputs(stored, rows) && KeyOf(o) == KeyOf(r)
  {
    if rows != [] {
      var init, last := rows[..|rows| - 1], rows[|rows| - 1];
      assert rows == init + [last];
      InsertOutputsBounds(stored, init);
    }
  }

  /** The part of a spend that `spend_compare` sorts by. */
  datatype SpendKey = SpendKey(link: Link, image: KeyImage, source: OutputId)

  function SpendKeyOf(s: Spend): SpendKey { SpendKey(s.link, s.image, s.source) }

  function InsertSpend(stored: set<Spend>, row: Spend): set<Spend> {
    if exists s :: s in stored && SpendKeyOf(s) == SpendKeyOf(row) then stored else stored + {row}
  }

  function InsertSpends(stored: set<Spend>, rows: seq<Spend>): set<Spend> {
    if rows == [] then stored
    else InsertSpend(InsertSpends(stored, rows[..|rows| - 1]), rows[|rows| - 1])
  }

  ghost predicate SpendKeysDistinct(rows: set<Spend>) {
    forall s, r :: s in rows && r in rows && SpendKeyOf(s) == SpendKeyOf(r) ==> s == r
  }

  lemma {:induction false} InsertSpendsIsUnion(stored: set<Spend>, rows: seq<Spend>, all: set<Spend>)
    requires SpendKeysDistinct(all) && stored <= all
    requires forall r :: r in rows ==> r in all
    ensures InsertSpends(stored, rows) == stored + set r | r in rows
  {
    if rows != [] {
      var init, last := rows[..|rows| - 1], rows[|rows| - 1];
      assert rows == init + [last];
      InsertSpendsIsUnion(stored, init, all);
    }
  }

  lemma {:induction false} InsertSpendsBounds(stored: set<Spend>, rows: seq<Spend>)
    ensures stored <= InsertSpends(stored, rows) <= stored + set r | r in rows
  {
    if rows != [] {
      var init, last := rows[..|rows| - 1], rows[|rows| - 1];
      assert rows == init + [last];
      InsertSpendsBounds(stored, init);
    }
  }
}
