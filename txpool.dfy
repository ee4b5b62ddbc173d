/**
 * In-memory store of pending transactions, keyed by transaction hash.
 *
 * The pool's map is updated in place, so the pool is a class whose field the
 * methods reassign.  A transaction's hash is computed by foreign code; the
 * pool receives that function when it is built.  The Go key
 * `string(hash.Bytes())` is the hash's bytes, which is the `Hash` itself here.
 */
module TxPool {
  import opened Base

  type Hash = Bytes

  /** A signed transaction; its fields are not part of this model. */
  datatype SignedTransaction = SignedTransaction(content: Bytes)

  /** The zero `types.SignedTransaction{}`, which a lookup of a missing key yields. */
  const ZeroTransaction := SignedTransaction([])

  /** The keys a list of hashes names. */
  function Listed(hashes: seq<Hash>): set<Hash> {
    set h | h in hashes
  }

  class TxPool {
    var transactions: map<Hash, SignedTransaction>
    const txHash: SignedTransaction -> Hash

    /** Every entry is stored under its own transaction's hash. */
    ghost predicate Valid()
      reads this
    {
      forall h :: h in transactions ==> txHash(transactions[h]) == h
    }

    /** `New`: an empty pool. */
    constructor (txHash: SignedTransaction -> Hash)
      ensures Valid()
      ensures this.txHash == txHash
      ensures transactions == map[]
    {
      this.txHash := txHash;
      transactions := map[];
    }

    /**
     * Adds `tx` under its hash, overwriting whatever the pool held for that
     * hash; every other entry is left as it was.
     */
    method Insert(tx: SignedTransaction)
      requires Valid()
      modifies this
      ensures Valid()
      ensures transactions == old(transactions)[txHash(tx) := tx]
      ensures txHash(tx) in transactions && transactions[txHash(tx)] == tx
      ensures forall h :: h != txHash(tx) ==>
                (h in transactions <==> h in old(transactions)) &&
                (h in transactions ==> transactions[h] == old(transactions)[h])
      ensures txHash(tx) in old(transactions) && old(transactions)[txHash(tx)] == tx ==>
                transactions == old(transactions)
    {
      transactions := transactions[txHash(tx) := tx];
    }

    /** The transaction stored under `hash`, or the zero transaction. */
    method Get(hash: Hash) returns (tx: SignedTransaction)
      ensures hash in transactions ==> tx == transactions[hash]
      ensures hash !in transactions ==> tx == ZeroTransaction
      ensures Valid() && hash in transactions ==> txHash(tx) == hash
    {
      tx := if hash in transactions then transactions[hash] else ZeroTransaction;
    }

    /** Whether the pool holds a transaction under `hash`. */
    method Contains(hash: Hash) returns (present: bool)
      ensures present <==> hash in transactions
    {
      present := hash in transactions;
    }

    /**
     * Deletes the entries of all listed hashes, one after the other; hashes the
     * pool does not hold are skipped, and unlisted entries stay as they were.
     */
    method Remove(hashes: seq<Hash>)
      requires Valid()
      modifies this
      ensures Valid()
      ensures transactions == old(transactions) - Listed(hashes)
      ensures forall h :: h in hashes ==> h !in transactions
      ensures forall h :: h !in hashes && h in old(transactions) ==>
                h in transactions && transactions[h] == old(transactions)[h]
      ensures transactions.Keys <= old(transactions).Keys
    {
      for i := 0 to |hashes|
        invariant Valid()
        invariant transactions == old(transactions) - Listed(hashes[..i])
      {
        assert Listed(hashes[..i + 1]) == Listed(hashes[..i]) + {hashes[i]};
        transactions := transactions - {hashes[i]};
      }
      assert hashes[..|hashes|] == hashes;
    }
  }

  /** After inserting `tx`, the pool reports it present and hands it back. */
  method InsertThenLookUp(pool: TxPool, tx: SignedTransaction) returns (present: bool, got: SignedTransaction)
    requires pool.Valid()
    modifies pool
    ensures present && got == tx
  {
    pool.Insert(tx);
    present := pool.Contains(pool.txHash(tx));
    got := pool.Get(pool.txHash(tx));
  }

  /** After removing a list of hashes, none of them is reported present. */
  method RemoveThenLookUp(pool: TxPool, hashes: seq<Hash>, h: Hash) returns (present: bool, got: SignedTransaction)
    requires pool.Valid()
    requires h in hashes
    modifies pool
    ensures !present && got == ZeroTransaction
  {
    pool.Remove(hashes);
    present := pool.Contains(h);
    got := pool.Get(h);
  }
}
