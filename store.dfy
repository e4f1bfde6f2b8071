/**
 * The transaction store (`store_transaction`): the `transactions` table as a
 * map from digest to record, written by insert-or-replace on the digest key.
 */
module Store {
  import opened Envelope

  /**
   * The table after an upsert of `rec`: its digest now maps to exactly `rec`
   * (every column replaced, no merge with the old row) and every other row is
   * unchanged.
   */
  function Upsert(table: map<string, Record>, rec: Record): (t: map<string, Record>)
    ensures t.Keys == table.Keys + {rec.digest}
    ensures t[rec.digest] == rec
    ensures forall d :: d in table && d != rec.digest ==> t[d] == table[d]
  {
    table[rec.digest := rec]
  }

  /** Storing the same record twice leaves the table as storing it once. */
  lemma UpsertIdempotent(table: map<string, Record>, rec: Record)
    ensures Upsert(Upsert(table, rec), rec) == Upsert(table, rec)
  {
  }

  /** A second write to the same digest replaces the first entirely. */
  lemma UpsertLastWriteWins(table: map<string, Record>, first: Record, second: Record)
    requires first.digest == second.digest
    ensures Upsert(Upsert(table, first), second) == Upsert(table, second)
  {
  }

  /** The database table; rows are never deleted. */
  class TransactionStore {
    var table: map<string, Record>

    /** An empty table (schema creation itself is not modelled). */
    constructor ()
      ensures table == map[]
    {
      table := map[];
    }

    /**
     * `store_transaction`: one database transaction that upserts `rec`. When
     * the database raises (`dbError`), the transaction is rolled back, the
     * table is unchanged and the failure is reported to the caller. The
     * existence check before the write and the read-back after it only log.
     */
    method StoreTransaction(rec: Record, dbError: bool) returns (stored: bool)
      modifies this
      ensures stored == !dbError
      ensures table == if stored then Upsert(old(table), rec) else old(table)
    {
      if dbError {
        return false;
      }
      table := table[rec.digest := rec];
      stored := true;
    }
  }
}
