// services/transaction.service.go: transaction records in the document store.
module TransactionService {
  import opened Wrappers
  import opened Numeric
  import opened Models
  import opened Store
  import Common
  import Query
  import GoStrings

  const Prefix: string := "tx"

  const ErrNoTransaction: string := "error: no transaction found"

  const FilterBase: string := "select data.* from `testbucket`.`_default`.`_default` data where type='tx' "

  function Key(transactionId: string): (key: string)
  {
    Prefix + "/" + transactionId
  }

  datatype Outcome = Outcome(tx: Transaction, err: Option<string>, docs: Docs)

  /** The caller's fields Create does not touch. */
  predicate KeepsCallerFields(before: Transaction, after: Transaction)
  {
    after.fromExtID == before.fromExtID && after.toExtID == before.toExtID
    && after.fromUUID == before.fromUUID && after.toUUID == before.toUUID
    && after.amount == before.amount && after.transactionType == before.transactionType
    && after.metadata == before.metadata && after.remarks == before.remarks
    && after.transactionInitiatedBy == before.transactionInitiatedBy
    && after.appliedContract == before.appliedContract && after.spend == before.spend
  }

  /**
   * Create: fixed document type, channel and creator, a 62-letter external
   * identifier, then one insert under "tx/<extID>" unless no reference can be had.
   */
  function CreateOutcome(docs: Docs, tx: Transaction, random: seq<byte>,
                         ref: Result<string, string>, now: Time): (o: Outcome)
    requires |random| == 62
    ensures o.tx.docType == "tx" && o.tx.channel == "loyyalchannel" && o.tx.creator == "admin"
    ensures Common.IsIdentifier(o.tx.extID, 62) && o.tx.createdOn == now
    ensures KeepsCallerFields(tx, o.tx)
    ensures ref.Err? ==> o.err == Some(ref.error) && o.docs == docs
    ensures ref.Ok? ==> o.tx.refID == ref.value && (o.err.None? <==> Key(o.tx.extID) !in docs)
    ensures o.err.None? ==> o.docs == docs[Key(o.tx.extID) := TransactionRecord(o.tx)]
    ensures o.err.Some? ==> o.docs == docs
  {
    var t := tx.(docType := "tx", channel := "loyyalchannel", creator := "admin",
                 extID := Common.IdentifierOf(random), createdOn := now);
    match ref
    case Err(e) => Outcome(t, Some(e), docs)
    case Ok(r) =>
      var stamped := t.(refID := r);
      var written := InsertInto(docs, Key(stamped.extID), TransactionRecord(stamped));
      Outcome(stamped, written.err, written.docs)
  }

  method Create(col: Collection, tx: Transaction, random: seq<byte>, ref: Result<string, string>, now: Time)
    returns (created: Transaction, err: Option<string>)
    requires |random| == 62
    modifies col
    ensures Outcome(created, err, col.docs) == CreateOutcome(old(col.docs), tx, random, ref, now)
  {
    created := tx;
    created := created.(docType := "tx");
    created := created.(channel := "loyyalchannel");
    created := created.(creator := "admin");
    var extID := Common.GenerateIdentifier(62, random);
    created := created.(extID := extID);
    created := created.(createdOn := now);
    if ref.Err? {
      err := Some(ref.error);
      return;
    }
    created := created.(refID := ref.value);
    err := col.Insert(Key(created.extID), TransactionRecord(created));
  }

  function Get(docs: Docs, transactionId: string): (r: Result<Transaction, string>)
    ensures r.Err? <==> Key(transactionId) !in docs
    ensures r.Err? ==> r.error == ErrNoTransaction
    ensures r.Ok? && docs[Key(transactionId)].TxDoc? ==> r.value == docs[Key(transactionId)].tx
  {
    if Key(transactionId) in docs then Ok(AsTransaction(docs[Key(transactionId)])) else Err(ErrNoTransaction)
  }

  /** After a successful Create, Get of its external identifier returns the record minus its unsaved fields. */
  lemma CreateThenGet(docs: Docs, tx: Transaction, random: seq<byte>, ref: Result<string, string>, now: Time)
    requires |random| == 62
    ensures var o := CreateOutcome(docs, tx, random, ref, now);
      o.err.None? ==> Get(o.docs, o.tx.extID) == Ok(o.tx.(creator := "", channel := ""))
  {
  }

  lemma GetMissing(docs: Docs, transactionId: string)
    requires Key(transactionId) !in docs
    ensures Get(docs, transactionId) == Err("error: no transaction found")
  {
  }

  method Filter(queryString: string, sortBy: string, limit: Int64) returns (query: string)
    ensures GoStrings.HasPrefix(query, Query.Head(FilterBase, queryString, sortBy))
    ensures query == Query.Head(FilterBase, queryString, sortBy) <==> limit == -1
    ensures Query.LimitOf(query, Query.Head(FilterBase, queryString, sortBy)) == Some(if limit == -1 then None else Some(limit))
  {
    query := Query.Build(FilterBase, queryString, sortBy, limit);
  }
}
