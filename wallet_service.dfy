// services/wallet.service.go: wallet records in the document store.
module WalletService {
  import opened Wrappers
  import opened Numeric
  import opened Models
  import opened Store
  import Common
  import Query
  import GoStrings

  const Prefix: string := "wallet"

  const Active: string := "active"
  const Suspended: string := "suspended"
  const Disabled: string := "disabled"
  const Expired: string := "expired"

  const ErrNoWallet: string := "error: no wallet found"

  const FilterBase: string := "select data.* from `testbucket` data where type='wallet' "

  function Key(walletId: string): (key: string)
  {
    Prefix + "/" + walletId
  }

  lemma KeyInjective(a: string, b: string)
    ensures Key(a) == Key(b) <==> a == b
  {
    if Key(a) == Key(b) {
      assert a == Key(a)[7..] && b == Key(b)[7..];
    }
  }

  /** The caller's wallet after Create's stamping (the record as returned). */
  datatype Outcome = Outcome(wallet: Wallet, err: Option<string>, docs: Docs)

  /**
   * Create: fixed defaults and a 30-letter identifier; nothing is written
   * when no reference can be had; one insert under "wallet/<identifier>".
   */
  function CreateOutcome(docs: Docs, wallet: Wallet, linkedTo: string, preLoadAmount: Int64,
                         random: seq<byte>, ref: Result<string, string>, now: Time): (o: Outcome)
    requires |random| == 30
    ensures Common.IsIdentifier(o.wallet.identifier, 30)
    ensures o.wallet.docType == "wallet" && o.wallet.channel == "loyyalchannel"
    ensures o.wallet.status == Active && o.wallet.walletType == "regular"
    ensures o.wallet.balance == preLoadAmount && o.wallet.linkedTo == [linkedTo]
    ensures o.wallet.createdAt == o.wallet.lastUpdatedAt == now
    ensures o.wallet.lastUpdatedBy == o.wallet.creator == "admin"
    ensures o.wallet.name == wallet.name && o.wallet.metadata == wallet.metadata
    ensures ref.Err? ==> o.err == Some(ref.error) && o.docs == docs
    ensures ref.Ok? ==> o.wallet.ref == ref.value
    ensures ref.Ok? ==> (o.err.None? <==> Key(o.wallet.identifier) !in docs)
    ensures o.err.None? ==> o.docs == docs[Key(o.wallet.identifier) := WalletRecord(o.wallet)]
    ensures o.err.Some? ==> o.docs == docs
  {
    var w := wallet.(identifier := Common.IdentifierOf(random), channel := "loyyalchannel",
                     docType := "wallet", linkedTo := [linkedTo], balance := preLoadAmount,
                     walletType := "regular", creator := "admin", status := Active,
                     createdAt := now, lastUpdatedAt := now, lastUpdatedBy := "admin");
    match ref
    case Err(e) => Outcome(w, Some(e), docs)
    case Ok(r) =>
      var stamped := w.(ref := r);
      var written := InsertInto(docs, Key(stamped.identifier), WalletRecord(stamped));
      Outcome(stamped, written.err, written.docs)
  }

  method Create(col: Collection, wallet: Wallet, linkedTo: string, preLoadAmount: Int64,
                random: seq<byte>, ref: Result<string, string>, now: Time)
    returns (w: Wallet, err: Option<string>)
    requires |random| == 30
    modifies col
    ensures Outcome(w, err, col.docs) == CreateOutcome(old(col.docs), wallet, linkedTo, preLoadAmount, random, ref, now)
  {
    w := wallet;
    var identifier := Common.GenerateIdentifier(30, random);
    w := w.(identifier := identifier);
    w := w.(channel := "loyyalchannel");
    w := w.(docType := "wallet");
    w := w.(linkedTo := [linkedTo]);
    w := w.(balance := preLoadAmount);
    w := w.(walletType := "regular");
    w := w.(creator := "admin");
    w := w.(status := Active);
    w := w.(createdAt := now, lastUpdatedAt := now);
    w := w.(lastUpdatedBy := w.creator);
    if ref.Err? {
      err := Some(ref.error);
      return;
    }
    w := w.(ref := ref.value);
    err := col.Insert(Key(w.identifier), WalletRecord(w));
  }

  /** Get: the stored record, whatever its status or deletion flag. */
  function Get(docs: Docs, walletId: string): (r: Result<Wallet, string>)
    ensures r.Err? <==> Key(walletId) !in docs
    ensures r.Err? ==> r.error == ErrNoWallet
    ensures r.Ok? && docs[Key(walletId)].WalletDoc? ==> r.value == docs[Key(walletId)].wallet
  {
    if Key(walletId) in docs then Ok(AsWallet(docs[Key(walletId)])) else Err(ErrNoWallet)
  }

  /** Reading a wallet back after Create gives the record minus its unsaved fields. */
  lemma CreateThenGet(docs: Docs, wallet: Wallet, linkedTo: string, preLoadAmount: Int64,
                      random: seq<byte>, ref: Result<string, string>, now: Time)
    requires |random| == 30
    ensures var o := CreateOutcome(docs, wallet, linkedTo, preLoadAmount, random, ref, now);
      o.err.None? ==> Get(o.docs, o.wallet.identifier) == Ok(o.wallet.(creator := "", channel := ""))
  {
  }

  /** The record Update writes: only status and the audit fields differ from what was read. */
  function StatusUpdated(w: Wallet, sessionedUser: string, updatedStatus: string, now: Time): (u: Wallet)
    ensures u.status == updatedStatus && u.lastUpdatedAt == now && u.lastUpdatedBy == sessionedUser
    ensures u.(status := w.status, lastUpdatedAt := w.lastUpdatedAt, lastUpdatedBy := w.lastUpdatedBy) == w
  {
    w.(status := updatedStatus, lastUpdatedAt := now, lastUpdatedBy := sessionedUser)
  }

  /** The record Delete writes: the soft-delete flag and the audit fields. */
  function SoftDeleted(w: Wallet, sessionedUser: string, now: Time): (u: Wallet)
    ensures u.isDeleted && u.lastUpdatedAt == now && u.lastUpdatedBy == sessionedUser
    ensures u.(isDeleted := w.isDeleted, lastUpdatedAt := w.lastUpdatedAt, lastUpdatedBy := w.lastUpdatedBy) == w
  {
    w.(isDeleted := true, lastUpdatedAt := now, lastUpdatedBy := sessionedUser)
  }

  function UpdateOutcome(docs: Docs, walletId: string, sessionedUser: string, updatedStatus: string, now: Time): (o: Written)
    ensures Key(walletId) !in docs ==> o == Written(Some(ErrNoWallet), docs)
    ensures Key(walletId) in docs ==> o.err.None? && o.docs.Keys == docs.Keys
    ensures Key(walletId) in docs ==>
      o.docs == docs[Key(walletId) := WalletRecord(StatusUpdated(AsWallet(docs[Key(walletId)]), sessionedUser, updatedStatus, now))]
  {
    if Key(walletId) !in docs then Written(Some(ErrNoWallet), docs)
    else
      var w := StatusUpdated(AsWallet(docs[Key(walletId)]), sessionedUser, updatedStatus, now);
      ReplaceIn(docs, Key(walletId), WalletRecord(w))
  }

  method Update(col: Collection, walletId: string, sessionedUser: string, updatedStatus: string, now: Time)
    returns (err: Option<string>)
    modifies col
    ensures Written(err, col.docs) == UpdateOutcome(old(col.docs), walletId, sessionedUser, updatedStatus, now)
  {
    var doc := col.Get(Key(walletId));
    if doc.None? {
      return Some(ErrNoWallet);
    }
    var wallet := AsWallet(doc.value);
    wallet := wallet.(status := updatedStatus);
    wallet := wallet.(lastUpdatedAt := now);
    wallet := wallet.(lastUpdatedBy := sessionedUser);
    err := col.Replace(Key(walletId), WalletRecord(wallet));
  }

  function DeleteOutcome(docs: Docs, walletId: string, sessionedUser: string, now: Time): (o: Written)
    ensures Key(walletId) !in docs ==> o == Written(Some(ErrNoWallet), docs)
    ensures Key(walletId) in docs ==> o.err.None? && o.docs.Keys == docs.Keys
    ensures Key(walletId) in docs ==>
      o.docs == docs[Key(walletId) := WalletRecord(SoftDeleted(AsWallet(docs[Key(walletId)]), sessionedUser, now))]
  {
    if Key(walletId) !in docs then Written(Some(ErrNoWallet), docs)
    else
      var w := SoftDeleted(AsWallet(docs[Key(walletId)]), sessionedUser, now);
      ReplaceIn(docs, Key(walletId), WalletRecord(w))
  }

  method Delete(col: Collection, walletId: string, sessionedUser: string, now: Time)
    returns (err: Option<string>)
    modifies col
    ensures Written(err, col.docs) == DeleteOutcome(old(col.docs), walletId, sessionedUser, now)
  {
    var doc := col.Get(Key(walletId));
    if doc.None? {
      return Some(ErrNoWallet);
    }
    var wallet := AsWallet(doc.value);
    wallet := wallet.(isDeleted := true);
    wallet := wallet.(lastUpdatedAt := now);
    wallet := wallet.(lastUpdatedBy := sessionedUser);
    err := col.Replace(Key(walletId), WalletRecord(wallet));
  }

  /** A soft-deleted (or disabled) wallet is still returned by Get. */
  lemma GetAfterDelete(docs: Docs, walletId: string, sessionedUser: string, now: Time)
    requires Key(walletId) in docs
    ensures var o := DeleteOutcome(docs, walletId, sessionedUser, now);
      Key(walletId) in o.docs && Get(o.docs, walletId).Ok? && Get(o.docs, walletId).value.isDeleted
  {
  }

  method Filter(queryString: string, sortBy: string, limit: Int64) returns (query: string)
    ensures GoStrings.HasPrefix(query, Query.Head(FilterBase, queryString, sortBy))
    ensures query == Query.Head(FilterBase, queryString, sortBy) <==> limit == -1
    ensures Query.LimitOf(query, Query.Head(FilterBase, queryString, sortBy)) == Some(if limit == -1 then None else Some(limit))
  {
    query := Query.Build(FilterBase, queryString, sortBy, limit);
  }
}
