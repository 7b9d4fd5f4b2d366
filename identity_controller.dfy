// controllers/identity.controller.go: identity create, get, update, delete and filter.
module IdentityController {
  import opened Wrappers
  import opened Numeric
  import opened Models
  import opened Store
  import opened Reply
  import IdentityService
  import WalletService
  import Common
  import Query

  const ErrUsernameRequired: string := "error: username is required"
  const ErrPasswordRequired: string := "error: password is required"
  const ErrTypeRequired: string := "error: identity type is required"
  const ErrWalletNameRequired: string := "error: wallet name is required"
  const ErrIdentifierRequired: string := "error: identifier is required"

  /** The default-wallet part of the same request body. */
  datatype DefaultWalletCreate = DefaultWalletCreate(isdefaultWalletRequired: bool, preLoadValue: Int64, walletName: string)

  /** What the service layer draws for the two records: identifier bytes, the hash, and the wallet's reference. */
  datatype Draws = Draws(identityRandom: seq<byte>, hash: Result<string, string>,
                         walletRandom: seq<byte>, ref: Result<string, string>)

  predicate WellFormed(d: Draws)
  {
    |d.identityRandom| == 30 && |d.walletRandom| == 30
  }

  /** The field checks, in the handler's order. */
  function CheckFields(identity: Identity, defaultWallet: DefaultWalletCreate): (err: Option<string>)
    ensures err.None? <==> identity.username != "" && identity.password != "" && identity.identityType != ""
                           && (defaultWallet.isdefaultWalletRequired ==> defaultWallet.walletName != "")
  {
    if identity.username == "" then Some(ErrUsernameRequired)
    else if identity.password == "" then Some(ErrPasswordRequired)
    else if identity.identityType == "" then Some(ErrTypeRequired)
    else if defaultWallet.isdefaultWalletRequired && defaultWallet.walletName == "" then Some(ErrWalletNameRequired)
    else None
  }

  datatype Handled = Handled(reply: Reply, docs: Docs)

  function IdentityCreateSpec(identity: Identity, defaultWallet: DefaultWalletCreate, docs: Docs,
                              d: Draws, now: Time): (h: Handled)
    requires WellFormed(d)
  {
    match CheckFields(identity, defaultWallet)
    case Some(e) => Handled(Failure(e), docs)
    case None =>
      var c := IdentityService.CreateOutcome(docs, identity, d.identityRandom, d.hash, now);
      if c.err.Some? then Handled(Failure(c.err.value), c.docs)
      else
        var w := WalletService.CreateOutcome(c.docs, ZeroWallet.(name := defaultWallet.walletName),
                                             c.identity.identifier, defaultWallet.preLoadValue, d.walletRandom, d.ref, now);
        if w.err.Some? then Handled(Failure(w.err.value), w.docs)
        else Handled(Success("identity created successfully", c.identifier), w.docs)
  }

  method IdentityCreate(col: Collection, identity: Identity, defaultWallet: DefaultWalletCreate, d: Draws, now: Time)
    returns (reply: Reply)
    requires WellFormed(d)
    modifies col
    ensures Handled(reply, col.docs) == IdentityCreateSpec(identity, defaultWallet, old(col.docs), d, now)
  {
    if identity.username == "" {
      return Failure(ErrUsernameRequired);
    }
    if identity.password == "" {
      return Failure(ErrPasswordRequired);
    }
    if identity.identityType == "" {
      return Failure(ErrTypeRequired);
    }
    if defaultWallet.isdefaultWalletRequired {
      if defaultWallet.walletName == "" {
        return Failure(ErrWalletNameRequired);
      }
    }
    var created, identifier, err := IdentityService.Create(col, identity, d.identityRandom, d.hash, now);
    if err.Some? {
      return Failure(err.value);
    }
    var wallet := ZeroWallet;
    wallet := wallet.(name := defaultWallet.walletName);
    var _, walletErr := WalletService.Create(col, wallet, created.identifier, defaultWallet.preLoadValue,
                                             d.walletRandom, d.ref, now);
    if walletErr.Some? {
      return Failure(walletErr.value);
    }
    reply := Success("identity created successfully", identifier);
  }

  /** The first missing field decides the message, and nothing is written. */
  lemma CreateChecksInOrder(identity: Identity, defaultWallet: DefaultWalletCreate, docs: Docs, d: Draws, now: Time)
    requires WellFormed(d)
    ensures var o := IdentityCreateSpec(identity, defaultWallet, docs, d, now);
      && (identity.username == "" ==> o == Handled(Failure(ErrUsernameRequired), docs))
      && (identity.username != "" && identity.password == "" ==> o == Handled(Failure(ErrPasswordRequired), docs))
      && ((identity.username != "" && identity.password != "" && identity.identityType == "")
          ==> o == Handled(Failure(ErrTypeRequired), docs))
      && ((identity.username != "" && identity.password != "" && identity.identityType != ""
           && defaultWallet.isdefaultWalletRequired && defaultWallet.walletName == "")
          ==> o == Handled(Failure(ErrWalletNameRequired), docs))
  {
  }

  /** When the identity cannot be created, no wallet is created either. */
  lemma NoWalletWithoutIdentity(identity: Identity, defaultWallet: DefaultWalletCreate, docs: Docs, d: Draws, now: Time)
    requires WellFormed(d) && CheckFields(identity, defaultWallet).None?
    requires IdentityService.CreateOutcome(docs, identity, d.identityRandom, d.hash, now).err.Some?
    ensures IdentityCreateSpec(identity, defaultWallet, docs, d, now).docs == docs
  {
  }

  /**
   * A successful create writes the identity and a wallet linked to it that
   * holds the preloaded amount, whether or not a default wallet was asked for.
   */
  lemma CreateAddsLinkedWallet(identity: Identity, defaultWallet: DefaultWalletCreate, docs: Docs, d: Draws, now: Time)
    requires WellFormed(d)
    ensures var o := IdentityCreateSpec(identity, defaultWallet, docs, d, now);
      o.reply.Success? ==>
        && var userKey := IdentityService.Key(o.reply.identifier);
        && var walletKey := WalletService.Key(Common.IdentifierOf(d.walletRandom));
        && userKey in o.docs && o.docs[userKey].UserDoc?
        && o.docs[userKey].identity.identityType == identity.identityType
        && walletKey in o.docs && o.docs[walletKey].WalletDoc?
        && o.docs[walletKey].wallet.linkedTo == [o.reply.identifier]
        && o.docs[walletKey].wallet.balance == defaultWallet.preLoadValue
  {
    var o := IdentityCreateSpec(identity, defaultWallet, docs, d, now);
    if o.reply.Success? {
      var c := IdentityService.CreateOutcome(docs, identity, d.identityRandom, d.hash, now);
      assert c.err.None? && d.hash.Ok?;
      var userKey := IdentityService.Key(c.identifier);
      assert userKey in c.docs && c.docs[userKey] == UserDoc(c.identity);
      WalletCreateKeeps(c.docs, ZeroWallet.(name := defaultWallet.walletName), c.identity.identifier,
                        defaultWallet.preLoadValue, d.walletRandom, d.ref, now, userKey);
    }
  }

  /** The wallet insert leaves an identity record alone and stores the wallet under its own key. */
  lemma WalletCreateKeeps(docs: Docs, wallet: Wallet, linkedTo: string, preLoadAmount: Int64,
                          random: seq<byte>, ref: Result<string, string>, now: Time, userKey: string)
    requires |random| == 30 && userKey in docs && |userKey| > 0 && userKey[0] == 'u'
    ensures var w := WalletService.CreateOutcome(docs, wallet, linkedTo, preLoadAmount, random, ref, now);
      var walletKey := WalletService.Key(Common.IdentifierOf(random));
      w.err.None? ==>
        && w.docs[userKey] == docs[userKey]
        && walletKey in w.docs && w.docs[walletKey].WalletDoc?
        && w.docs[walletKey].wallet.linkedTo == [linkedTo]
        && w.docs[walletKey].wallet.balance == preLoadAmount
  {
    var w := WalletService.CreateOutcome(docs, wallet, linkedTo, preLoadAmount, random, ref, now);
    if w.err.None? {
      assert w.wallet.identifier == Common.IdentifierOf(random);
      var walletKey := WalletService.Key(w.wallet.identifier);
      assert walletKey[0] == 'w';
      assert w.docs == docs[walletKey := WalletRecord(w.wallet)];
    }
  }

  /** A failed wallet create is reported, but the identity already written stays. */
  lemma IdentityKeptWhenWalletFails(identity: Identity, defaultWallet: DefaultWalletCreate, docs: Docs, d: Draws, now: Time)
    requires WellFormed(d) && CheckFields(identity, defaultWallet).None?
    requires d.hash.Ok? && d.ref.Err?
    requires IdentityService.Key(Common.IdentifierOf(d.identityRandom)) !in docs
    ensures var o := IdentityCreateSpec(identity, defaultWallet, docs, d, now);
      o.reply == Failure(d.ref.error) && IdentityService.Key(Common.IdentifierOf(d.identityRandom)) in o.docs
  {
  }

  /** Guarded reads and writes by identifier. */
  function IdentityGet(docs: Docs, identityId: string): (r: Result<Identity, string>)
    ensures identityId == "" ==> r == Err(ErrIdentifierRequired)
    ensures identityId != "" ==> (r.Ok? <==> IdentityService.Key(identityId) in docs)
    ensures identityId != "" && r.Err? ==> r.error == IdentityService.ErrNoUser
    ensures r.Ok? ==> r.value == AsIdentity(docs[IdentityService.Key(identityId)]).(password := "")
  {
    if identityId == "" then Err(ErrIdentifierRequired) else IdentityService.Get(docs, identityId)
  }

  /**
   * identityUpdate: a successful update is answered twice, first with the
   * bound body (its identifier here) and then with the custom response.
   */
  method IdentityUpdate(col: Collection, identityId: string, personalDetails: PersonalDetails, now: Time)
    returns (replies: seq<Reply>)
    modifies col
    ensures identityId == "" ==> replies == [Failure(ErrIdentifierRequired)] && col.docs == old(col.docs)
    ensures identityId != "" ==>
      var w := IdentityService.UpdateOutcome(old(col.docs), identityId, personalDetails, now);
      && col.docs == w.docs
      && replies == (if w.err.Some? then [Failure(w.err.value)]
                     else [Success("success", identityId), Success("identity updated", "")])
  {
    if identityId == "" {
      return [Failure(ErrIdentifierRequired)];
    }
    var err := IdentityService.Update(col, identityId, personalDetails, now);
    if err.Some? {
      return [Failure(err.value)];
    }
    replies := [Success("success", identityId)];
    replies := replies + [Success("identity updated", "")];
  }

  method IdentityDelete(col: Collection, identityId: string, now: Time) returns (reply: Reply)
    modifies col
    ensures identityId == "" ==> reply == Failure(ErrIdentifierRequired) && col.docs == old(col.docs)
    ensures identityId != "" ==>
      var w := IdentityService.DeleteOutcome(old(col.docs), identityId, "admin", now);
      col.docs == w.docs && reply == (if w.err.Some? then Failure(w.err.value) else Success("identity deleted", ""))
  {
    if identityId == "" {
      return Failure(ErrIdentifierRequired);
    }
    var err := IdentityService.Delete(col, identityId, "admin", now);
    if err.Some? {
      return Failure(err.value);
    }
    reply := Success("identity deleted", "");
  }

  const ListedIdentities: string := "AND isDeleted=false AND identityType!='admin'"

  /**
   * identityFilter: the query for identities that are neither deleted nor
   * admins, and the rows it returns with their passwords blanked.
   */
  method IdentityFilter(rows: seq<Identity>) returns (query: string, identities: seq<Identity>)
    ensures query == Query.Head(IdentityService.FilterBase, ListedIdentities, "createdAt")
    ensures |identities| == |rows|
    ensures forall k :: 0 <= k < |rows| ==> identities[k] == rows[k].(password := "")
  {
    query := IdentityService.Filter(ListedIdentities, "createdAt", -1);
    identities := IdentityService.ParseIdentityRows(rows);
  }
}
