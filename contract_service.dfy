// services/contract.service.go: contract records in the document store.
module ContractService {
  import opened Wrappers
  import opened Numeric
  import opened Models
  import opened Store
  import Common
  import Query
  import GoStrings
  import WalletService

  const Prefix: string := "contract"

  const StatusActive: string := "active"
  const StatusPending: string := "pending"
  const StatusExpired: string := "expired"

  const ErrNoContract: string := "error: no contract found"

  const FilterBase: string := "select data.* from `testbucket`.`_default`.`_default` data where type='contract' "

  function Key(contractId: string): (key: string)
  {
    Prefix + "/" + contractId
  }

  datatype CreateResult = CreateResult(contract: Contract, identifier: string, err: Option<string>, docs: Docs)

  /** The terms a contract is created with, which CreateContract leaves alone. */
  predicate SameTerms(a: Contract, b: Contract)
  {
    a.contractId == b.contractId && a.contractName == b.contractName
    && a.operatorId == b.operatorId && a.operatorName == b.operatorName
    && a.partnerId == b.partnerId && a.partnerName == b.partnerName
    && a.contractType == b.contractType && a.priority == b.priority
    && a.conversionCurrency == b.conversionCurrency && a.pointsType == b.pointsType
    && a.validFrom == b.validFrom && a.validUntil == b.validUntil
    && a.earnConversionRatio == b.earnConversionRatio && a.burnConversionRatio == b.burnConversionRatio
  }

  /** CreateContract: fixed type and status, the given creator and channel, one insert. */
  function CreateContractOutcome(docs: Docs, contract: Contract, creator: string, channel: string,
                                 random: seq<byte>, now: Time): (o: CreateResult)
    requires |random| == 30
    ensures o.contract.docType == "contract" && Common.IsIdentifier(o.contract.identifier, 30)
    ensures o.contract.creator == creator && o.contract.channel == channel && o.contract.status == StatusActive
    ensures o.contract.createdAt == o.contract.lastUpdatedAt == now && o.contract.lastUpdatedBy == creator
    ensures SameTerms(contract, o.contract)
    ensures o.identifier == o.contract.identifier
    ensures o.err.None? <==> Key(o.identifier) !in docs
    ensures o.docs == if o.err.None? then docs[Key(o.identifier) := ContractDoc(o.contract)] else docs
  {
    var c := contract.(docType := "contract", identifier := Common.IdentifierOf(random),
                       creator := creator, channel := channel, status := StatusActive,
                       createdAt := now, lastUpdatedAt := now, lastUpdatedBy := creator);
    var written := InsertInto(docs, Key(c.identifier), ContractDoc(c));
    CreateResult(c, c.identifier, written.err, written.docs)
  }

  method CreateContract(col: Collection, contract: Contract, creator: string, channel: string,
                        random: seq<byte>, now: Time)
    returns (created: Contract, identifier: string, err: Option<string>)
    requires |random| == 30
    modifies col
    ensures CreateResult(created, identifier, err, col.docs)
         == CreateContractOutcome(old(col.docs), contract, creator, channel, random, now)
  {
    created := contract;
    created := created.(docType := "contract");
    var id := Common.GenerateIdentifier(30, random);
    created := created.(identifier := id);
    created := created.(creator := creator);
    created := created.(channel := channel);
    created := created.(status := StatusActive);
    created := created.(createdAt := now, lastUpdatedAt := now);
    created := created.(lastUpdatedBy := created.creator);
    err := col.Insert(Key(created.identifier), ContractDoc(created));
    identifier := created.identifier;
  }

  /** GetContract hands back the stored document itself. */
  function GetContract(docs: Docs, contractId: string): (r: Result<Doc, string>)
    ensures r.Err? <==> Key(contractId) !in docs
    ensures r.Err? ==> r.error == ErrNoContract
    ensures r.Ok? ==> r.value == docs[Key(contractId)]
  {
    if Key(contractId) in docs then Ok(docs[Key(contractId)]) else Err(ErrNoContract)
  }

  lemma CreateThenGet(docs: Docs, contract: Contract, creator: string, channel: string, random: seq<byte>, now: Time)
    requires |random| == 30
    ensures var o := CreateContractOutcome(docs, contract, creator, channel, random, now);
      o.err.None? ==> GetContract(o.docs, o.identifier) == Ok(ContractDoc(o.contract))
  {
  }

  function DeleteContractOutcome(docs: Docs, contractId: string, sessionedUser: string, now: Time): (o: Written)
    ensures Key(contractId) !in docs ==> o == Written(Some(ErrNoContract), docs)
    ensures Key(contractId) in docs ==> o.err.None? && o.docs.Keys == docs.Keys
    ensures Key(contractId) in docs ==>
      var before := AsContract(docs[Key(contractId)]);
      o.docs == docs[Key(contractId) := ContractDoc(before.(isDeleted := true, lastUpdatedAt := now, lastUpdatedBy := sessionedUser))]
  {
    if Key(contractId) !in docs then Written(Some(ErrNoContract), docs)
    else
      var c := AsContract(docs[Key(contractId)]);
      ReplaceIn(docs, Key(contractId), ContractDoc(c.(isDeleted := true, lastUpdatedAt := now, lastUpdatedBy := sessionedUser)))
  }

  method DeleteContract(col: Collection, contractId: string, sessionedUser: string, now: Time)
    returns (err: Option<string>)
    modifies col
    ensures Written(err, col.docs) == DeleteContractOutcome(old(col.docs), contractId, sessionedUser, now)
  {
    var doc := col.Get(Key(contractId));
    if doc.None? {
      return Some(ErrNoContract);
    }
    var contract := AsContract(doc.value);
    contract := contract.(isDeleted := true);
    contract := contract.(lastUpdatedAt := now);
    contract := contract.(lastUpdatedBy := sessionedUser);
    err := col.Replace(Key(contractId), ContractDoc(contract));
  }

  /**
   * MarkContractAsExpired as written: the record is read into the Wallet
   * shape, stamped, and that shape is written back under the contract's key.
   */
  function ExpireAsWritten(docs: Docs, contractId: string, sessionedUser: string, now: Time): (o: Written)
    ensures Key(contractId) !in docs ==> o == Written(Some(ErrNoContract), docs)
    ensures Key(contractId) in docs ==> o.err.None? && o.docs.Keys == docs.Keys
    ensures Key(contractId) in docs ==> o.docs[Key(contractId)].WalletDoc?
    ensures forall k :: k in docs && k != Key(contractId) ==> o.docs[k] == docs[k]
  {
    if Key(contractId) !in docs then Written(Some(ErrNoContract), docs)
    else
      var w := AsWallet(docs[Key(contractId)]);
      var expired := w.(status := WalletService.Expired, lastUpdatedAt := now, lastUpdatedBy := sessionedUser);
      ReplaceIn(docs, Key(contractId), WalletRecord(expired))
  }

  method MarkContractAsExpired(col: Collection, contractId: string, sessionedUser: string, now: Time)
    returns (err: Option<string>)
    modifies col
    ensures Written(err, col.docs) == ExpireAsWritten(old(col.docs), contractId, sessionedUser, now)
  {
    var doc := col.Get(Key(contractId));
    if doc.None? {
      return Some(ErrNoContract);
    }
    var wallet := AsWallet(doc.value);
    wallet := wallet.(status := WalletService.Expired);
    wallet := wallet.(lastUpdatedAt := now);
    wallet := wallet.(lastUpdatedBy := sessionedUser);
    err := col.Replace(Key(contractId), WalletRecord(wallet));
  }

  /**
   * What expiry leaves of a contract: read back as a contract, the record
   * has lost its terms (priority, window, ratios, parties), its creator and
   * its channel; only the shared fields survive.
   */
  lemma ExpiryLosesContractTerms(docs: Docs, contractId: string, sessionedUser: string, now: Time)
    requires Key(contractId) in docs && docs[Key(contractId)].ContractDoc?
    ensures var c := docs[Key(contractId)].contract;
      var after := AsContract(ExpireAsWritten(docs, contractId, sessionedUser, now).docs[Key(contractId)]);
      after == ZeroContract.(docType := c.docType, identifier := c.identifier, status := StatusExpired,
                             createdAt := c.createdAt, lastUpdatedAt := now,
                             lastUpdatedBy := sessionedUser, isDeleted := c.isDeleted)
  {
  }

  /** A concrete contract whose priority and earn ratio do not survive expiry. */
  lemma ExpiryDropsPriority(docs: Docs, c: Contract, now: Time)
    requires c.priority == 5 && c.earnConversionRatio == 2
    requires docs == map[Key(c.identifier) := ContractDoc(c)]
    ensures var after := AsContract(ExpireAsWritten(docs, c.identifier, "admin", now).docs[Key(c.identifier)]);
      after.priority == 0 && after.earnConversionRatio == 0 && after.validUntil == ZeroTime
  {
    ExpiryLosesContractTerms(docs, c.identifier, "admin", now);
  }

  /** MarkContractAsExpired as evidently intended: the record stays a contract. */
  function ExpireCorrected(docs: Docs, contractId: string, sessionedUser: string, now: Time): (o: Written)
    ensures Key(contractId) !in docs ==> o == Written(Some(ErrNoContract), docs)
    ensures Key(contractId) in docs ==> o.err.None? && o.docs.Keys == docs.Keys
  {
    if Key(contractId) !in docs then Written(Some(ErrNoContract), docs)
    else
      var c := AsContract(docs[Key(contractId)]);
      ReplaceIn(docs, Key(contractId), ContractDoc(c.(status := StatusExpired, lastUpdatedAt := now, lastUpdatedBy := sessionedUser)))
  }

  method MarkContractAsExpiredCorrected(col: Collection, contractId: string, sessionedUser: string, now: Time)
    returns (err: Option<string>)
    modifies col
    ensures Written(err, col.docs) == ExpireCorrected(old(col.docs), contractId, sessionedUser, now)
  {
    var doc := col.Get(Key(contractId));
    if doc.None? {
      return Some(ErrNoContract);
    }
    var contract := AsContract(doc.value);
    contract := contract.(status := StatusExpired);
    contract := contract.(lastUpdatedAt := now);
    contract := contract.(lastUpdatedBy := sessionedUser);
    err := col.Replace(Key(contractId), ContractDoc(contract));
  }

  /** Corrected expiry changes the status and the audit fields and nothing else. */
  lemma ExpiryKeepsContractTerms(docs: Docs, contractId: string, sessionedUser: string, now: Time)
    requires Key(contractId) in docs && docs[Key(contractId)].ContractDoc?
    ensures var c := docs[Key(contractId)].contract;
      var o := ExpireCorrected(docs, contractId, sessionedUser, now);
      o.docs[Key(contractId)] == ContractDoc(c.(status := StatusExpired, lastUpdatedAt := now, lastUpdatedBy := sessionedUser))
      && (forall k :: k in docs && k != Key(contractId) ==> o.docs[k] == docs[k])
  {
  }

  method Filter(queryString: string, sortBy: string, limit: Int64) returns (query: string)
    ensures GoStrings.HasPrefix(query, Query.Head(FilterBase, queryString, sortBy))
    ensures query == Query.Head(FilterBase, queryString, sortBy) <==> limit == -1
    ensures Query.LimitOf(query, Query.Head(FilterBase, queryString, sortBy)) == Some(if limit == -1 then None else Some(limit))
  {
    query := Query.Build(FilterBase, queryString, sortBy, limit);
  }
}
