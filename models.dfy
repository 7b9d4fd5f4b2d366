// The records of models/*.go, as the controllers and services use them.
module Models {
  import opened Wrappers
  import opened Numeric

  /** An instant as whole seconds since the Unix epoch, in UTC. */
  type Time = int

  /** Go's zero time.Time, 0001-01-01 00:00:00 UTC. */
  const ZeroTime: Time := -62135596800

  datatype Wallet = Wallet(
    docType: string,
    identifier: string,
    name: string,
    metadata: seq<byte>,
    walletType: string,
    status: string,
    linkedTo: seq<string>,
    creator: string,
    channel: string,
    errorMessage: string,
    balance: Int64,
    uuid: string,
    ref: string,
    isCommitedOnBlockchain: bool,
    createdAt: Time,
    lastUpdatedAt: Time,
    lastUpdatedBy: string,
    isDeleted: bool)

  const ZeroWallet: Wallet :=
    Wallet("", "", "", [], "", "", [], "", "", "", 0, "", "", false, ZeroTime, ZeroTime, "", false)

  datatype Transaction = Transaction(
    docType: string,
    extID: string,
    refID: string,
    fromExtID: string,
    toExtID: string,
    fromUUID: string,
    toUUID: string,
    amount: Int64,
    metadata: seq<byte>,
    transactionType: string,
    appliedContract: string,
    transactionInitiatedBy: string,
    remarks: string,
    spend: bool,
    creator: string,
    channel: string,
    createdOn: Time)

  const ZeroTransaction: Transaction :=
    Transaction("", "", "", "", "", "", "", 0, [], "", "", "", "", false, "", "", ZeroTime)

  datatype Contract = Contract(
    docType: string,
    identifier: string,
    contractId: Int64,
    contractName: string,
    operatorId: Int64,
    operatorName: string,
    partnerId: Int64,
    partnerName: string,
    contractType: string,
    priority: Int64,
    conversionCurrency: string,
    pointsType: string,
    validFrom: Time,
    validUntil: Time,
    earnConversionRatio: Int64,
    burnConversionRatio: Int64,
    creator: string,
    channel: string,
    status: string,
    createdAt: Time,
    lastUpdatedAt: Time,
    lastUpdatedBy: string,
    isDeleted: bool)

  const ZeroContract: Contract :=
    Contract("", "", 0, "", 0, "", 0, "", "", 0, "", "", ZeroTime, ZeroTime, 0, 0,
             "", "", "", ZeroTime, ZeroTime, "", false)

  datatype PersonalDetails = PersonalDetails(
    firstName: string,
    lastName: string,
    emailAddress: string,
    countryCode: Int64,
    mobileNo: Int64,
    locality: string,
    city: string,
    country: string,
    zipCode: string)

  datatype Identity = Identity(
    docType: string,
    identifier: string,
    username: string,
    password: string,
    identityType: string,
    personalDetails: PersonalDetails,
    entityName: string,
    wallets: seq<string>,
    creator: string,
    channel: string,
    status: string,
    createdAt: Time,
    lastUpdatedAt: Time,
    lastUpdatedBy: string,
    lastLoggedInAt: Time,
    lastPasswordResetOn: Time,
    hash: string,
    isDeleted: bool)

  const ZeroIdentity: Identity :=
    Identity("", "", "", "", "", PersonalDetails("", "", "", 0, 0, "", "", "", ""), "", [],
             "", "", "", ZeroTime, ZeroTime, "", ZeroTime, ZeroTime, "", false)

  /** The settlement messages sent to the ledger over the message bus. */
  datatype Request =
    | IssueRequest(id: string, refID: string, amount: Int64, channel: string)
    | TransferRequest(refID: string, from: string, to: string, channel: string, amount: Int64, update: bool)
    | CreateRequest(refID: string, amount: Int64, channel: string)

  /** A record as the document store holds it (its JSON form). */
  datatype Doc =
    | WalletDoc(wallet: Wallet)
    | TxDoc(tx: Transaction)
    | ContractDoc(contract: Contract)
    | UserDoc(identity: Identity)

  /**
   * The JSON field "type" of a stored record: wallets and contracts tag their
   * document type json:"type", transactions and identities json:"docType",
   * so the latter have no "type" field at all.
   */
  function TypeField(d: Doc): (r: Option<string>)
    ensures r.Some? <==> d.WalletDoc? || d.ContractDoc?
  {
    match d
    case WalletDoc(w) => Some(w.docType)
    case ContractDoc(c) => Some(c.docType)
    case TxDoc(_) => None
    case UserDoc(_) => None
  }

  /** The JSON form of a wallet: creator and channel are tagged json:"-" and are not written. */
  function WalletRecord(w: Wallet): (d: Doc)
    ensures d.WalletDoc? && d.wallet.creator == "" && d.wallet.channel == ""
    ensures d.wallet.(creator := w.creator, channel := w.channel) == w
  {
    WalletDoc(w.(creator := "", channel := ""))
  }

  /** The JSON form of a transaction: creator and channel are tagged json:"-" as well. */
  function TransactionRecord(tx: Transaction): (d: Doc)
    ensures d.TxDoc? && d.tx.creator == "" && d.tx.channel == ""
    ensures d.tx.(creator := tx.creator, channel := tx.channel) == tx
  {
    TxDoc(tx.(creator := "", channel := ""))
  }

  /**
   * Decoding a stored record into a Wallet. JSON fields are matched by
   * name, so a contract record keeps only the fields the two shapes share.
   */
  function AsWallet(d: Doc): (w: Wallet)
    ensures d.WalletDoc? ==> w == d.wallet
    ensures d.ContractDoc? ==> && w.identifier == d.contract.identifier && w.status == d.contract.status
                               && w.balance == 0 && w.uuid == "" && w.linkedTo == []
  {
    match d
    case WalletDoc(w) => w
    case ContractDoc(c) =>
      ZeroWallet.(docType := c.docType, identifier := c.identifier, status := c.status,
                  createdAt := c.createdAt, lastUpdatedAt := c.lastUpdatedAt,
                  lastUpdatedBy := c.lastUpdatedBy, isDeleted := c.isDeleted)
    case _ => ZeroWallet
  }

  /** Decoding a stored record into a Contract; the converse of the wallet case above. */
  function AsContract(d: Doc): (c: Contract)
    ensures d.ContractDoc? ==> c == d.contract
    ensures d.WalletDoc? ==> && c.identifier == d.wallet.identifier && c.status == d.wallet.status
                             && c.priority == 0 && c.validFrom == ZeroTime && c.validUntil == ZeroTime
  {
    match d
    case ContractDoc(c) => c
    case WalletDoc(w) =>
      ZeroContract.(docType := w.docType, identifier := w.identifier, status := w.status,
                    createdAt := w.createdAt, lastUpdatedAt := w.lastUpdatedAt,
                    lastUpdatedBy := w.lastUpdatedBy, isDeleted := w.isDeleted)
    case _ => ZeroContract
  }

  function AsTransaction(d: Doc): (tx: Transaction)
    ensures d.TxDoc? ==> tx == d.tx
  {
    if d.TxDoc? then d.tx else ZeroTransaction
  }

  function AsIdentity(d: Doc): (i: Identity)
    ensures d.UserDoc? ==> i == d.identity
  {
    if d.UserDoc? then d.identity else ZeroIdentity
  }
}
