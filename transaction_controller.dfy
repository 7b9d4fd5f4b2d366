// controllers/transaction.controller.go: the issue, redeem and transfer handlers.
module TransactionController {
  import opened Wrappers
  import opened Numeric
  import opened Models
  import opened Store
  import opened Reply
  import WalletService
  import TransactionService
  import Common
  import ContractSelection
  import Nats

  const ErrInvalidBody: string := "error: invalid request body provided"
  const ErrInvalidWallet: string := "error: invalid wallet provided"
  const ErrAmountNegativeOrZero: string := "error: amount can not be empty or zero"
  const ErrInsufficientBalance: string := "error: insuffient balance"

  datatype Kind = Issue | Redeem | Transfer

  function TypeName(kind: Kind): string
  {
    match kind
    case Issue => "issue"
    case Redeem => "redeem"
    case Transfer => "transfer"
  }

  function SuccessMessage(kind: Kind): string
  {
    match kind
    case Issue => "points issued"
    case Redeem => "points redeemed"
    case Transfer => "points transferred"
  }

  /** The request body of all three handlers. */
  datatype TransactionInput = TransactionInput(from: string, to: string, amount: Int64,
                                               metadata: seq<byte>, transactionInitiatedBy: string)

  /** Binding: from, to and amount are required, which refuses their zero values. */
  predicate Bound(input: TransactionInput)
  {
    input.from != "" && input.to != "" && input.amount != 0
  }

  /** The source balance check: strict for issue and redeem, not for transfer. */
  predicate SufficientBalance(kind: Kind, balance: Int64, amount: Int64)
  {
    balance > 0 && (if kind == Transfer then balance >= amount else balance > amount)
  }

  /** The wallet service's Get as the handlers see it: a failed read is the zero wallet. */
  function Lookup(docs: Docs, walletId: string): (w: Wallet)
    ensures WalletService.Key(walletId) !in docs ==> w == ZeroWallet
    ensures WalletService.Key(walletId) in docs && docs[WalletService.Key(walletId)].WalletDoc? ==>
      w == docs[WalletService.Key(walletId)].wallet
  {
    match WalletService.Get(docs, walletId)
    case Ok(w) => w
    case Err(_) => ZeroWallet
  }

  predicate IsStructEmpty(w: Wallet)
  {
    w == ZeroWallet
  }

  /** The checks, in the handlers' order; on success the source and destination wallets. */
  function Validate(kind: Kind, input: TransactionInput, docs: Docs): (r: Result<(Wallet, Wallet), string>)
    ensures r.Ok? <==> && Bound(input) && input.amount > 0 && input.from != input.to
                       && !IsStructEmpty(Lookup(docs, input.from))
                       && SufficientBalance(kind, Lookup(docs, input.from).balance, input.amount)
                       && !IsStructEmpty(Lookup(docs, input.to))
    ensures r.Ok? ==> r.value == (Lookup(docs, input.from), Lookup(docs, input.to))
    ensures !Bound(input) ==> r == Err(ErrInvalidBody)
    ensures Bound(input) && (input.amount <= 0 || input.from == input.to) ==> r == Err(ErrAmountNegativeOrZero)
    ensures Bound(input) && input.amount > 0 && input.from != input.to ==>
      var walletFrom := Lookup(docs, input.from);
      && (IsStructEmpty(walletFrom) ==> r == Err(ErrInvalidWallet))
      && (!IsStructEmpty(walletFrom) && !SufficientBalance(kind, walletFrom.balance, input.amount) ==> r == Err(ErrInsufficientBalance))
      && (&& !IsStructEmpty(walletFrom) && SufficientBalance(kind, walletFrom.balance, input.amount)
          && IsStructEmpty(Lookup(docs, input.to))
          ==> r == Err(ErrInvalidWallet))
  {
    if !Bound(input) then Err(ErrInvalidBody)
    else if input.amount <= 0 then Err(ErrAmountNegativeOrZero)
    else if input.from == input.to then Err(ErrAmountNegativeOrZero)
    else
      var walletFrom := Lookup(docs, input.from);
      if IsStructEmpty(walletFrom) then Err(ErrInvalidWallet)
      else if !SufficientBalance(kind, walletFrom.balance, input.amount) then Err(ErrInsufficientBalance)
      else
        var walletTo := Lookup(docs, input.to);
        if IsStructEmpty(walletTo) then Err(ErrInvalidWallet)
        else Ok((walletFrom, walletTo))
  }

  /** The transaction the handler builds before handing it to the service. */
  function NewMovement(kind: Kind, input: TransactionInput, walletFrom: Wallet, walletTo: Wallet): (tx: Transaction)
    ensures tx.fromExtID == input.from && tx.toExtID == input.to
    ensures tx.fromUUID == walletFrom.uuid && tx.toUUID == walletTo.uuid
    ensures tx.amount == input.amount && tx.transactionType == TypeName(kind)
    ensures tx.metadata == input.metadata && tx.transactionInitiatedBy == input.transactionInitiatedBy
  {
    ZeroTransaction.(fromExtID := input.from, toExtID := input.to,
                     transactionInitiatedBy := input.transactionInitiatedBy,
                     fromUUID := walletFrom.uuid, toUUID := walletTo.uuid,
                     amount := input.amount, metadata := input.metadata,
                     transactionType := TypeName(kind))
  }

  /** The reply, the collection afterwards, and the settlement messages sent. */
  datatype MoveOutcome = MoveOutcome(reply: Reply, docs: Docs, sent: seq<Request>)

  /**
   * One handler call: validation, one transaction record, then (issue and
   * redeem) rating with the tie-break t and publishing, or (transfer)
   * publishing alone. The handler as written is t == AsWritten.
   */
  function MoveSpec(kind: Kind, input: TransactionInput, docs: Docs, random: seq<byte>,
                    ref: Result<string, string>, contracts: Result<seq<Contract>, string>, now: Time,
                    t: ContractSelection.TieBreak): MoveOutcome
    requires |random| == 62
  {
    match Validate(kind, input, docs)
    case Err(e) => MoveOutcome(Failure(e), docs, [])
    case Ok(wallets) =>
      var c := TransactionService.CreateOutcome(docs, NewMovement(kind, input, wallets.0, wallets.1), random, ref, now);
      if c.err.Some? then MoveOutcome(Failure(c.err.value), c.docs, [])
      else
        var published := if kind == Transfer then c.tx
                         else ContractSelection.Rate(c.tx, ContractSelection.Choose(if contracts.Ok? then contracts.value else [], now, t));
        MoveOutcome(Success(SuccessMessage(kind), c.tx.extID), c.docs, [ContractSelection.SettlementOf(published)])
  }

  /** The handlers' guard sequence, reading the collection. */
  method CheckMovement(col: Collection, kind: Kind, input: TransactionInput)
    returns (r: Result<(Wallet, Wallet), string>)
    ensures r == Validate(kind, input, col.docs)
  {
    if !Bound(input) {
      return Err(ErrInvalidBody);
    }
    if input.amount <= 0 {
      return Err(ErrAmountNegativeOrZero);
    }
    if input.from == input.to {
      return Err(ErrAmountNegativeOrZero);
    }
    var walletFrom := Lookup(col.docs, input.from);
    if IsStructEmpty(walletFrom) {
      return Err(ErrInvalidWallet);
    }
    if !SufficientBalance(kind, walletFrom.balance, input.amount) {
      return Err(ErrInsufficientBalance);
    }
    var walletTo := Lookup(col.docs, input.to);
    if IsStructEmpty(walletTo) {
      return Err(ErrInvalidWallet);
    }
    r := Ok((walletFrom, walletTo));
  }

  method Move(col: Collection, bus: Nats.Client, kind: Kind, input: TransactionInput, random: seq<byte>,
              ref: Result<string, string>, contracts: Result<seq<Contract>, string>, now: Time,
              t: ContractSelection.TieBreak)
    returns (reply: Reply)
    requires |random| == 62
    modifies col, bus
    ensures var o := MoveSpec(kind, input, old(col.docs), random, ref, contracts, now, t);
      reply == o.reply && col.docs == o.docs && bus.outbox == old(bus.outbox) + Nats.Envelopes(o.sent)
  {
    var checked := CheckMovement(col, kind, input);
    if checked.Err? {
      return Failure(checked.error);
    }
    var (walletFrom, walletTo) := checked.value;
    var transaction := ZeroTransaction;
    transaction := transaction.(fromExtID := input.from);
    transaction := transaction.(toExtID := input.to);
    transaction := transaction.(transactionInitiatedBy := input.transactionInitiatedBy);
    transaction := transaction.(fromUUID := walletFrom.uuid);
    transaction := transaction.(toUUID := walletTo.uuid);
    transaction := transaction.(amount := input.amount);
    transaction := transaction.(metadata := input.metadata);
    transaction := transaction.(transactionType := TypeName(kind));
    assert transaction == NewMovement(kind, input, walletFrom, walletTo);
    var created, err := TransactionService.Create(col, transaction, random, ref, now);
    if err.Some? {
      return Failure(err.value);
    }
    Settle(bus, kind, created, contracts, now, t);
    reply := Success(SuccessMessage(kind), created.extID);
  }

  /** What happens after the record is written: the goroutine, run to completion. */
  method Settle(bus: Nats.Client, kind: Kind, created: Transaction, contracts: Result<seq<Contract>, string>, now: Time,
                t: ContractSelection.TieBreak)
    modifies bus
    ensures var published := if kind == Transfer then created
                             else ContractSelection.Rate(created, ContractSelection.Choose(if contracts.Ok? then contracts.value else [], now, t));
      bus.outbox == old(bus.outbox) + Nats.Envelopes([ContractSelection.SettlementOf(published)])
  {
    if kind == Transfer {
      bus.Publish(ContractSelection.SettlementOf(created));
    } else {
      var _ := ContractSelection.ApplyBusinessContractAndPublish(bus, created, contracts, now, t);
    }
  }

  /** A non-positive amount or a self-transfer are refused before any wallet is read. */
  lemma EarlyRejectionIgnoresWallets(kind: Kind, input: TransactionInput, docs1: Docs, docs2: Docs)
    requires input.amount <= 0 || input.from == input.to
    ensures Validate(kind, input, docs1) == Validate(kind, input, docs2)
    ensures Validate(kind, input, docs1).Err?
    ensures Bound(input) ==> Validate(kind, input, docs1) == Err(ErrAmountNegativeOrZero)
  {
  }

  /** A balance exactly equal to the amount suffices for a transfer only. */
  lemma WholeBalance(input: TransactionInput, docs: Docs)
    requires Bound(input) && input.amount > 0 && input.from != input.to
    requires !IsStructEmpty(Lookup(docs, input.from)) && !IsStructEmpty(Lookup(docs, input.to))
    requires Lookup(docs, input.from).balance == input.amount
    ensures Validate(Transfer, input, docs).Ok?
    ensures Validate(Issue, input, docs) == Err(ErrInsufficientBalance)
    ensures Validate(Redeem, input, docs) == Err(ErrInsufficientBalance)
  {
  }

  /** A refused movement writes nothing and sends nothing. */
  lemma FailureChangesNothing(kind: Kind, input: TransactionInput, docs: Docs, random: seq<byte>,
                              ref: Result<string, string>, contracts: Result<seq<Contract>, string>, now: Time,
                              t: ContractSelection.TieBreak)
    requires |random| == 62
    ensures var o := MoveSpec(kind, input, docs, random, ref, contracts, now, t);
      o.reply.Failure? ==> o.docs == docs && o.sent == []
  {
  }

  /**
   * An accepted movement writes exactly one new record: the built
   * transaction with the service's stamps, its amount not yet rated, and
   * sends exactly one message.
   */
  lemma SuccessWritesOneRecord(kind: Kind, input: TransactionInput, docs: Docs, random: seq<byte>,
                               ref: Result<string, string>, contracts: Result<seq<Contract>, string>, now: Time,
                              t: ContractSelection.TieBreak)
    requires |random| == 62
    ensures var o := MoveSpec(kind, input, docs, random, ref, contracts, now, t);
      o.reply.Success? ==>
        && Validate(kind, input, docs).Ok?
        && var key := TransactionService.Key(o.reply.identifier);
        && key !in docs && key in o.docs && o.docs == docs[key := o.docs[key]]
        && var tx := o.docs[key].tx;
        && o.docs[key].TxDoc?
        && tx.fromExtID == input.from && tx.toExtID == input.to
        && tx.fromUUID == Lookup(docs, input.from).uuid && tx.toUUID == Lookup(docs, input.to).uuid
        && tx.amount == input.amount && tx.transactionType == TypeName(kind)
        && tx.extID == o.reply.identifier
        && |o.sent| == 1
  {
  }

  /**
   * Every accepted movement has a source wallet, so issue and redeem also
   * settle as a transfer; only the amount sent differs: rated for issue and
   * redeem, as requested for transfer.
   */
  lemma SettlementShape(kind: Kind, input: TransactionInput, docs: Docs, random: seq<byte>,
                        ref: Result<string, string>, contracts: Result<seq<Contract>, string>, now: Time,
                              t: ContractSelection.TieBreak)
    requires |random| == 62
    ensures var o := MoveSpec(kind, input, docs, random, ref, contracts, now, t);
      o.reply.Success? ==>
        && o.sent[0].TransferRequest?
        && o.sent[0].from == Lookup(docs, input.from).uuid && o.sent[0].to == Lookup(docs, input.to).uuid
        && o.sent[0].update
        && (kind == Transfer ==> o.sent[0].amount == input.amount)
  {
  }

  /**
   * A movement that passes validation, with a reference to hand and a free
   * record key, is accepted under that key's identifier and sends one message.
   */
  lemma MoveAccepts(kind: Kind, input: TransactionInput, docs: Docs, random: seq<byte>,
                    ref: Result<string, string>, contracts: Result<seq<Contract>, string>, now: Time,
                    t: ContractSelection.TieBreak)
    requires |random| == 62
    ensures var o := MoveSpec(kind, input, docs, random, ref, contracts, now, t);
      Validate(kind, input, docs).Ok? && ref.Ok? && TransactionService.Key(Common.IdentifierOf(random)) !in docs ==>
        o.reply == Success(SuccessMessage(kind), Common.IdentifierOf(random)) && |o.sent| == 1
  {
  }

  /**
   * Issuing with a contract in force sends the amount times the earn ratio
   * of the contract the tie-break t chooses.
   */
  lemma IssueIsRated(input: TransactionInput, docs: Docs, random: seq<byte>,
                     ref: Result<string, string>, contracts: seq<Contract>, now: Time, t: ContractSelection.TieBreak)
    requires |random| == 62
    requires ContractSelection.Choose(contracts, now, t).Some?
    ensures var o := MoveSpec(Issue, input, docs, random, ref, Ok(contracts), now, t);
      o.reply.Success? ==>
        o.sent[0].amount == MulInt64(input.amount, ContractSelection.Choose(contracts, now, t).value.earnConversionRatio)
  {
  }
}
