// controllers/wallet.controller.go: wallet create, merge, get, delete and filter.
module WalletController {
  import opened Wrappers
  import opened Numeric
  import opened Models
  import opened Store
  import opened Reply
  import WalletService
  import TransactionService
  import TransactionController
  import ContractSelection
  import Query
  import Nats

  const ErrCreateBody: string := "error: invlaid request body provided"
  const ErrInvalidBody: string := "error: invalid request body provided"
  const ErrNoSource: string := "error: atlest one wallet is reqired"
  const ErrCreating: string := "error while creating wallet"
  const ErrWalletIdRequired: string := "error: wallet id is required"
  const ErrIdentifierRequired: string := "error: wallet identifier is required"

  function NoWalletWith(walletId: string): string
  {
    "error: no wallet found with " + walletId
  }

  // ---------------------------------------------------------------- create

  datatype WalletCreateRequest = WalletCreateRequest(walletType: string, name: string, metadata: seq<byte>,
                                                     preLoadValue: Int64, linkedTo: string)

  /** Binding: wallet type, name and linked identity are required (non-empty). */
  predicate CreateBound(request: WalletCreateRequest)
  {
    request.walletType != "" && request.name != "" && request.linkedTo != ""
  }

  datatype Handled = Handled(reply: Reply, docs: Docs, sent: seq<Request>)

  function CreateSpec(request: WalletCreateRequest, docs: Docs, random: seq<byte>,
                      ref: Result<string, string>, now: Time): (h: Handled)
    requires |random| == 30
  {
    if !CreateBound(request) then Handled(Failure(ErrCreateBody), docs, [])
    else
      var wallet := ZeroWallet.(name := request.name, metadata := request.metadata, walletType := request.walletType);
      var o := WalletService.CreateOutcome(docs, wallet, request.linkedTo, request.preLoadValue, random, ref, now);
      if o.err.Some? then Handled(Failure(ErrCreating), o.docs, [])
      else Handled(Success("wallet created", o.wallet.identifier), o.docs,
                   [CreateRequest(o.wallet.ref, o.wallet.balance, o.wallet.channel)])
  }

  method WalletCreate(col: Collection, bus: Nats.Client, request: WalletCreateRequest, random: seq<byte>,
                      ref: Result<string, string>, now: Time)
    returns (reply: Reply)
    requires |random| == 30
    modifies col, bus
    ensures var o := CreateSpec(request, old(col.docs), random, ref, now);
      reply == o.reply && col.docs == o.docs && bus.outbox == old(bus.outbox) + Nats.Envelopes(o.sent)
  {
    if !CreateBound(request) {
      return Failure(ErrCreateBody);
    }
    var wallet := ZeroWallet;
    wallet := wallet.(name := request.name);
    wallet := wallet.(metadata := request.metadata);
    wallet := wallet.(walletType := request.walletType);
    var created, err := WalletService.Create(col, wallet, request.linkedTo, request.preLoadValue, random, ref, now);
    if err.Some? {
      return Failure(ErrCreating);
    }
    bus.Publish(CreateRequest(created.ref, created.balance, created.channel));
    reply := Success("wallet created", created.identifier);
  }

  /**
   * A created wallet is always a regular one, whatever type was asked for,
   * and the ledger is told to create it with the preloaded amount.
   */
  lemma CreatedWalletIsRegular(request: WalletCreateRequest, docs: Docs, random: seq<byte>,
                               ref: Result<string, string>, now: Time)
    requires |random| == 30
    ensures var o := CreateSpec(request, docs, random, ref, now);
      o.reply.Success? ==>
        && var key := WalletService.Key(o.reply.identifier);
        && key !in docs && key in o.docs && o.docs == docs[key := o.docs[key]]
        && o.docs[key].WalletDoc? && o.docs[key].wallet.walletType == "regular"
        && o.docs[key].wallet.linkedTo == [request.linkedTo]
        && o.sent == [CreateRequest(o.docs[key].wallet.ref, request.preLoadValue, "loyyalchannel")]
    ensures var o := CreateSpec(request, docs, random, ref, now);
      o.reply.Failure? ==> o.docs == docs && o.sent == []
  {
  }

  // ---------------------------------------------------------------- merge

  datatype WalletMergeRequest = WalletMergeRequest(from: seq<string>, to: string)

  /** What the service layer draws for one merge transaction: random bytes and a reference. */
  datatype Draw = Draw(random: seq<byte>, ref: Result<string, string>)

  predicate DrawsFor(from: seq<string>, draws: seq<Draw>)
  {
    |draws| == |from| && forall k :: 0 <= k < |draws| ==> |draws[k].random| == 62
  }

  /** The merge transaction for one source wallet. */
  function MergeMovement(wallet: Wallet, toWallet: Wallet): (tx: Transaction)
    ensures tx.fromExtID == wallet.identifier && tx.toExtID == toWallet.identifier
    ensures tx.fromUUID == wallet.uuid && tx.toUUID == toWallet.uuid
    ensures tx.amount == wallet.balance && tx.transactionType == "merge"
    ensures tx.remarks == "merged into the wallet " + toWallet.identifier
  {
    ZeroTransaction.(fromExtID := wallet.identifier, toExtID := toWallet.identifier,
                     fromUUID := wallet.uuid, toUUID := toWallet.uuid, amount := wallet.balance,
                     transactionType := "merge", remarks := "merged into the wallet " + toWallet.identifier)
  }

  /** publishTxToNats: always a transfer, whatever the source identifier. */
  function MergeSettlement(tx: Transaction): (r: Request)
    ensures r.TransferRequest? && r.amount == tx.amount && r.from == tx.fromUUID && r.to == tx.toUUID
    ensures tx.fromExtID != "" ==> r == ContractSelection.SettlementOf(tx)
  {
    TransferRequest(tx.refID, tx.fromUUID, tx.toUUID, tx.channel, tx.amount, !tx.spend)
  }

  /** The progress of the merge loop: the collection, the messages sent, and the error that stopped it. */
  datatype MergeState = MergeState(docs: Docs, sent: seq<Request>, err: Option<string>)

  /** What merging one source wallet does: the collection after it, what it sends, and its error. */
  datatype SourceMerge = SourceMerge(docs: Docs, step: seq<Request>, err: Option<string>)

  /**
   * One source wallet: read it, refuse an empty one, record the merge
   * transaction, then disable the source, ignoring that update's error.
   * A failure sends nothing and writes nothing.
   */
  function MergeSource(docs: Docs, walletId: string, toWallet: Wallet, draw: Draw, now: Time): (m: SourceMerge)
    requires |draw.random| == 62
    ensures m.err.Some? ==> m.step == [] && m.docs == docs
    ensures m.err.None? ==> |m.step| == 1
  {
    match WalletService.Get(docs, walletId)
    case Err(e) => SourceMerge(docs, [], Some(e))
    case Ok(wallet) =>
      if TransactionController.IsStructEmpty(wallet) then SourceMerge(docs, [], Some(NoWalletWith(walletId)))
      else
        var c := TransactionService.CreateOutcome(docs, MergeMovement(wallet, toWallet), draw.random, draw.ref, now);
        if c.err.Some? then SourceMerge(c.docs, [], c.err)
        else
          var u := WalletService.UpdateOutcome(c.docs, wallet.identifier, "admin", WalletService.Disabled, now);
          SourceMerge(u.docs, [MergeSettlement(c.tx)], None)
  }

  /** One iteration for source wallet walletId; a stopped merge stays stopped. */
  function MergeStep(st: MergeState, walletId: string, toWallet: Wallet, draw: Draw, now: Time): (next: MergeState)
    requires |draw.random| == 62
  {
    if st.err.Some? then st
    else
      var m := MergeSource(st.docs, walletId, toWallet, draw, now);
      MergeState(m.docs, st.sent + m.step, m.err)
  }

  /** The loop after its first k iterations. */
  function MergeUpTo(from: seq<string>, toWallet: Wallet, draws: seq<Draw>, docs: Docs, now: Time, k: nat): (st: MergeState)
    requires DrawsFor(from, draws) && k <= |from|
  {
    if k == 0 then MergeState(docs, [], None)
    else MergeStep(MergeUpTo(from, toWallet, draws, docs, now, k - 1), from[k - 1], toWallet, draws[k - 1], now)
  }

  function MergeSpec(request: WalletMergeRequest, docs: Docs, draws: seq<Draw>, now: Time): (h: Handled)
    requires DrawsFor(request.from, draws)
  {
    if request.to == "" then Handled(Failure(ErrInvalidBody), docs, [])
    else if |request.from| < 1 then Handled(Failure(ErrNoSource), docs, [])
    else
      match WalletService.Get(docs, request.to)
      case Err(e) => Handled(Failure(e), docs, [])
      case Ok(toWallet) =>
        if TransactionController.IsStructEmpty(toWallet) then Handled(Failure(NoWalletWith(request.to)), docs, [])
        else
          var st := MergeUpTo(request.from, toWallet, draws, docs, now, |request.from|);
          Handled(if st.err.Some? then Failure(st.err.value) else Success("wallet merged", ""), st.docs, st.sent)
  }

  /** Once an iteration fails, later iterations change nothing. */
  lemma {:induction false} MergeStopsAtFailure(from: seq<string>, toWallet: Wallet, draws: seq<Draw>, docs: Docs,
                                               now: Time, k: nat, n: nat)
    requires DrawsFor(from, draws) && k <= n <= |from|
    requires MergeUpTo(from, toWallet, draws, docs, now, k).err.Some?
    ensures MergeUpTo(from, toWallet, draws, docs, now, n) == MergeUpTo(from, toWallet, draws, docs, now, k)
    decreases n - k
  {
    if k < n {
      MergeStopsAtFailure(from, toWallet, draws, docs, now, k, n - 1);
    }
  }

  method WalletMerge(col: Collection, bus: Nats.Client, request: WalletMergeRequest, draws: seq<Draw>, now: Time)
    returns (reply: Reply)
    requires DrawsFor(request.from, draws)
    modifies col, bus
    ensures var o := MergeSpec(request, old(col.docs), draws, now);
      reply == o.reply && col.docs == o.docs && bus.outbox == old(bus.outbox) + Nats.Envelopes(o.sent)
  {
    if request.to == "" {
      return Failure(ErrInvalidBody);
    }
    if |request.from| < 1 {
      return Failure(ErrNoSource);
    }
    var toResult := WalletService.Get(col.docs, request.to);
    if toResult.Err? {
      return Failure(toResult.error);
    }
    var toWallet := toResult.value;
    if TransactionController.IsStructEmpty(toWallet) {
      return Failure(NoWalletWith(request.to));
    }
    var err := MergeAll(col, bus, request.from, toWallet, draws, now);
    if err.Some? {
      return Failure(err.value);
    }
    reply := Success("wallet merged", "");
  }

  /** The merge loop: one pass per source wallet, stopping at the first failure. */
  method MergeAll(col: Collection, bus: Nats.Client, from: seq<string>, toWallet: Wallet, draws: seq<Draw>, now: Time)
    returns (err: Option<string>)
    requires DrawsFor(from, draws)
    modifies col, bus
    ensures var st := MergeUpTo(from, toWallet, draws, old(col.docs), now, |from|);
      err == st.err && col.docs == st.docs && bus.outbox == old(bus.outbox) + Nats.Envelopes(st.sent)
  {
    ghost var docs0 := col.docs;
    ghost var outbox0 := bus.outbox;
    ghost var sent: seq<Request> := [];
    for i := 0 to |from|
      invariant MergeUpTo(from, toWallet, draws, docs0, now, i) == MergeState(col.docs, sent, None)
      invariant bus.outbox == outbox0 + Nats.Envelopes(sent)
    {
      err, sent := MergeNext(col, bus, from, toWallet, draws, now, i, docs0, outbox0, sent);
      if err.Some? {
        MergeStopsAtFailure(from, toWallet, draws, docs0, now, i + 1, |from|);
        return;
      }
    }
    err := None;
  }

  /** The loop invariant carried across one pass. */
  method MergeNext(col: Collection, bus: Nats.Client, from: seq<string>, toWallet: Wallet, draws: seq<Draw>,
                   now: Time, i: nat, ghost docs0: Docs, ghost outbox0: seq<Nats.Envelope>, ghost sent: seq<Request>)
    returns (err: Option<string>, ghost sent': seq<Request>)
    requires DrawsFor(from, draws) && i < |from|
    requires MergeUpTo(from, toWallet, draws, docs0, now, i) == MergeState(col.docs, sent, None)
    requires bus.outbox == outbox0 + Nats.Envelopes(sent)
    modifies col, bus
    ensures MergeUpTo(from, toWallet, draws, docs0, now, i + 1) == MergeState(col.docs, sent', err)
    ensures bus.outbox == outbox0 + Nats.Envelopes(sent')
  {
    ghost var docs := col.docs;
    ghost var step: seq<Request>;
    err, step := MergeOne(col, bus, from[i], toWallet, draws[i], now);
    NextState(from, toWallet, draws, docs0, now, i, docs, sent, SourceMerge(col.docs, step, err));
    OutboxAfter(outbox0, sent, step);
    sent' := sent + step;
  }

  lemma NextState(from: seq<string>, toWallet: Wallet, draws: seq<Draw>, docs0: Docs, now: Time, i: nat,
                  docs: Docs, sent: seq<Request>, m: SourceMerge)
    requires DrawsFor(from, draws) && i < |from|
    requires MergeUpTo(from, toWallet, draws, docs0, now, i) == MergeState(docs, sent, None)
    requires MergeSource(docs, from[i], toWallet, draws[i], now) == m
    ensures MergeUpTo(from, toWallet, draws, docs0, now, i + 1) == MergeState(m.docs, sent + m.step, m.err)
  {
  }

  lemma OutboxAfter(outbox: seq<Nats.Envelope>, sent: seq<Request>, step: seq<Request>)
    ensures outbox + Nats.Envelopes(sent) + Nats.Envelopes(step) == outbox + Nats.Envelopes(sent + step)
  {
    Nats.EnvelopesAppend(sent, step);
  }

  /** One pass of the merge loop's body. */
  method MergeOne(col: Collection, bus: Nats.Client, walletId: string, toWallet: Wallet, draw: Draw, now: Time)
    returns (err: Option<string>, ghost step: seq<Request>)
    requires |draw.random| == 62
    modifies col, bus
    ensures MergeSource(old(col.docs), walletId, toWallet, draw, now) == SourceMerge(col.docs, step, err)
    ensures bus.outbox == old(bus.outbox) + Nats.Envelopes(step)
  {
    var got := WalletService.Get(col.docs, walletId);
    if got.Err? {
      return Some(got.error), [];
    }
    var wallet := got.value;
    if TransactionController.IsStructEmpty(wallet) {
      return Some(NoWalletWith(walletId)), [];
    }
    var transaction := ZeroTransaction;
    transaction := transaction.(fromExtID := wallet.identifier);
    transaction := transaction.(toExtID := toWallet.identifier);
    transaction := transaction.(fromUUID := wallet.uuid);
    transaction := transaction.(toUUID := toWallet.uuid);
    transaction := transaction.(amount := wallet.balance);
    transaction := transaction.(transactionType := "merge");
    transaction := transaction.(remarks := "merged into the wallet " + toWallet.identifier);
    assert transaction == MergeMovement(wallet, toWallet);
    var created, createErr := TransactionService.Create(col, transaction, draw.random, draw.ref, now);
    if createErr.Some? {
      return createErr, [];
    }
    bus.Publish(MergeSettlement(created));
    var _ := WalletService.Update(col, wallet.identifier, "admin", WalletService.Disabled, now);
    err, step := None, [MergeSettlement(created)];
  }

  /** An empty source list, or a destination that cannot be read, stops the merge before any write. */
  lemma MergeGuards(request: WalletMergeRequest, docs: Docs, draws: seq<Draw>, now: Time)
    requires DrawsFor(request.from, draws) && request.to != ""
    requires |request.from| == 0 || WalletService.Get(docs, request.to).Err?
    ensures var o := MergeSpec(request, docs, draws, now);
      o.reply.Failure? && o.docs == docs && o.sent == []
    ensures |request.from| == 0 ==> MergeSpec(request, docs, draws, now).reply == Failure(ErrNoSource)
  {
  }

  predicate IsDisabled(docs: Docs, key: string)
  {
    key in docs && docs[key].WalletDoc? && docs[key].wallet.status == WalletService.Disabled
  }

  lemma WalletAndTxKeysDiffer(a: string, b: string)
    ensures WalletService.Key(a) != TransactionService.Key(b)
  {
    assert WalletService.Key(a)[0] == 'w' && TransactionService.Key(b)[0] == 't';
  }

  /** Disabling a wallet keeps every key, every balance, and every disabled wallet. */
  lemma DisableKeeps(docs: Docs, walletId: string, now: Time)
    ensures var u := WalletService.UpdateOutcome(docs, walletId, "admin", WalletService.Disabled, now);
      && docs.Keys <= u.docs.Keys
      && (forall key :: key in docs ==> AsWallet(u.docs[key]).balance == AsWallet(docs[key]).balance)
      && (forall key :: IsDisabled(docs, key) ==> IsDisabled(u.docs, key))
      && (WalletService.Key(walletId) in docs ==> IsDisabled(u.docs, WalletService.Key(walletId)))
  {
    var k := WalletService.Key(walletId);
    if k in docs {
      var w := WalletService.StatusUpdated(AsWallet(docs[k]), "admin", WalletService.Disabled, now);
      assert AsWallet(WalletRecord(w)).balance == AsWallet(docs[k]).balance;
    }
  }

  /** A merge transaction goes under a fresh key, so no wallet record changes. */
  lemma MovementKeeps(docs: Docs, tx: Transaction, draw: Draw, now: Time)
    requires |draw.random| == 62
    ensures var c := TransactionService.CreateOutcome(docs, tx, draw.random, draw.ref, now);
      && docs.Keys <= c.docs.Keys
      && (forall key :: key in docs ==> c.docs[key] == docs[key])
  {
  }

  /**
   * Merging one source keeps every record it does not rewrite, never changes
   * a balance, and leaves a disabled wallet disabled.
   */
  lemma SourceKeeps(docs: Docs, walletId: string, toWallet: Wallet, draw: Draw, now: Time)
    requires |draw.random| == 62
    ensures var m := MergeSource(docs, walletId, toWallet, draw, now);
      && docs.Keys <= m.docs.Keys
      && (forall key :: key in docs ==> AsWallet(m.docs[key]).balance == AsWallet(docs[key]).balance)
      && (forall key :: IsDisabled(docs, key) ==> IsDisabled(m.docs, key))
  {
    var m := MergeSource(docs, walletId, toWallet, draw, now);
    if m.err.None? {
      var wallet := WalletService.Get(docs, walletId).value;
      var c := TransactionService.CreateOutcome(docs, MergeMovement(wallet, toWallet), draw.random, draw.ref, now);
      MovementKeeps(docs, MergeMovement(wallet, toWallet), draw, now);
      DisableKeeps(c.docs, wallet.identifier, now);
    }
  }

  /** One iteration keeps what merging its source keeps; a stopped merge keeps everything. */
  lemma StepKeeps(st: MergeState, walletId: string, toWallet: Wallet, draw: Draw, now: Time)
    requires |draw.random| == 62
    ensures var next := MergeStep(st, walletId, toWallet, draw, now);
      && st.docs.Keys <= next.docs.Keys
      && (forall key :: key in st.docs ==> AsWallet(next.docs[key]).balance == AsWallet(st.docs[key]).balance)
      && (forall key :: IsDisabled(st.docs, key) ==> IsDisabled(next.docs, key))
  {
    if st.err.None? {
      SourceKeeps(st.docs, walletId, toWallet, draw, now);
    }
  }

  /** Nothing is rolled back: every balance stays as it was and a disabled wallet stays disabled. */
  lemma {:induction false} MergeNeverRollsBack(from: seq<string>, toWallet: Wallet, draws: seq<Draw>, docs: Docs,
                                               now: Time, k: nat)
    requires DrawsFor(from, draws) && k <= |from|
    ensures var st := MergeUpTo(from, toWallet, draws, docs, now, k);
      && docs.Keys <= st.docs.Keys
      && (forall key :: key in docs ==> AsWallet(st.docs[key]).balance == AsWallet(docs[key]).balance)
      && (forall key :: IsDisabled(docs, key) ==> IsDisabled(st.docs, key))
  {
    if k > 0 {
      MergeNeverRollsBack(from, toWallet, draws, docs, now, k - 1);
      StepKeeps(MergeUpTo(from, toWallet, draws, docs, now, k - 1), from[k - 1], toWallet, draws[k - 1], now);
    }
  }

  /**
   * A successful iteration writes one "merge" record carrying the source's
   * whole balance, sends one transfer of that amount, and disables the
   * source wallet when its record is under its own identifier.
   */
  lemma StepMerges(st: MergeState, walletId: string, toWallet: Wallet, draw: Draw, now: Time)
    requires |draw.random| == 62 && st.err.None?
    ensures var next := MergeStep(st, walletId, toWallet, draw, now);
      next.err.None? ==>
        && WalletService.Get(st.docs, walletId).Ok?
        && var wallet := WalletService.Get(st.docs, walletId).value;
        && |next.sent| == |st.sent| + 1 && next.sent[..|st.sent|] == st.sent
        && next.sent[|st.sent|] == TransferRequest(draw.ref.value, wallet.uuid, toWallet.uuid, "loyyalchannel", wallet.balance, true)
        && (exists extID :: && TransactionService.Key(extID) !in st.docs
                            && TransactionService.Key(extID) in next.docs
                            && next.docs[TransactionService.Key(extID)].TxDoc?
                            && var tx := next.docs[TransactionService.Key(extID)].tx;
                            && tx.amount == wallet.balance && tx.transactionType == "merge"
                            && tx.remarks == "merged into the wallet " + toWallet.identifier)
        && (WalletService.Key(wallet.identifier) in st.docs ==> IsDisabled(next.docs, WalletService.Key(wallet.identifier)))
  {
    var next := MergeStep(st, walletId, toWallet, draw, now);
    if next.err.None? {
      var wallet := WalletService.Get(st.docs, walletId).value;
      var c := TransactionService.CreateOutcome(st.docs, MergeMovement(wallet, toWallet), draw.random, draw.ref, now);
      var key := TransactionService.Key(c.tx.extID);
      MovementKeeps(st.docs, MergeMovement(wallet, toWallet), draw, now);
      DisableKeeps(c.docs, wallet.identifier, now);
      WalletAndTxKeysDiffer(wallet.identifier, c.tx.extID);
      assert key in next.docs && next.docs[key] == TransactionRecord(c.tx);
    }
  }

  /** When every iteration succeeds, one transfer is sent per source wallet, in list order. */
  lemma {:induction false} MergeSendsOnePerSource(from: seq<string>, toWallet: Wallet, draws: seq<Draw>, docs: Docs,
                                                  now: Time, k: nat)
    requires DrawsFor(from, draws) && k <= |from|
    ensures var st := MergeUpTo(from, toWallet, draws, docs, now, k);
      st.err.None? ==> |st.sent| == k
  {
    if k > 0 {
      var prev := MergeUpTo(from, toWallet, draws, docs, now, k - 1);
      MergeSendsOnePerSource(from, toWallet, draws, docs, now, k - 1);
      assert MergeUpTo(from, toWallet, draws, docs, now, k) == MergeStep(prev, from[k - 1], toWallet, draws[k - 1], now);
    }
  }

  /** The same source listed twice is merged twice, with its full balance both times. */
  lemma DuplicateSourceMergedTwice(walletId: string, toWallet: Wallet, draws: seq<Draw>, docs: Docs, now: Time)
    requires DrawsFor([walletId, walletId], draws)
    ensures var st := MergeUpTo([walletId, walletId], toWallet, draws, docs, now, 2);
      st.err.None? ==> && WalletService.Get(docs, walletId).Ok? && |st.sent| == 2
                       && st.sent[0].amount == st.sent[1].amount == WalletService.Get(docs, walletId).value.balance
  {
    var from := [walletId, walletId];
    var st1 := MergeUpTo(from, toWallet, draws, docs, now, 1);
    var st2 := MergeUpTo(from, toWallet, draws, docs, now, 2);
    assert MergeUpTo(from, toWallet, draws, docs, now, 0) == MergeState(docs, [], None);
    assert st1 == MergeStep(MergeState(docs, [], None), walletId, toWallet, draws[0], now);
    assert st2 == MergeStep(st1, walletId, toWallet, draws[1], now);
    if st2.err.None? {
      assert st1.err.None?;
      StepMerges(MergeState(docs, [], None), walletId, toWallet, draws[0], now);
      StepMerges(st1, walletId, toWallet, draws[1], now);
      StepKeeps(MergeState(docs, [], None), walletId, toWallet, draws[0], now);
      assert WalletService.Key(walletId) in docs;
    }
  }

  // ---------------------------------------------------------------- get

  /** The response form of a wallet: chain identifiers hidden, committed flag derived. */
  function Masked(w: Wallet): (m: Wallet)
    ensures m.uuid == "" && m.ref == ""
    ensures m.isCommitedOnBlockchain <==> w.uuid != "" || w.isCommitedOnBlockchain
    ensures !w.isCommitedOnBlockchain ==> (m.isCommitedOnBlockchain <==> w.uuid != "")
    ensures m.(uuid := w.uuid, ref := w.ref, isCommitedOnBlockchain := w.isCommitedOnBlockchain) == w
  {
    w.(isCommitedOnBlockchain := w.uuid != "" || w.isCommitedOnBlockchain, uuid := "", ref := "")
  }

  lemma MaskedIdempotent(w: Wallet)
    ensures Masked(Masked(w)) == Masked(w)
  {
  }

  method WalletGet(docs: Docs, walletId: string) returns (r: Result<Wallet, string>)
    ensures walletId == "" ==> r == Err(ErrWalletIdRequired)
    ensures walletId != "" ==> r == match WalletService.Get(docs, walletId)
                                   case Ok(w) => Ok(Masked(w))
                                   case Err(e) => Err(e)
  {
    if walletId == "" {
      return Err(ErrWalletIdRequired);
    }
    var got := WalletService.Get(docs, walletId);
    var wallet := if got.Ok? then got.value else ZeroWallet;
    if wallet.uuid != "" {
      wallet := wallet.(isCommitedOnBlockchain := true);
    }
    wallet := wallet.(uuid := "");
    wallet := wallet.(ref := "");
    if got.Err? {
      return Err(got.error);
    }
    r := Ok(wallet);
  }

  // ---------------------------------------------------------------- delete

  const BareIdentifierRequired: string := "identifier is required"

  /**
   * walletDelete: an empty identifier is answered twice, first with a bare
   * message and then with the custom error; otherwise the service delete
   * writes one response.
   */
  method WalletDelete(col: Collection, identifier: string, now: Time) returns (replies: seq<Reply>)
    modifies col
    ensures identifier == "" ==>
      replies == [Failure(BareIdentifierRequired), Failure(ErrIdentifierRequired)] && col.docs == old(col.docs)
    ensures identifier != "" ==>
      var w := WalletService.DeleteOutcome(old(col.docs), identifier, "admin", now);
      col.docs == w.docs && replies == [if w.err.Some? then Failure(w.err.value) else Success("wallet deleted", "")]
  {
    if identifier == "" {
      replies := [Failure(BareIdentifierRequired)];
      return replies + [Failure(ErrIdentifierRequired)];
    }
    var err := WalletService.Delete(col, identifier, "admin", now);
    if err.Some? {
      return [Failure(err.value)];
    }
    replies := [Success("wallet deleted", "")];
  }

  // ---------------------------------------------------------------- filter

  const NotDeleted: string := "AND isDeleted=false"
  const ByIdentifier: string := " AND identifier=$identifier"
  const ByName: string := " AND name=$name"

  function FilterQuery(identifier: string, name: string): string
  {
    NotDeleted + (if identifier != "" then ByIdentifier else "") + (if name != "" then ByName else "")
  }

  method FilterQueryString(identifier: string, name: string) returns (queryString: string)
    ensures queryString == FilterQuery(identifier, name)
  {
    queryString := NotDeleted;
    if identifier != "" {
      queryString := queryString + ByIdentifier;
    }
    if name != "" {
      queryString := queryString + ByName;
    }
  }

  /** The query string tells exactly which of the two filters were given. */
  lemma FilterQueryDistinguishes(id1: string, name1: string, id2: string, name2: string)
    ensures FilterQuery(id1, name1) == FilterQuery(id2, name2) <==> (id1 != "" <==> id2 != "") && (name1 != "" <==> name2 != "")
  {
    var q1, q2 := FilterQuery(id1, name1), FilterQuery(id2, name2);
    assert |q1| == 19 + (if id1 != "" then 27 else 0) + (if name1 != "" then 15 else 0);
    assert |q2| == 19 + (if id2 != "" then 27 else 0) + (if name2 != "" then 15 else 0);
  }

  /** walletFilter: the handler's query, passed to the service with no limit. */
  method WalletFilter(identifier: string, name: string) returns (query: string)
    ensures query == Query.Head(WalletService.FilterBase, FilterQuery(identifier, name), "createdAt")
  {
    var queryString := FilterQueryString(identifier, name);
    query := WalletService.Filter(queryString, "createdAt", -1);
  }
}
