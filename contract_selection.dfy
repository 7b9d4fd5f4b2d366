// controllers/transaction.controller.go: choosing the business contract that
// rates a transaction, applying its ratio, and the settlement message.
module ContractSelection {
  import opened Wrappers
  import opened Numeric
  import opened Models
  import opened SortSlice
  import Nats

  /** A contract applies strictly inside its validity window. */
  predicate Eligible(c: Contract, now: Time)
  {
    c.validFrom < now && now < c.validUntil
  }

  /** The append loop keeping the eligible contracts, in order. */
  function Filtered(s: seq<Contract>, now: Time): (r: seq<Contract>)
    ensures |r| <= |s|
    ensures forall c :: c in r <==> c in s && Eligible(c, now)
  {
    if |s| == 0 then []
    else Filtered(s[..|s| - 1], now) + (if Eligible(s[|s| - 1], now) then [s[|s| - 1]] else [])
  }

  /** The append loop keeping the contracts of priority p, in order. */
  function WithPriority(s: seq<Contract>, p: Int64): (r: seq<Contract>)
    ensures |r| <= |s|
    ensures forall c :: c in r <==> c in s && c.priority == p
  {
    if |s| == 0 then []
    else WithPriority(s[..|s| - 1], p) + (if s[|s| - 1].priority == p then [s[|s| - 1]] else [])
  }

  /**
   * How ties among the top-priority contracts are broken: as written the
   * comparator reads the filtered slice by position while the tied slice is
   * being sorted; corrected, it compares the tied contracts themselves.
   */
  datatype TieBreak = AsWritten | Corrected

  /**
   * The eligible contracts in the order the handler leaves them: sorted by
   * priority, filtered, and sorted by priority again.
   */
  function Ranked(contracts: seq<Contract>, now: Time): (r: seq<Contract>)
    ensures forall c :: c in r <==> c in contracts && Eligible(c, now)
    ensures forall a, b :: 0 <= a < b < |r| ==> r[a].priority >= r[b].priority
  {
    var filtered := Filtered(InsertionSort(ByPriority, contracts), now);
    InsertionSortSorts(ByPriority, filtered);
    InsertionSort(ByPriority, filtered)
  }

  /** The first of the tied contracts once they are sorted by the tie-break comparator. */
  function TieWinner(ranked: seq<Contract>, top: seq<Contract>, t: TieBreak): (w: Contract)
    requires |top| > 0
    ensures w in top
    ensures t == Corrected ==> forall c :: c in top ==> w.lastUpdatedAt >= c.lastUpdatedAt
  {
    if t == Corrected then HeadIsMaximal(ByLastUpdated, top); InsertionSort(ByLastUpdated, top)[0]
    else
      var tied := InsertionSort(ByPosition(ranked), top);
      assert tied[0] in tied;
      tied[0]
  }

  /** The contract chosen for a transaction at time now, if any applies. */
  function Choose(contracts: seq<Contract>, now: Time, t: TieBreak): (r: Option<Contract>)
    ensures r.Some? ==> r.value in contracts && Eligible(r.value, now)
  {
    if |contracts| == 0 then None
    else
      var ranked := Ranked(contracts, now);
      if |ranked| == 0 then None
      else
        var top := WithPriority(ranked, ranked[0].priority);
        if |top| == 1 then Some(ranked[0]) else Some(TieWinner(ranked, top, t))
  }

  function PickAsWritten(contracts: seq<Contract>, now: Time): Option<Contract>
  {
    Choose(contracts, now, AsWritten)
  }

  function Pick(contracts: seq<Contract>, now: Time): Option<Contract>
  {
    Choose(contracts, now, Corrected)
  }

  /** Some contract is chosen exactly when some contract is eligible. */
  lemma ChooseNoneIff(contracts: seq<Contract>, now: Time, t: TieBreak)
    ensures Choose(contracts, now, t).None? <==> forall c :: c in contracts ==> !Eligible(c, now)
  {
    if |contracts| > 0 {
      var ranked := Ranked(contracts, now);
      if |ranked| > 0 {
        assert ranked[0] in ranked;
      }
    }
  }

  /**
   * Whatever the tie-break, the chosen contract is one of the candidates,
   * is eligible, and has the highest priority among the eligible ones.
   */
  lemma ChooseHasMaxPriority(contracts: seq<Contract>, now: Time, t: TieBreak)
    ensures var w := Choose(contracts, now, t);
      w.Some? ==> && w.value in contracts && Eligible(w.value, now)
                  && forall c :: c in contracts && Eligible(c, now) ==> w.value.priority >= c.priority
  {
    if |contracts| > 0 {
      var ranked := Ranked(contracts, now);
      if |ranked| > 0 {
        assert ranked[0] in ranked;
        var top := WithPriority(ranked, ranked[0].priority);
        var w := if |top| == 1 then ranked[0] else TieWinner(ranked, top, t);
        assert w in ranked && w.priority == ranked[0].priority;
        RankedHeadIsMaximal(contracts, now);
      }
    }
  }

  /** The head of the ranking has the highest priority of all eligible contracts. */
  lemma RankedHeadIsMaximal(contracts: seq<Contract>, now: Time)
    requires |Ranked(contracts, now)| > 0
    ensures forall c :: c in contracts && Eligible(c, now) ==> Ranked(contracts, now)[0].priority >= c.priority
  {
    var ranked := Ranked(contracts, now);
    forall c | c in contracts && Eligible(c, now)
      ensures ranked[0].priority >= c.priority
    {
      assert c in ranked;
      var k :| 0 <= k < |ranked| && ranked[k] == c;
      if k > 0 {
        assert ranked[0].priority >= ranked[k].priority;
      }
    }
  }

  /** When exactly one contract has priority p, every contract of priority p is that one. */
  lemma OnlyOneWithPriority(s: seq<Contract>, p: Int64)
    requires |WithPriority(s, p)| == 1
    ensures forall c :: c in s && c.priority == p ==> c == WithPriority(s, p)[0]
  {
    var top := WithPriority(s, p);
    forall c | c in s && c.priority == p
      ensures c == top[0]
    {
      assert c in top;
      var k :| 0 <= k < |top| && top[k] == c;
    }
  }

  /** With the corrected tie-break, the most recently updated top-priority contract wins. */
  lemma PickIsLatestAmongTop(contracts: seq<Contract>, now: Time)
    ensures var w := Pick(contracts, now);
      w.Some? ==> forall c :: c in contracts && Eligible(c, now) && c.priority == w.value.priority
                    ==> w.value.lastUpdatedAt >= c.lastUpdatedAt
  {
    if |contracts| > 0 {
      var ranked := Ranked(contracts, now);
      if |ranked| > 0 {
        var top := WithPriority(ranked, ranked[0].priority);
        assert ranked[0] in ranked;
        if |top| == 1 {
          OnlyOneWithPriority(ranked, ranked[0].priority);
        }
      }
    }
  }

  /** Four tied contracts whose last updates, in slice order, are 2, 1, 4 and 3. */
  function TiedSample(): seq<Contract>
  {
    var c := ZeroContract.(priority := 1, validFrom := 0, validUntil := 10);
    [c.(identifier := "a", lastUpdatedAt := 2), c.(identifier := "b", lastUpdatedAt := 1),
     c.(identifier := "c", lastUpdatedAt := 4), c.(identifier := "d", lastUpdatedAt := 3)]
  }

  /** The sample is already ranked. */
  lemma SampleRanked()
    ensures Ranked(TiedSample(), 5) == TiedSample()
  {
    SampleSorted();
    SampleFiltered();
  }

  /** All four contracts of the sample tie for the top priority. */
  lemma SampleTop()
    ensures WithPriority(TiedSample(), 1) == TiedSample()
  {
    AllWithPriority(TiedSample(), 1);
  }

  lemma SampleFiltered()
    ensures Filtered(TiedSample(), 5) == TiedSample()
  {
    AllEligible(TiedSample(), 5);
  }

  lemma SampleSorted()
    ensures InsertionSort(ByPriority, TiedSample()) == TiedSample()
  {
    var s := TiedSample();
    assert |s| == 4 && s[0].priority == s[1].priority == s[2].priority == s[3].priority;
    SinkStop(ByPriority, s, 1);
    SortFromStep(ByPriority, s, 1);
    SinkStop(ByPriority, s, 2);
    SortFromStep(ByPriority, s, 2);
    SinkStop(ByPriority, s, 3);
    SortFromStep(ByPriority, s, 3);
  }

  /** When every contract has priority p, the tied slice is the whole slice. */
  lemma {:induction false} AllWithPriority(s: seq<Contract>, p: Int64)
    requires forall k :: 0 <= k < |s| ==> s[k].priority == p
    ensures WithPriority(s, p) == s
  {
    if |s| > 0 {
      AllWithPriority(s[..|s| - 1], p);
      InitAndLast(s);
    }
  }

  lemma InitAndLast(s: seq<Contract>)
    requires |s| > 0
    ensures s[..|s| - 1] + [s[|s| - 1]] == s
  {
  }

  /** When every contract is eligible, filtering keeps the whole slice. */
  lemma {:induction false} AllEligible(s: seq<Contract>, now: Time)
    requires forall c :: c in s ==> Eligible(c, now)
    ensures Filtered(s, now) == s
  {
    if |s| > 0 {
      var init, last := s[..|s| - 1], s[|s| - 1];
      assert forall c :: c in init ==> c in s;
      AllEligible(init, now);
      assert last in s;
      InitAndLast(s);
    }
  }

  /** Insertion with the positional comparator only ever swaps "b" and "c". */
  lemma SampleAsWrittenOrder()
    ensures InsertionSort(ByPosition(TiedSample()), TiedSample())[0] == TiedSample()[0]
  {
    var s := TiedSample();
    var a, b, c, d := s[0], s[1], s[2], s[3];
    var o := ByPosition(s);
    assert Sink(o, s, 1) == s;
    assert Swap(s, 2, 1) == [a, c, b, d];
    assert Sink(o, [a, c, b, d], 1) == [a, c, b, d];
    assert Sink(o, s, 2) == [a, c, b, d];
    assert Sink(o, [a, c, b, d], 3) == [a, c, b, d];
    assert SortFrom(o, [a, c, b, d], 3) == [a, c, b, d];
  }

  /**
   * The as-written tie-break does not pick the latest contract: it picks
   * "a" (updated at 2) where "c" (updated at 4) is the most recent.
   */
  lemma TieBreakCounterexample()
    ensures PickAsWritten(TiedSample(), 5) == Some(TiedSample()[0])
    ensures Pick(TiedSample(), 5).Some? && Pick(TiedSample(), 5).value.lastUpdatedAt == 4
    ensures TiedSample()[0].lastUpdatedAt == 2
  {
    var s := TiedSample();
    SampleRanked();
    SampleTop();
    SampleAsWrittenOrder();
    assert TieWinner(s, s, AsWritten) == s[0];
    SampleLatest();
  }

  lemma SampleLatest()
    ensures TieWinner(TiedSample(), TiedSample(), Corrected).lastUpdatedAt == 4
  {
    var s := TiedSample();
    var w := TieWinner(s, s, Corrected);
    assert s[2] in s;
    var k :| 0 <= k < |s| && s[k] == w;
    assert s[k].lastUpdatedAt <= 4;
  }

  /** Rating: issue earns, redeem burns, and the chosen contract is recorded. */
  function Rate(tx: Transaction, choice: Option<Contract>): (r: Transaction)
    ensures choice.None? || (tx.transactionType != "issue" && tx.transactionType != "redeem") ==> r == tx
    ensures choice.Some? && tx.transactionType == "issue" ==>
      r == tx.(amount := MulInt64(tx.amount, choice.value.earnConversionRatio), appliedContract := choice.value.identifier)
    ensures choice.Some? && tx.transactionType == "redeem" ==>
      r == tx.(amount := MulInt64(tx.amount, choice.value.burnConversionRatio), appliedContract := choice.value.identifier)
  {
    match choice
    case None => tx
    case Some(c) =>
      if tx.transactionType == "issue" then
        tx.(amount := MulInt64(tx.amount, c.earnConversionRatio), appliedContract := c.identifier)
      else if tx.transactionType == "redeem" then
        tx.(amount := MulInt64(tx.amount, c.burnConversionRatio), appliedContract := c.identifier)
      else tx
  }

  /** Without int64 overflow the rated amount is the plain product. */
  lemma RateWithoutOverflow(tx: Transaction, c: Contract)
    requires tx.transactionType == "issue"
    requires INT64_MIN <= tx.amount * c.earnConversionRatio <= INT64_MAX
    ensures Rate(tx, Some(c)).amount == tx.amount * c.earnConversionRatio
  {
  }

  /** publishTransactionToNats: an issuance when there is no source wallet, otherwise a transfer. */
  function SettlementOf(tx: Transaction): (r: Request)
    ensures r.IssueRequest? <==> tx.fromExtID == ""
    ensures r.IssueRequest? ==> r == IssueRequest(tx.toUUID, tx.refID, tx.amount, tx.channel)
    ensures r.TransferRequest? ==> r == TransferRequest(tx.refID, tx.fromUUID, tx.toUUID, tx.channel, tx.amount, !tx.spend)
  {
    if tx.fromExtID == "" then IssueRequest(tx.toUUID, tx.refID, tx.amount, tx.channel)
    else TransferRequest(tx.refID, tx.fromUUID, tx.toUUID, tx.channel, tx.amount, !tx.spend)
  }

  /** The append loop over the contracts that keeps the eligible ones. */
  method KeepEligible(s: seq<Contract>, now: Time) returns (filtered: seq<Contract>)
    ensures filtered == Filtered(s, now)
  {
    filtered := [];
    for k := 0 to |s|
      invariant filtered == Filtered(s[..k], now)
    {
      assert s[..k + 1][..k] == s[..k];
      if Eligible(s[k], now) {
        filtered := filtered + [s[k]];
      }
    }
    assert s[..|s|] == s;
  }

  /** The append loop that keeps the contracts of the highest priority. */
  method KeepPriority(s: seq<Contract>, maxPriority: Int64) returns (top: seq<Contract>)
    ensures top == WithPriority(s, maxPriority)
  {
    top := [];
    for k := 0 to |s|
      invariant top == WithPriority(s[..k], maxPriority)
    {
      assert s[..k + 1][..k] == s[..k];
      if s[k].priority == maxPriority {
        top := top + [s[k]];
      }
    }
    assert s[..|s|] == s;
  }

  /** sort.Slice on a copy of the slice's contents. */
  method SortedCopy(s: seq<Contract>, o: Order) returns (r: seq<Contract>)
    ensures r == InsertionSort(o, s)
  {
    var a := new Contract[|s|](k requires 0 <= k < |s| => s[k]);
    assert a[..] == s;
    Sort(a, o);
    r := a[..];
  }

  /** The selection as the handler performs it. */
  method SelectContract(contracts: seq<Contract>, now: Time, t: TieBreak) returns (winner: Option<Contract>)
    ensures winner == Choose(contracts, now, t)
  {
    if |contracts| == 0 {
      return None;
    }
    var sorted := SortedCopy(contracts, ByPriority);
    var filtered := KeepEligible(sorted, now);
    if |filtered| == 0 {
      return None;
    }
    var ranked := SortedCopy(filtered, ByPriority);
    assert ranked == Ranked(contracts, now);
    var maxPriority := ranked[0].priority;
    var top := KeepPriority(ranked, maxPriority);
    if |top| == 1 {
      return Some(ranked[0]);
    }
    assert ranked[0] in ranked;
    var tied := SortedCopy(top, if t == AsWritten then ByPosition(ranked) else ByLastUpdated);
    winner := Some(tied[0]);
  }

  /**
   * ApplyBusinessContractAndPublishToNats with either tie-break (the handler
   * as written runs it with AsWritten): the contract query's failure only
   * leaves no candidates; the transaction is rated and then always published.
   */
  method ApplyBusinessContractAndPublish(bus: Nats.Client, tx: Transaction,
                                         query: Result<seq<Contract>, string>, now: Time, t: TieBreak)
    returns (rated: Transaction)
    modifies bus
    ensures rated == Rate(tx, Choose(if query.Ok? then query.value else [], now, t))
    ensures bus.outbox == old(bus.outbox) + [Nats.Envelope(Nats.Subject, SettlementOf(rated))]
  {
    var contracts := if query.Ok? then query.value else [];
    rated := tx;
    var applicable := SelectContract(contracts, now, t);
    if applicable.Some? {
      if rated.transactionType == "issue" {
        rated := rated.(amount := MulInt64(rated.amount, applicable.value.earnConversionRatio));
        rated := rated.(appliedContract := applicable.value.identifier);
      }
      if rated.transactionType == "redeem" {
        rated := rated.(amount := MulInt64(rated.amount, applicable.value.burnConversionRatio));
        rated := rated.(appliedContract := applicable.value.identifier);
      }
    }
    bus.Publish(SettlementOf(rated));
  }
}
