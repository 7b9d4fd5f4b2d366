// controllers/contract.controller.go: create, get, delete and filter handlers for contracts.
module ContractController {
  import opened Wrappers
  import opened Numeric
  import opened Models
  import opened Store
  import opened Reply
  import ContractService
  import ContractSelection
  import Query

  const ErrInvalidBody: string := "error: invalid request body provided"
  const ErrPreviousDate: string := "error: previous date contract can not be created"
  const ErrContractIdRequired: string := "error: contract id is required"
  const ErrIdentifierRequired: string := "error: contrct identifier is required"

  /**
   * Binding: the required fields of the contract body; a required number
   * or timestamp refuses its zero value.
   */
  predicate ContractBound(c: Contract)
  {
    && c.contractName != "" && c.operatorName != "" && c.partnerName != ""
    && c.contractType != "" && c.priority != 0 && c.conversionCurrency != "" && c.pointsType != ""
    && c.validFrom != ZeroTime && c.validUntil != ZeroTime
    && c.earnConversionRatio != 0 && c.burnConversionRatio != 0
  }

  /** The date check: neither end of the window may lie before now (whole seconds). */
  predicate StartsFromNow(c: Contract, now: Time)
  {
    !(c.validFrom < now || c.validUntil < now)
  }

  /** Every response a handler writes, in order, and the collection afterwards. */
  datatype Responses = Responses(replies: seq<Reply>, docs: Docs)

  /**
   * contractCreate: binding, the date check, then the service create. A
   * service error is written twice, first as a bare message and then as the
   * custom error.
   */
  function ContractCreateSpec(contract: Contract, docs: Docs, random: seq<byte>, now: Time): (h: Responses)
    requires |random| == 30
    ensures 1 <= |h.replies| <= 2
    ensures |h.replies| == 2 ==> h.replies[0].Failure? && h.replies[1] == h.replies[0]
  {
    if !ContractBound(contract) then Responses([Failure(ErrInvalidBody)], docs)
    else if !StartsFromNow(contract, now) then Responses([Failure(ErrPreviousDate)], docs)
    else
      var o := ContractService.CreateContractOutcome(docs, contract, "admin", "loyyalchannel", random, now);
      if o.err.Some? then Responses([Failure(o.err.value), Failure(o.err.value)], o.docs)
      else Responses([Success("contract created successfully", o.identifier)], o.docs)
  }

  method ContractCreate(col: Collection, contract: Contract, random: seq<byte>, now: Time) returns (replies: seq<Reply>)
    requires |random| == 30
    modifies col
    ensures Responses(replies, col.docs) == ContractCreateSpec(contract, old(col.docs), random, now)
  {
    if !ContractBound(contract) {
      return [Failure(ErrInvalidBody)];
    }
    var currentTimestamp, validFrom, validUpto := now, contract.validFrom, contract.validUntil;
    if validFrom < currentTimestamp || validUpto < currentTimestamp {
      return [Failure(ErrPreviousDate)];
    }
    var c := contract;
    c := c.(validFrom := validFrom);
    c := c.(validUntil := validUpto);
    var _, identifier, err := ContractService.CreateContract(col, c, "admin", "loyyalchannel", random, now);
    if err.Some? {
      replies := [Failure(err.value)];
      return replies + [Failure(err.value)];
    }
    replies := [Success("contract created successfully", identifier)];
  }

  /**
   * A bound contract passes the date check exactly when its window starts
   * and ends no earlier than now, and is then stored by the admin on the
   * loyalty channel with the window it was given.
   */
  lemma CreateChecksDates(contract: Contract, docs: Docs, random: seq<byte>, now: Time)
    requires |random| == 30 && ContractBound(contract)
    ensures ContractCreateSpec(contract, docs, random, now).replies == [Failure(ErrPreviousDate)]
            <==> contract.validFrom < now || contract.validUntil < now
    ensures var o := ContractCreateSpec(contract, docs, random, now);
      StartsFromNow(contract, now) ==>
        (|o.replies| == 2 <==> ContractService.CreateContractOutcome(docs, contract, "admin", "loyyalchannel", random, now).err.Some?)
    ensures var o := ContractCreateSpec(contract, docs, random, now);
      o.replies[0].Success? ==>
        && o.replies == [o.replies[0]]
        && var key := ContractService.Key(o.replies[0].identifier);
        && key !in docs && key in o.docs && o.docs[key].ContractDoc?
        && var stored := o.docs[key].contract;
        && stored.creator == "admin" && stored.channel == "loyyalchannel"
        && stored.validFrom == contract.validFrom && stored.validUntil == contract.validUntil
        && stored.priority == contract.priority
  {
  }

  /** Nothing orders the two ends: an inverted window is accepted, and can never apply. */
  lemma InvertedWindowAccepted(contract: Contract, docs: Docs, random: seq<byte>, now: Time)
    requires |random| == 30 && ContractBound(contract)
    requires now <= contract.validUntil < contract.validFrom
    ensures ContractCreateSpec(contract, docs, random, now).replies != [Failure(ErrPreviousDate)]
    ensures forall t :: !ContractSelection.Eligible(contract, t)
  {
  }

  /** A contract starting exactly now is accepted, but does not apply at that instant. */
  lemma StartingNowIsNotYetEligible(contract: Contract, docs: Docs, random: seq<byte>, now: Time)
    requires |random| == 30 && ContractBound(contract)
    requires contract.validFrom == now <= contract.validUntil
    ensures ContractCreateSpec(contract, docs, random, now).replies != [Failure(ErrPreviousDate)]
    ensures !ContractSelection.Eligible(contract, now)
  {
  }

  /** ContractGet: an identifier is required; then the stored document, whatever its kind. */
  function ContractGet(docs: Docs, contractId: string): (r: Result<Doc, string>)
    ensures contractId == "" ==> r == Err(ErrContractIdRequired)
    ensures contractId != "" ==> (r.Ok? <==> ContractService.Key(contractId) in docs)
    ensures contractId != "" && r.Err? ==> r.error == ContractService.ErrNoContract
    ensures r.Ok? ==> r.value == docs[ContractService.Key(contractId)]
  {
    if contractId == "" then Err(ErrContractIdRequired) else ContractService.GetContract(docs, contractId)
  }

  lemma ContractGetAfterCreate(contract: Contract, docs: Docs, random: seq<byte>, now: Time)
    requires |random| == 30
    ensures var o := ContractCreateSpec(contract, docs, random, now);
      o.replies[0].Success? ==> ContractGet(o.docs, o.replies[0].identifier).Ok?
                                && ContractGet(o.docs, o.replies[0].identifier).value.ContractDoc?
  {
    var o := ContractCreateSpec(contract, docs, random, now);
    if o.replies[0].Success? {
      assert o.replies[0].identifier != "";
    }
  }


  /**
   * The delete handler after binding. The empty-identifier branch reports
   * its error but does not return, so the delete is attempted anyway.
   */
  function DeleteBody(identifier: string, docs: Docs, now: Time): (r: Responses)
    ensures identifier == "" ==> |r.replies| == 2 && r.replies[0] == Failure(ErrIdentifierRequired)
    ensures r.docs == ContractService.DeleteContractOutcome(docs, identifier, "admin", now).docs
  {
    var guard := if identifier == "" then [Failure(ErrIdentifierRequired)] else [];
    var w := ContractService.DeleteContractOutcome(docs, identifier, "admin", now);
    Responses(guard + [if w.err.Some? then Failure(w.err.value) else Success("contract deleted", "")], w.docs)
  }

  /** The handler: binding already refuses an empty identifier. */
  function ContractDeleteSpec(identifier: string, docs: Docs, now: Time): (h: Responses)
  {
    if identifier == "" then Responses([Failure(ErrInvalidBody)], docs) else DeleteBody(identifier, docs, now)
  }

  method ContractDelete(col: Collection, identifier: string, now: Time) returns (replies: seq<Reply>)
    modifies col
    ensures Responses(replies, col.docs) == ContractDeleteSpec(identifier, old(col.docs), now)
  {
    if identifier == "" {
      return [Failure(ErrInvalidBody)];
    }
    replies := [];
    if identifier == "" {
      replies := replies + [Failure(ErrIdentifierRequired)];
    }
    var err := ContractService.DeleteContract(col, identifier, "admin", now);
    if err.Some? {
      return replies + [Failure(err.value)];
    }
    replies := replies + [Success("contract deleted", "")];
  }

  /** Because of binding, the handler never reaches its own empty-identifier branch; each call answers once. */
  lemma DeleteGuardUnreachable(identifier: string, docs: Docs, now: Time)
    ensures var r := ContractDeleteSpec(identifier, docs, now);
      |r.replies| == 1 && r.replies[0] != Failure(ErrIdentifierRequired)
  {
  }

  /** ContractFilter: every contract not deleted, oldest first, no limit. */
  method ContractFilter() returns (query: string)
    ensures query == Query.Head(ContractService.FilterBase, "AND isDeleted=false", "createdAt")
  {
    query := ContractService.Filter("AND isDeleted=false", "createdAt", -1);
  }
}
