/** The certificate-authority singleton: read the CA, or generate a new root
    and replace every stored CA with it inside one transaction. */
module CAStore {
  import opened Wrappers
  import opened Numbers
  import opened Models
  import opened Certs

  /** Where the store fails, if anywhere, during a replacement. */
  datatype TxFault = NoFault | BeginFails | DeleteFails | InsertFails | CommitFails

  datatype CAError =
    | GenerationFailed(cause: CertError)
    | StoreFailed(fault: TxFault)

  predicate IdsAscending(cas: seq<CA>) {
    forall i, j :: 0 <= i < j < |cas| ==> cas[i].id < cas[j].id
  }

  /** Ids strictly ascending in table order, all below the next id. */
  predicate IdsBelow(cas: seq<CA>, nextId: nat) {
    IdsAscending(cas) && forall i :: 0 <= i < |cas| ==> 0 < cas[i].id < nextId
  }

  /** The row `First` returns: the one with the least id. */
  function FirstCA(cas: seq<CA>): (r: Option<CA>)
    ensures r.None? <==> cas == []
    ensures r.Some? ==> r.value in cas
    ensures r.Some? && IdsAscending(cas) ==> forall c :: c in cas ==> r.value.id <= c.id
  {
    if cas == [] then None else Some(cas[0])
  }

  datatype ReplaceOutcome = ReplaceOutcome(cas: seq<CA>, nextId: nat, result: Result<CA, CAError>)

  /** The effect of one replacement on the table, given what the generator
      returned and where (if anywhere) the store failed. All or nothing. */
  function ReplaceOn(cas: seq<CA>, nextId: nat, generated: Result<CertPair, CertError>,
                     name: string, description: string, fault: TxFault): (r: ReplaceOutcome)
    ensures r.result.Failure? ==> r.cas == cas && r.nextId == nextId
    ensures r.result.Failure? <==> generated.Failure? || fault != NoFault
    ensures r.result.Success? ==>
      && r.cas == [r.result.value]
      && r.result.value == CA(nextId, name, description, generated.value.certPEM, generated.value.keyPEM)
      && r.nextId == nextId + 1
  {
    if generated.Failure? then ReplaceOutcome(cas, nextId, Failure(GenerationFailed(generated.error)))
    else if fault != NoFault then ReplaceOutcome(cas, nextId, Failure(StoreFailed(fault)))
    else
      var ca := CA(nextId, name, description, generated.value.certPEM, generated.value.keyPEM);
      ReplaceOutcome([ca], nextId + 1, Success(ca))
  }

  /** Replacement keeps the table's id discipline, whatever the outcome. */
  lemma ReplaceKeepsIds(cas: seq<CA>, nextId: nat, generated: Result<CertPair, CertError>,
                        name: string, description: string, fault: TxFault)
    requires IdsBelow(cas, nextId) && 0 < nextId
    ensures var r := ReplaceOn(cas, nextId, generated, name, description, fault);
      IdsBelow(r.cas, r.nextId) && 0 < r.nextId
  {
  }

  /** After a successful replacement the CA that is read back is the new one. */
  lemma ReadBackAfterReplace(cas: seq<CA>, nextId: nat, generated: Result<CertPair, CertError>,
                             name: string, description: string)
    requires generated.Success?
    ensures var r := ReplaceOn(cas, nextId, generated, name, description, NoFault);
      FirstCA(r.cas) == Some(r.result.value) && r.result.value.name == name
  {
  }

  class CAService {
    const tool: CertTool
    var cas: seq<CA>
    var nextId: nat

    ghost predicate Valid()
      reads this
    {
      IdsBelow(cas, nextId) && 0 < nextId
    }

    constructor(tool: CertTool)
      ensures this.tool == tool && cas == [] && nextId == 1 && Valid()
    {
      this.tool := tool;
      cas := [];
      nextId := 1;
    }

    /** The stored CA, or none when the table is empty (not an error). */
    method GetCA() returns (r: Option<CA>)
      ensures r == FirstCA(cas)
    {
      if cas == [] {
        r := None;
      } else {
        r := Some(cas[0]);
      }
    }

    /** Generate a root certificate, then delete every CA and insert the new
        one in a transaction; `fault` says where the store fails, if it does. */
    method GenerateOrReplaceCA(name: string, description: string, validityDays: Int64, fault: TxFault)
      returns (r: Result<CA, CAError>)
      requires Valid()
      modifies this, tool
      ensures Valid()
      ensures var generated := CAResult(tool.sign, tool.TempDir("nebula-ca-", old(tool.serial)), name, validityDays);
        ReplaceOn(old(cas), old(nextId), generated, name, description, fault) == ReplaceOutcome(cas, nextId, r)
      ensures tool.calls == old(tool.calls) + [CAArgs(tool.TempDir("nebula-ca-", old(tool.serial)), name,
                                                      if validityDays <= 0 then DefaultValidityDays else validityDays)]
      ensures tool.serial == old(tool.serial) + 1
    {
      var generated := tool.GenerateCA(name, validityDays);
      if generated.Failure? {
        return Failure(GenerationFailed(generated.error));
      }
      var ca := CA(nextId, name, description, generated.value.certPEM, generated.value.keyPEM);
      if fault == BeginFails {
        return Failure(StoreFailed(fault));
      }
      // The transaction works on a staged copy that only a commit publishes.
      var staged := cas;
      staged := [];
      if fault == DeleteFails {
        return Failure(StoreFailed(fault));
      }
      staged := staged + [ca];
      if fault == InsertFails {
        return Failure(StoreFailed(fault));
      }
      if fault == CommitFails {
        return Failure(StoreFailed(fault));
      }
      cas := staged;
      nextId := nextId + 1;
      r := Success(ca);
    }
  }
}
