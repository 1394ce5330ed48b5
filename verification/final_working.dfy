/**
 * The smallest draft of the lease program (programs/rentflow-core/FINAL_WORKING.rs).
 *
 * The account holds the id, the manager key and the two signed flags; there
 * is no status and no activation. The manager's key sets the manager flag and
 * every other key sets the tenant flag; nothing is validated or refused by
 * the handlers. The only failures are the account framework's.
 */
module FinalWorking {
  import opened Platform

  datatype Lease = Lease(leaseId: Utf8, manager: Pubkey, managerSigned: bool, tenantSigned: bool)

  /** create_lease: the caller becomes the manager and neither party has signed. */
  function Create(manager: Pubkey, leaseId: Utf8): (l: Lease)
    ensures l.leaseId == leaseId && l.manager == manager
    ensures !l.managerSigned && !l.tenantSigned
  {
    Lease(leaseId, manager, false, false)
  }

  /** sign_lease: sets the manager's flag for the manager's key and the tenant's flag for any other key. */
  function Sign(l: Lease, signer: Pubkey): (r: Lease)
    ensures r.leaseId == l.leaseId && r.manager == l.manager
    ensures signer == l.manager ==> r.managerSigned && r.tenantSigned == l.tenantSigned
    ensures signer != l.manager ==> r.tenantSigned && r.managerSigned == l.managerSigned
  {
    if signer == l.manager then l.(managerSigned := true) else l.(tenantSigned := true)
  }

  /** Signing again with the same key changes nothing. */
  lemma SignIdempotent(l: Lease, signer: Pubkey)
    ensures Sign(Sign(l, signer), signer) == Sign(l, signer)
  {
  }

  /** The lease after a sequence of sign_lease calls, by the given keys in order. */
  function SignAll(l: Lease, signers: seq<Pubkey>): Lease
    decreases |signers|
  {
    if signers == [] then l else SignAll(Sign(l, signers[0]), signers[1..])
  }

  /**
   * After any sequence of signatures the id and manager are kept, a flag once
   * set stays set, and each flag is set exactly when some key of its kind signed.
   */
  lemma {:induction false} SignAllFlags(l: Lease, signers: seq<Pubkey>)
    ensures SignAll(l, signers).leaseId == l.leaseId && SignAll(l, signers).manager == l.manager
    ensures SignAll(l, signers).managerSigned <==> l.managerSigned || l.manager in signers
    ensures SignAll(l, signers).tenantSigned <==>
      l.tenantSigned || exists i :: 0 <= i < |signers| && signers[i] != l.manager
    decreases |signers|
  {
    if signers != [] {
      var next := Sign(l, signers[0]);
      SignAllFlags(next, signers[1..]);
      assert signers == [signers[0]] + signers[1..];
      if next.tenantSigned && !l.tenantSigned {
        assert signers[0] != l.manager;
      }
      if exists i :: 1 <= i < |signers| && signers[i] != l.manager {
        var i :| 1 <= i < |signers| && signers[i] != l.manager;
        assert signers[1..][i - 1] != l.manager;
      }
      if exists j :: 0 <= j < |signers| - 1 && signers[1..][j] != l.manager {
        var j :| 0 <= j < |signers| - 1 && signers[1..][j] != l.manager;
        assert signers[j + 1] != l.manager;
      }
    }
  }

  type Store = map<Utf8, Lease>

  class Ledger {
    var leases: Store

    ghost predicate Valid()
      reads this
    {
      forall id | id in leases :: leases[id].leaseId == id
    }

    constructor ()
      ensures Valid() && leases == map[]
    {
      leases := map[];
    }

    method CreateLease(manager: Pubkey, leaseId: Utf8) returns (r: Result<(), AccountError>)
      requires Valid()
      modifies this
      ensures Valid()
      ensures leaseId in old(leases) ==> r == Err(AccountAlreadyInUse) && leases == old(leases)
      ensures leaseId !in old(leases) ==> r.Ok? && leases == old(leases)[leaseId := Create(manager, leaseId)]
    {
      if leaseId in leases {
        return Err(AccountAlreadyInUse);
      }
      var lease := Lease(leaseId, manager, false, false);
      leases := leases[leaseId := lease];
      r := Ok(());
    }

    method SignLease(signer: Pubkey, leaseId: Utf8) returns (r: Result<(), AccountError>)
      requires Valid()
      modifies this
      ensures Valid()
      ensures leaseId !in old(leases) ==> r == Err(AccountNotInitialized) && leases == old(leases)
      ensures leaseId in old(leases) ==>
        r.Ok? && leases == old(leases)[leaseId := Sign(old(leases)[leaseId], signer)]
    {
      if leaseId !in leases {
        return Err(AccountNotInitialized);
      }
      var lease := leases[leaseId];
      if signer == lease.manager {
        lease := lease.(managerSigned := true);
      } else {
        lease := lease.(tenantSigned := true);
      }
      leases := leases[leaseId := lease];
      r := Ok(());
    }
  }
}
