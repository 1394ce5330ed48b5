/**
 * The stripped-down draft of the lease program (programs/rentflow-core/MINIMAL.rs).
 *
 * The account holds only the id, the manager key, the rent, two signed flags
 * and an `is_active` flag. Nothing is validated and nobody is refused: the
 * manager's key sets the manager flag and every other key sets the tenant
 * flag; when both flags are set the lease becomes active. The only failures
 * are the account framework's: `init` at a taken address, and signing an
 * address that holds no lease.
 */
module Minimal {
  import opened Platform

  datatype Lease = Lease(
    leaseId: Utf8,
    managerWallet: Pubkey,
    monthlyRent: u64,
    managerSigned: bool,
    tenantSigned: bool,
    isActive: bool)

  /** Active exactly when both flags are set; holds after initialize and is kept by sign. */
  predicate Consistent(l: Lease) {
    l.isActive <==> l.managerSigned && l.tenantSigned
  }

  /** The fields sign never writes. */
  predicate SameTerms(a: Lease, b: Lease) {
    a.leaseId == b.leaseId && a.managerWallet == b.managerWallet && a.monthlyRent == b.monthlyRent
  }

  /** initialize_lease: the caller becomes the manager, every flag starts false, any rent is stored. */
  function Initialize(manager: Pubkey, leaseId: Utf8, monthlyRent: u64): (l: Lease)
    ensures Consistent(l) && !l.isActive && !l.managerSigned && !l.tenantSigned
    ensures l.leaseId == leaseId && l.managerWallet == manager && l.monthlyRent == monthlyRent
  {
    Lease(leaseId, manager, monthlyRent, false, false, false)
  }

  /** sign_lease: no status check and no authorization; it never fails. */
  function Sign(l: Lease, signer: Pubkey): (r: Lease)
    ensures SameTerms(l, r)
    ensures signer == l.managerWallet ==> r.managerSigned && r.tenantSigned == l.tenantSigned
    ensures signer != l.managerWallet ==> r.tenantSigned && r.managerSigned == l.managerSigned
    ensures l.isActive ==> r.isActive
    ensures r.isActive <==> l.isActive || (r.managerSigned && r.tenantSigned)
    ensures Consistent(l) ==> Consistent(r)
  {
    var signed := if signer == l.managerWallet then l.(managerSigned := true) else l.(tenantSigned := true);
    if signed.managerSigned && signed.tenantSigned then signed.(isActive := true) else signed
  }

  /** Signing again with the same key changes nothing. */
  lemma SignIdempotent(l: Lease, signer: Pubkey)
    ensures Sign(Sign(l, signer), signer) == Sign(l, signer)
  {
  }

  /** The order in which two keys sign does not matter. */
  lemma SignCommutes(l: Lease, a: Pubkey, b: Pubkey)
    ensures Sign(Sign(l, a), b) == Sign(Sign(l, b), a)
  {
  }

  /** Once the manager has signed, any key other than the manager's activates the lease. */
  lemma AnyKeyCompletesActivation(l: Lease, stranger: Pubkey)
    requires l.managerSigned && stranger != l.managerWallet
    ensures Sign(l, stranger).isActive
  {
  }

  /** The lease after a sequence of sign_lease calls, by the given keys in order. */
  function SignAll(l: Lease, signers: seq<Pubkey>): Lease
    decreases |signers|
  {
    if signers == [] then l else SignAll(Sign(l, signers[0]), signers[1..])
  }

  /** Over any sequence of signatures the terms are kept, flags never clear, and the invariant holds. */
  lemma {:induction false} SignAllMonotone(l: Lease, signers: seq<Pubkey>)
    ensures SameTerms(l, SignAll(l, signers))
    ensures l.managerSigned ==> SignAll(l, signers).managerSigned
    ensures l.tenantSigned ==> SignAll(l, signers).tenantSigned
    ensures l.isActive ==> SignAll(l, signers).isActive
    ensures Consistent(l) ==> Consistent(SignAll(l, signers))
    decreases |signers|
  {
    if signers != [] {
      SignAllMonotone(Sign(l, signers[0]), signers[1..]);
    }
  }

  /** Two signatures, the manager's and any other key's, in either order, activate a fresh lease. */
  lemma {:induction false} ManagerAndAnotherKeyActivate(manager: Pubkey, leaseId: Utf8, monthlyRent: u64,
                                                        other: Pubkey, signers: seq<Pubkey>)
    requires other != manager && manager in signers && other in signers
    ensures SignAll(Initialize(manager, leaseId, monthlyRent), signers).isActive
  {
    var l := Initialize(manager, leaseId, monthlyRent);
    SignAllSetsFlags(l, signers, manager, other);
  }

  lemma {:induction false} SignAllSetsFlags(l: Lease, signers: seq<Pubkey>, manager: Pubkey, other: Pubkey)
    requires l.managerWallet == manager && other != manager
    ensures manager in signers ==> SignAll(l, signers).managerSigned
    ensures other in signers ==> SignAll(l, signers).tenantSigned
    ensures Consistent(l) ==> Consistent(SignAll(l, signers))
    decreases |signers|
  {
    if signers != [] {
      var next := Sign(l, signers[0]);
      SignAllSetsFlags(next, signers[1..], manager, other);
      SignAllMonotone(next, signers[1..]);
      assert signers == [signers[0]] + signers[1..];
    }
  }

  type Store = map<Utf8, Lease>

  class Ledger {
    var leases: Store

    ghost predicate Valid()
      reads this
    {
      forall id | id in leases :: leases[id].leaseId == id && Consistent(leases[id])
    }

    constructor ()
      ensures Valid() && leases == map[]
    {
      leases := map[];
    }

    method InitializeLease(manager: Pubkey, leaseId: Utf8, monthlyRent: u64) returns (r: Result<(), AccountError>)
      requires Valid()
      modifies this
      ensures Valid()
      ensures leaseId in old(leases) ==> r == Err(AccountAlreadyInUse) && leases == old(leases)
      ensures leaseId !in old(leases) ==>
        r.Ok? && leases == old(leases)[leaseId := Initialize(manager, leaseId, monthlyRent)]
    {
      if leaseId in leases {
        return Err(AccountAlreadyInUse);
      }
      var lease := Lease(leaseId, manager, monthlyRent, false, false, false);
      leases := leases[leaseId := lease];
      r := Ok(());
    }

    method SignLease(signer: Pubkey, leaseId: Utf8) returns (r: Result<(), AccountError>)
      requires Valid()
      modifies this
      ensures Valid()
      ensures leaseId !in old(leases) ==> r == Err(AccountNotInitialized) && leases == old(leases)
      ensures leaseId in old(leases) ==>
        r.Ok? && leases == old(leases)[leaseId := Sign(old(leases)[leaseId], signer)]
    {
      if leaseId !in leases {
        return Err(AccountNotInitialized);
      }
      var lease := leases[leaseId];
      if signer == lease.managerWallet {
        lease := lease.(managerSigned := true);
      } else {
        lease := lease.(tenantSigned := true);
      }
      if lease.managerSigned && lease.tenantSigned {
        lease := lease.(isActive := true);
      }
      leases := leases[leaseId := lease];
      r := Ok(());
    }
  }

  /** A zero rent is accepted: initializing a free id with rent 0 succeeds and stores rent 0. */
  method ZeroRentAccepted(ledger: Ledger, manager: Pubkey, leaseId: Utf8) returns (r: Result<(), AccountError>)
    requires ledger.Valid() && leaseId !in ledger.leases
    modifies ledger
    ensures r.Ok? && leaseId in ledger.leases && ledger.leases[leaseId].monthlyRent == 0
  {
    r := ledger.InitializeLease(manager, leaseId, 0);
  }
}
