/**
 * The RentFlow lease program (programs/rentflow-core/src/lib.rs).
 *
 * A lease record lives at an address derived from the seeds
 * `["lease", lease_id]`; the ledger of all records is modelled as a map from
 * the lease id's bytes to the record. Four instructions act on one record each:
 * InitializeLease creates it (Pending), SignLease records the manager's or the
 * tenant's signature digest and activates the lease when both have signed,
 * UpdateLeaseStatus moves an Active lease to Terminated or (after the end
 * date) Completed, and VerifyLease reads it. The clock and the transaction
 * signer are parameters. A failing instruction is reverted by the runtime, so
 * it leaves the ledger unchanged.
 */
module RentflowCore {
  import opened Platform

  datatype LeaseStatus = Pending | Active | Terminated | Completed

  /** The program's own error codes, in declaration order. */
  datatype LeaseError =
    | LeaseIdTooLong
    | InvalidRentAmount
    | InvalidDateRange
    | UnauthorizedSigner
    | LeaseNotPending
    | AlreadySigned
    | LeaseNotEnded
    | InvalidStatusTransition

  /** What a failed instruction reports: a program error code or a framework failure. */
  datatype ProgramError = Custom(code: LeaseError) | Account(reason: AccountError)

  /** Longest accepted lease id, in bytes (`lease_id.len() <= 64`). */
  const MAX_LEASE_ID_LEN := 64

  /** The on-chain lease account, field for field. */
  datatype Lease = Lease(
    leaseId: Utf8,
    leaseHash: Bytes32,
    managerWallet: Pubkey,
    tenantWallet: Pubkey,
    monthlyRent: u64,
    securityDeposit: u64,
    startDate: i64,
    endDate: i64,
    managerSigned: bool,
    tenantSigned: bool,
    managerSignature: Bytes32,
    tenantSignature: Bytes32,
    status: LeaseStatus,
    createdAt: i64,
    activatedAt: i64,
    bump: u8)

  /** The key is the lease's manager or its tenant. */
  predicate IsParty(lease: Lease, key: Pubkey) {
    key == lease.managerWallet || key == lease.tenantWallet
  }

  predicate IsTerminal(s: LeaseStatus) {
    s == Terminated || s == Completed
  }

  /** The fields fixed when the record is created. */
  predicate SameTerms(a: Lease, b: Lease) {
    && a.leaseId == b.leaseId
    && a.leaseHash == b.leaseHash
    && a.managerWallet == b.managerWallet
    && a.tenantWallet == b.tenantWallet
    && a.monthlyRent == b.monthlyRent
    && a.securityDeposit == b.securityDeposit
    && a.startDate == b.startDate
    && a.endDate == b.endDate
    && a.createdAt == b.createdAt
    && a.bump == b.bump
  }

  /**
   * The record invariant every reachable lease satisfies: the validated terms,
   * "not Pending" means both parties signed, a Pending lease has never been
   * activated, an unsigned party's signature is still zero, and a lease whose
   * manager is also its tenant has no tenant signature.
   */
  predicate Consistent(l: Lease) {
    && |l.leaseId| <= MAX_LEASE_ID_LEN
    && l.monthlyRent > 0
    && l.startDate < l.endDate
    && (l.status == Pending ==> l.activatedAt == 0 && !(l.managerSigned && l.tenantSigned))
    && (l.status != Pending ==> l.managerSigned && l.tenantSigned)
    && (!l.managerSigned ==> l.managerSignature == ZERO32)
    && (!l.tenantSigned ==> l.tenantSignature == ZERO32)
    && (l.managerWallet == l.tenantWallet ==> !l.tenantSigned)
  }

  /**
   * `b` is a possible later version of `a`: the terms are unchanged, a
   * signature once given stays, a lease never returns to Pending nor is
   * re-activated, and a terminal lease does not change at all.
   */
  predicate Evolves(a: Lease, b: Lease) {
    && SameTerms(a, b)
    && (a.managerSigned ==> b.managerSigned && b.managerSignature == a.managerSignature)
    && (a.tenantSigned ==> b.tenantSigned && b.tenantSignature == a.tenantSignature)
    && (a.status != Pending ==> b.status != Pending && b.activatedAt == a.activatedAt)
    && (IsTerminal(a.status) ==> b == a)
  }

  lemma EvolvesTransitive(a: Lease, b: Lease, c: Lease)
    requires Evolves(a, b) && Evolves(b, c)
    ensures Evolves(a, c)
  {
  }

  // ---------------------------------------------------------------------------
  // The four instructions on one record

  /**
   * initialize_lease: validation in the source's order (id length, rent, date
   * range; the first failure decides), then the new Pending record.
   */
  function Initialize(manager: Pubkey, leaseId: Utf8, leaseHash: Bytes32, tenantWallet: Pubkey,
                      monthlyRent: u64, securityDeposit: u64, startDate: i64, endDate: i64,
                      now: i64, bump: u8): (r: Result<Lease, LeaseError>)
    ensures |leaseId| > MAX_LEASE_ID_LEN ==> r == Err(LeaseIdTooLong)
    ensures |leaseId| <= MAX_LEASE_ID_LEN && monthlyRent == 0 ==> r == Err(InvalidRentAmount)
    ensures |leaseId| <= MAX_LEASE_ID_LEN && monthlyRent > 0 && endDate <= startDate ==> r == Err(InvalidDateRange)
    ensures r.Ok? <==> |leaseId| <= MAX_LEASE_ID_LEN && monthlyRent > 0 && startDate < endDate
    ensures r.Ok? ==> Consistent(r.value) && !Verify(r.value)
    ensures r.Ok? ==>
      && r.value.status == Pending && r.value.createdAt == now && r.value.activatedAt == 0
      && !r.value.managerSigned && !r.value.tenantSigned
      && r.value.managerSignature == ZERO32 && r.value.tenantSignature == ZERO32
    ensures r.Ok? ==>
      && r.value.leaseId == leaseId && r.value.leaseHash == leaseHash
      && r.value.managerWallet == manager && r.value.tenantWallet == tenantWallet
      && r.value.monthlyRent == monthlyRent && r.value.securityDeposit == securityDeposit
      && r.value.startDate == startDate && r.value.endDate == endDate && r.value.bump == bump
  {
    if |leaseId| > MAX_LEASE_ID_LEN then Err(LeaseIdTooLong)
    else if monthlyRent == 0 then Err(InvalidRentAmount)
    else if endDate <= startDate then Err(InvalidDateRange)
    else Ok(Lease(leaseId, leaseHash, manager, tenantWallet, monthlyRent, securityDeposit,
                  startDate, endDate, false, false, ZERO32, ZERO32, Pending, now, 0, bump))
  }

  /** The auto-activation step at the end of sign_lease. */
  function ActivateIfBothSigned(l: Lease, now: i64): Lease {
    if l.managerSigned && l.tenantSigned then l.(status := Active, activatedAt := now) else l
  }

  /**
   * sign_lease: the status check comes before the identity check, and the
   * manager branch is tried before the tenant branch.
   */
  function Sign(lease: Lease, signer: Pubkey, signatureHash: Bytes32, now: i64): (r: Result<Lease, LeaseError>)
    ensures lease.status != Pending ==> r == Err(LeaseNotPending)
    ensures lease.status == Pending && signer != lease.managerWallet && signer != lease.tenantWallet ==>
      r == Err(UnauthorizedSigner)
    ensures r.Err? ==> r.error in {LeaseNotPending, AlreadySigned, UnauthorizedSigner}
    ensures r.Ok? ==> Evolves(lease, r.value)
    ensures r.Ok? ==> (r.value.managerSigned != lease.managerSigned) != (r.value.tenantSigned != lease.tenantSigned)
    ensures r.Ok? ==> (r.value.status == Active <==> r.value.managerSigned && r.value.tenantSigned)
    ensures r.Ok? ==> r.value.status in {Pending, Active}
    ensures r.Ok? && r.value.status == Active ==> r.value.activatedAt == now
    ensures r.Ok? && Consistent(lease) ==> Consistent(r.value)
  {
    if lease.status != Pending then Err(LeaseNotPending)
    else if signer == lease.managerWallet then
      if lease.managerSigned then Err(AlreadySigned)
      else Ok(ActivateIfBothSigned(lease.(managerSigned := true, managerSignature := signatureHash), now))
    else if signer == lease.tenantWallet then
      if lease.tenantSigned then Err(AlreadySigned)
      else Ok(ActivateIfBothSigned(lease.(tenantSigned := true, tenantSignature := signatureHash), now))
    else Err(UnauthorizedSigner)
  }

  /**
   * update_lease_status: the caller must be a party; then only Active to
   * Terminated, and Active to Completed once `now >= end_date`, are allowed.
   */
  function UpdateStatus(lease: Lease, signer: Pubkey, newStatus: LeaseStatus, now: i64): (r: Result<Lease, LeaseError>)
    ensures !IsParty(lease, signer) ==> r == Err(UnauthorizedSigner)
    ensures r.Ok? <==>
      && IsParty(lease, signer)
      && lease.status == Active
      && (newStatus == Terminated || (newStatus == Completed && now >= lease.endDate))
    ensures IsParty(lease, signer) && lease.status == Active && newStatus == Completed && now < lease.endDate ==>
      r == Err(LeaseNotEnded)
    ensures IsParty(lease, signer) && !(lease.status == Active && IsTerminal(newStatus)) ==>
      r == Err(InvalidStatusTransition)
    ensures r.Ok? ==> r.value == lease.(status := newStatus) && Evolves(lease, r.value)
    ensures r.Ok? && Consistent(lease) ==> Consistent(r.value)
  {
    if signer != lease.managerWallet && signer != lease.tenantWallet then Err(UnauthorizedSigner)
    else if lease.status == Active && newStatus == Terminated then Ok(lease.(status := newStatus))
    else if lease.status == Active && newStatus == Completed then
      if now >= lease.endDate then Ok(lease.(status := newStatus)) else Err(LeaseNotEnded)
    else Err(InvalidStatusTransition)
  }

  /** verify_lease: both parties signed and the lease is Active. */
  function Verify(lease: Lease): (valid: bool)
    ensures valid ==> lease.managerSigned && lease.tenantSigned
    ensures Consistent(lease) ==> (valid <==> lease.status == Active)
  {
    lease.managerSigned && lease.tenantSigned && lease.status == Active
  }

  // ---------------------------------------------------------------------------
  // Properties of the single-record operations

  /** The manager's signature sets only the manager's flag and digest, and wins when the manager is also the tenant. */
  lemma SignAsManager(lease: Lease, signatureHash: Bytes32, now: i64)
    requires lease.status == Pending && !lease.managerSigned
    ensures var r := Sign(lease, lease.managerWallet, signatureHash, now);
      && r.Ok?
      && r.value.managerSigned && r.value.managerSignature == signatureHash
      && r.value.tenantSigned == lease.tenantSigned && r.value.tenantSignature == lease.tenantSignature
      && SameTerms(lease, r.value)
  {
  }

  /** The tenant's signature (from a key other than the manager's) sets only the tenant's flag and digest. */
  lemma SignAsTenant(lease: Lease, signatureHash: Bytes32, now: i64)
    requires lease.status == Pending && !lease.tenantSigned && lease.tenantWallet != lease.managerWallet
    ensures var r := Sign(lease, lease.tenantWallet, signatureHash, now);
      && r.Ok?
      && r.value.tenantSigned && r.value.tenantSignature == signatureHash
      && r.value.managerSigned == lease.managerSigned && r.value.managerSignature == lease.managerSignature
      && SameTerms(lease, r.value)
  {
  }

  /** A party that already signed a Pending lease is refused with AlreadySigned. */
  lemma SignTwiceFails(lease: Lease, signer: Pubkey, signatureHash: Bytes32, now: i64)
    requires lease.status == Pending
    requires (signer == lease.managerWallet && lease.managerSigned)
          || (signer != lease.managerWallet && signer == lease.tenantWallet && lease.tenantSigned)
    ensures Sign(lease, signer, signatureHash, now) == Err(AlreadySigned)
  {
  }

  /**
   * Nothing checks the digest a party signs with: an all-zero signature hash is
   * accepted, leaving a signed party whose stored signature is still zero.
   */
  lemma ZeroSignatureAccepted(lease: Lease, now: i64)
    requires lease.status == Pending && !lease.managerSigned
    ensures var r := Sign(lease, lease.managerWallet, ZERO32, now);
      r.Ok? && r.value.managerSigned && r.value.managerSignature == ZERO32
  {
  }

  /** When the manager is also the tenant, no sequence of signatures can activate the lease. */
  lemma SelfDealingSignNeverActivates(lease: Lease, signer: Pubkey, signatureHash: Bytes32, now: i64)
    requires Consistent(lease) && lease.managerWallet == lease.tenantWallet
    ensures lease.status == Pending
    ensures var r := Sign(lease, signer, signatureHash, now);
      r.Ok? ==> r.value.status == Pending && !r.value.tenantSigned && !Verify(r.value)
  {
  }

  /** Manager then tenant, or tenant then manager: after both signatures the lease verifies. */
  lemma BothSignaturesActivate(lease: Lease, managerSig: Bytes32, tenantSig: Bytes32, now1: i64, now2: i64)
    requires Consistent(lease) && lease.status == Pending
    requires !lease.managerSigned && !lease.tenantSigned && lease.managerWallet != lease.tenantWallet
    ensures var m := Sign(lease, lease.managerWallet, managerSig, now1);
      && m.Ok? && m.value.status == Pending
      && var mt := Sign(m.value, lease.tenantWallet, tenantSig, now2);
      && mt.Ok? && Verify(mt.value) && mt.value.activatedAt == now2
    ensures var t := Sign(lease, lease.tenantWallet, tenantSig, now1);
      && t.Ok? && t.value.status == Pending
      && var tm := Sign(t.value, lease.managerWallet, managerSig, now2);
      && tm.Ok? && Verify(tm.value) && tm.value.activatedAt == now2
  {
  }

  /** Pending and terminal leases cannot be moved by any party, to any status. */
  lemma OnlyActiveLeasesMove(lease: Lease, signer: Pubkey, newStatus: LeaseStatus, now: i64)
    requires IsParty(lease, signer)
    requires lease.status != Active
    ensures UpdateStatus(lease, signer, newStatus, now) == Err(InvalidStatusTransition)
  {
  }

  // ---------------------------------------------------------------------------
  // The ledger of lease accounts

  /** All lease accounts, by the lease id bytes that seed their addresses. */
  type Store = map<Utf8, Lease>

  predicate StoreConsistent(store: Store) {
    forall id | id in store :: store[id].leaseId == id && Consistent(store[id])
  }

  /** Every record of `a` is still in `b`, as a possible later version of itself. */
  predicate Grows(a: Store, b: Store) {
    && a.Keys <= b.Keys
    && forall id | id in a :: Evolves(a[id], b[id])
  }

  lemma {:induction false} GrowsTransitive(a: Store, b: Store, c: Store)
    requires Grows(a, b) && Grows(b, c)
    ensures Grows(a, c)
  {
    forall id | id in a
      ensures Evolves(a[id], c[id])
    {
      EvolvesTransitive(a[id], b[id], c[id]);
    }
  }

  /** One instruction with its own arguments; the signer is the transaction's signing key. */
  datatype Instruction =
    | InitializeLease(manager: Pubkey, leaseId: Utf8, leaseHash: Bytes32, tenantWallet: Pubkey,
                      monthlyRent: u64, securityDeposit: u64, startDate: i64, endDate: i64, bump: u8)
    | SignLease(signer: Pubkey, leaseId: Utf8, signatureHash: Bytes32)
    | UpdateLeaseStatus(signer: Pubkey, leaseId: Utf8, newStatus: LeaseStatus)
    | VerifyLease(leaseId: Utf8)

  /** Writes the outcome of a record-level operation back to the account. */
  function Commit(store: Store, id: Utf8, r: Result<Lease, LeaseError>): Result<Store, ProgramError> {
    match r
    case Ok(lease) => Ok(store[id := lease])
    case Err(e) => Err(Custom(e))
  }

  /**
   * The ledger after one instruction at clock time `now`. The account framework
   * acts first: `init` fails when the derived address is taken, and the other
   * instructions fail when it holds no lease.
   */
  function Execute(store: Store, ix: Instruction, now: i64): (r: Result<Store, ProgramError>)
    ensures r.Ok? && StoreConsistent(store) ==> StoreConsistent(r.value)
    ensures r.Ok? ==> Grows(store, r.value)
    ensures r.Ok? ==> r.value.Keys <= store.Keys + {ix.leaseId}
    ensures r.Ok? ==> forall id | id in store && id != ix.leaseId :: id in r.value && r.value[id] == store[id]
    ensures ix.InitializeLease? && ix.leaseId in store ==> r == Err(Account(AccountAlreadyInUse))
    ensures !ix.InitializeLease? && ix.leaseId !in store ==> r == Err(Account(AccountNotInitialized))
    ensures ix.VerifyLease? && r.Ok? ==> r.value == store
  {
    match ix
    case InitializeLease(manager, id, leaseHash, tenantWallet, monthlyRent, securityDeposit, startDate, endDate, bump) =>
      if id in store then Err(Account(AccountAlreadyInUse))
      else Commit(store, id, Initialize(manager, id, leaseHash, tenantWallet, monthlyRent, securityDeposit,
                                        startDate, endDate, now, bump))
    case SignLease(signer, id, signatureHash) =>
      if id !in store then Err(Account(AccountNotInitialized))
      else Commit(store, id, Sign(store[id], signer, signatureHash, now))
    case UpdateLeaseStatus(signer, id, newStatus) =>
      if id !in store then Err(Account(AccountNotInitialized))
      else Commit(store, id, UpdateStatus(store[id], signer, newStatus, now))
    case VerifyLease(id) =>
      if id !in store then Err(Account(AccountNotInitialized)) else Ok(store)
  }

  /** A transaction: one instruction and the clock reading it sees. */
  datatype Transaction = Transaction(now: i64, ix: Instruction)

  /** A failed transaction is reverted: the ledger is as before. */
  function Apply(store: Store, tx: Transaction): Store {
    match Execute(store, tx.ix, tx.now)
    case Ok(s) => s
    case Err(_) => store
  }

  /** The ledger after a sequence of transactions, applied one at a time. */
  function Run(store: Store, txs: seq<Transaction>): Store
    decreases |txs|
  {
    if txs == [] then store else Run(Apply(store, txs[0]), txs[1..])
  }

  // ---------------------------------------------------------------------------
  // Properties of every history

  /** Every reachable ledger is consistent. */
  lemma {:induction false} RunKeepsConsistent(store: Store, txs: seq<Transaction>)
    requires StoreConsistent(store)
    ensures StoreConsistent(Run(store, txs))
    decreases |txs|
  {
    if txs != [] {
      RunKeepsConsistent(Apply(store, txs[0]), txs[1..]);
    }
  }

  /**
   * Records are never removed, their terms never change, signatures are never
   * withdrawn, no lease returns to Pending, and terminal leases stay as they are.
   */
  lemma {:induction false} RunGrows(store: Store, txs: seq<Transaction>)
    ensures Grows(store, Run(store, txs))
    decreases |txs|
  {
    if txs != [] {
      var next := Apply(store, txs[0]);
      RunGrows(next, txs[1..]);
      GrowsTransitive(store, next, Run(next, txs[1..]));
    }
  }

  /** A Terminated or Completed lease is the same after any later history. */
  lemma TerminalLeaseIsFrozen(store: Store, txs: seq<Transaction>, id: Utf8)
    requires id in store && IsTerminal(store[id].status)
    ensures id in Run(store, txs) && Run(store, txs)[id] == store[id]
  {
    RunGrows(store, txs);
  }

  /** In every reachable ledger a lease verifies exactly when it is Active. */
  lemma VerifyMeansActive(store: Store, txs: seq<Transaction>, id: Utf8)
    requires StoreConsistent(store) && id in Run(store, txs)
    ensures Verify(Run(store, txs)[id]) <==> Run(store, txs)[id].status == Active
  {
    RunKeepsConsistent(store, txs);
  }

  /** A lease whose manager key is also its tenant key stays Pending forever. */
  lemma SelfDealingLeaseStaysPending(store: Store, txs: seq<Transaction>, id: Utf8)
    requires StoreConsistent(store) && id in Run(store, txs)
    requires Run(store, txs)[id].managerWallet == Run(store, txs)[id].tenantWallet
    ensures Run(store, txs)[id].status == Pending && !Verify(Run(store, txs)[id])
  {
    RunKeepsConsistent(store, txs);
  }

  /** A lease that no transaction names is exactly as it was (or still absent) after the history. */
  lemma {:induction false} UnnamedLeaseIsUntouched(store: Store, txs: seq<Transaction>, id: Utf8)
    requires forall i | 0 <= i < |txs| :: txs[i].ix.leaseId != id
    ensures id in Run(store, txs) <==> id in store
    ensures id in store ==> Run(store, txs)[id] == store[id]
    decreases |txs|
  {
    if txs != [] {
      var next := Apply(store, txs[0]);
      assert id in next <==> id in store;
      assert id in store ==> next[id] == store[id];
      forall i | 0 <= i < |txs[1..]|
        ensures txs[1..][i].ix.leaseId != id
      {
        assert txs[1..][i] == txs[i + 1];
      }
      UnnamedLeaseIsUntouched(next, txs[1..], id);
    }
  }

  /** Once a lease id is taken, every later InitializeLease with that id fails, whatever its other arguments. */
  lemma LeaseIdIsTakenForever(store: Store, txs: seq<Transaction>, ix: Instruction, now: i64)
    requires ix.InitializeLease? && ix.leaseId in store
    ensures Execute(Run(store, txs), ix, now) == Err(Account(AccountAlreadyInUse))
  {
    RunGrows(store, txs);
  }

  // ---------------------------------------------------------------------------
  // The program, instruction handlers updating the ledger in place

  /**
   * The account as `init` creates it, before the handler writes it: zero-filled
   * data, which reads back as an empty id, zero numbers, false flags and the
   * first status variant.
   */
  function ZeroedAccount(): (l: Lease)
    ensures l.status == Pending && !l.managerSigned && !l.tenantSigned
  {
    Lease([], ZERO32, ZERO32, ZERO32, 0, 0, 0, 0, false, false, ZERO32, ZERO32, Pending, 0, 0, 0)
  }

  /** Folds a handler's outcome and the ledger it leaves into the shape `Execute` returns. */
  function Committed(r: Result<(), ProgramError>, after: Store): Result<Store, ProgramError> {
    if r.Ok? then Ok(after) else Err(r.error)
  }

  class Ledger {
    var leases: Store

    ghost predicate Valid()
      reads this
    {
      StoreConsistent(leases)
    }

    constructor ()
      ensures Valid() && leases == map[]
    {
      leases := map[];
    }

    method InitializeLease(manager: Pubkey, leaseId: Utf8, leaseHash: Bytes32, tenantWallet: Pubkey,
                           monthlyRent: u64, securityDeposit: u64, startDate: i64, endDate: i64,
                           now: i64, bump: u8) returns (r: Result<(), ProgramError>)
      requires Valid()
      modifies this
      ensures Valid()
      ensures r.Err? ==> leases == old(leases)
      ensures Committed(r, leases) == Execute(old(leases), Instruction.InitializeLease(
        manager, leaseId, leaseHash, tenantWallet, monthlyRent, securityDeposit, startDate, endDate, bump), now)
    {
      if leaseId in leases {
        return Err(Account(AccountAlreadyInUse));
      }
      if |leaseId| > MAX_LEASE_ID_LEN {
        return Err(Custom(LeaseIdTooLong));
      }
      if monthlyRent == 0 {
        return Err(Custom(InvalidRentAmount));
      }
      if endDate <= startDate {
        return Err(Custom(InvalidDateRange));
      }
      var lease := ZeroedAccount();
      lease := lease.(leaseId := leaseId);
      lease := lease.(leaseHash := leaseHash);
      lease := lease.(managerWallet := manager);
      lease := lease.(tenantWallet := tenantWallet);
      lease := lease.(monthlyRent := monthlyRent);
      lease := lease.(securityDeposit := securityDeposit);
      lease := lease.(startDate := startDate);
      lease := lease.(endDate := endDate);
      lease := lease.(managerSigned := false);
      lease := lease.(tenantSigned := false);
      lease := lease.(managerSignature := ZERO32);
      lease := lease.(tenantSignature := ZERO32);
      lease := lease.(status := Pending);
      lease := lease.(createdAt := now);
      lease := lease.(activatedAt := 0);
      lease := lease.(bump := bump);
      leases := leases[leaseId := lease];
      r := Ok(());
    }

    method SignLease(signer: Pubkey, leaseId: Utf8, signatureHash: Bytes32, now: i64) returns (r: Result<(), ProgramError>)
      requires Valid()
      modifies this
      ensures Valid()
      ensures r.Err? ==> leases == old(leases)
      ensures Committed(r, leases) == Execute(old(leases), Instruction.SignLease(signer, leaseId, signatureHash), now)
    {
      if leaseId !in leases {
        return Err(Account(AccountNotInitialized));
      }
      var lease := leases[leaseId];
      if lease.status != Pending {
        return Err(Custom(LeaseNotPending));
      }
      if signer == lease.managerWallet {
        if lease.managerSigned {
          return Err(Custom(AlreadySigned));
        }
        lease := lease.(managerSigned := true);
        lease := lease.(managerSignature := signatureHash);
      } else if signer == lease.tenantWallet {
        if lease.tenantSigned {
          return Err(Custom(AlreadySigned));
        }
        lease := lease.(tenantSigned := true);
        lease := lease.(tenantSignature := signatureHash);
      } else {
        return Err(Custom(UnauthorizedSigner));
      }
      if lease.managerSigned && lease.tenantSigned {
        lease := lease.(status := Active);
        lease := lease.(activatedAt := now);
      }
      leases := leases[leaseId := lease];
      r := Ok(());
    }

    method UpdateLeaseStatus(signer: Pubkey, leaseId: Utf8, newStatus: LeaseStatus, now: i64) returns (r: Result<(), ProgramError>)
      requires Valid()
      modifies this
      ensures Valid()
      ensures r.Err? ==> leases == old(leases)
      ensures Committed(r, leases) == Execute(old(leases), Instruction.UpdateLeaseStatus(signer, leaseId, newStatus), now)
    {
      if leaseId !in leases {
        return Err(Account(AccountNotInitialized));
      }
      var lease := leases[leaseId];
      if signer != lease.managerWallet && signer != lease.tenantWallet {
        return Err(Custom(UnauthorizedSigner));
      }
      match (lease.status, newStatus) {
        case (Active, Terminated) =>
        case (Active, Completed) =>
          if now < lease.endDate {
            return Err(Custom(LeaseNotEnded));
          }
        case _ =>
          return Err(Custom(InvalidStatusTransition));
      }
      leases := leases[leaseId := lease.(status := newStatus)];
      r := Ok(());
    }

    /** Read-only: reports whether the lease is signed by both parties and Active. */
    method VerifyLease(leaseId: Utf8) returns (r: Result<bool, ProgramError>)
      requires Valid()
      ensures leaseId !in leases ==> r == Err(Account(AccountNotInitialized))
      ensures leaseId in leases ==> r == Ok(Verify(leases[leaseId]))
      ensures leaseId in leases ==> r.Ok? && (r.value <==> leases[leaseId].status == Active)
      ensures r.Ok? && r.value ==> leases[leaseId].managerSigned && leases[leaseId].tenantSigned
    {
      if leaseId !in leases {
        return Err(Account(AccountNotInitialized));
      }
      var lease := leases[leaseId];
      var isValid := lease.managerSigned && lease.tenantSigned && lease.status == Active;
      r := Ok(isValid);
    }
  }

  /**
   * A client of the handlers, following lease "L1": created, signed by the
   * manager (still Pending), then by the tenant (Active and verified).
   */
  method ActivationScenario(manager: Pubkey, tenant: Pubkey, leaseHash: Bytes32, sigA: Bytes32, sigB: Bytes32, bump: u8)
    requires manager != tenant
  {
    var ledger := new Ledger();
    var id: Utf8 := [0x4C, 0x31];
    var r := ledger.InitializeLease(manager, id, leaseHash, tenant, 1000, 500, 1000, 2000, 900, bump);
    var lease := ledger.leases[id];
    assert r.Ok? && lease.status == Pending && !lease.managerSigned && !lease.tenantSigned;
    assert lease.managerWallet == manager && lease.tenantWallet == tenant;

    r := ledger.SignLease(manager, id, sigA, 950);
    SignAsManager(lease, sigA, 950);
    lease := ledger.leases[id];
    assert r.Ok? && lease.managerSigned && !lease.tenantSigned && lease.status == Pending;

    r := ledger.SignLease(tenant, id, sigB, 960);
    SignAsTenant(lease, sigB, 960);
    lease := ledger.leases[id];
    assert r.Ok? && lease.status == Active && lease.activatedAt == 960;

    var v := ledger.VerifyLease(id);
    assert v == Ok(true);
  }

  /**
   * A client continuing from an Active lease: the tenant terminates it, after
   * which completion is refused and the lease id cannot be initialized again.
   */
  method TerminationScenario(ledger: Ledger, id: Utf8, now: i64)
    requires ledger.Valid() && id in ledger.leases && ledger.leases[id].status == Active
    modifies ledger
  {
    var tenant := ledger.leases[id].tenantWallet;
    var manager := ledger.leases[id].managerWallet;
    var r := ledger.UpdateLeaseStatus(tenant, id, Terminated, now);
    assert r.Ok? && ledger.leases[id].status == Terminated;

    r := ledger.UpdateLeaseStatus(manager, id, Completed, 0x7FFF_FFFF_FFFF_FFFF);
    assert r == Err(Custom(InvalidStatusTransition));
    r := ledger.InitializeLease(tenant, id, ZERO32, manager, 1, 0, 0, 1, now, 0);
    assert r == Err(Account(AccountAlreadyInUse));
  }
}
