/**
 * The second copy of the lease program (programs/rentflow-core/SOLPG_CLEAN.rs).
 *
 * It declares the same Lease account, LeaseStatus and LeaseError as
 * src/lib.rs, field for field and variant for variant, so this module reuses
 * those declarations from RentflowCore. Its four handlers are its own code;
 * each is proved here against RentflowCore's specification of the
 * corresponding instruction, so the two versions agree on every input and
 * every property proved there (the invariant, the monotone history, the
 * frozen terminal states) holds of this version as well.
 */
module SolpgClean {
  import opened Platform
  import opened RentflowCore

  class Ledger {
    var leases: Store

    ghost predicate Valid()
      reads this
    {
      StoreConsistent(leases)
    }

    constructor ()
      ensures Valid() && leases == map[]
    {
      leases := map[];
    }

    method InitializeLease(manager: Pubkey, leaseId: Utf8, leaseHash: Bytes32, tenantWallet: Pubkey,
                           monthlyRent: u64, securityDeposit: u64, startDate: i64, endDate: i64,
                           now: i64, bump: u8) returns (r: Result<(), ProgramError>)
      requires Valid()
      modifies this
      ensures Valid()
      ensures r.Err? ==> leases == old(leases)
      ensures Committed(r, leases) == Execute(old(leases), Instruction.InitializeLease(
        manager, leaseId, leaseHash, tenantWallet, monthlyRent, securityDeposit, startDate, endDate, bump), now)
    {
      // `init` on the seeds ["lease", lease_id] runs before the handler body
      if leaseId in leases {
        return Err(Account(AccountAlreadyInUse));
      }
      if |leaseId| > MAX_LEASE_ID_LEN {
        return Err(Custom(LeaseIdTooLong));
      }
      if monthlyRent == 0 {
        return Err(Custom(InvalidRentAmount));
      }
      if endDate <= startDate {
        return Err(Custom(InvalidDateRange));
      }
      var lease := ZeroedAccount();
      lease := lease.(leaseId := leaseId);
      lease := lease.(leaseHash := leaseHash);
      lease := lease.(managerWallet := manager);
      lease := lease.(tenantWallet := tenantWallet);
      lease := lease.(monthlyRent := monthlyRent);
      lease := lease.(securityDeposit := securityDeposit);
      lease := lease.(startDate := startDate);
      lease := lease.(endDate := endDate);
      lease := lease.(managerSigned := false);
      lease := lease.(tenantSigned := false);
      lease := lease.(managerSignature := ZERO32);
      lease := lease.(tenantSignature := ZERO32);
      lease := lease.(status := Pending);
      lease := lease.(createdAt := now);
      lease := lease.(activatedAt := 0);
      lease := lease.(bump := bump);
      leases := leases[leaseId := lease];
      r := Ok(());
    }

    method SignLease(signer: Pubkey, leaseId: Utf8, signatureHash: Bytes32, now: i64) returns (r: Result<(), ProgramError>)
      requires Valid()
      modifies this
      ensures Valid()
      ensures r.Err? ==> leases == old(leases)
      ensures Committed(r, leases) == Execute(old(leases), Instruction.SignLease(signer, leaseId, signatureHash), now)
    {
      if leaseId !in leases {
        return Err(Account(AccountNotInitialized));
      }
      var lease := leases[leaseId];
      if lease.status != Pending {
        return Err(Custom(LeaseNotPending));
      }
      if signer == lease.managerWallet {
        if lease.managerSigned {
          return Err(Custom(AlreadySigned));
        }
        lease := lease.(managerSigned := true);
        lease := lease.(managerSignature := signatureHash);
      } else if signer == lease.tenantWallet {
        if lease.tenantSigned {
          return Err(Custom(AlreadySigned));
        }
        lease := lease.(tenantSigned := true);
        lease := lease.(tenantSignature := signatureHash);
      } else {
        return Err(Custom(UnauthorizedSigner));
      }
      if lease.managerSigned && lease.tenantSigned {
        lease := lease.(status := Active);
        lease := lease.(activatedAt := now);
      }
      leases := leases[leaseId := lease];
      r := Ok(());
    }

    method UpdateLeaseStatus(signer: Pubkey, leaseId: Utf8, newStatus: LeaseStatus, now: i64) returns (r: Result<(), ProgramError>)
      requires Valid()
      modifies this
      ensures Valid()
      ensures r.Err? ==> leases == old(leases)
      ensures Committed(r, leases) == Execute(old(leases), Instruction.UpdateLeaseStatus(signer, leaseId, newStatus), now)
    {
      if leaseId !in leases {
        return Err(Account(AccountNotInitialized));
      }
      var lease := leases[leaseId];
      if signer != lease.managerWallet && signer != lease.tenantWallet {
        return Err(Custom(UnauthorizedSigner));
      }
      match (lease.status, newStatus) {
        case (Active, Terminated) =>
        case (Active, Completed) =>
          if now < lease.endDate {
            return Err(Custom(LeaseNotEnded));
          }
        case _ =>
          return Err(Custom(InvalidStatusTransition));
      }
      lease := lease.(status := newStatus);
      leases := leases[leaseId := lease];
      r := Ok(());
    }

    /** Read-only: both flags and Active, the same answer as src/lib.rs gives. */
    method VerifyLease(leaseId: Utf8) returns (r: Result<bool, ProgramError>)
      requires Valid()
      ensures leaseId !in leases ==> r == Err(Account(AccountNotInitialized))
      ensures leaseId in leases ==> r == Ok(Verify(leases[leaseId]))
      ensures r.Ok? ==> (r.value <==> leases[leaseId].status == Active)
    {
      if leaseId !in leases {
        return Err(Account(AccountNotInitialized));
      }
      var lease := leases[leaseId];
      r := Ok(lease.managerSigned && lease.tenantSigned && lease.status == Active);
    }
  }
}
