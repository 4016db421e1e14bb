/** What leases and renewals give the replicas they are sent to, and what a crash takes from one. */
module LeaseDelivery {
  import opened Results
  import opened Meters
  import opened LeaseManager
  import opened BudgetAuthority
  import opened BudgetAnswers
  import opened LeaseProtocol
  import Runs = LeaseManagerRuns
  import L = Ledger

  /** The reply of a renewal is the lease as it is stored from then on, and it is on its way. */
  lemma RenewalReplies(cfg: Config, y: System, key: Key, hint: Meters, now: Time) returns (reply: Lease)
    requires L.WellFormed(y.ledger) && key in y.ledger.store.leases && key.executionID != ""
    ensures var z := AfterAuthority(cfg, y, L.Renew(key.leaseID, hint, now));
      && key in z.ledger.store.leases && reply == z.ledger.store.leases[key] && KeyOf(reply) == key
      && z.renewals == y.renewals + {reply}
      && z.replicas == y.replicas && z.crashed == y.crashed && z.grants == y.grants && z.committed == y.committed
  {
    L.FoundUnique(y.ledger, key.leaseID, y.ledger.store.leases[key]);
    reply := L.RenewShape(cfg, y.ledger.store, y.ledger.store.leases[key], hint, now);
  }

  /** A replica may install the renewal of its own lease at once: its grant covers what the replica has open. */
  lemma RenewalFits(cfg: Config, y: System, r: string, hint: Meters, now: Time, reply: Lease)
    requires Inv(y) && Up(y, r) && y.replicas[r].lease.Some?
    requires var key := KeyOf(y.replicas[r].lease.value);
      && key in y.ledger.store.leases && key.executionID != "" && KeyOf(reply) == key
      && reply == AfterAuthority(cfg, y, L.Renew(key.leaseID, hint, now)).ledger.store.leases[key]
    ensures Runs.Covers(Merged(y.replicas[r], reply), y.replicas[r].reservations)
    ensures forall m :: At(reply.granted, m) >= At(y.replicas[r].lease.value.granted, m)
  {
  }

  /**
   Renewing a live lease and installing the reply is admissible for the replica that holds it. It raises what the
   replica has available of a meter by at least what the authority topped the meter up with, and forgets nothing it
   consumed.
   */
  lemma RenewalDelivers(cfg: Config, y: System, r: string, hint: Meters, now: Time, m: string) returns (reply: Lease)
    requires Inv(y) && Up(y, r) && y.replicas[r].lease.Some?
    requires KeyOf(y.replicas[r].lease.value) in y.ledger.store.leases && y.replicas[r].lease.value.executionID != ""
    ensures var key := KeyOf(y.replicas[r].lease.value);
      var z := AfterAuthority(cfg, y, L.Renew(key.leaseID, hint, now));
      && Admissible(z, Refresh(r, reply))
      && var s := Next(cfg, z, Refresh(r, reply)).replicas[r];
         && s.lease.Some? && s.reservations == y.replicas[r].reservations
         && s.lease.value.consumed == y.replicas[r].lease.value.consumed
         && s.lease.value.expiresAt == now + cfg.leaseTTL
         && Available(s, m) >= Available(y.replicas[r], m)
            + At(z.ledger.store.leases[key].granted, m) - At(y.ledger.store.leases[key].granted, m)
  {
    var key := KeyOf(y.replicas[r].lease.value);
    reply := RenewalReplies(cfg, y, key, hint, now);
    RenewalFits(cfg, y, r, hint, now, reply);
    RenewalKeeps(cfg, y.ledger, key, hint, now);
  }

  /** A crashed replica does nothing until it gets another lease, and then knows of no reservation it had. */
  lemma CrashForgets(cfg: Config, y: System, r: string, call: Runs.Op, stale: Lease, lease: Lease)
    requires Admissible(y, Crash(r))
    ensures var z := Next(cfg, y, Crash(r));
      && !Up(z, r) && !Admissible(z, Local(r, call)) && !Admissible(z, Refresh(r, stale))
      && z.ledger == y.ledger && z.committed == y.committed
      && (forall q | q != r :: Up(z, q) <==> Up(y, q))
      && (lease in y.grants ==>
            && Admissible(z, Install(r, lease))
            && var w := Next(cfg, z, Install(r, lease));
               && Up(w, r) && w.replicas[r] == State(Some(lease), map[], 0) && w.grants == y.grants - {lease})
  {
  }
}
