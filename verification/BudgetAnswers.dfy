/**
 What the authority's transactions answer and write, meter by meter, in terms of the stored records and the request.
 */
module BudgetAnswers {
  import opened Results
  import opened Meters
  import opened LeaseManager
  import opened BudgetAuthority
  import L = Ledger

  // Acquiring.

  /** Who is refused a lease, and why. */
  lemma RefusedIff(s: Store, req: LeaseRequest)
    ensures AcquireRefusal(s, req).None? <==>
      && req.executionID in s.budgets
      && (req.epoch == 0 || req.epoch == s.budgets[req.executionID].epoch)
      && forall m | m in s.budgets[req.executionID].limits :: At(s.budgets[req.executionID].remaining, m) > 0.0
    ensures AcquireRefusal(s, req) == Some(EpochBumped) <==>
      req.executionID in s.budgets && req.epoch != 0 && req.epoch != s.budgets[req.executionID].epoch
    ensures AcquireRefusal(s, req) in {None, Some(EpochBumped), Some(BudgetExhausted)}
  {
  }

  /** A bump shuts out every request that names the epoch before it, whatever it asks for. */
  lemma BumpShutsOut(cfg: Config, g: L.Ledger, e: string, req: LeaseRequest, leaseID: string, now: Time)
    requires e in g.store.budgets && g.store.budgets[e].epoch < 0x1_0000_0000_0000_0000
    requires req.executionID == e && req.epoch == g.store.budgets[e].epoch != 0
    ensures var h := L.Step(cfg, g, L.Bump(e));
      && h.closed == g.closed && h.store.leases == g.store.leases && h.store.budgets.Keys == g.store.budgets.Keys
      && (forall d | d in g.store.budgets && d != e :: h.store.budgets[d] == g.store.budgets[d])
      && h.store.budgets[e].limits == g.store.budgets[e].limits
      && h.store.budgets[e].remaining == g.store.budgets[e].remaining
      && h.store.budgets[e].epoch
         == (if req.epoch == 0xFFFF_FFFF_FFFF_FFFF then 0 else req.epoch + 1)
      && AcquireRefusal(h.store, req) == Some(EpochBumped) && L.Step(cfg, h, L.Acquire(req, leaseID, now)) == h
  {
  }

  /**
   An acquisition that is not refused writes one lease for the requesting replica, under the budget's epoch, with
   nothing consumed and the configured time to live, takes its grant out of what remains, and touches nothing else.
   */
  lemma AcquireWrites(cfg: Config, g: L.Ledger, req: LeaseRequest, leaseID: string, now: Time)
    requires AcquireRefusal(g.store, req).None?
    ensures var h, e := L.Step(cfg, g, L.Acquire(req, leaseID, now)), req.executionID;
      var key := Key(e, leaseID);
      && h.closed == g.closed && key in h.store.leases
      && (forall k | k != key :: k in h.store.leases <==> k in g.store.leases)
      && (forall k | k != key && k in g.store.leases :: h.store.leases[k] == g.store.leases[k])
      && h.store.budgets.Keys == g.store.budgets.Keys
      && (forall d | d in g.store.budgets && d != e :: h.store.budgets[d] == g.store.budgets[d])
      && h.store.budgets[e].limits == g.store.budgets[e].limits
      && h.store.budgets[e].epoch == g.store.budgets[e].epoch
      && h.store.leases[key].id == leaseID && h.store.leases[key].executionID == e
      && h.store.leases[key].replicaID == req.replicaID
      && h.store.leases[key].epoch == g.store.budgets[e].epoch
      && h.store.leases[key].expiresAt == now + cfg.leaseTTL
      && h.store.leases[key].granted.Keys == g.store.budgets[e].limits.Keys
      && (forall m :: At(h.store.leases[key].consumed, m) == 0.0)
      && (forall m :: At(h.store.budgets[e].remaining, m)
                      == At(g.store.budgets[e].remaining, m) - At(h.store.leases[key].granted, m))
  {
  }

  /** Within the hint, what remains and the configured fraction of the limit. */
  predicate Allowed(cfg: Config, limit: real, remaining: real, hint: real, x: real) {
    x <= hint && x <= remaining && x <= cfg.maxLeaseFraction * limit
  }

  lemma OfferedIff(cfg: Config, limit: real, remaining: real, hint: real, x: real)
    requires x > 0.0
    ensures x <= Max(0.0, Offer(cfg, limit, remaining, hint)) <==> Allowed(cfg, limit, remaining, hint, x)
  {
    L.OfferIsLargest(cfg, limit, remaining, hint, x);
    assert Fraction(cfg, limit) == cfg.maxLeaseFraction * limit;
  }

  /** What a lease would be granted at least, and why. */
  ghost predicate MayHold(cfg: Config, b: Budget, hint: Meters, m: string, x: real) {
    m in b.limits && Allowed(cfg, b.limits[m], At(b.remaining, m), if m in hint then hint[m] else b.limits[m], x)
  }

  lemma GrantsIff(cfg: Config, b: Budget, hint: Meters, m: string, x: real)
    requires x > 0.0
    ensures x <= At(Grants(cfg, b, hint), m) <==> MayHold(cfg, b, hint, m, x)
  {
    if m in b.limits {
      var hinted := if m in hint then hint[m] else b.limits[m];
      assert At(Grants(cfg, b, hint), m) == Max(0.0, Offer(cfg, b.limits[m], At(b.remaining, m), hinted));
      OfferedIff(cfg, b.limits[m], At(b.remaining, m), hinted, x);
    }
  }

  /** A lease is granted at least x > 0 of a meter exactly when the hint, what remains and the fraction all allow it. */
  lemma GrantedIff(cfg: Config, g: L.Ledger, req: LeaseRequest, leaseID: string, now: Time, m: string, x: real)
    requires AcquireRefusal(g.store, req).None? && x > 0.0
    ensures var h, key := L.Step(cfg, g, L.Acquire(req, leaseID, now)), Key(req.executionID, leaseID);
      && key in h.store.leases
      && (x <= At(h.store.leases[key].granted, m) <==>
            MayHold(cfg, g.store.budgets[req.executionID], req.hint, m, x))
  {
    GrantsIff(cfg, g.store.budgets[req.executionID], req.hint, m, x);
  }

  // Renewing.

  /** By how much a renewal may raise a meter at least, and why. */
  ghost predicate MayRise(cfg: Config, b: Budget, hint: Meters, m: string, x: real) {
    m in hint && m in b.limits && Allowed(cfg, b.limits[m], At(b.remaining, m), hint[m], x)
  }

  lemma TopUpsIff(cfg: Config, b: Budget, hint: Meters, m: string, x: real)
    requires x > 0.0
    ensures x <= At(TopUps(cfg, b, hint), m) <==> MayRise(cfg, b, hint, m, x)
    ensures At(TopUps(cfg, b, hint), m) >= 0.0 && (m !in hint || m !in b.limits ==> At(TopUps(cfg, b, hint), m) == 0.0)
  {
    if m in hint && m in b.limits {
      OfferedIff(cfg, b.limits[m], At(b.remaining, m), hint[m], x);
    }
  }

  /** Whatever is added to the lease is taken from what remains. */
  lemma RenewalMoves(cfg: Config, g: L.Ledger, key: Key, hint: Meters, now: Time, m: string)
    requires L.WellFormed(g) && key in g.store.leases && key.executionID != ""
    ensures var h, b := L.Step(cfg, g, L.Renew(key.leaseID, hint, now)), g.store.budgets[key.executionID];
      && key in h.store.leases && key.executionID in h.store.budgets
      && At(h.store.leases[key].granted, m)
         == At(g.store.leases[key].granted, m) + At(TopUps(cfg, b, hint), m)
      && At(h.store.budgets[key.executionID].remaining, m) == At(b.remaining, m) - At(TopUps(cfg, b, hint), m)
  {
    L.FoundUnique(g, key.leaseID, g.store.leases[key]);
  }

  /**
   A renewal raises the grant of a meter by at least x > 0 exactly when the meter is hinted and limited and the hint,
   what remains and the fraction of the limit all allow it; what remains falls by as much. A meter that is not
   hinted, or has no limit, is untouched in lease and budget.
   */
  lemma RenewalRaisesIff(cfg: Config, g: L.Ledger, key: Key, hint: Meters, now: Time, m: string, x: real)
    requires L.WellFormed(g) && key in g.store.leases && key.executionID != "" && x > 0.0
    ensures var h, b := L.Step(cfg, g, L.Renew(key.leaseID, hint, now)), g.store.budgets[key.executionID];
      && key in h.store.leases && key.executionID in h.store.budgets
      && var raise := At(h.store.leases[key].granted, m) - At(g.store.leases[key].granted, m);
         && raise >= 0.0 && At(h.store.budgets[key.executionID].remaining, m) == At(b.remaining, m) - raise
         && (x <= raise <==> MayRise(cfg, b, hint, m, x))
         && (m !in hint || m !in b.limits ==> raise == 0.0)
  {
    RenewalMoves(cfg, g, key, hint, now, m);
    TopUpsIff(cfg, g.store.budgets[key.executionID], hint, m, x);
  }

  /** It pushes the expiry out by the time to live and leaves everything else as it was. */
  lemma RenewalKeeps(cfg: Config, g: L.Ledger, key: Key, hint: Meters, now: Time)
    requires L.WellFormed(g) && key in g.store.leases && key.executionID != ""
    ensures var h, e := L.Step(cfg, g, L.Renew(key.leaseID, hint, now)), key.executionID;
      && h.closed == g.closed && h.store.leases.Keys == g.store.leases.Keys
      && (forall k | k in g.store.leases && k != key :: h.store.leases[k] == g.store.leases[k])
      && h.store.leases[key].expiresAt == now + cfg.leaseTTL
      && h.store.leases[key].(expiresAt := g.store.leases[key].expiresAt, granted := g.store.leases[key].granted)
         == g.store.leases[key]
      && h.store.budgets.Keys == g.store.budgets.Keys
      && (forall d | d in g.store.budgets && d != e :: h.store.budgets[d] == g.store.budgets[d])
      && h.store.budgets[e].limits == g.store.budgets[e].limits
      && h.store.budgets[e].epoch == g.store.budgets[e].epoch
      && (hint == map[] ==> h.store.budgets == g.store.budgets
                            && h.store.leases[key].granted == g.store.leases[key].granted)
  {
    L.FoundUnique(g, key.leaseID, g.store.leases[key]);
  }

  /** A renewal fails exactly when no such lease is stored, or its budget is gone and meters are hinted. */
  lemma RenewalFails(cfg: Config, s: Store, found: Option<Lease>, hint: Meters, now: Time)
    ensures var (t, r) := RenewOutcome(cfg, s, found, hint, now);
      && (r.Failure? ==> t == s)
      && (r == Failure(LeaseUnavailable) <==> found.None? || found.value.executionID == "")
      && (r == Failure(NotFound) <==>
            && found.Some? && found.value.executionID != "" && hint != map[]
            && found.value.executionID !in s.budgets)
      && (r.Success? <==>
            found.Some? && found.value.executionID != "" && (hint == map[] || found.value.executionID in s.budgets))
      && (r.Success? ==> KeyOf(r.value) in t.leases && t.leases[KeyOf(r.value)] == r.value)
  {
  }

  // Closing.

  /** A close gives back what was granted and is not charged, never less than nothing, and removes the lease. */
  lemma CloseGivesBack(s: Store, l: Lease, consumed: Meters, m: string)
    requires l.executionID in s.budgets
    ensures var t, e := Closed(s, l, consumed), l.executionID;
      && t.leases == s.leases - {KeyOf(l)} && t.budgets.Keys == s.budgets.Keys
      && (forall d | d in s.budgets && d != e :: t.budgets[d] == s.budgets[d])
      && t.budgets[e].limits == s.budgets[e].limits && t.budgets[e].epoch == s.budgets[e].epoch
      && var unused := At(l.granted, m) - At(consumed, m);
         At(t.budgets[e].remaining, m)
         == At(s.budgets[e].remaining, m) + if m in l.granted && unused > 0.0 then unused else 0.0
  {
  }

  /** A reclaim closes exactly a lease that is stored and has expired by now, against its stored consumption. */
  lemma ReclaimClosesIff(s: Store, expired: Lease, now: Time)
    requires Keyed(s)
    ensures var key, t := KeyOf(expired), Reclaimed(s, expired, now);
      && (t.leases != s.leases <==> key in s.leases && s.leases[key].expiresAt <= now)
      && (key in s.leases && s.leases[key].expiresAt <= now ==> t == Closed(s, s.leases[key], s.leases[key].consumed))
      && (key !in s.leases || now < s.leases[key].expiresAt ==> t == s)
  {
    var key := KeyOf(expired);
    if key in s.leases && s.leases[key].expiresAt <= now {
      var l := s.leases[key];
      assert l.(id := expired.id, executionID := expired.executionID) == l;
      assert key !in Reclaimed(s, expired, now).leases;
    }
  }

  /** A new budget has all of its limits remaining, and its first epoch is zero. */
  lemma CreateWrites(cfg: Config, g: L.Ledger, e: string, limits: Meters)
    ensures var h := L.Step(cfg, g, L.Create(e, limits));
      && h.closed == g.closed && h.store.leases == g.store.leases && h.store.budgets.Keys == g.store.budgets.Keys + {e}
      && (forall d | d in g.store.budgets && d != e :: h.store.budgets[d] == g.store.budgets[d])
      && h.store.budgets[e].limits == limits && h.store.budgets[e].remaining == limits
      && h.store.budgets[e].epoch == 0
  {
  }
}
