/** Exactly when an admission can be committed, released or withdrawn, and what that leaves behind; and until
    when an admitted request can be committed. */
module Commitments {
  import opened Words
  import opened Resources
  import opened Records
  import opened Engine
  import opened EngineRuns
  import opened EngineExactly
  import L = Ledger
  import P = Policies
  import X = LedgerExactly

  /** The request has a decision of this generation that grants reservation `r`. */
  predicate Grants(e: Engine, id: u64, generation: u64, r: u64) {
    && id in e.requests && e.requests[id].decision.Some?
    && e.requests[id].decision.value.admissionGeneration == generation
    && e.requests[id].decision.value.reservationId == Some(r)
  }

  /** The reservation is provisional, and `now` is not past its expiry. */
  predicate Open(l: L.Ledger, r: u64, now: int) {
    r in l.table && l.table[r].status == Status.Reserved && now <= l.table[r].expiresAt
  }

  /** A commit succeeds exactly under the generation of a decision that grants a reservation which is still
      open; the request is then admitted, whatever its lifecycle was, and the reservation committed to it. */
  lemma CommitsExactly(e: Engine, id: u64, generation: u64, now: int)
    requires L.Sound(e.ledger)
    ensures var f, code := CommitAdmission(e, id, generation, now).0, CommitAdmission(e, id, generation, now).1;
            && (code == Success <==> exists r :: Grants(e, id, generation, r) && Open(e.ledger, r, now))
            && f == e.(ledger := f.ledger, requests := f.requests)
            && (code == Success ==>
                  f.requests == e.requests[id := e.requests[id].(lifecycle := Admitted)])
            && (forall r | Grants(e, id, generation, r) && Open(e.ledger, r, now) ::
                  && X.OnlyEntry(e.ledger, f.ledger, r) && f.ledger.table[r].status == Committed
                  && f.ledger.table[r].request == Some(id) && f.ledger.table[r].generation == Some(generation)
                  && X.Moves(e.ledger.table[r].demand, e.ledger.reserved, f.ledger.reserved, e.ledger.used,
                             f.ledger.used))
  {
    hide L.Sound, L.Commit, X.OnlyEntry, X.Moves;
    if id in e.requests && e.requests[id].decision.Some? && e.requests[id].decision.value.reservationId.Some? {
      var r := e.requests[id].decision.value.reservationId.value;
      X.CommitExactly(e.ledger, r, id, generation, now);
      if Open(e.ledger, r, now) && e.requests[id].decision.value.admissionGeneration == generation {
        assert Grants(e, id, generation, r);
      }
    }
  }

  /** Every refusal of a commit has its own cause. All but a late one change nothing; a late one expires the
      reservation and gives its demand back. */
  lemma CommitRefusals(e: Engine, id: u64, generation: u64, now: int)
    requires L.Sound(e.ledger)
    ensures var f, code := CommitAdmission(e, id, generation, now).0, CommitAdmission(e, id, generation, now).1;
            && (code == OperationNotPermitted <==> id in e.requests && e.requests[id].decision == None)
            && (code == StaleAdmissionGeneration <==>
                  id !in e.requests || (e.requests[id].decision.Some? &&
                                        e.requests[id].decision.value.admissionGeneration != generation))
            && (code == AdmissionWithoutReservation <==>
                  id in e.requests && e.requests[id].decision.Some? &&
                  e.requests[id].decision.value.admissionGeneration == generation &&
                  e.requests[id].decision.value.reservationId == None)
            && (code != Success && code != FromLedger(L.ReservationExpired) ==> f == e)
            && (forall r | Grants(e, id, generation, r) && !Open(e.ledger, r, now) ::
                  code == FromLedger(L.Commit(e.ledger, r, id, generation, now).1))
            && (code == FromLedger(L.ReservationExpired) <==>
                  exists r :: Grants(e, id, generation, r) && r in e.ledger.table &&
                              e.ledger.table[r].status == Status.Reserved && e.ledger.table[r].expiresAt < now)
            && (code == FromLedger(L.ReservationExpired) ==>
                  && f.requests == e.requests && f.ledger.used == e.ledger.used
                  && exists r :: Grants(e, id, generation, r) && r in e.ledger.table &&
                                 X.OnlyEntry(e.ledger, f.ledger, r) && f.ledger.table[r].status == Status.Expired &&
                                 X.Leaves(e.ledger.table[r].demand, e.ledger.reserved, f.ledger.reserved))
  {
    hide L.Sound, L.Commit, X.OnlyEntry, X.Moves, X.Leaves;
    if id in e.requests && e.requests[id].decision.Some? && e.requests[id].decision.value.reservationId.Some? {
      var r := e.requests[id].decision.value.reservationId.value;
      X.CommitExactly(e.ledger, r, id, generation, now);
      if e.requests[id].decision.value.admissionGeneration == generation { assert Grants(e, id, generation, r); }
    }
  }

  /** A release succeeds exactly on a known reservation; what it held is given back, and every reserved or
      admitted request that names it becomes released. */
  lemma ReleasesExactly(e: Engine, id: u64)
    requires L.Sound(e.ledger)
    ensures var f, code := ReleaseReservation(e, id).0, ReleaseReservation(e, id).1;
            && (code == Success <==> id in e.ledger.table)
            && (code != Success ==> f == e)
            && f == e.(ledger := f.ledger, requests := f.requests)
            && (code == Success ==>
                  var r := e.ledger.table[id];
                  && X.OnlyEntry(e.ledger, f.ledger, id)
                  && f.ledger.table[id].status == (if r.status == RolledBack then RolledBack else Status.Released)
                  && (if r.status == Status.Reserved
                      then X.Leaves(r.demand, e.ledger.reserved, f.ledger.reserved)
                      else f.ledger.reserved == e.ledger.reserved)
                  && (if r.status == Committed then X.Leaves(r.demand, e.ledger.used, f.ledger.used)
                      else f.ledger.used == e.ledger.used)
                  && f.requests.Keys == e.requests.Keys
                  && forall k | k in e.requests ::
                       f.requests[k] == if e.requests[k].lifecycle in {Lifecycle.Reserved, Admitted} && Named(e, k, id)
                                        then e.requests[k].(lifecycle := Lifecycle.Released) else e.requests[k])
  {
    hide L.Sound, L.Release, X.OnlyEntry, X.Leaves;
    X.ReleaseExactly(e.ledger, id);
  }

  /** The decision on the request grants the reservation. */
  predicate Named(e: Engine, k: u64, id: u64)
    requires k in e.requests
  {
    e.requests[k].decision.Some? && e.requests[k].decision.value.reservationId == Some(id)
  }

  /** A request can be cancelled exactly until it is admitted or at an end. Only from Reserved does that touch
      the ledger: the reservation is rolled back if it is still provisional. */
  lemma CancelsExactly(e: Engine, id: u64)
    requires L.Sound(e.ledger)
    ensures var f, code := CancelRequest(e, id).0, CancelRequest(e, id).1;
            && (code == Success <==>
                  id in e.requests &&
                  e.requests[id].lifecycle in {Proposed, Evaluating, Deferred, Lifecycle.Reserved})
            && (code == StaleAdmissionGeneration <==> id !in e.requests)
            && (code != Success ==> f == e && code in {StaleAdmissionGeneration, OperationNotPermitted})
            && f == e.(ledger := f.ledger, requests := f.requests)
            && (code == Success ==> f.requests == e.requests[id := e.requests[id].(lifecycle := Cancelled)])
            && (code == Success && e.requests[id].lifecycle != Lifecycle.Reserved ==> f.ledger == e.ledger)
            && (code == Success && e.requests[id].lifecycle == Lifecycle.Reserved ==>
                  && (forall r | Named(e, id, r) && r in e.ledger.table &&
                    e.ledger.table[r].status == Status.Reserved ::
                        && X.OnlyEntry(e.ledger, f.ledger, r) && f.ledger.table[r].status == RolledBack
                        && X.Leaves(e.ledger.table[r].demand, e.ledger.reserved, f.ledger.reserved)
                        && f.ledger.used == e.ledger.used)
                  && ((forall r | Named(e, id, r) ::
                         r !in e.ledger.table || e.ledger.table[r].status != Status.Reserved) ==>
                        f.ledger == e.ledger))
  {
    hide L.Sound, L.Rollback, X.OnlyEntry, X.Leaves;
    if id in e.requests && e.requests[id].decision.Some? && e.requests[id].decision.value.reservationId.Some? {
      var r := e.requests[id].decision.value.reservationId.value;
      X.RollbackExactly(e.ledger, r);
      assert Named(e, id, r);
    }
  }

  /** An installation that succeeds puts the ledger under the terms of the policy just installed; any other
      leaves it as it is. */
  lemma InstallBinds(e: Engine, p: Policy)
    ensures var f, code := InstallPolicy(e, p).0, InstallPolicy(e, p).1;
            && f == e.(history := f.history, ledger := f.ledger)
            && f.history == P.Install(e.history, p).0 && code == P.Install(e.history, p).1
            && (if code == P.Ok then Bound(e.ledger, f.ledger, p) else f.ledger == e.ledger)
  {
    hide P.Install, P.Acceptable, Under;
    P.InstallExactly(e.history, p);
    UnderExactly(e.ledger, p);
    UnderExactly(e.ledger, p.(generation := e.history.counter));
  }

  // ---------- Until when an admission can be committed ----------

  /** The step concerns neither request `id`, nor reservation `r`. */
  predicate Elsewhere(op: Op, id: u64, r: u64) {
    match op
    case OpEvaluate(q) => q.d.admissionRequestId != id
    case OpCommit(k, _, _) => k != id
    case OpRelease(k) => k != r
    case OpCancel(k) => k != id
    case _ => true
  }

  /** Request `id` is recorded as `record`, reservation `r` as `entry`, and no other request names `r`. */
  ghost predicate Holding(e: Engine, id: u64, record: Request, r: u64, entry: Reservation) {
    && L.Sound(e.ledger)
    && id in e.requests && e.requests[id] == record && r in e.ledger.table && e.ledger.table[r] == entry
    && forall k | k in e.requests && k != id :: !Names(e.requests[k], r)
  }

  lemma EvaluateHolds(e: Engine, q: Query, id: u64, record: Request, r: u64, entry: Reservation)
    requires Holding(e, id, record, r, entry) && q.d.admissionRequestId != id
    ensures Holding(Evaluate(e, q).0, id, record, r, entry)
  {
    hide L.Sound, Evaluate, Admits;
    EvaluateSound(e, q);
    EvaluateEffect(e, q);
  }

  lemma CommitHolds(e: Engine, k: u64, generation: u64, now: int, id: u64, record: Request, r: u64,
    entry: Reservation)
    requires Holding(e, id, record, r, entry) && k != id
    ensures Holding(CommitAdmission(e, k, generation, now).0, id, record, r, entry)
  {
    hide L.Sound, L.Commit;
    if k in e.requests && e.requests[k].decision.Some? && e.requests[k].decision.value.reservationId.Some? {
      var s := e.requests[k].decision.value.reservationId.value;
      assert Names(e.requests[k], s);
      L.CommitSound(e.ledger, s, k, generation, now);
      X.CommitExactly(e.ledger, s, k, generation, now);
    }
  }

  lemma ReleaseHolds(e: Engine, k: u64, id: u64, record: Request, r: u64, entry: Reservation)
    requires Holding(e, id, record, r, entry) && k != r && Names(record, r)
    ensures Holding(ReleaseReservation(e, k).0, id, record, r, entry)
  {
    hide L.Sound, L.Release;
    L.ReleaseSound(e.ledger, k);
    X.ReleaseExactly(e.ledger, k);
  }

  lemma CancelHolds(e: Engine, k: u64, id: u64, record: Request, r: u64, entry: Reservation)
    requires Holding(e, id, record, r, entry) && k != id
    ensures Holding(CancelRequest(e, k).0, id, record, r, entry)
  {
    hide L.Sound, L.Rollback;
    if k in e.requests && e.requests[k].decision.Some? && e.requests[k].decision.value.reservationId.Some? {
      var s := e.requests[k].decision.value.reservationId.value;
      assert Names(e.requests[k], s);
      L.RollbackSound(e.ledger, s);
      X.RollbackExactly(e.ledger, s);
    }
  }

  lemma ConfigureHolds(e: Engine, op: Op, id: u64, record: Request, r: u64, entry: Reservation)
    requires Holding(e, id, record, r, entry) && (op.OpInstall? || op.OpSetSnapshot? || op.OpSetQuota?)
    ensures Holding(Apply(e, op), id, record, r, entry)
  {
    hide L.Sound, P.Install;
    UnderSound(e.ledger, Apply(e, op).ledger);
  }

  lemma StepHolds(e: Engine, op: Op, id: u64, record: Request, r: u64, entry: Reservation)
    requires Holding(e, id, record, r, entry) && Names(record, r) && Elsewhere(op, id, r)
    ensures Holding(Apply(e, op), id, record, r, entry)
  {
    hide Holding, Evaluate, CommitAdmission, ReleaseReservation, CancelRequest, InstallPolicy, SetSnapshot, Names;
    match op
    case OpEvaluate(q) => EvaluateHolds(e, q, id, record, r, entry);
    case OpCommit(k, generation, now) => CommitHolds(e, k, generation, now, id, record, r, entry);
    case OpRelease(k) => ReleaseHolds(e, k, id, record, r, entry);
    case OpCancel(k) => CancelHolds(e, k, id, record, r, entry);
    case _ => ConfigureHolds(e, op, id, record, r, entry);
  }

  lemma {:induction false} RunHolds(e: Engine, ops: seq<Op>, id: u64, record: Request, r: u64, entry: Reservation)
    requires Holding(e, id, record, r, entry) && Names(record, r) && forall op | op in ops :: Elsewhere(op, id, r)
    ensures Holding(Run(e, ops), id, record, r, entry)
    decreases |ops|
  {
    hide Holding, Apply, Elsewhere;
    if ops != [] {
      assert ops[0] in ops && forall op | op in ops[1..] :: op in ops;
      StepHolds(e, ops[0], id, record, r, entry);
      RunHolds(Apply(e, ops[0]), ops[1..], id, record, r, entry);
    }
  }

  /** Every reservation that a decision names is in the table. */
  ghost predicate NamesInTable(e: Engine) {
    forall k, r | k in e.requests && Names(e.requests[k], r) :: r in e.ledger.table
  }

  lemma AdmissionHolds(e: Engine, q: Query, f: Engine)
    requires L.Sound(e.ledger) && NamesInTable(e) && Admits(e, q) && f == Evaluate(e, q).0
    ensures var id, r := q.d.admissionRequestId, e.reservationCounter;
            && P.Latest(e.history).Some?
            && id in f.requests && r in f.ledger.table
            && Holding(f, id, f.requests[id], r, f.ledger.table[r])
            && Names(f.requests[id], r) && f.requests[id].decision.value.admissionGeneration == e.admissionGeneration
            && f.ledger.table[r].status == Status.Reserved
            && f.ledger.table[r].expiresAt == q.now + InForce(e, q).maxReservationLifetime
  {
    hide L.Sound, Evaluate, Admits, P.Effective;
    EvaluateSound(e, q);
    EvaluateEffect(e, q);
    AdmissionReserves(e, q);
  }

  /** A request that is admitted at `q.now` can be committed, under the generation it was admitted with, until
      exactly `q.now` plus the reservation lifetime of the policy in force for it, whatever other requests and
      reservations, policies and snapshots come and go in between. */
  lemma CommittableUntil(e: Engine, q: Query, between: seq<Op>, t: int)
    requires L.Sound(e.ledger) && NamesInTable(e) && Admits(e, q)
    requires forall op | op in between :: Elsewhere(op, q.d.admissionRequestId, e.reservationCounter)
    ensures P.Latest(e.history).Some?
    ensures var f := Run(Evaluate(e, q).0, between); var until := q.now + InForce(e, q).maxReservationLifetime;
            var code := CommitAdmission(f, q.d.admissionRequestId, e.admissionGeneration, t).1;
            && (code == Success <==> t <= until) && (code == FromLedger(L.ReservationExpired) <==> t > until)
  {
    hide Evaluate, Admits, Run, Elsewhere, Holding, InForce, CommitAdmission, NamesInTable, L.Sound;
    var id, r := q.d.admissionRequestId, e.reservationCounter;
    var g := Evaluate(e, q).0;
    AdmissionHolds(e, q, g);
    RunHolds(g, between, id, g.requests[id], r, g.ledger.table[r]);
    HoldingCommits(Run(g, between), id, g.requests[id], r, g.ledger.table[r], t);
  }

  lemma HoldingCommits(e: Engine, id: u64, record: Request, r: u64, entry: Reservation, t: int)
    requires Holding(e, id, record, r, entry) && Names(record, r) && entry.status == Status.Reserved
    ensures var code := CommitAdmission(e, id, record.decision.value.admissionGeneration, t).1;
            && (code == Success <==> t <= entry.expiresAt)
            && (code == FromLedger(L.ReservationExpired) <==> t > entry.expiresAt)
  {
    hide L.Sound, CommitAdmission, X.OnlyEntry, X.Moves, X.Leaves;
    var generation := record.decision.value.admissionGeneration;
    CommitsExactly(e, id, generation, t);
    CommitRefusals(e, id, generation, t);
    assert Grants(e, id, generation, r);
  }
}
