/** What every run of the engine keeps: requests and reservations stay linked. */
module EngineRuns {
  import opened Words
  import opened Resources
  import opened Records
  import opened Engine
  import L = Ledger
  import P = Policies

  datatype Op =
    | OpEvaluate(q: Query)
    | OpCommit(id: u64, generation: u64, now: int)
    | OpRelease(id: u64)
    | OpCancel(id: u64)
    | OpInstall(p: Policy)
    | OpSetSnapshot(s: Snapshot)
    | OpSetQuota(quota: Quota)

  function Apply(e: Engine, op: Op): Engine {
    match op
    case OpEvaluate(q) => Evaluate(e, q).0
    case OpCommit(id, generation, now) => CommitAdmission(e, id, generation, now).0
    case OpRelease(id) => ReleaseReservation(e, id).0
    case OpCancel(id) => CancelRequest(e, id).0
    case OpInstall(p) => InstallPolicy(e, p).0
    case OpSetSnapshot(s) => SetSnapshot(e, s)
    case OpSetQuota(quota) => e.(quota := quota)
  }

  function Run(e: Engine, ops: seq<Op>): Engine
    decreases |ops|
  {
    if ops == [] then e else Run(Apply(e, ops[0]), ops[1..])
  }

  // ---------- The link between requests and reservations ----------

  /** An admitted request names a committed reservation that records it and its generation. */
  ghost predicate AdmittedBacked(e: Engine, q: u64)
    requires q in e.requests
  {
    var r := e.requests[q];
    && r.decision.Some? && r.decision.value.reservationId.Some?
    && var id := r.decision.value.reservationId.value;
    && id in e.ledger.table
    && e.ledger.table[id].status == Status.Committed
    && e.ledger.table[id].request == Some(q)
    && e.ledger.table[id].generation == Some(r.decision.value.admissionGeneration)
  }

  /** A committed reservation records an admitted request, which names it. */
  ghost predicate CommittedOwned(e: Engine, id: u64)
    requires id in e.ledger.table
  {
    var o := e.ledger.table[id].request;
    o.Some? && o.value in e.requests && e.requests[o.value].lifecycle == Admitted && Names(e.requests[o.value], id)
  }

  /** A provisional reservation is named by a request that waits for its commit. */
  ghost predicate ReservedOwned(e: Engine, id: u64) {
    exists q :: q in e.requests && e.requests[q].lifecycle == Lifecycle.Reserved && Names(e.requests[q], id)
  }

  /** A reservation that a decision names exists, and holds what the decision demands. */
  ghost predicate NamesKnown(e: Engine) {
    forall q, id | q in e.requests && Names(e.requests[q], id) ::
      id in e.ledger.table && e.ledger.table[id].demand == e.requests[q].decision.value.demand
  }

  ghost predicate NamesDistinct(e: Engine) {
    forall p, q, id | p in e.requests && q in e.requests && Names(e.requests[p], id) && Names(e.requests[q], id) ::
      p == q
  }

  ghost predicate Settled(e: Engine) {
    forall q | q in e.requests :: e.requests[q].lifecycle !in {Unknown, Proposed, Evaluating}
  }

  ghost predicate Linked(e: Engine) {
    && L.Sound(e.ledger)
    && NamesKnown(e)
    && NamesDistinct(e)
    && (forall q | q in e.requests && e.requests[q].lifecycle == Admitted :: AdmittedBacked(e, q))
    && (forall id | id in e.ledger.table && e.ledger.table[id].status == Status.Committed :: CommittedOwned(e, id))
    && (forall id | id in e.ledger.table && e.ledger.table[id].status == Status.Reserved :: ReservedOwned(e, id))
    && Settled(e)
  }

  // ---------- What an evaluation does ----------

  predicate Admits(e: Engine, q: Query) { Evaluate(e, q).1.outcome == OUTCOME_ADMIT }

  /** Where the lifecycle of a record goes: only an unsettled one moves. */
  function Landing(rs: Requests, id: u64, to: Lifecycle): Lifecycle {
    if id in rs && rs[id].lifecycle !in {Proposed, Evaluating} then rs[id].lifecycle else to
  }

  lemma EmitEffect(rs: Requests, d: Descriptor, to: Lifecycle, dec: Decision)
    requires to != Proposed && to != Evaluating
    ensures var id := d.admissionRequestId; var out := Emit(rs, d, to, dec);
            out.Keys == rs.Keys + {id} && out == rs[id := out[id]] &&
            out[id].decision == Some(dec) && out[id].lifecycle == Landing(rs, id, to)
  {
  }

  lemma EnterEffect(rs: Requests, d: Descriptor, to: Lifecycle, dec: Decision)
    requires to != Proposed && to != Evaluating
    ensures var id := d.admissionRequestId; var out := Emit(Transition(rs, id, Proposed, Evaluating, d), d, to, dec);
            out.Keys == rs.Keys + {id} && out == rs[id := out[id]] &&
            out[id].decision == Some(dec) && out[id].lifecycle == Landing(rs, id, to)
  {
  }

  /** What one evaluation that ends with `dec` makes of the records. */
  ghost predicate Recorded(rs: Requests, out: Requests, id: u64, dec: Decision, to: Lifecycle) {
    && out.Keys == rs.Keys + {id} && out == rs[id := out[id]]
    && out[id].decision == Some(dec) && out[id].lifecycle == Landing(rs, id, to)
  }

  /** A reservation under id `r` for `demand` has been added to the table, and nothing else. */
  ghost predicate Provided(t: L.Table, u: L.Table, r: u64, demand: Vec) {
    r !in t && r in u && u == t[r := u[r]] && u[r].status == Status.Reserved && u[r].demand == demand
  }

  lemma RefuseEffect(e: Engine, rs: Requests, q: Query, reason: int, demand: Vec)
    requires rs == e.requests || rs == Transition(e.requests, q.d.admissionRequestId, Proposed, Evaluating, q.d)
    requires OutcomeOf(reason) != OUTCOME_ADMIT
    ensures var f := Refuse(e, rs, q, reason, demand);
            && f.0.ledger == e.ledger && f.1.reservationId.None? && f.1.outcome != OUTCOME_ADMIT && f.1.reason == reason
            && Recorded(e.requests, f.0.requests, q.d.admissionRequestId, f.1, Closing(reason))
  {
    hide Emit, Transition;
    var dec := Decide(e, q, reason, demand);
    EmitEffect(e.requests, q.d, Closing(reason), dec);
    EnterEffect(e.requests, q.d, Closing(reason), dec);
  }

  lemma PlaceEffect(e: Engine, p: Policy, q: Query)
    ensures var id := q.d.admissionRequestId;
            var f := Place(e, p, Transition(e.requests, id, Proposed, Evaluating, q.d), q); var dec := f.1;
            if dec.outcome == OUTCOME_ADMIT then
              && dec.reservationId == Some(e.reservationCounter) && dec.admissionGeneration == e.admissionGeneration
              && dec.demand == q.demand
              && Recorded(e.requests, f.0.requests, id, dec, Lifecycle.Reserved)
              && Provided(e.ledger.table, f.0.ledger.table, e.reservationCounter, q.demand)
            else
              && dec.reservationId.None? && f.0.ledger == Under(e.ledger, p)
              && Recorded(e.requests, f.0.requests, id, dec, Closing(dec.reason))
  {
    hide Emit, Transition, Refuse, FitsIn, AddFits, Risky;
    var rs := Transition(e.requests, q.d.admissionRequestId, Proposed, Evaluating, q.d);
    EnterEffect(e.requests, q.d, Lifecycle.Reserved, Place(e, p, rs, q).1);
    RefuseEffect(e.(ledger := Under(e.ledger, p), reservationCounter := Bump(e.reservationCounter)), rs, q,
      DEFER_CAPACITY, q.demand);
  }

  /** One evaluation changes one record and at most adds one reservation, which that record names. */
  lemma EvaluateEffect(e: Engine, q: Query)
    ensures var id := q.d.admissionRequestId; var f := Evaluate(e, q).0; var dec := Evaluate(e, q).1;
            && Recorded(e.requests, f.requests, id, dec,
                        if Admits(e, q) then Lifecycle.Reserved else Closing(dec.reason))
            && (dec.reservationId.Some? <==> Admits(e, q))
            && (if Admits(e, q) then
                  && dec.reservationId == Some(e.reservationCounter) && dec.admissionGeneration == e.admissionGeneration
                  && dec.demand == q.demand && !Duplicate(e.requests, id)
                  && Provided(e.ledger.table, f.ledger.table, e.reservationCounter, q.demand)
                else
                  && f.ledger.table == e.ledger.table && f.ledger.reserved == e.ledger.reserved &&
                    f.ledger.used == e.ledger.used)
  {
    hide Refuse, Place, Transition, Stopped, WellFormed, Duplicate, P.Effective, Recorded, Provided;
    RefuseEffect(e, e.requests, q, REJECT_MALFORMED, ZERO);
    var rs := Transition(e.requests, q.d.admissionRequestId, Proposed, Evaluating, q.d);
    RefuseEffect(e, rs, q, REJECT_POLICY, ZERO);
    var base := P.Latest(e.history);
    if base.Some? {
      var p := P.Effective(q.d, base.value);
      StoppedReason(e, p, q);
      PlaceEffect(e, p, q);
      var stop := Stopped(e, p, q);
      if stop.Some? { RefuseEffect(e.(ledger := Under(e.ledger, p)), rs, q, stop.value, q.demand); }
    }
  }

  lemma StoppedReason(e: Engine, p: Policy, q: Query)
    ensures var s := Stopped(e, p, q); s.Some? ==> OutcomeOf(s.value) != OUTCOME_ADMIT
  {
  }

  lemma UnderSound(l: L.Ledger, m: L.Ledger)
    requires L.Sound(l) && m.table == l.table && m.reserved == l.reserved && m.used == l.used
    ensures L.Sound(m)
  {
    hide L.Held;
  }

  lemma EvaluateSound(e: Engine, q: Query)
    requires L.Sound(e.ledger)
    ensures L.Sound(Evaluate(e, q).0.ledger)
  {
    hide L.Sound, L.Reserve, Emit, Transition, Stopped, WellFormed, Duplicate, P.Effective, AdmitDecision;
    var base := P.Latest(e.history);
    if base.Some? {
      var p := P.Effective(q.d, base.value);
      UnderSound(e.ledger, Under(e.ledger, p));
      L.ReserveSound(Under(e.ledger, p), e.reservationCounter, q.d.tenantId, q.demand, p.maxReservationLifetime, q.now);
    }
  }

  // ---------- When an evaluation keeps the link ----------

  /** The request names a reservation that still holds capacity. */
  ghost predicate NamesLive(e: Engine, q: u64) {
    exists id :: id in e.ledger.table && q in e.requests && Names(e.requests[q], id) &&
                 e.ledger.table[id].status in {Status.Reserved, Status.Committed}
  }

  /** Re-evaluating a deferred request that now passes every gate, or an active request whose
      reservation is live. */
  ghost predicate Hazard(e: Engine, q: Query) {
    var id := q.d.admissionRequestId;
    id in e.requests &&
    ((e.requests[id].lifecycle == Deferred && Admits(e, q)) ||
     (e.requests[id].lifecycle in {Lifecycle.Reserved, Admitted} && NamesLive(e, id)))
  }

  lemma EvaluateLinks(e: Engine, q: Query)
    requires Linked(e) && !Hazard(e, q)
    ensures Linked(Evaluate(e, q).0)
  {
    hide Evaluate, Admits, L.Sound;
    var f := Evaluate(e, q).0;
    var id := q.d.admissionRequestId;
    EvaluateEffect(e, q);
    EvaluateSound(e, q);
    assert Settled(f);
    if Admits(e, q) {
      assert f.requests[id].lifecycle == Lifecycle.Reserved;
      assert Names(f.requests[id], e.reservationCounter);
    }
    assert NamesKnown(f) && NamesDistinct(f);
    forall r | r in f.ledger.table && f.ledger.table[r].status == Status.Reserved ensures ReservedOwned(f, r) {
      if r in e.ledger.table {
        assert ReservedOwned(e, r);
        var p :| p in e.requests && e.requests[p].lifecycle == Lifecycle.Reserved && Names(e.requests[p], r);
        assert p in f.requests && f.requests[p].lifecycle == Lifecycle.Reserved && Names(f.requests[p], r);
      }
    }
    forall r | r in f.ledger.table && f.ledger.table[r].status == Status.Committed ensures CommittedOwned(f, r) {
      assert CommittedOwned(e, r);
    }
    forall p | p in f.requests && f.requests[p].lifecycle == Admitted ensures AdmittedBacked(f, p) {
      assert p in e.requests && AdmittedBacked(e, p);
    }
  }

  lemma HazardBreaks(e: Engine, q: Query)
    requires Linked(e) && Hazard(e, q)
    ensures !Linked(Evaluate(e, q).0)
  {
    hide Evaluate, Admits, L.Sound;
    var f := Evaluate(e, q).0;
    var id := q.d.admissionRequestId;
    EvaluateEffect(e, q);
    if e.requests[id].lifecycle == Deferred && Admits(e, q) {
      var r := e.reservationCounter;
      assert !ReservedOwned(f, r);
    } else {
      var r :| r in e.ledger.table && Names(e.requests[id], r) &&
        e.ledger.table[r].status in {Status.Reserved, Status.Committed};
      assert !Admits(e, q) by { ActiveNeverAdmits(e, q); }
      assert forall p | p in f.requests :: !Names(f.requests[p], r);
      if e.ledger.table[r].status == Status.Reserved {
        assert !ReservedOwned(f, r);
      } else {
        assert !CommittedOwned(f, r);
      }
    }
  }

  lemma ActiveNeverAdmits(e: Engine, q: Query)
    requires Duplicate(e.requests, q.d.admissionRequestId)
    ensures !Admits(e, q)
  {
  }

  /** An evaluation keeps requests and reservations linked if and only if it re-evaluates neither a
      deferred request that it now admits nor an active request whose reservation is live. */
  lemma EvaluateLinkedExactly(e: Engine, q: Query)
    requires Linked(e)
    ensures Linked(Evaluate(e, q).0) <==> !Hazard(e, q)
  {
    hide Linked, Hazard, Evaluate;
    if Hazard(e, q) { HazardBreaks(e, q); } else { EvaluateLinks(e, q); }
  }

  // ---------- The other steps ----------

  /** What the ledger's transitions of one reservation do to the table. */
  lemma OneEntry(l: L.Ledger, id: u64, request: u64, generation: u64, now: int)
    requires L.Sound(l) && id in l.table
    ensures var c := L.Commit(l, id, request, generation, now);
            && c.0.table == l.table[id := c.0.table[id]] && c.0.table[id].demand == l.table[id].demand
            && (c.1 == L.Ok ==> l.table[id].status == Status.Reserved && c.0.table[id].status == Committed &&
                                c.0.table[id].request == Some(request) && c.0.table[id].generation == Some(generation))
            && (c.1 != L.Ok ==> c.0.table[id] == l.table[id] ||
                                (c.0.table[id].status == Status.Expired && l.table[id].status == Status.Reserved))
    ensures var r := L.Release(l, id);
            r.1 == L.Ok && r.0.table == l.table[id := r.0.table[id]] && r.0.table[id].demand == l.table[id].demand &&
            r.0.table[id].status !in {Status.Reserved, Committed}
    ensures var b := L.Rollback(l, id);
            b.0.table == l.table[id := b.0.table[id]] && b.0.table[id].demand == l.table[id].demand &&
            (if l.table[id].status == Status.Reserved then b.0.table[id].status == RolledBack
              else b.0.table[id] == l.table[id])
  {
    L.SoundCovers(l, id);
    hide L.Sound, FitsIn, AddFits;
    CommitEntry(l, id, request, generation, now);
  }

  lemma CommitEntry(l: L.Ledger, id: u64, request: u64, generation: u64, now: int)
    requires id in l.table
    ensures var c := L.Commit(l, id, request, generation, now);
            && c.0.table == l.table[id := c.0.table[id]] && c.0.table[id].demand == l.table[id].demand
            && (c.1 == L.Ok ==> l.table[id].status == Status.Reserved && c.0.table[id].status == Committed &&
                                c.0.table[id].request == Some(request) && c.0.table[id].generation == Some(generation))
            && (c.1 != L.Ok ==> c.0.table[id] == l.table[id] ||
                                (c.0.table[id].status == Status.Expired && l.table[id].status == Status.Reserved))
  {
    hide FitsIn, AddFits;
  }

  lemma CommitLinks(e: Engine, id: u64, generation: u64, now: int)
    requires Linked(e)
    ensures Linked(CommitAdmission(e, id, generation, now).0)
  {
    hide Linked, L.Commit;
    var f := CommitAdmission(e, id, generation, now).0;
    if id in e.requests && e.requests[id].decision.Some? && e.requests[id].decision.value.reservationId.Some? &&
       e.requests[id].decision.value.admissionGeneration == generation {
      var r := e.requests[id].decision.value.reservationId.value;
      assert Names(e.requests[id], r);
      LinkedMeans(e, id, r);
      L.CommitSound(e.ledger, r, id, generation, now);
      OneEntry(e.ledger, r, id, generation, now);
      CommitShape(e, f, id, r);
      ThisKeeps(e, f, r, id);
      TouchLinks(e, f, r);
    }
  }

  lemma CommitShape(e: Engine, f: Engine, id: u64, r: u64)
    requires Settled(e) && id in e.requests && Names(e.requests[id], r) && r in e.ledger.table
    requires r in f.ledger.table && f.ledger.table == e.ledger.table[r := f.ledger.table[r]]
    requires f.ledger.table[r].demand == e.ledger.table[r].demand
    requires f.requests == e.requests || f.requests == e.requests[id := e.requests[id].(lifecycle := Admitted)]
    ensures Touches(e, f, r) && Settled(f)
  {
  }

  lemma LinkedMeans(e: Engine, q: u64, r: u64)
    requires Linked(e) && q in e.requests && Names(e.requests[q], r)
    ensures L.Sound(e.ledger) && Settled(e) && r in e.ledger.table
    ensures e.ledger.table[r].demand == e.requests[q].decision.value.demand
    ensures forall p | p in e.requests && Names(e.requests[p], r) :: p == q
  {
    hide L.Sound;
  }

  /** From `e` to `f` only the reservation `r` changes, and only requests that name it, and no decision. */
  ghost predicate Touches(e: Engine, f: Engine, r: u64) {
    && r in e.ledger.table && f.ledger.table.Keys == e.ledger.table.Keys && f.requests.Keys == e.requests.Keys
    && (forall id | id in e.ledger.table && id != r :: f.ledger.table[id] == e.ledger.table[id])
    && f.ledger.table[r].demand == e.ledger.table[r].demand
    && (forall q | q in e.requests && !Names(e.requests[q], r) :: f.requests[q] == e.requests[q])
    && (forall q | q in e.requests :: f.requests[q].decision == e.requests[q].decision)
  }

  /** It is enough to look at the reservation that was touched. */
  lemma TouchLinks(e: Engine, f: Engine, r: u64)
    requires Linked(e) && Touches(e, f, r) && L.Sound(f.ledger) && Settled(f)
    requires f.ledger.table[r].status == Status.Reserved ==> ReservedOwned(f, r)
    requires f.ledger.table[r].status == Committed ==> CommittedOwned(f, r)
    requires forall q | q in f.requests && f.requests[q].lifecycle == Admitted && Names(f.requests[q], r) ::
             AdmittedBacked(f, q)
    ensures Linked(f)
  {
    hide L.Sound, AdmittedBacked, CommittedOwned, ReservedOwned, Names, Touches;
    OthersKeep(e, f, r);
    TouchedKeys(e, f, r);
    assert forall q | q in f.requests && f.requests[q].lifecycle == Admitted :: AdmittedBacked(f, q);
  }

  lemma TouchedKeys(e: Engine, f: Engine, r: u64)
    requires Touches(e, f, r)
    ensures r in f.ledger.table
  {
  }

  /** The reservation a commit touches, and the request that names it, stay linked. */
  lemma ThisKeeps(e: Engine, f: Engine, r: u64, id: u64)
    requires Linked(e) && r in e.ledger.table && id in e.requests && Names(e.requests[id], r)
    requires r in f.ledger.table && id in f.requests && f.requests[id].decision == e.requests[id].decision
    requires f.requests.Keys == e.requests.Keys && forall q | q in e.requests && q != id ::
             f.requests[q] == e.requests[q]
    requires
      || (f.ledger.table[r] == e.ledger.table[r] && f.requests[id] == e.requests[id])
      || (e.ledger.table[r].status == Status.Reserved && f.ledger.table[r].status == Status.Expired &&
        f.requests[id] == e.requests[id])
      || (e.ledger.table[r].status == Status.Reserved && f.ledger.table[r].status == Committed &&
        f.requests[id].lifecycle == Admitted &&
          f.ledger.table[r].request == Some(id) &&
            f.ledger.table[r].generation == Some(f.requests[id].decision.value.admissionGeneration))
    ensures f.ledger.table[r].status == Status.Reserved ==> ReservedOwned(f, r)
    ensures f.ledger.table[r].status == Committed ==> CommittedOwned(f, r)
    ensures forall q | q in f.requests && f.requests[q].lifecycle == Admitted && Names(f.requests[q], r) ::
            AdmittedBacked(f, q)
    ensures e.ledger.table[r].status == Status.Reserved ==> e.requests[id].lifecycle == Lifecycle.Reserved
  {
    hide L.Sound;
    if e.ledger.table[r].status == Status.Reserved { assert ReservedOwned(e, r); }
    if e.ledger.table[r].status == Committed { assert CommittedOwned(e, r); }
    if f.ledger.table[r].status == Status.Reserved {
      assert id in f.requests && f.requests[id].lifecycle == Lifecycle.Reserved && Names(f.requests[id], r);
    }
    forall q | q in f.requests && f.requests[q].lifecycle == Admitted && Names(f.requests[q], r)
      ensures AdmittedBacked(f, q)
    {
      assert Names(e.requests[q], r) && q == id;
      if e.requests[id].lifecycle == Admitted { assert AdmittedBacked(e, id); }
    }
  }

  lemma NamesStay(e: Engine, f: Engine, r: u64)
    requires NamesKnown(e) && NamesDistinct(e) && Touches(e, f, r)
    ensures NamesKnown(f) && NamesDistinct(f)
    ensures forall q, id | q in e.requests :: Names(f.requests[q], id) == Names(e.requests[q], id)
  {
  }

  /** A step that touches one reservation `r`, and only the requests that name it, keeps every other link. */
  lemma OthersKeep(e: Engine, f: Engine, r: u64)
    requires Linked(e) && Touches(e, f, r)
    ensures NamesKnown(f) && NamesDistinct(f)
    ensures forall q | q in f.requests && f.requests[q].lifecycle == Admitted && !Names(f.requests[q], r) ::
            AdmittedBacked(f, q)
    ensures forall id | id in f.ledger.table && id != r && f.ledger.table[id].status == Status.Committed ::
            CommittedOwned(f, id)
    ensures forall id | id in f.ledger.table && id != r && f.ledger.table[id].status == Status.Reserved ::
            ReservedOwned(f, id)
  {
    NamesStay(e, f, r);
    hide L.Sound, NamesKnown, NamesDistinct, Settled;
    forall id | id in f.ledger.table && id != r && f.ledger.table[id].status == Status.Reserved
      ensures ReservedOwned(f, id)
    {
      assert ReservedOwned(e, id);
      var q :| q in e.requests && e.requests[q].lifecycle == Lifecycle.Reserved && Names(e.requests[q], id);
      assert !Names(e.requests[q], r);
      assert q in f.requests && f.requests[q].lifecycle == Lifecycle.Reserved && Names(f.requests[q], id);
    }
    forall id | id in f.ledger.table && id != r && f.ledger.table[id].status == Status.Committed
      ensures CommittedOwned(f, id)
    {
      assert CommittedOwned(e, id);
      assert !Names(e.requests[e.ledger.table[id].request.value], r);
    }
    forall q | q in f.requests && f.requests[q].lifecycle == Admitted && !Names(f.requests[q], r)
      ensures AdmittedBacked(f, q)
    {
      assert AdmittedBacked(e, q);
      assert Names(e.requests[q], e.requests[q].decision.value.reservationId.value);
    }
  }

  lemma ReleaseLinks(e: Engine, id: u64)
    requires Linked(e)
    ensures Linked(ReleaseReservation(e, id).0)
  {
    hide L.Release, L.Sound;
    var f := ReleaseReservation(e, id).0;
    if id in e.ledger.table {
      L.ReleaseSound(e.ledger, id);
      OneEntry(e.ledger, id, 0, 0, 0);
      ReleaseShape(e, f, id);
      hide Linked;
      TouchLinks(e, f, id);
    } else {
      UnknownRelease(e, id);
    }
  }

  lemma ReleaseShape(e: Engine, f: Engine, id: u64)
    requires Settled(e) && id in e.ledger.table && f.requests == MarkReleased(e.requests, id)
    requires id in f.ledger.table && f.ledger.table == e.ledger.table[id := f.ledger.table[id]]
    requires f.ledger.table[id].demand == e.ledger.table[id].demand
    ensures Touches(e, f, id) && Settled(f)
    ensures forall q | q in f.requests && Names(f.requests[q], id) :: f.requests[q].lifecycle != Admitted
  {
  }

  lemma UnknownRelease(e: Engine, id: u64)
    requires id !in e.ledger.table
    ensures ReleaseReservation(e, id).0 == e
  {
  }

  lemma CancelLinks(e: Engine, id: u64)
    requires Linked(e)
    ensures Linked(CancelRequest(e, id).0)
  {
    hide Linked, L.Rollback;
    var f := CancelRequest(e, id).0;
    if id in e.requests && e.requests[id].lifecycle == Deferred {
      CancelDeferredLinks(e, f, id);
    } else if id in e.requests && e.requests[id].lifecycle == Lifecycle.Reserved {
      var d := e.requests[id].decision;
      if d.Some? && d.value.reservationId.Some? {
        CancelReservedLinks(e, f, id, d.value.reservationId.value);
      } else {
        assert forall r :: !Names(e.requests[id], r);
        NamelessKeeps(e, f, id);
      }
    } else if id in e.requests {
      assert e.requests[id].lifecycle !in {Proposed, Evaluating} by { SettledMeans(e, id); }
    }
  }

  lemma SettledMeans(e: Engine, id: u64)
    requires Linked(e) && id in e.requests
    ensures e.requests[id].lifecycle !in {Proposed, Evaluating}
  {
    hide L.Sound;
  }

  lemma CancelReservedLinks(e: Engine, f: Engine, id: u64, r: u64)
    requires Linked(e) && id in e.requests && e.requests[id].lifecycle == Lifecycle.Reserved && Names(e.requests[id], r)
    requires f == e.(ledger := L.Rollback(e.ledger, r).0,
             requests := e.requests[id := e.requests[id].(lifecycle := Cancelled)])
    ensures Linked(f)
  {
    hide Linked, L.Sound, L.Rollback;
    LinkedMeans(e, id, r);
    L.RollbackSound(e.ledger, r);
    OneEntry(e.ledger, r, 0, 0, 0);
    assert Touches(e, f, r) && Settled(f);
    assert f.ledger.table[r].status != Committed by { NotCommitted(e, id, r); }
    assert f.ledger.table[r].status != Status.Reserved;
    assert forall q | q in f.requests && Names(f.requests[q], r) :: Names(e.requests[q], r) && q == id;
    TouchLinks(e, f, r);
  }

  lemma NotCommitted(e: Engine, id: u64, r: u64)
    requires Linked(e) && id in e.requests && e.requests[id].lifecycle != Admitted && Names(e.requests[id], r)
    ensures r in e.ledger.table && e.ledger.table[r].status != Committed
    ensures e.requests[id].lifecycle != Lifecycle.Reserved ==> e.ledger.table[r].status != Status.Reserved
  {
    hide L.Sound;
    assert e.ledger.table[r].status == Committed ==> CommittedOwned(e, r);
    assert e.ledger.table[r].status == Status.Reserved ==> ReservedOwned(e, r);
  }

  lemma CancelDeferredLinks(e: Engine, f: Engine, id: u64)
    requires Linked(e) && id in e.requests && e.requests[id].lifecycle == Deferred
    requires f == e.(requests := e.requests[id := e.requests[id].(lifecycle := Cancelled)])
    ensures Linked(f)
  {
    hide Linked, L.Sound;
    var d := e.requests[id].decision;
    if d.Some? && d.value.reservationId.Some? {
      var r := d.value.reservationId.value;
      LinkedMeans(e, id, r);
      NotCommitted(e, id, r);
      assert Touches(e, f, r) && Settled(f);
      assert forall q | q in f.requests && Names(f.requests[q], r) :: Names(e.requests[q], r) && q == id;
      TouchLinks(e, f, r);
    } else {
      assert forall r :: !Names(e.requests[id], r);
      NamelessKeeps(e, f, id);
    }
  }

  /** Changing the lifecycle of a request that names nothing keeps every link. */
  lemma NamelessKeeps(e: Engine, f: Engine, id: u64)
    requires Linked(e) && id in e.requests && f.ledger == e.ledger
    requires forall r :: !Names(e.requests[id], r)
    requires f.requests == e.requests[id := e.requests[id].(lifecycle := Cancelled)]
    ensures Linked(f)
  {
    hide L.Sound;
    assert forall r :: Names(f.requests[id], r) == Names(e.requests[id], r);
    forall r | r in f.ledger.table && f.ledger.table[r].status == Status.Reserved ensures ReservedOwned(f, r) {
      assert ReservedOwned(e, r);
      var q :| q in e.requests && e.requests[q].lifecycle == Lifecycle.Reserved && Names(e.requests[q], r);
      assert q in f.requests && f.requests[q].lifecycle == Lifecycle.Reserved && Names(f.requests[q], r);
    }
    forall r | r in f.ledger.table && f.ledger.table[r].status == Status.Committed ensures CommittedOwned(f, r) {
      assert CommittedOwned(e, r);
    }
    forall q | q in f.requests && f.requests[q].lifecycle == Admitted
      ensures AdmittedBacked(f, q)
    {
      assert AdmittedBacked(e, q);
    }
  }

  /** Configuration leaves requests and table alone. */
  lemma ConfigurationLinks(e: Engine, f: Engine)
    requires Linked(e) && f.requests == e.requests && f.ledger.table == e.ledger.table
    requires f.ledger.reserved == e.ledger.reserved && f.ledger.used == e.ledger.used
    ensures Linked(f)
  {
    UnderSound(e.ledger, f.ledger);
    hide L.Sound;
    forall r | r in f.ledger.table && f.ledger.table[r].status == Status.Reserved ensures ReservedOwned(f, r) {
      assert ReservedOwned(e, r);
    }
    forall r | r in f.ledger.table && f.ledger.table[r].status == Status.Committed ensures CommittedOwned(f, r) {
      assert CommittedOwned(e, r);
    }
    forall q | q in f.requests && f.requests[q].lifecycle == Admitted
      ensures AdmittedBacked(f, q)
    {
      assert AdmittedBacked(e, q);
    }
  }

  // ---------- Runs ----------

  /** Every operation keeps the ledger's vectors equal to the sums over its table. */
  lemma ApplySound(e: Engine, op: Op)
    requires L.Sound(e.ledger)
    ensures L.Sound(Apply(e, op).ledger)
  {
    hide L.Sound, L.Commit, L.Release, L.Rollback, P.Install, Evaluate, MarkReleased;
    match op
    case OpEvaluate(q) => EvaluateSound(e, q);
    case OpCommit(id, generation, now) =>
      if id in e.requests && e.requests[id].decision.Some? && e.requests[id].decision.value.reservationId.Some? {
        L.CommitSound(e.ledger, e.requests[id].decision.value.reservationId.value, id, generation, now);
      }
    case OpRelease(id) => L.ReleaseSound(e.ledger, id);
    case OpCancel(id) =>
      if id in e.requests && e.requests[id].decision.Some? && e.requests[id].decision.value.reservationId.Some? {
        L.RollbackSound(e.ledger, e.requests[id].decision.value.reservationId.value);
      }
    case _ => UnderSound(e.ledger, Apply(e, op).ledger);
  }

  ghost predicate Safe(e: Engine, op: Op) { op.OpEvaluate? ==> !Hazard(e, op.q) }

  lemma ApplyLinks(e: Engine, op: Op)
    requires Linked(e) && Safe(e, op)
    ensures Linked(Apply(e, op))
  {
    hide Linked, Evaluate, CommitAdmission, ReleaseReservation, CancelRequest, P.Install;
    match op
    case OpEvaluate(q) => EvaluateLinks(e, q);
    case OpCommit(id, generation, now) => CommitLinks(e, id, generation, now);
    case OpRelease(id) => ReleaseLinks(e, id);
    case OpCancel(id) => CancelLinks(e, id);
    case OpInstall(p) => ConfigurationLinks(e, Apply(e, op));
    case OpSetSnapshot(s) => ConfigurationLinks(e, Apply(e, op));
    case OpSetQuota(quota) => ConfigurationLinks(e, Apply(e, op));
  }

  ghost predicate AllSafe(e: Engine, ops: seq<Op>)
    decreases |ops|
  {
    ops != [] ==> Safe(e, ops[0]) && AllSafe(Apply(e, ops[0]), ops[1..])
  }

  /** Every run without a hazardous evaluation keeps the link. */
  lemma {:induction false} RunLinks(e: Engine, ops: seq<Op>)
    requires Linked(e) && AllSafe(e, ops)
    ensures Linked(Run(e, ops))
    decreases |ops|
  {
    hide Linked, Apply, Safe;
    if ops != [] {
      ApplyLinks(e, ops[0]);
      RunLinks(Apply(e, ops[0]), ops[1..]);
    }
  }

  lemma StartLinked()
    ensures Linked(START)
  {
    L.EmptySound();
  }

  /** No request id is evaluated twice. */
  predicate EvaluatedOnce(ops: seq<Op>) {
    forall i, j :: 0 <= i < j < |ops| && ops[i].OpEvaluate? && ops[j].OpEvaluate? ==>
      ops[i].q.d.admissionRequestId != ops[j].q.d.admissionRequestId
  }

  predicate FirstSeen(e: Engine, ops: seq<Op>) {
    forall i :: 0 <= i < |ops| && ops[i].OpEvaluate? ==> ops[i].q.d.admissionRequestId !in e.requests
  }

  lemma ApplyRequests(e: Engine, op: Op)
    ensures Apply(e, op).requests.Keys == e.requests.Keys + (if op.OpEvaluate? then {op.q.d.admissionRequestId} else {})
  {
    hide Evaluate, L.Commit, L.Release, L.Rollback, P.Install;
    if op.OpEvaluate? { EvaluateEffect(e, op.q); }
  }

  lemma {:induction false} OnceIsSafe(e: Engine, ops: seq<Op>)
    requires EvaluatedOnce(ops) && FirstSeen(e, ops)
    ensures AllSafe(e, ops)
    decreases |ops|
  {
    hide Apply;
    if ops != [] {
      ApplyRequests(e, ops[0]);
      OnceIsSafe(Apply(e, ops[0]), ops[1..]);
    }
  }

  /** Over every run in which each request id is evaluated at most once, requests and reservations
      stay linked. */
  lemma OnceLinked(ops: seq<Op>)
    requires EvaluatedOnce(ops)
    ensures Linked(Run(START, ops))
  {
    hide Linked, AllSafe, EvaluatedOnce;
    StartLinked();
    OnceIsSafe(START, ops);
    RunLinks(START, ops);
  }

  // ---------- What the link means ----------

  ghost function AdmittedRequests(e: Engine): set<u64> {
    set q | q in e.requests && e.requests[q].lifecycle == Admitted
  }

  /** The requests that name a reservation of a status. */
  ghost function Holders(e: Engine, s: Status): set<u64> {
    set q | q in e.requests && e.requests[q].decision.Some? && e.requests[q].decision.value.reservationId.Some? &&
            e.requests[q].decision.value.reservationId.value in L.WithStatus(e.ledger.table, s)
  }

  ghost predicate Decided(rs: Requests, ids: set<u64>) { forall q | q in ids :: q in rs && rs[q].decision.Some? }

  /** What the decisions on a set of requests demand in dimension `d`, added up. */
  ghost function Demanded(rs: Requests, ids: set<u64>, d: nat): nat
    requires Decided(rs, ids) && d < 12
    decreases |ids|
  {
    if ids == {} then 0
    else
      var q :| q in ids;
      rs[q].decision.value.demand[d] + Demanded(rs, ids - {q}, d)
  }

  lemma {:induction false} DemandedSplit(rs: Requests, ids: set<u64>, q: u64, d: nat)
    requires Decided(rs, ids) && q in ids && d < 12
    ensures Demanded(rs, ids, d) == rs[q].decision.value.demand[d] + Demanded(rs, ids - {q}, d)
    decreases |ids|
  {
    var first :| first in ids && Demanded(rs, ids, d) ==
      rs[first].decision.value.demand[d] + Demanded(rs, ids - {first}, d);
    if first != q {
      DemandedSplit(rs, ids - {first}, q, d);
      assert ids - {first} - {q} == ids - {q} - {first};
      DemandedSplit(rs, ids - {q}, first, d);
    }
  }

  /** Each request of `a` names a reservation of `b`, and each reservation of `b` is named from `a`. */
  ghost predicate Matched(e: Engine, a: set<u64>, b: set<u64>) {
    && b <= e.ledger.table.Keys
    && (forall q | q in a :: q in e.requests && exists id :: id in b && Names(e.requests[q], id))
    && (forall id | id in b :: exists q :: q in a && q in e.requests && Names(e.requests[q], id))
  }

  lemma MatchedWithout(e: Engine, a: set<u64>, b: set<u64>, q: u64, id: u64)
    requires NamesDistinct(e) && Matched(e, a, b)
    requires q in a && q in e.requests && id in b && Names(e.requests[q], id)
    ensures Matched(e, a - {q}, b - {id})
  {
    forall p | p in a - {q} ensures p in e.requests && exists i :: i in b - {id} && Names(e.requests[p], i) {
      var i :| i in b && Names(e.requests[p], i);
      assert i in b - {id};
    }
    forall i | i in b - {id} ensures exists p :: p in a - {q} && p in e.requests && Names(e.requests[p], i) {
      var p :| p in a && p in e.requests && Names(e.requests[p], i);
      assert p in a - {q};
    }
  }

  lemma MatchedMeans(e: Engine, a: set<u64>, b: set<u64>)
    requires Matched(e, a, b)
    ensures b <= e.ledger.table.Keys && Decided(e.requests, a) && (a == {} ==> b == {})
    ensures forall q | q in a :: q in e.requests && exists id :: id in b && Names(e.requests[q], id)
  {
  }

  lemma NamedDemand(e: Engine, q: u64, id: u64)
    requires NamesKnown(e) && q in e.requests && Names(e.requests[q], id)
    ensures id in e.ledger.table && e.ledger.table[id].demand == e.requests[q].decision.value.demand
  {
  }

  lemma ReindexStep(e: Engine, a: set<u64>, b: set<u64>, q: u64, id: u64, d: nat)
    requires d < 12 && q in a && id in b && b <= e.ledger.table.Keys && Decided(e.requests, a)
    requires e.ledger.table[id].demand == e.requests[q].decision.value.demand
    requires |a - {q}| == |b - {id}| && Demanded(e.requests, a - {q}, d) == L.Sum(b - {id}, e.ledger.table, d)
    ensures |a| == |b| && Demanded(e.requests, a, d) == L.Sum(b, e.ledger.table, d)
  {
    hide Demanded, L.Sum;
    DemandedSplit(e.requests, a, q, d);
    L.SumSplit(b, e.ledger.table, id, d);
  }

  lemma NothingSummed(e: Engine, d: nat)
    requires d < 12
    ensures Demanded(e.requests, {}, d) == L.Sum({}, e.ledger.table, d) == 0
  {
  }

  /** Summing over reservations or over the requests that name them comes to the same. */
  lemma {:induction false} Reindexed(e: Engine, a: set<u64>, b: set<u64>, d: nat)
    requires NamesKnown(e) && NamesDistinct(e) && Matched(e, a, b) && d < 12
    ensures b <= e.ledger.table.Keys && Decided(e.requests, a)
    ensures |a| == |b| && Demanded(e.requests, a, d) == L.Sum(b, e.ledger.table, d)
    decreases |a|
  {
    hide NamesKnown, NamesDistinct, Matched, Names, L.Sum, Demanded;
    MatchedMeans(e, a, b);
    if a == {} {
      NothingSummed(e, d);
    } else {
      var q :| q in a;
      var id :| id in b && Names(e.requests[q], id);
      MatchedWithout(e, a, b, q, id);
      Reindexed(e, a - {q}, b - {id}, d);
      NamedDemand(e, q, id);
      ReindexStep(e, a, b, q, id, d);
    }
  }

  lemma HoldersMatched(e: Engine, s: Status)
    requires Linked(e) && (s == Status.Reserved || s == Committed)
    ensures Matched(e, Holders(e, s), L.WithStatus(e.ledger.table, s))
  {
    hide L.Sound;
    forall q | q in Holders(e, s)
      ensures exists id :: id in L.WithStatus(e.ledger.table, s) && Names(e.requests[q], id)
    {
      var id := e.requests[q].decision.value.reservationId.value;
      assert Names(e.requests[q], id);
    }
    forall id | id in L.WithStatus(e.ledger.table, s)
      ensures exists q :: q in Holders(e, s) && q in e.requests && Names(e.requests[q], id)
    {
      if s == Committed { assert CommittedOwned(e, id); } else { assert ReservedOwned(e, id); }
    }
  }

  lemma AdmittedHold(e: Engine)
    requires Linked(e)
    ensures AdmittedRequests(e) == Holders(e, Committed)
    ensures forall q | q in Holders(e, Status.Reserved) :: e.requests[q].lifecycle == Lifecycle.Reserved
  {
    hide L.Sound;
    forall q | q in Holders(e, Committed) ensures e.requests[q].lifecycle == Admitted {
      assert CommittedOwned(e, e.requests[q].decision.value.reservationId.value);
      assert Names(e.requests[q], e.requests[q].decision.value.reservationId.value);
    }
    forall q | q in Holders(e, Status.Reserved) ensures e.requests[q].lifecycle == Lifecycle.Reserved {
      assert ReservedOwned(e, e.requests[q].decision.value.reservationId.value);
      assert Names(e.requests[q], e.requests[q].decision.value.reservationId.value);
    }
  }

  /** While requests and reservations are linked, the used vector is what the admitted requests demand,
      and the reserved vector what the requests demand that wait with a provisional reservation; and
      there is one reservation to each. */
  lemma LinkedSums(e: Engine, d: nat)
    requires Linked(e) && d < 12
    ensures var a, w := AdmittedRequests(e), Holders(e, Status.Reserved);
            && Decided(e.requests, a) && Decided(e.requests, w)
            && |a| == |L.WithStatus(e.ledger.table, Committed)| &&
              |w| == |L.WithStatus(e.ledger.table, Status.Reserved)|
            && e.ledger.used[d] == Demanded(e.requests, a, d) && e.ledger.reserved[d] == Demanded(e.requests, w, d)
            && forall q | q in w :: e.requests[q].lifecycle == Lifecycle.Reserved
  {
    hide Matched, Demanded, L.Sum, AdmittedRequests, Holders;
    AdmittedHold(e);
    HoldersMatched(e, Committed);
    HoldersMatched(e, Status.Reserved);
    Reindexed(e, Holders(e, Committed), L.WithStatus(e.ledger.table, Committed), d);
    Reindexed(e, Holders(e, Status.Reserved), L.WithStatus(e.ledger.table, Status.Reserved), d);
  }

  /** Over every run in which each request id is evaluated at most once, capacity is in use exactly for
      the admitted requests, as their decisions demand, and held exactly for those that wait. */
  lemma UsedIsAdmitted(ops: seq<Op>, d: nat)
    requires EvaluatedOnce(ops) && d < 12
    ensures var e := Run(START, ops); var a, w := AdmittedRequests(e), Holders(e, Status.Reserved);
            && Decided(e.requests, a) && Decided(e.requests, w)
            && |a| == |L.WithStatus(e.ledger.table, Committed)| &&
              |w| == |L.WithStatus(e.ledger.table, Status.Reserved)|
            && e.ledger.used[d] == Demanded(e.requests, a, d) && e.ledger.reserved[d] == Demanded(e.requests, w, d)
            && forall q | q in w :: e.requests[q].lifecycle == Lifecycle.Reserved
  {
    hide *;
    OnceLinked(ops);
    LinkedSums(Run(START, ops), d);
  }

  /** No capacity is held out of reach: a provisional reservation is committed, or rolled back, through
      exactly one waiting request, and a committed one is released. */
  lemma NothingStranded(e: Engine, id: u64, now: int)
    requires Linked(e) && id in e.ledger.table
    ensures e.ledger.table[id].status == Status.Reserved ==>
              exists q :: q in e.requests && Names(e.requests[q], id) && Withdrawable(e, q, id) &&
                Committable(e, q, id, now)
    ensures e.ledger.table[id].status == Status.Committed ==>
              ReleaseReservation(e, id).1 == Success &&
                ReleaseReservation(e, id).0.ledger.table[id].status == Status.Released
  {
    hide L.Sound, FitsIn, AddFits;
    L.SoundCovers(e.ledger, id);
    if e.ledger.table[id].status == Status.Reserved {
      assert ReservedOwned(e, id);
      var q :| q in e.requests && e.requests[q].lifecycle == Lifecycle.Reserved && Names(e.requests[q], id);
      assert Withdrawable(e, q, id) && Committable(e, q, id, now);
    }
  }

  /** Cancelling `q` succeeds and rolls `id` back. */
  ghost predicate Withdrawable(e: Engine, q: u64, id: u64) {
    var c := CancelRequest(e, q);
    c.1 == Success && id in c.0.ledger.table && c.0.ledger.table[id].status == RolledBack
  }

  /** Before its expiry, committing `q` under its generation succeeds and commits `id`. */
  ghost predicate Committable(e: Engine, q: u64, id: u64, now: int) {
    q in e.requests && e.requests[q].decision.Some? && id in e.ledger.table &&
    var c := CommitAdmission(e, q, e.requests[q].decision.value.admissionGeneration, now);
    now <= e.ledger.table[id].expiresAt ==>
      c.1 == Success && id in c.0.ledger.table && c.0.ledger.table[id].status == Committed &&
        c.0.requests[q].lifecycle == Admitted
  }
}
