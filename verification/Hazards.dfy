/** Evaluating a request again: exactly when that breaks the link between requests and reservations, what
    becomes of the reservation, and runs that get there. */
module Hazards {
  import opened Words
  import opened Resources
  import opened Records
  import opened Doubles
  import opened Engine
  import opened EngineRuns
  import opened Admission
  import L = Ledger
  import P = Policies

  // ---------- When an evaluation keeps the link ----------

  /** An evaluation keeps requests and reservations linked if and only if it re-evaluates neither a
      deferred request that is admissible nor an active request whose reservation is live: a condition
      on the engine before the evaluation. */
  lemma LinkSurvivesExactly(e: Engine, q: Query)
    requires Linked(e)
    ensures var id := q.d.admissionRequestId;
            Linked(Evaluate(e, q).0) <==>
              !(id in e.requests &&
                ((e.requests[id].lifecycle == Deferred && Admissible(e, q)) ||
                 (e.requests[id].lifecycle in {Lifecycle.Reserved, Admitted} && NamesLive(e, id))))
  {
    hide Linked, Admissible, Evaluate, Admits;
    LinkedSound(e);
    AdmitsExactly(e, q);
    EvaluateLinkedExactly(e, q);
  }

  // ---------- Re-evaluating a deferred request ----------

  lemma LinkedSound(e: Engine)
    requires Linked(e)
    ensures L.Sound(e.ledger)
  {
    hide L.Sound;
  }

  lemma CommitsIfLive(c: Engine, id: u64, r: u64, now: int)
    requires L.Sound(c.ledger) && id in c.requests && Names(c.requests[id], r)
    requires r in c.ledger.table && c.ledger.table[r].status == Status.Reserved
    ensures Committable(c, id, r, now)
  {
    hide L.Sound, FitsIn, AddFits;
    L.SoundCovers(c.ledger, r);
  }

  /** The reservation that `q` was given is named by no request once `again` has been evaluated. */
  lemma NameLost(e: Engine, q: Query, again: Query)
    requires Linked(e) && Admits(e, q) && again.d.admissionRequestId == q.d.admissionRequestId
    ensures var g := Evaluate(Evaluate(e, q).0, again).0;
            (forall p | p in g.requests :: !Names(g.requests[p], e.reservationCounter)) &&
            e.reservationCounter in L.WithStatus(g.ledger.table, Status.Reserved)
  {
    hide Evaluate, Admits, L.Sound;
    EvaluateEffect(e, q);
    EvaluateEffect(Evaluate(e, q).0, again);
  }

  /** A deferred request that is evaluated again and admitted stays deferred. Its reservation survives
      the cancelling of the request; a commit then turns the cancelled request into an admitted one;
      and one more evaluation loses the only name the reservation had. */
  lemma DeferredReservationStrands(e: Engine, q: Query, again: Query)
    requires Linked(e) && Admits(e, q) && q.d.admissionRequestId in e.requests
    requires again.d.admissionRequestId == q.d.admissionRequestId
    ensures var id := q.d.admissionRequestId; var f := Evaluate(e, q).0; var r := e.reservationCounter;
            && e.requests[id].lifecycle == Deferred
            && id in f.requests && f.requests[id].lifecycle == Deferred
            && r in L.WithStatus(f.ledger.table, Status.Reserved)
            && CancelRequest(f, id) == (f.(requests := f.requests[id := f.requests[id].(lifecycle := Cancelled)]),
              Success)
            && Committable(CancelRequest(f, id).0, id, r, q.now)
            && (var g := Evaluate(f, again).0;
                (forall p | p in g.requests :: !Names(g.requests[p], r)) &&
                  r in L.WithStatus(g.ledger.table, Status.Reserved))
  {
    hide Evaluate, Admits, L.Sound, L.Commit, Linked, Committable;
    var id := q.d.admissionRequestId;
    EvaluateEffect(e, q);
    SettledMeans(e, id);
    EvaluateSound(e, q) by { LinkedSound(e); }
    CommitsIfLive(CancelRequest(Evaluate(e, q).0, id).0, id, e.reservationCounter, q.now);
    NameLost(e, q, again);
  }

  // ---------- Re-evaluating an active request ----------

  /** A request that waits for its commit loses its reservation to any further evaluation: the request
      can then be cancelled without rolling anything back, its commit fails, and the reservation, still
      held, is named by no request. */
  lemma ActiveReservationStrands(e: Engine, q: Query, r: u64)
    requires Linked(e) && q.d.admissionRequestId in e.requests
    requires e.requests[q.d.admissionRequestId].lifecycle == Lifecycle.Reserved
    requires Names(e.requests[q.d.admissionRequestId], r) && r in L.WithStatus(e.ledger.table, Status.Reserved)
    ensures var id := q.d.admissionRequestId; var f := Evaluate(e, q).0; var c := CancelRequest(f, id);
            && c.1 == Success && id in c.0.requests && c.0.requests[id].lifecycle == Cancelled
            && r in L.WithStatus(c.0.ledger.table, Status.Reserved)
            && (forall p | p in c.0.requests :: !Names(c.0.requests[p], r))
            && forall g: u64, now: int :: CommitAdmission(f, id, g, now).1 != Success
  {
    hide Evaluate, Admits, L.Sound, L.Commit, L.Rollback;
    EvaluateEffect(e, q);
    ActiveNeverAdmits(e, q);
  }

  // ---------- Runs that get there ----------

  const UNIT: Vec := [1, 0, 0, 0, 0, 0, 0, 0, 0, 0, 0, 0]

  const PLAIN_REQUEST: Descriptor := DEFAULT_DESCRIPTOR.(
    admissionRequestId := 1, requestId := 1, attemptId := 1, tenantId := 1, modelId := 1, modelRevision := 1,
    policyGeneration := 1)

  const PLAIN_QUERY: Query := Query(PLAIN_REQUEST, UNIT, 0, 0, 0, 0, false, [])

  function PlainPolicy(): Policy { P.Plain([]).(generation := 1) }

  /** A plain policy is installed. */
  function Installed(): Engine { START.(history := P.History(map[1 := PlainPolicy()], 1, 2)) }

  lemma PlainInstalled()
    ensures InstallPolicy(START, P.Plain([])).0 == Installed()
    ensures P.Latest(Installed().history) == Some(PlainPolicy()) &&
            P.Effective(PLAIN_REQUEST, PlainPolicy()) == PlainPolicy()
  {
    hide P.ValidPolicy;
    assert Under(START.ledger, PlainPolicy()) == START.ledger;
  }

  lemma PlainIsWellFormed()
    ensures WellFormed(PLAIN_REQUEST)
  {
  }

  lemma PlainDefers(e: Engine)
    requires e == Evaluate(Installed(), PLAIN_QUERY).0
    ensures e.requests.Keys == {1} && e.requests[1].lifecycle == Deferred
    ensures e.ledger == L.EMPTY && e.history == Installed().history && !e.quota.present && e.reservationCounter == 1
  {
    hide P.Effective, WellFormed, P.Plain, Emit, Transition;
    PlainInstalled();
    PlainIsWellFormed();
    EvaluateEffect(Installed(), PLAIN_QUERY);
    assert Stopped(Installed(), PlainPolicy(), PLAIN_QUERY) == Some(DEFER_CAPACITY) by { PlainStops(); }
    assert Under(L.EMPTY, PlainPolicy()) == L.EMPTY by { PlainTerms(); }
  }

  lemma PlainTerms()
    ensures Under(L.EMPTY, PlainPolicy()) == L.EMPTY
    ensures Ratio(PlainPolicy()) == 0.0 && PlainPolicy().absoluteSafetyMargin == ZERO
  {
  }

  lemma PlainStops()
    ensures Stopped(Installed(), PlainPolicy(), PLAIN_QUERY) == Some(DEFER_CAPACITY)
  {
  }

  lemma PlainHeadroom()
    ensures FitsIn(UNIT, Headroom(PlainPolicy(), L.Availability(L.EMPTY)))
    ensures L.Availability(L.EMPTY)[0] == L.UNBOUNDED
  {
    hide P.Plain, Ratio;
    PlainTerms();
    var a := L.Availability(L.EMPTY);
    forall i | 0 <= i < 12 ensures UNIT[i] <= Headroom(PlainPolicy(), a)[i] {
      assert L.DimCeiling(L.EMPTY, i) == L.UNBOUNDED;
      assert Margin(PlainPolicy(), a)[i] == MarginOf(a[i], 0.0, 0);
    }
  }

  lemma PlainPasses(e: Engine)
    requires e.ledger == L.EMPTY && !e.quota.present && e.hasSnapshot && e.snapshot == DEFAULT_SNAPSHOT
    ensures Stopped(e, PlainPolicy(), PLAIN_QUERY).None?
  {
    hide Headroom, L.Availability, FitsIn, PendingSmall;
    PlainHeadroom();
    PlainTerms();
    assert forall i :: 0 <= i < 12 ==> e.snapshot.provenance[i] != UNAVAILABLE;
  }

  /** The hazard is reachable: a policy is installed, a request is evaluated before any snapshot
      arrives, a snapshot arrives, and the request is evaluated again. */
  lemma HazardReachable(e: Engine)
    requires e == Run(START, [OpInstall(P.Plain([])), OpEvaluate(PLAIN_QUERY), OpSetSnapshot(DEFAULT_SNAPSHOT)])
    ensures Linked(e) && Hazard(e, PLAIN_QUERY)
  {
    hide Linked, Evaluate, P.Plain, P.Effective, Stopped, InstallPolicy, Emit, Transition, WellFormed, Admits;
    var ops := [OpInstall(P.Plain([])), OpEvaluate(PLAIN_QUERY), OpSetSnapshot(DEFAULT_SNAPSHOT)];
    OnceLinked(ops);
    ThreeSteps(START, ops);
    PlainInstalled();
    PlainDefers(Evaluate(Installed(), PLAIN_QUERY).0);
    assert e == SetSnapshot(Evaluate(Installed(), PLAIN_QUERY).0, DEFAULT_SNAPSHOT);
    assert e.ledger == L.EMPTY;
    PlainIsWellFormed();
    PlainPasses(e);
    L.EmptySound();
    PlainTerms();
    assert PassesGates(e, PlainPolicy(), PLAIN_QUERY);
    AdmittedExactly(e, PlainPolicy(), PLAIN_QUERY);
    assert UNIT[0] == 1;
  }

  /** A plain policy is installed and a snapshot has arrived. */
  function Ready(): Engine { SetSnapshot(Installed(), DEFAULT_SNAPSHOT) }

  lemma ReadyAdmits()
    ensures Admits(Ready(), PLAIN_QUERY) && Ready().ledger == L.EMPTY
  {
    hide P.Plain, P.Effective, Stopped, WellFormed, Admits;
    PlainInstalled();
    PlainIsWellFormed();
    PlainPasses(Ready());
    PlainTerms();
    L.EmptySound();
    assert PassesGates(Ready(), PlainPolicy(), PLAIN_QUERY);
    AdmittedExactly(Ready(), PlainPolicy(), PLAIN_QUERY);
    assert UNIT[0] == 1;
  }

  /** The other hazard is reachable too: a request is admitted, evaluated once more and then cancelled;
      its reservation stays held, and no request names it. */
  lemma ActiveHazardReachable(e: Engine, f: Engine)
    requires e == Run(START, [OpInstall(P.Plain([])), OpSetSnapshot(DEFAULT_SNAPSHOT), OpEvaluate(PLAIN_QUERY)])
    requires f == Apply(Apply(e, OpEvaluate(PLAIN_QUERY)), OpCancel(1))
    ensures Linked(e) && Hazard(e, PLAIN_QUERY)
    ensures 1 in f.requests && f.requests[1].lifecycle == Cancelled
    ensures 1 in L.WithStatus(f.ledger.table, Status.Reserved) && forall p | p in f.requests :: !Names(f.requests[p], 1)
  {
    hide Linked, Evaluate, P.Plain, InstallPolicy, Emit, Transition, WellFormed, Admits, CancelRequest;
    var ops := [OpInstall(P.Plain([])), OpSetSnapshot(DEFAULT_SNAPSHOT), OpEvaluate(PLAIN_QUERY)];
    OnceLinked(ops);
    ThreeSteps(START, ops);
    PlainInstalled();
    ReadyAdmits();
    EvaluateEffect(Ready(), PLAIN_QUERY);
    assert Names(e.requests[1], 1) && NamesLive(e, 1);
    ActiveReservationStrands(e, PLAIN_QUERY, 1);
  }

  lemma ThreeSteps(e: Engine, ops: seq<Op>)
    requires |ops| == 3
    ensures Run(e, ops) == Apply(Apply(Apply(e, ops[0]), ops[1]), ops[2])
  {
    hide Apply;
    var a, b := Apply(e, ops[0]), Apply(Apply(e, ops[0]), ops[1]);
    assert ops[1..][1..] == [ops[2]];
    assert Run(b, [ops[2]]) == Apply(b, ops[2]) by { assert [ops[2]][1..] == []; }
    assert Run(a, ops[1..]) == Run(b, ops[1..][1..]);
  }
}
