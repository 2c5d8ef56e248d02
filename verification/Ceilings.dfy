/** The ceiling of the engine: which operations can sink it below what is held. */
module Ceilings {
  import opened Words
  import opened Resources
  import opened Records
  import opened Doubles
  import opened Texts
  import opened Engine
  import opened EngineRuns
  import opened Admission
  import opened Hazards
  import L = Ledger
  import LedgerRuns
  import P = Policies

  /** The ledger under the capacity and the overcommit terms that an operation sets: an evaluation binds
      it to the policy in force for that request, whatever the outcome. */
  function Reconfigured(e: Engine, op: Op): L.Ledger {
    match op
    case OpEvaluate(q) =>
      if WellFormed(q.d) && !Duplicate(e.requests, q.d.admissionRequestId) && P.Latest(e.history).Some?
      then Under(e.ledger, P.Effective(q.d, P.Latest(e.history).value))
      else e.ledger
    case OpInstall(p) => InstallPolicy(e, p).0.ledger
    case OpSetSnapshot(s) => e.ledger.(total := s.total)
    case _ => e.ledger
  }

  /** What is held now fits under the ceiling that the operation sets. */
  predicate CeilingCovers(e: Engine, op: Op) {
    forall d :: 0 <= d < 12 ==> e.ledger.reserved[d] + e.ledger.used[d] <= L.DimCeiling(Reconfigured(e, op), d)
  }

  lemma EvaluateLedger(e: Engine, q: Query)
    ensures var l := Reconfigured(e, OpEvaluate(q)); var f := Evaluate(e, q).0.ledger;
            f == l || exists ttl: int :: f == L.Reserve(l, e.reservationCounter, q.d.tenantId, q.demand, ttl, q.now).0
  {
    hide WellFormed, Duplicate, P.Effective, Stopped, L.Reserve, Emit, Transition, Under, Risky;
  }

  lemma EvaluateWithin(e: Engine, q: Query)
    requires L.Within(e.ledger)
    ensures L.Within(Evaluate(e, q).0.ledger) <==> CeilingCovers(e, OpEvaluate(q))
  {
    var l, f := Reconfigured(e, OpEvaluate(q)), Evaluate(e, q).0.ledger;
    EvaluateLedger(e, q);
    KeepsVectors(e, OpEvaluate(q));
    hide Evaluate, L.DimCeiling, Reconfigured, L.Reserve;
    if f != l {
      var ttl :| f == L.Reserve(l, e.reservationCounter, q.d.tenantId, q.demand, ttl, q.now).0;
      ReserveWithinExactly(l, e.reservationCounter, q.d.tenantId, q.demand, ttl, q.now);
    }
  }

  /** A reservation neither breaks nor mends the bound. */
  lemma ReserveWithinExactly(l: L.Ledger, id: u64, owner: u64, demand: Vec, ttl: int, now: int)
    ensures L.Within(L.Reserve(l, id, owner, demand, ttl, now).0) <==> L.Within(l)
  {
    var m := L.Reserve(l, id, owner, demand, ttl, now).0;
    if L.Reserve(l, id, owner, demand, ttl, now).1 == L.Ok {
      forall d | 0 <= d < 12
        ensures l.reserved[d] + l.used[d] <= m.reserved[d] + m.used[d] <= L.DimCeiling(m, d) == L.DimCeiling(l, d)
      {
        assert Add(l.used, m.reserved)[d] <= L.Ceiling(l)[d];
      }
    }
  }

  lemma KeepsVectors(e: Engine, op: Op)
    ensures Reconfigured(e, op).reserved == e.ledger.reserved && Reconfigured(e, op).used == e.ledger.used
  {
    hide WellFormed, Duplicate, P.Effective, P.Install;
  }

  /** Held capacity stays within the ceiling through an operation if and only if the ceiling that the
      operation sets covers what is held before it. */
  lemma CeilingKeptExactly(e: Engine, op: Op)
    requires L.Sound(e.ledger) && L.Within(e.ledger)
    ensures L.Within(Apply(e, op).ledger) <==> CeilingCovers(e, op)
  {
    hide L.Sound, L.DimCeiling, Evaluate, L.Commit, L.Release, L.Rollback, P.Install, P.Effective, WellFormed,
      Duplicate, Under, MarkReleased;
    KeepsVectors(e, op);
    match op
    case OpEvaluate(q) => EvaluateWithin(e, q);
    case OpCommit(id, generation, now) =>
      if id in e.requests && e.requests[id].decision.Some? && e.requests[id].decision.value.reservationId.Some? {
        LedgerRuns.ShrunkWithin(e.ledger, e.requests[id].decision.value.reservationId.value, id, generation, now);
      }
    case OpRelease(id) => LedgerRuns.ShrunkWithin(e.ledger, id, 0, 0, 0);
    case OpCancel(id) =>
      if id in e.requests && e.requests[id].decision.Some? && e.requests[id].decision.value.reservationId.Some? {
        LedgerRuns.ShrunkWithin(e.ledger, e.requests[id].decision.value.reservationId.value, 0, 0, 0);
      }
    case _ =>
  }

  /** Held capacity is within the ceiling after every operation. */
  predicate AlwaysWithin(e: Engine, ops: seq<Op>)
    decreases |ops|
  {
    ops != [] ==> L.Within(Apply(e, ops[0]).ledger) && AlwaysWithin(Apply(e, ops[0]), ops[1..])
  }

  predicate AlwaysCovers(e: Engine, ops: seq<Op>)
    decreases |ops|
  {
    ops != [] ==> CeilingCovers(e, ops[0]) && AlwaysCovers(Apply(e, ops[0]), ops[1..])
  }

  /** And throughout a run if and only if every operation in it sets such a ceiling. */
  lemma {:induction false} RunKeptExactly(e: Engine, ops: seq<Op>)
    requires L.Sound(e.ledger) && L.Within(e.ledger)
    ensures AlwaysWithin(e, ops) <==> AlwaysCovers(e, ops)
    decreases |ops|
  {
    hide L.Sound, L.Within, Apply, CeilingCovers;
    if ops != [] {
      ApplySound(e, ops[0]);
      CeilingKeptExactly(e, ops[0]);
      if L.Within(Apply(e, ops[0]).ledger) { RunKeptExactly(Apply(e, ops[0]), ops[1..]); }
    }
  }

  // ---------- A ceiling sunk by an override ----------

  const TEN: Vec := [10, 0, 0, 0, 0, 0, 0, 0, 0, 0, 0, 0]
  const FIFTEEN: Vec := [15, 0, 0, 0, 0, 0, 0, 0, 0, 0, 0, 0]

  /** Overcommit by ten units, but none for requests without a workload class. */
  function Selective(): Policy {
    P.Plain([]).(generation := 1, overcommit := 1, overcommitAllowance := TEN,
                 overrides := [Override(Ascii("class="), None, Some(L.MODE_NONE), None, None, None, None, None)])
  }

  const ROOMY: Snapshot := DEFAULT_SNAPSHOT.(total := TEN)

  const CLASSED: Descriptor := PLAIN_REQUEST.(workloadClass := [65])
  const CLASSLESS: Descriptor := PLAIN_REQUEST.(admissionRequestId := 2)

  const FIRST: Query := Query(CLASSED, FIFTEEN, 0, 0, 0, 0, false, [])
  const NEXT: Query := Query(CLASSLESS, UNIT, 0, 0, 0, 0, false, [])

  /** The policy is installed and the capacity known. */
  function Prepared(): Engine {
    START.(history := P.History(map[1 := Selective()], 1, 2), snapshot := ROOMY, hasSnapshot := true,
           ledger := L.EMPTY.(total := TEN, mode := 1, allowance := TEN))
  }

  lemma ClassMatches(d: Descriptor)
    ensures P.Matches(Ascii("class="), d) <==> d.workloadClass == []
  {
    var key := Ascii("class=");
    assert key[0] == 99 && Ascii("model=")[0] == 109;
    assert key[..6] == key && key[6..] == [];
  }

  lemma SelectiveTerms(d: Descriptor)
    ensures P.Effective(d, Selective())
         == Selective().(overcommit := if d.workloadClass == [] then L.MODE_NONE else 1)
  {
    hide P.Matches, P.Plain;
    ClassMatches(d);
    var os := Selective().overrides;
    assert os[..0] == [];
    assert P.Overlaid(Selective(), os[..0], d) == Selective();
  }

  lemma SelectiveInstalled()
    ensures P.ValidPolicy(Selective())
    ensures SetSnapshot(InstallPolicy(START, Selective()).0, ROOMY) == Prepared()
  {
    P.Renumbered(P.Plain([]), 1);
    hide P.Plain;
    assert Selective().(generation := 1) == Selective();
  }

  lemma RoomFor(p: Policy)
    requires Ratio(p) == 0.0 && p.absoluteSafetyMargin == ZERO
    ensures FitsIn(FIFTEEN, Headroom(p, L.Availability(Prepared().ledger)))
  {
    hide Ratio, P.Plain;
    var a := L.Availability(Prepared().ledger);
    forall i | 0 <= i < 12 ensures FIFTEEN[i] <= Headroom(p, a)[i] {
      assert a[i] == L.DimCeiling(Prepared().ledger, i);
      assert Margin(p, a)[i] == MarginOf(a[i], 0.0, 0);
    }
  }

  lemma FirstPasses()
    ensures Stopped(Prepared(), Selective(), FIRST).None?
    ensures Under(Prepared().ledger, Selective()) == Prepared().ledger
  {
    hide Selective, Headroom, L.Availability, FitsIn, PendingSmall;
    SelectiveFields();
    ZeroIsRatio();
    RoomFor(Selective());
    NobodyWaits();
    assert forall i :: 0 <= i < 12 ==> ROOMY.provenance[i] != UNAVAILABLE;
  }

  lemma NobodyWaits()
    ensures PendingSmall(map[]) == 0
  {
    assert SmallIds(map[]) == {};
  }

  lemma SelectiveFields()
    ensures var p := Selective(); p.overcommit == 1 && p.overcommitAllowance == TEN && p.absoluteSafetyMargin == ZERO
    ensures Selective().maxSnapshotAge == 5 * SECOND
  {
  }

  lemma ZeroIsRatio()
    ensures Ratio(Selective()) == 0.0
  {
  }

  lemma PreparedSound()
    ensures L.Sound(Prepared().ledger) && L.Within(Prepared().ledger)
  {
    L.EmptySound();
    UnderSound(L.EMPTY, Prepared().ledger);
    hide L.Sound;
  }

  lemma ReserveShape(l: L.Ledger, id: u64, owner: u64, demand: Vec, ttl: int, now: int)
    requires L.Reserve(l, id, owner, demand, ttl, now).1 == L.Ok
    ensures var m := L.Reserve(l, id, owner, demand, ttl, now).0;
            AddFits(l.reserved, demand) && m.reserved == Add(l.reserved, demand) && m.used == l.used &&
              m.total == l.total
  {
    hide FitsIn, AddFits;
  }

  lemma FirstGates()
    ensures PassesGates(Prepared(), Selective(), FIRST)
  {
    hide P.Plain, Stopped, P.Effective;
    SelectiveTerms(CLASSED);
    FirstPasses();
  }

  /** The first request is admitted beyond the physical capacity, which the policy allows for its class. */
  lemma FirstIsAdmitted(e: Engine)
    requires e == Evaluate(Prepared(), FIRST).0
    ensures L.Sound(e.ledger) && L.Within(e.ledger)
    ensures e.ledger.reserved[0] == 15 && e.ledger.used[0] == 0 && e.ledger.total == TEN
    ensures e.history == Prepared().history && 2 !in e.requests
  {
    hide Evaluate, Selective, Stopped, WellFormed, Admits, PassesGates, L.Reserve, L.Sound, L.Within, L.DimCeiling;
    var b := Prepared();
    PreparedSound();
    FirstGates();
    FirstPasses();
    AdmittedExactly(b, Selective(), FIRST);
    assert FIFTEEN[0] == 15;
    AdmitsIsPlaced(b, Selective(), FIRST);
    ReserveShape(b.ledger, 1, 1, FIFTEEN, Selective().maxReservationLifetime, 0);
    ReserveWithinExactly(b.ledger, 1, 1, FIFTEEN, Selective().maxReservationLifetime, 0);
    EvaluateSound(b, FIRST);
    EvaluateEffect(b, FIRST);
    HistoryKept(b, FIRST);
  }

  lemma HistoryKept(e: Engine, q: Query)
    ensures Evaluate(e, q).0.history == e.history
  {
    hide WellFormed, Duplicate, P.Effective, Stopped, Risky, FitsIn, AddFits, Emit, Transition;
  }

  /** The evaluation of one request can sink the ceiling below what others hold: under a policy that
      overrides overcommit for some requests, fifteen of ten units are held when such a request comes. */
  lemma OverrideSinksCeiling(e: Engine)
    requires e == Run(START, [OpInstall(Selective()), OpSetSnapshot(ROOMY), OpEvaluate(FIRST)])
    ensures L.Sound(e.ledger) && L.Within(e.ledger) && !L.Within(Apply(e, OpEvaluate(NEXT)).ledger)
  {
    hide Selective, Evaluate, L.Sound, L.Within, InstallPolicy, SetSnapshot;
    ThreeSteps(START, [OpInstall(Selective()), OpSetSnapshot(ROOMY), OpEvaluate(FIRST)]);
    SelectiveInstalled();
    FirstIsAdmitted(e);
    CeilingKeptExactly(e, OpEvaluate(NEXT));
    SecondSinks(e);
  }

  lemma SecondSinks(e: Engine)
    requires e.ledger.reserved[0] == 15 && e.ledger.used[0] == 0 && e.ledger.total == TEN
    requires e.history == Prepared().history && 2 !in e.requests
    ensures !CeilingCovers(e, OpEvaluate(NEXT))
  {
    hide P.Plain, P.Effective;
    SelectiveTerms(CLASSLESS);
    assert L.DimCeiling(Reconfigured(e, OpEvaluate(NEXT)), 0) == 10;
  }
}
