/** The predictor and the engine together: what a demand that was predicted means for what is held. */
module Service {
  import opened Words
  import opened Ordering
  import opened Resources
  import opened Records
  import opened Engine
  import opened Recovery
  import opened Restarts
  import Admission
  import EngineRuns
  import Persistence
  import L = Ledger
  import P = Policies
  import Profiles
  import W = Predictor

  // ---------- Runs whose demands are predicted ----------

  /** A request that passes validation is evaluated with the demand that the predictor gives for it, whose
      sums do not wrap. */
  ghost predicate Predicted(w: Persistence.Whole, op: Op) {
    op.OpEngine? && op.engine.OpEvaluate? && WellFormed(op.engine.q.d) ==>
      var q := op.engine.q;
      && W.Predictable(w.predictor, q.d)
      && q.demand == W.PredictDemand(w.predictor, q.d)
      && W.TruePeak(W.PredictFootprint(w.predictor, q.d)) <= U64_MAX
  }

  ghost predicate AllPredicted(w: Persistence.Whole, ops: seq<Op>)
    decreases |ops|
  {
    ops != [] ==> Predicted(w, ops[0]) && AllPredicted(Apply(w, ops[0]), ops[1..])
  }

  /** The accelerator memory asked for covers the cache growth and the tensor state. */
  predicate Covers(v: Vec) { v[ACCELERATOR_MEMORY] >= v[KV_CAPACITY] as nat + v[TENSOR_STATE] }

  ghost predicate AllCover(t: L.Table) { forall id | id in t :: Covers(t[id].demand) }

  lemma {:induction false} SumCovers(ids: set<u64>, t: L.Table)
    requires ids <= t.Keys && AllCover(t)
    ensures L.Sum(ids, t, ACCELERATOR_MEMORY) >= L.Sum(ids, t, KV_CAPACITY) + L.Sum(ids, t, TENSOR_STATE)
    decreases |ids|
  {
    if ids != {} {
      var id :| id in ids;
      L.SumSplit(ids, t, id, ACCELERATOR_MEMORY);
      L.SumSplit(ids, t, id, KV_CAPACITY);
      L.SumSplit(ids, t, id, TENSOR_STATE);
      SumCovers(ids - {id}, t);
    }
  }

  lemma EvaluateCovers(w: Persistence.Whole, q: Query)
    requires AllCover(w.engine.ledger.table) && Predicted(w, OpEngine(EngineRuns.OpEvaluate(q)))
    ensures AllCover(Evaluate(w.engine, q).0.ledger.table)
  {
    hide Evaluate, EngineRuns.Admits, W.PredictDemand, W.PredictFootprint, W.Predictable, WellFormed;
    EngineRuns.EvaluateEffect(w.engine, q);
    if EngineRuns.Admits(w.engine, q) {
      Admission.AdmitsPassed(w.engine, q);
      W.DemandCoversParts(w.predictor, q.d);
    }
  }

  /** The same reservations, with the same demands. */
  predicate SameDemands(t: L.Table, u: L.Table) {
    t.Keys == u.Keys && forall id | id in t :: u[id].demand == t[id].demand
  }

  lemma EntryKept(l: L.Ledger, id: u64, request: u64, generation: u64, now: int)
    requires L.Sound(l)
    ensures SameDemands(l.table, L.Commit(l, id, request, generation, now).0.table)
    ensures SameDemands(l.table, L.Release(l, id).0.table) && SameDemands(l.table, L.Rollback(l, id).0.table)
  {
    hide L.Sound, L.Commit, L.Release, L.Rollback;
    if id in l.table {
      EngineRuns.OneEntry(l, id, request, generation, now);
    } else {
      UnknownKept(l, id, request, generation, now);
    }
  }

  lemma UnknownKept(l: L.Ledger, id: u64, request: u64, generation: u64, now: int)
    requires id !in l.table
    ensures L.Commit(l, id, request, generation, now).0 == L.Release(l, id).0 == L.Rollback(l, id).0 == l
  {
  }

  lemma DemandsKept(e: Engine, op: EngineRuns.Op)
    requires L.Sound(e.ledger) && !op.OpEvaluate?
    ensures SameDemands(e.ledger.table, EngineRuns.Apply(e, op).ledger.table)
  {
    hide L.Sound, L.Commit, L.Release, L.Rollback, P.Install, MarkReleased, SameDemands;
    NothingChanged(e.ledger.table);
    if op.OpCommit? {
      EntryKept(e.ledger, NamedBy(e, op.id), op.id, op.generation, op.now);
    } else if op.OpCancel? {
      EntryKept(e.ledger, NamedBy(e, op.id), 0, 0, 0);
    } else if op.OpRelease? {
      EntryKept(e.ledger, op.id, 0, 0, 0);
    }
  }

  lemma NothingChanged(t: L.Table)
    ensures SameDemands(t, t)
  {
  }

  /** The reservation that a request names, if any. */
  function NamedBy(e: Engine, id: u64): u64 {
    if id in e.requests && e.requests[id].decision.Some? && e.requests[id].decision.value.reservationId.Some?
    then e.requests[id].decision.value.reservationId.value else 0
  }

  lemma RestartKeepsTable(w: Persistence.Whole)
    requires Sane(w)
    ensures Restarted(w).engine.ledger.table == w.engine.ledger.table
  {
    hide Persistence.FitImage, ImageOf, Restore, Save, W.Cataloged, P.WellFiled, L.Sound, AllLive, P.Returned;
    if Persistence.FitImage(ImageOf(w)) { RestoreOfSave(w); }
  }

  lemma ApplyCovers(w: Persistence.Whole, op: Op)
    requires Sane(w) && AllCover(w.engine.ledger.table) && Predicted(w, op)
    ensures AllCover(Apply(w, op).engine.ledger.table)
  {
    hide Predicted, Restarted, L.Sound, EngineRuns.Apply, Covers;
    if op.OpEngine? && op.engine.OpEvaluate? {
      EvaluateStep(w, op.engine.q);
    } else if op.OpEngine? {
      SaneMeans(w);
      DemandsKept(w.engine, op.engine);
    } else if op.OpRestart? {
      RestartKeepsTable(w);
    }
  }

  lemma EvaluateStep(w: Persistence.Whole, q: Query)
    requires AllCover(w.engine.ledger.table) && Predicted(w, OpEngine(EngineRuns.OpEvaluate(q)))
    ensures AllCover(EngineRuns.Apply(w.engine, EngineRuns.OpEvaluate(q)).ledger.table)
  {
    hide Predicted, Evaluate, AllCover;
    EvaluateCovers(w, q);
  }

  lemma {:induction false} RunCovers(w: Persistence.Whole, ops: seq<Op>)
    requires Sane(w) && AllCover(w.engine.ledger.table) && AllPredicted(w, ops)
    ensures AllCover(Run(w, ops).engine.ledger.table)
    decreases |ops|
  {
    hide Sane, AllCover, Apply, Predicted;
    if ops != [] {
      ApplyCovers(w, ops[0]);
      ApplySane(w, ops[0]);
      RunCovers(Apply(w, ops[0]), ops[1..]);
    }
  }

  /** Over every run of engine and predictor, restarts included, in which the demands are predicted and no
      prediction wraps: the accelerator memory that is reserved, and that in use, covers the cache growth
      and the tensor state that are reserved, and in use, with it. */
  lemma HeldCoversParts(ops: seq<Op>, w: Persistence.Whole)
    requires w == Run(Persistence.FRESH_WHOLE, ops) && AllPredicted(Persistence.FRESH_WHOLE, ops)
    ensures var r, u := w.engine.ledger.reserved, w.engine.ledger.used;
            r[ACCELERATOR_MEMORY] >= r[KV_CAPACITY] as nat + r[TENSOR_STATE] &&
            u[ACCELERATOR_MEMORY] >= u[KV_CAPACITY] as nat + u[TENSOR_STATE]
  {
    hide Run, AllPredicted, AllCover, L.Sum, W.Cataloged, P.WellFiled;
    FreshSane();
    NothingCovers();
    RunSane(Persistence.FRESH_WHOLE, ops);
    RunCovers(Persistence.FRESH_WHOLE, ops);
    var t := w.engine.ledger.table;
    SumCovers(L.WithStatus(t, Status.Reserved), t);
    SumCovers(L.WithStatus(t, Committed), t);
  }

  lemma NothingCovers()
    ensures AllCover(Persistence.FRESH_WHOLE.engine.ledger.table)
  {
  }

  // ---------- A prediction that wraps ----------

  /** The wrapping profile, registered. */
  function Catalog(): W.Predictor { W.Register(W.START, W.WRAPPING).0 }

  function Tokens(n: nat): Descriptor
    requires n <= 2
  {
    DEFAULT_DESCRIPTOR.(
      admissionRequestId := 1, requestId := 1, attemptId := 1, tenantId := 1, modelId := 1, modelRevision := 1,
      policyGeneration := 1, backend := W.WRAPPING.backend, inputTokens := n)
  }

  lemma CatalogFinds(n: nat)
    requires 1 <= n <= 2
    ensures Profiles.ProfileFor(Catalog().profiles, Tokens(n)) == Some(W.WRAPPING.(generation := 2))
    ensures Catalog().learned == map[]
  {
    hide Profiles.Key;
  }

  /** Where the sums wrap, the engine is told that a well-formed request of two tokens, for a registered
      profile, needs no accelerator memory at all, while one of one token needs half the address space. */
  lemma WrapUnderstates()
    ensures WellFormed(Tokens(1)) && W.Predictable(Catalog(), Tokens(1)) && W.Profiled(Catalog(), Tokens(1))
    ensures WellFormed(Tokens(2)) && W.Predictable(Catalog(), Tokens(2)) && W.Profiled(Catalog(), Tokens(2))
    ensures W.PredictDemand(Catalog(), Tokens(1))[ACCELERATOR_MEMORY] == W.HALF + 1
    ensures W.PredictDemand(Catalog(), Tokens(2))[ACCELERATOR_MEMORY] == 0
  {
    hide *;
    WrappedDemand(1);
    WrappedDemand(2);
    W.WrappingPeaks();
  }

  lemma WrappedDemand(n: nat)
    requires 1 <= n <= 2
    ensures WellFormed(Tokens(n)) && W.Predictable(Catalog(), Tokens(n)) && W.Profiled(Catalog(), Tokens(n))
    ensures W.PredictDemand(Catalog(), Tokens(n))[ACCELERATOR_MEMORY] == W.Peak(W.Wrapping(n))
  {
    hide Catalog, W.FromProfile, W.Peak, W.Sensible, Profiles.ProfileFor, W.DemandOf;
    CatalogFinds(n);
    W.WrappedFootprint(W.WRAPPING.(generation := 2), Tokens(n));
  }
}
