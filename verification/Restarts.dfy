/** Runs of the whole service, in which the process may be restarted from its saved state at any point. */
module Restarts {
  import opened Words
  import opened Resources
  import opened Records
  import opened Engine
  import opened Persistence
  import opened Recovery
  import C = Codec
  import EngineRuns
  import L = Ledger
  import P = Policies
  import Profiles
  import W = Predictor

  datatype Op = OpEngine(engine: EngineRuns.Op) | OpPredictor(predictor: W.Op) | OpRestart

  /** A restart reads, into a fresh engine, what was just saved. One that is refused, or whose state is
      beyond the bounds of the decoder, is no step. */
  ghost function Restarted(w: Whole): Whole {
    var r := Restore(FRESH_WHOLE, Save(w));
    if FitImage(ImageOf(w)) && r.Got? then r.value else w
  }

  ghost function Apply(w: Whole, op: Op): Whole {
    match op
    case OpEngine(e) => w.(engine := EngineRuns.Apply(w.engine, e))
    case OpPredictor(p) => w.(predictor := W.Apply(w.predictor, p))
    case OpRestart => Restarted(w)
  }

  ghost function Run(w: Whole, ops: seq<Op>): Whole
    decreases |ops|
  {
    if ops == [] then w else Run(Apply(w, ops[0]), ops[1..])
  }

  // ---------- What every step keeps ----------

  ghost predicate Sane(w: Whole) { Recoverable(w.engine) && W.Cataloged(w.predictor) }

  lemma FreshSane()
    ensures Sane(FRESH_WHOLE)
  {
    L.EmptySound();
  }

  /** Only a new snapshot changes the capacity, and only an installation the history. */
  lemma ApplyConfigures(e: Engine, op: EngineRuns.Op)
    ensures var f := EngineRuns.Apply(e, op);
            && (!op.OpSetSnapshot? ==>
                  f.ledger.total == e.ledger.total && f.snapshot == e.snapshot && f.hasSnapshot == e.hasSnapshot)
            && (!op.OpInstall? ==> f.history == e.history)
            && (op.OpInstall? ==> f.history == P.Install(e.history, op.p).0)
  {
    hide WellFormed, Duplicate, P.Effective, P.Install, Stopped, Risky, FitsIn, AddFits, Emit, Transition, MarkReleased;
  }

  lemma Snapshotted(e: Engine, s: Snapshot)
    ensures Configured(EngineRuns.Apply(e, EngineRuns.OpSetSnapshot(s)))
  {
  }

  lemma ApplyRecoverable(e: Engine, op: EngineRuns.Op)
    requires Recoverable(e)
    ensures Recoverable(EngineRuns.Apply(e, op))
  {
    hide L.Sound, P.WellFiled, P.Install, EngineRuns.Apply;
    EngineRuns.ApplySound(e, op);
    ApplyConfigures(e, op);
    if op.OpSetSnapshot? { Snapshotted(e, op.s); }
    if op.OpInstall? { P.InstallFiled(e.history, op.p); }
  }

  lemma RecoveredRecoverable(e: Engine)
    requires Recoverable(e)
    ensures Recoverable(Recovered(e))
  {
    hide L.Sound, P.WellFiled, P.Returned;
    P.ReturnedFiled(e.history);
    EngineRuns.UnderSound(e.ledger, Recovered(e).ledger);
  }

  lemma SameProfilesCataloged(p: W.Predictor, q: W.Predictor)
    requires W.Cataloged(p) && SameProfiles(p.profiles, q.profiles)
    ensures W.Cataloged(q)
  {
    hide Profiles.Key;
    assert |q.profiles| == |q.profiles.Keys| == |p.profiles.Keys| == |p.profiles|;
  }

  lemma ApplySane(w: Whole, op: Op)
    requires Sane(w)
    ensures Sane(Apply(w, op))
  {
    hide Recoverable, Recovered, W.Cataloged, EngineRuns.Apply, W.Register, W.Observe, FitImage, Restore, Save, AllLive;
    match op
    case OpEngine(e) => ApplyRecoverable(w.engine, e);
    case OpPredictor(p) =>
      if p.OpRegister? {
        W.RegisterKeeps(w.predictor, p.profile);
      } else {
        W.ObserveKeepsProfiles(w.predictor, p.o);
      }
    case OpRestart =>
      if FitImage(ImageOf(w)) {
        RestoreOfSave(w);
        RecoveredRecoverable(w.engine);
        var r := Restore(FRESH_WHOLE, Save(w));
        if r.Got? { SameProfilesCataloged(w.predictor, r.value.predictor); }
      }
  }

  lemma {:induction false} RunSane(w: Whole, ops: seq<Op>)
    requires Sane(w)
    ensures Sane(Run(w, ops))
    decreases |ops|
  {
    hide Sane, Apply;
    if ops != [] {
      ApplySane(w, ops[0]);
      RunSane(Apply(w, ops[0]), ops[1..]);
    }
  }

  /** Save and restore, for everything that runs of the engine and of its predictor can reach, restarts
      included. */
  lemma ReachableRestores(ops: seq<Op>, w: Whole)
    requires w == Run(FRESH_WHOLE, ops) && FitImage(ImageOf(w))
    ensures var r := Restore(FRESH_WHOLE, Save(w));
            && (r.Got? <==> AllLive(w.engine.ledger.table))
            && (r.Got? ==>
                  && r.rest == [] && r.value.engine == Recovered(w.engine)
                  && SameProfiles(w.predictor.profiles, r.value.predictor.profiles) &&
                    r.value.predictor.learned == map[])
  {
    hide Run, Recoverable, W.Cataloged, FitImage, ImageOf, Restore, Save, AllLive, Recovered, SameProfiles;
    FreshSane();
    RunSane(FRESH_WHOLE, ops);
    RestoreOfSave(w);
  }

  /** A restart never breaks the link between requests and reservations. */
  lemma RestartLinks(w: Whole)
    requires Sane(w) && EngineRuns.Linked(w.engine)
    ensures EngineRuns.Linked(Restarted(w).engine) && Restarted(w).engine.requests == w.engine.requests
  {
    hide EngineRuns.Linked, Recoverable, W.Cataloged, FitImage, ImageOf, Restore, Save, AllLive, P.Returned;
    if FitImage(ImageOf(w)) {
      RestoreOfSave(w);
      EngineRuns.ConfigurationLinks(w.engine, Recovered(w.engine));
    }
  }

  /** No request id is evaluated twice, before or after a restart. */
  predicate EvaluatedOnce(ops: seq<Op>) {
    forall i, j :: 0 <= i < j < |ops| && Evaluates(ops[i]) && Evaluates(ops[j]) ==>
      ops[i].engine.q.d.admissionRequestId != ops[j].engine.q.d.admissionRequestId
  }

  predicate Evaluates(op: Op) { op.OpEngine? && op.engine.OpEvaluate? }

  predicate FirstSeen(rs: Requests, ops: seq<Op>) {
    forall i :: 0 <= i < |ops| && Evaluates(ops[i]) ==> ops[i].engine.q.d.admissionRequestId !in rs
  }

  lemma ApplyLinks(w: Whole, op: Op)
    requires Sane(w) && EngineRuns.Linked(w.engine) && FirstSeen(w.engine.requests, [op])
    ensures EngineRuns.Linked(Apply(w, op).engine)
    ensures Apply(w, op).engine.requests.Keys ==
              w.engine.requests.Keys + (if Evaluates(op) then {op.engine.q.d.admissionRequestId} else {})
  {
    hide EngineRuns.Linked, Sane, Restarted, EngineRuns.Apply;
    match op
    case OpEngine(e) =>
      assert Evaluates([op][0]) ==> e.q.d.admissionRequestId !in w.engine.requests;
      EngineRuns.ApplyLinks(w.engine, e);
      EngineRuns.ApplyRequests(w.engine, e);
    case OpPredictor(p) =>
    case OpRestart => RestartLinks(w);
  }

  lemma {:induction false} OnceLinkedFrom(w: Whole, ops: seq<Op>)
    requires Sane(w) && EngineRuns.Linked(w.engine) && EvaluatedOnce(ops) && FirstSeen(w.engine.requests, ops)
    ensures EngineRuns.Linked(Run(w, ops).engine)
    decreases |ops|
  {
    hide Sane, EngineRuns.Linked, Apply, Evaluates;
    if ops != [] {
      ApplySane(w, ops[0]);
      ApplyLinks(w, ops[0]);
      OnceLinkedFrom(Apply(w, ops[0]), ops[1..]);
    }
  }

  /** Over every run, restarts included, in which each request id is evaluated at most once, requests and
      reservations stay linked. */
  lemma OnceLinked(ops: seq<Op>)
    requires EvaluatedOnce(ops)
    ensures EngineRuns.Linked(Run(FRESH_WHOLE, ops).engine)
  {
    hide Sane, EngineRuns.Linked, Run, EvaluatedOnce;
    FreshSane();
    EngineRuns.StartLinked();
    OnceLinkedFrom(FRESH_WHOLE, ops);
  }

  /** Over every run, restarts included: a restart leaves the policy in force as it is if and only if no
      retained generation is larger than the latest one. */
  lemma RestartKeepsPolicyExactly(ops: seq<Op>, w: Whole)
    requires w == Run(FRESH_WHOLE, ops) && FitImage(ImageOf(w)) && AllLive(w.engine.ledger.table)
    ensures var h := w.engine.history;
            P.Latest(Restarted(w).engine.history) == P.Latest(h) <==> forall g | g in h.policies :: g <= h.latest
  {
    hide Run, W.Cataloged, FitImage, ImageOf, Restore, Save, AllLive, P.WellFiled, P.Returned, L.Sound;
    FreshSane();
    RunSane(FRESH_WHOLE, ops);
    RestoreOfSave(w);
    P.LatestReturnsExactly(w.engine.history);
  }

  /** Releasing a known reservation, which never fails, leaves a state that can be saved but not read
      back. */
  lemma ReleaseBlocksRecovery(w: Whole, id: u64)
    requires Sane(w) && id in w.engine.ledger.table
    requires FitImage(ImageOf(w.(engine := ReleaseReservation(w.engine, id).0)))
    ensures ReleaseReservation(w.engine, id).1 == Success
    ensures Restore(FRESH_WHOLE, Save(w.(engine := ReleaseReservation(w.engine, id).0))).Fail?
  {
    hide L.Release, Save, Restore, W.Cataloged, FitImage, ImageOf, P.WellFiled, L.Sound, MarkReleased;
    var op := EngineRuns.OpRelease(id);
    EngineRuns.OneEntry(w.engine.ledger, id, 0, 0, 0);
    EngineRuns.ApplySound(w.engine, op);
    ApplyConfigures(w.engine, op);
    RestoreOfSave(w.(engine := ReleaseReservation(w.engine, id).0));
  }

  // ---------- Two restarts ----------

  /** Nothing but policies, all of which fit. */
  ghost predicate PoliciesOnly(w: Whole) {
    && Sane(w)
    && w.engine.ledger.table == map[] && w.engine.requests == map[] && w.engine.quota == DEFAULT_QUOTA &&
      !w.engine.hasSnapshot
    && w.predictor.profiles == map[]
    && forall g | g in w.engine.history.policies :: C.FitPolicy(w.engine.history.policies[g])
  }

  lemma PoliciesOnlyFit(w: Whole)
    requires PoliciesOnly(w)
    ensures FitImage(ImageOf(w)) && AllLive(w.engine.ledger.table)
  {
    hide C.FitPolicy, FitPolicies, FitProfiles, FitRows, FitEntries, C.FitQuota, P.WellFiled, L.Sound, W.Cataloged;
    PoliciesFit(w.engine.history);
    assert Values(w.engine.ledger.table) == [] && Entries(w.engine.requests) == [] &&
      CatalogRows(w.predictor.profiles) == [];
    NothingFits();
  }

  lemma PoliciesFit(h: P.History)
    requires P.WellFiled(h) && forall g | g in h.policies :: C.FitPolicy(h.policies[g])
    ensures FitPolicies(Values(h.policies))
  {
    hide C.FitPolicy, P.ValidPolicy, Values;
    assert |h.policies| == |h.policies.Keys|;
  }

  lemma NothingFits()
    ensures FitProfiles([]) && FitRows([]) && FitEntries([]) && C.FitQuota(DEFAULT_QUOTA)
  {
    DefaultQuotaFits();
  }

  lemma DefaultQuotaFits()
    ensures C.FitQuota(DEFAULT_QUOTA)
  {
  }

  lemma PoliciesOnlyRestarts(w: Whole)
    requires PoliciesOnly(w)
    ensures PoliciesOnly(Restarted(w)) && Restarted(w).engine.history == P.Returned(w.engine.history)
  {
    hide C.FitPolicy, FitImage, ImageOf, Restore, Save, AllLive, Sane, W.Cataloged;
    PoliciesOnlyFit(w);
    SaneMeans(w);
    RestoreOfSave(w);
    ApplySane(w, OpRestart);
  }

  lemma SaneMeans(w: Whole)
    requires Sane(w)
    ensures Recoverable(w.engine) && W.Cataloged(w.predictor)
    ensures P.WellFiled(w.engine.history) && L.Sound(w.engine.ledger)
  {
    hide P.WellFiled, W.Cataloged, L.Sound;
  }

  lemma PoliciesOnlyInstalls(w: Whole, p: Policy)
    requires PoliciesOnly(w) && C.FitPolicy(p)
    ensures var v := Apply(w, OpEngine(EngineRuns.OpInstall(p)));
            PoliciesOnly(v) && v.engine.history == P.Install(w.engine.history, p).0
  {
    hide P.ValidPolicy, Sane;
    ApplySane(w, OpEngine(EngineRuns.OpInstall(p)));
    GenerationFits(p, w.engine.history.counter);
    hide C.FitPolicy;
  }

  lemma GenerationFits(p: Policy, g: u64)
    requires C.FitPolicy(p)
    ensures C.FitPolicy(p.(generation := g))
  {
  }

  lemma FreshIsBare()
    ensures PoliciesOnly(FRESH_WHOLE)
  {
    FreshSane();
  }

  /** Two restarts revert an installation: two policies are installed, the process restarts, a third one
      is installed and is in force as generation one; after the next restart the second one is back. */
  lemma RestartsRevertPolicy(p: Policy, q: Policy, r: Policy, w: Whole)
    requires P.ValidPolicy(p) && P.ValidPolicy(q) && P.ValidPolicy(r) && C.FitPolicy(p) && C.FitPolicy(q) &&
             C.FitPolicy(r)
    requires w == Run(FRESH_WHOLE, [OpEngine(EngineRuns.OpInstall(p)), OpEngine(EngineRuns.OpInstall(q)), OpRestart,
                                    OpEngine(EngineRuns.OpInstall(r))])
    ensures P.Latest(w.engine.history) == Some(r.(generation := 1))
    ensures P.Latest(Apply(w, OpRestart).engine.history) == Some(q.(generation := 2))
  {
    hide P.ValidPolicy, C.FitPolicy, PoliciesOnly, Apply, Run, P.Install, P.Returned, P.Latest;
    var a := Apply(FRESH_WHOLE, OpEngine(EngineRuns.OpInstall(p)));
    var b := Apply(a, OpEngine(EngineRuns.OpInstall(q)));
    var c := Apply(b, OpRestart);
    RunFour(FRESH_WHOLE, OpEngine(EngineRuns.OpInstall(p)), OpEngine(EngineRuns.OpInstall(q)), OpRestart,
            OpEngine(EngineRuns.OpInstall(r)));
    FreshIsBare();
    PoliciesOnlyInstalls(FRESH_WHOLE, p);
    PoliciesOnlyInstalls(a, q);
    RestartStep(b);
    PoliciesOnlyInstalls(c, r);
    RestartStep(w);
    P.RecoveriesRevert(p, q, r);
  }

  lemma RestartStep(w: Whole)
    requires PoliciesOnly(w)
    ensures PoliciesOnly(Apply(w, OpRestart)) && Apply(w, OpRestart).engine.history == P.Returned(w.engine.history)
  {
    hide PoliciesOnly, Restarted, P.Returned;
    PoliciesOnlyRestarts(w);
  }

  lemma RunFour(w: Whole, a: Op, b: Op, c: Op, d: Op)
    ensures Run(w, [a, b, c, d]) == Apply(Apply(Apply(Apply(w, a), b), c), d)
  {
    hide Apply;
    var x, y, z := Apply(w, a), Apply(Apply(w, a), b), Apply(Apply(Apply(w, a), b), c);
    assert [a, b, c, d][1..] == [b, c, d] && [b, c, d][1..] == [c, d] && [c, d][1..] == [d] && [d][1..] == [];
    assert Run(z, [d]) == Apply(z, d);
    assert Run(y, [c, d]) == Run(z, [d]);
    assert Run(x, [b, c, d]) == Run(y, [c, d]);
  }
}
