/** The saved state as it is written and read (`save_state` and `restore_state` of engine.cpp), and the
    checksummed file around it (persistence.cpp). */
module StateStore {
  import opened Words
  import opened Ordering
  import opened Resources
  import opened Records
  import opened Grammar
  import opened Fields
  import opened Codec
  import opened Wire
  import opened Coders
  import opened Engine
  import opened Persistence
  import opened Recovery
  import Frame
  import A = AdmissionFabric
  import M = ReservationManager
  import L = Ledger
  import P = Policies
  import Profiles
  import W = Predictor

  // ---------- The file ----------

  /** `apply_payload`: the frame is checked, the state is restored, and no byte may trail it. */
  ghost function Load(w: Whole, file: bytes, magic: u32, version: u32): Option<Whole> {
    var f := Frame.ParseFrame(file, magic, version);
    if !f.Payload? then None
    else
      var r := Restore(w, f.payload);
      if r.Got? && r.rest == [] then Some(r.value) else None
  }

  /** A file loads, as `x`, exactly if it is the frame of a payload that is a saved state up to its last byte and
      is rebuilt to `x`. */
  lemma LoadExactly(w: Whole, file: bytes, magic: u32, version: u32, x: Whole)
    ensures Load(w, file, magic, version) == Some(x) <==>
              exists s: bytes :: file == Frame.Framed(magic, version, s) && |s| <= U32_MAX &&
                Restore(w, s) == Got(x, [])
  {
    hide Frame.Framed, Frame.ParseFrame, Restore;
    var f := Frame.ParseFrame(file, magic, version);
    if f.Payload? { Frame.AcceptsExactlyFrames(file, magic, version, f.payload); }
    forall s: bytes | file == Frame.Framed(magic, version, s) && |s| <= U32_MAX ensures f == Frame.Payload(s) {
      Frame.AcceptsExactlyFrames(file, magic, version, s);
    }
  }

  /** The file that `build_payload` makes loads into a fresh engine exactly if no reservation is closed. */
  lemma FileLoads(w: Whole, magic: u32, version: u32)
    requires Recoverable(w.engine) && W.Cataloged(w.predictor) && FitImage(ImageOf(w)) && |Save(w)| <= U32_MAX
    ensures var r := Load(FRESH_WHOLE, Frame.Framed(magic, version, Save(w)), magic, version);
            && (r.Some? <==> AllLive(w.engine.ledger.table))
            && (r.Some? ==>
                  && r.value.engine == Recovered(w.engine)
                  && SameProfiles(w.predictor.profiles, r.value.predictor.profiles) &&
                    r.value.predictor.learned == map[])
  {
    hide SameProfiles, Recoverable, W.Cataloged, FitImage, ImageOf, Save, Restore, Frame.ParseFrame, Frame.Framed,
      AllLive;
    RestoreOfSave(w);
    Frame.AcceptsExactlyFrames(Frame.Framed(magic, version, Save(w)), magic, version, Save(w));
  }

  /** A file that was damaged within four consecutive bytes is never loaded, into whatever engine. */
  lemma DamagedFileRefused(w: Whole, target: Whole, magic: u32, version: u32, damaged: bytes, i: nat)
    requires damaged != Frame.Framed(magic, version, Save(w))
    requires Frame.DifferInWindow(Frame.Framed(magic, version, Save(w)), damaged, i)
    ensures Load(target, damaged, magic, version).None?
  {
    hide Frame.Framed, Frame.ParseFrame, Frame.DifferInWindow, Restore;
    Frame.BurstRejected(magic, version, Save(w), damaged, i);
  }

  // ---------- Writing ----------

  method EncodeEntry(w: ByteWriter, x: Entry)
    modifies w
    ensures forall k: bytes :: w.buf + k == old(w.buf) + PutEntry(x, k)
  {
    hide PutU64, PutU8, PutFlag, PutDescriptor, PutDecision;
    w.U64(x.id);
    w.U8(LifecycleCode(x.request.lifecycle));
    EncodeDescriptor(w, x.request.descriptor);
    w.Flag(x.request.decision.Some?);
    if x.request.decision.Some? { EncodeDecision(w, x.request.decision.value); }
  }

  method EncodePolicies(w: ByteWriter, xs: seq<Policy>)
    modifies w
    ensures forall k: bytes :: w.buf + k == old(w.buf) + PutPolicies(xs, k)
  {
    hide PutU32, PutPolicy;
    ghost var start := w.buf;
    w.U32(|xs| % (U32_MAX + 1));
    for i := 0 to |xs|
      invariant forall k: bytes :: w.buf + PutEach(PutPolicy, xs[i..], k) == start + PutList(PutPolicy, xs, k)
    {
      ghost var before := w.buf;
      EncodePolicy(w, xs[i]);
      forall k: bytes ensures w.buf + PutEach(PutPolicy, xs[i + 1..], k) == start + PutList(PutPolicy, xs, k) {
        assert xs[i..][1..] == xs[i + 1..];
        assert PutEach(PutPolicy, xs[i..], k) == PutPolicy(xs[i], PutEach(PutPolicy, xs[i + 1..], k));
        assert before + PutEach(PutPolicy, xs[i..], k) == start + PutList(PutPolicy, xs, k);
      }
    }
    assert xs[|xs|..] == [];
    forall k: bytes ensures w.buf + k == start + PutPolicies(xs, k) {
      assert w.buf + PutEach(PutPolicy, xs[|xs|..], k) == start + PutList(PutPolicy, xs, k);
    }
  }

  method EncodeProfiles(w: ByteWriter, xs: seq<Profile>)
    modifies w
    ensures forall k: bytes :: w.buf + k == old(w.buf) + PutProfiles(xs, k)
  {
    hide PutU32, PutProfile;
    ghost var start := w.buf;
    w.U32(|xs| % (U32_MAX + 1));
    for i := 0 to |xs|
      invariant forall k: bytes :: w.buf + PutEach(PutProfile, xs[i..], k) == start + PutList(PutProfile, xs, k)
    {
      ghost var before := w.buf;
      EncodeProfile(w, xs[i]);
      forall k: bytes ensures w.buf + PutEach(PutProfile, xs[i + 1..], k) == start + PutList(PutProfile, xs, k) {
        assert xs[i..][1..] == xs[i + 1..];
        assert PutEach(PutProfile, xs[i..], k) == PutProfile(xs[i], PutEach(PutProfile, xs[i + 1..], k));
        assert before + PutEach(PutProfile, xs[i..], k) == start + PutList(PutProfile, xs, k);
      }
    }
    assert xs[|xs|..] == [];
    forall k: bytes ensures w.buf + k == start + PutProfiles(xs, k) {
      assert w.buf + PutEach(PutProfile, xs[|xs|..], k) == start + PutList(PutProfile, xs, k);
    }
  }

  method EncodeRows(w: ByteWriter, xs: seq<Reservation>)
    modifies w
    ensures forall k: bytes :: w.buf + k == old(w.buf) + PutRows(xs, k)
  {
    hide PutU32, PutReservation;
    ghost var start := w.buf;
    w.U32(|xs| % (U32_MAX + 1));
    for i := 0 to |xs|
      invariant forall k: bytes :: w.buf + PutEach(PutReservation, xs[i..], k) == start + PutList(PutReservation, xs, k)
    {
      ghost var before := w.buf;
      EncodeReservation(w, xs[i]);
      forall k: bytes
        ensures w.buf + PutEach(PutReservation, xs[i + 1..], k) == start + PutList(PutReservation, xs, k)
      {
        assert xs[i..][1..] == xs[i + 1..];
        assert PutEach(PutReservation, xs[i..], k) == PutReservation(xs[i], PutEach(PutReservation, xs[i + 1..], k));
        assert before + PutEach(PutReservation, xs[i..], k) == start + PutList(PutReservation, xs, k);
      }
    }
    assert xs[|xs|..] == [];
    forall k: bytes ensures w.buf + k == start + PutRows(xs, k) {
      assert w.buf + PutEach(PutReservation, xs[|xs|..], k) == start + PutList(PutReservation, xs, k);
    }
  }

  method EncodeEntries(w: ByteWriter, xs: seq<Entry>)
    modifies w
    ensures forall k: bytes :: w.buf + k == old(w.buf) + PutEntries(xs, k)
  {
    hide PutU32, PutEntry;
    ghost var start := w.buf;
    w.U32(|xs| % (U32_MAX + 1));
    for i := 0 to |xs|
      invariant forall k: bytes :: w.buf + PutEach(PutEntry, xs[i..], k) == start + PutList(PutEntry, xs, k)
    {
      ghost var before := w.buf;
      EncodeEntry(w, xs[i]);
      forall k: bytes ensures w.buf + PutEach(PutEntry, xs[i + 1..], k) == start + PutList(PutEntry, xs, k) {
        assert xs[i..][1..] == xs[i + 1..];
        assert PutEach(PutEntry, xs[i..], k) == PutEntry(xs[i], PutEach(PutEntry, xs[i + 1..], k));
        assert before + PutEach(PutEntry, xs[i..], k) == start + PutList(PutEntry, xs, k);
      }
    }
    assert xs[|xs|..] == [];
    forall k: bytes ensures w.buf + k == start + PutEntries(xs, k) {
      assert w.buf + PutEach(PutEntry, xs[|xs|..], k) == start + PutList(PutEntry, xs, k);
    }
  }

  method EncodeTables(w: ByteWriter, x: Tables)
    modifies w
    ensures forall k: bytes :: w.buf + k == old(w.buf) + PutTables(x, k)
  {
    hide PutPolicies, PutProfiles, PutRows, PutVec, PutU8;
    EncodePolicies(w, x.policies);
    EncodeProfiles(w, x.profiles);
    EncodeRows(w, x.rows);
    EncodeVec(w, x.reserved);
    EncodeVec(w, x.used);
    w.U8(x.mode);
    EncodeVec(w, x.allowance);
  }

  method EncodeTail(w: ByteWriter, x: Tail)
    modifies w
    ensures forall k: bytes :: w.buf + k == old(w.buf) + PutTail(x, k)
  {
    hide PutEntries, PutU64, PutFlag, PutQuota, PutSnapshot;
    EncodeEntries(w, x.entries);
    EncodeQuota(w, x.quota);
    w.U64(x.admissionGeneration);
    w.U64(x.reservationCounter);
    w.Flag(x.snapshot.Some?);
    if x.snapshot.Some? { EncodeSnapshot(w, x.snapshot.value); }
  }

  /** `save_state`: the maps are listed in key order. */
  method SaveState(f: A.Fabric, p: W.WorkloadPredictor, w: ByteWriter)
    modifies w
    ensures w.buf == old(w.buf) + Save(Whole(f.State(), p.State()))
  {
    hide ImageOf, PutTables, PutTail;
    var x := ImageOf(Whole(f.State(), p.State()));
    EncodeTables(w, x.tables);
    EncodeTail(w, x.tail);
    assert w.buf == w.buf + [];
  }

  // ---------- Reading ----------

  /** The reader stands behind what `p` consumed, or has failed where `p` does. */
  ghost predicate Standing<T>(r: ByteReader, p: Parse<T>)
    requires r.Valid()
    reads r
  {
    if p.Fail? then r.failed else !r.failed && r.Rest() == p.rest
  }

  lemma {:induction false} InstallPrefix(h: P.History, ps: seq<Policy>, more: seq<Policy>)
    requires InstallEach(h, ps).None?
    ensures InstallEach(h, ps + more).None?
    decreases |more|
  {
    hide P.ValidPolicy;
    if more == [] {
      assert ps + more == ps;
    } else {
      var n := |more| - 1;
      InstallPrefix(h, ps, more[..n]);
      assert (ps + more)[..|ps + more| - 1] == ps + more[..n];
    }
  }

  lemma InstallNext(h: P.History, ps: seq<Policy>, p: Policy)
    ensures (ps + [p])[..|ps + [p]| - 1] == ps
    ensures InstallEach(h, ps + [p]) ==
              if InstallEach(h, ps).None? || P.InstallAt(InstallEach(h, ps).value, p, p.generation).1 != P.Ok then None
              else Some(P.InstallAt(InstallEach(h, ps).value, p, p.generation).0)
  {
    hide P.InstallAt;
    assert (ps + [p])[..|ps + [p]| - 1] == ps;
  }

  /** A policy that cannot be installed spoils the whole list. */
  lemma InstallStops(h: P.History, out: seq<Policy>, p: Policy, n: nat, s: bytes)
    requires InstallEach(h, out + [p]).None?
    ensures var goal := Prefixed(out + [p], GetEach(GetPolicy, n, s)); goal.Got? ==> InstallEach(h, goal.value).None?
  {
    hide GetPolicy, InstallEach;
    var rest := GetEach(GetPolicy, n, s);
    if rest.Got? { InstallPrefix(h, out + [p], rest.value); }
  }

  method RestorePolicies(f: A.Fabric, r: ByteReader) returns (ok: bool)
    requires r.Valid()
    modifies f.policies, r
    ensures r.Valid()
    ensures var p := Lift(old(r.failed), GetPolicies(old(r.Rest()))); var h := old(f.policies.State());
            if ok then Standing(r, p) && (p.Got? ==> InstallEach(h, p.value) == Some(f.policies.State()))
            else p.Fail? || InstallEach(h, p.value).None?
  {
    hide GetU32, GetPolicy, P.ValidPolicy, P.InstallAt, InstallEach;
    ghost var h := f.policies.State();
    var n := r.U32();
    if n > P.MAX_GENERATIONS { return false; }
    ghost var goal := Lift(r.failed, GetEach(GetPolicy, n, r.Rest()));
    ghost var out: seq<Policy> := [];
    NothingInstalled(h);
    assert goal.Got? ==> out + goal.value == goal.value;
    for i := 0 to n
      invariant r.Valid()
      invariant r.failed ==> i == 0 && goal.Fail?
      invariant !r.failed ==> goal == Prefixed(out, GetEach(GetPolicy, n - i, r.Rest()))
      invariant InstallEach(h, out) == Some(f.policies.State())
    {
      ghost var here := r.Rest();
      var p := DecodePolicy(r);
      PrefixStep(GetPolicy, out, n - i, here);
      if p.None? { return false; }
      InstallNext(h, out, p.value);
      var code := f.policies.InstallAtGeneration(p.value, p.value.generation);
      if code != P.Ok {
        InstallStops(h, out, p.value, n - i - 1, r.Rest());
        return false;
      }
      out := out + [p.value];
    }
    assert out + [] == out;
    ok := true;
  }

  lemma NothingInstalled(h: P.History)
    ensures InstallEach(h, []) == Some(h)
  {
  }

  lemma RegisterNext(p: W.Predictor, ps: seq<Profile>, x: Profile)
    ensures RegisterEach(p, []) == p
    ensures RegisterEach(p, ps + [x]) == W.Register(RegisterEach(p, ps), x).0
  {
    hide W.Register;
    assert (ps + [x])[..|ps + [x]| - 1] == ps;
  }

  method RestoreProfiles(p: W.WorkloadPredictor, r: ByteReader) returns (ok: bool)
    requires r.Valid() && p.Valid()
    modifies p, r
    ensures r.Valid() && p.Valid()
    ensures var q := Lift(old(r.failed), GetProfiles(old(r.Rest())));
            if ok then Standing(r, q) && (q.Got? ==> RegisterEach(old(p.State()), q.value) == p.State()) else q.Fail?
  {
    hide GetU32, GetProfile, W.Register, RegisterEach;
    ghost var start := p.State();
    var n := r.U32();
    if n > Profiles.MAX_PROFILES { return false; }
    ghost var goal := Lift(r.failed, GetEach(GetProfile, n, r.Rest()));
    ghost var out: seq<Profile> := [];
    RegisterNext(start, [], DEFAULT_PROFILE);
    assert goal.Got? ==> out + goal.value == goal.value;
    for i := 0 to n
      invariant r.Valid() && p.Valid()
      invariant r.failed ==> i == 0 && goal.Fail?
      invariant !r.failed ==> goal == Prefixed(out, GetEach(GetProfile, n - i, r.Rest()))
      invariant RegisterEach(start, out) == p.State()
    {
      ghost var here := r.Rest();
      var x := DecodeProfile(r);
      PrefixStep(GetProfile, out, n - i, here);
      if x.None? { return false; }
      RegisterNext(start, out, x.value);
      var ignored := p.RegisterProfile(x.value);
      out := out + [x.value];
    }
    assert out + [] == out;
    ok := true;
  }

  method DecodeRows(r: ByteReader) returns (rows: Option<seq<Reservation>>)
    requires r.Valid()
    modifies r
    ensures r.Valid()
    ensures var p := Lift(old(r.failed), GetRows(old(r.Rest())));
            if rows.Some? then Standing(r, p) && (p.Got? ==> rows.value == p.value) else p.Fail?
  {
    hide GetU32, GetReservation;
    var n := r.U32();
    if n > MAX_COUNT { return None; }
    ghost var goal := Lift(r.failed, GetEach(GetReservation, n, r.Rest()));
    var out: seq<Reservation> := [];
    assert goal.Got? ==> out + goal.value == goal.value;
    for i := 0 to n
      invariant r.Valid()
      invariant r.failed ==> i == 0 && goal.Fail?
      invariant !r.failed ==> goal == Prefixed(out, GetEach(GetReservation, n - i, r.Rest()))
    {
      ghost var here := r.Rest();
      var x := DecodeReservation(r);
      PrefixStep(GetReservation, out, n - i, here);
      if x.None? { return None; }
      out := out + [x.value];
    }
    assert out + [] == out;
    rows := Some(out);
  }

  /** One request. A failure of the last flag is noticed only by what is read next. */
  method DecodeEntry(r: ByteReader) returns (x: Option<Entry>)
    requires r.Valid()
    modifies r
    ensures r.Valid()
    ensures var p := Lift(old(r.failed), GetEntry(old(r.Rest())));
            if x.Some? then Standing(r, p) && (p.Got? ==> x.value == p.value) else p.Fail?
  {
    hide GetU64, GetU8, GetFlag, GetDescriptor, GetDecision;
    var id := r.U64();
    var lifecycle := r.U8();
    if lifecycle > 9 { return None; }
    var descriptor := DecodeDescriptor(r);
    if descriptor.None? { return None; }
    var decided := r.Flag();
    var decision: Option<Decision> := None;
    if decided {
      decision := DecodeDecision(r);
      if decision.None? { return None; }
    }
    x := Some(Entry(id, Request(LifecycleOf(lifecycle).value, descriptor.value, decision)));
  }

  lemma EntryNext(es: seq<Entry>, x: Entry)
    ensures RequestsOf([]) == map[] && RequestsOf(es + [x]) == RequestsOf(es)[x.id := x.request]
    ensures DistinctEntries(es) ==> (DistinctEntries(es + [x]) <==> x.id !in RequestsOf(es))
  {
    assert (es + [x])[..|es + [x]| - 1] == es;
    EntryIds(es);
    if DistinctEntries(es) && x.id in RequestsOf(es) {
      var i :| 0 <= i < |es| && es[i].id == x.id;
      assert (es + [x])[i].id == (es + [x])[|es|].id;
    }
  }

  lemma {:induction false} EntryIds(es: seq<Entry>)
    ensures forall id :: id in RequestsOf(es) <==> exists i :: 0 <= i < |es| && es[i].id == id
  {
    if es != [] {
      var n := |es| - 1;
      EntryIds(es[..n]);
      forall id ensures id in RequestsOf(es) <==> exists i :: 0 <= i < |es| && es[i].id == id {
        if i :| 0 <= i < n && es[i].id == id { assert es[..n][i].id == id; }
        if i :| 0 <= i < n && es[..n][i].id == id { assert es[i].id == id; }
        if es[n].id == id { assert 0 <= n < |es| && es[n].id == id; }
      }
    }
  }

  lemma DuplicateStops(out: seq<Entry>, x: Entry, n: nat, s: bytes)
    requires !DistinctEntries(out + [x])
    ensures var goal := Prefixed(out + [x], GetEach(GetEntry, n, s)); goal.Got? ==> !DistinctEntries(goal.value)
  {
    hide GetEntry;
    var rest := GetEach(GetEntry, n, s);
    if rest.Got? {
      var all := out + [x] + rest.value;
      var i, j :| 0 <= i < j < |out + [x]| && (out + [x])[i].id == (out + [x])[j].id;
      assert all[i].id == all[j].id;
    }
  }

  method RestoreRequests(f: A.Fabric, r: ByteReader) returns (ok: bool)
    requires r.Valid() && f.requests == map[]
    modifies f`requests, r
    ensures r.Valid()
    ensures var p := Lift(old(r.failed), GetEntries(old(r.Rest())));
            if ok then Standing(r, p) && (p.Got? ==> DistinctEntries(p.value) && f.requests == RequestsOf(p.value))
            else p.Fail? || !DistinctEntries(p.value)
  {
    hide GetU32, GetEntry, RequestsOf, DistinctEntries;
    var n := r.U32();
    if n > MAX_COUNT { return false; }
    ghost var goal := Lift(r.failed, GetEach(GetEntry, n, r.Rest()));
    ghost var out: seq<Entry> := [];
    NoEntries();
    assert goal.Got? ==> out + goal.value == goal.value;
    for i := 0 to n
      invariant r.Valid()
      invariant r.failed ==> goal.Fail?
      invariant !r.failed ==> goal == Prefixed(out, GetEach(GetEntry, n - i, r.Rest()))
      invariant !r.failed ==> DistinctEntries(out) && f.requests == RequestsOf(out)
    {
      ghost var here := r.Rest();
      var x := DecodeEntry(r);
      PrefixStep(GetEntry, out, n - i, here);
      if x.None? { return false; }
      EntryNext(out, x.value);
      if x.value.id in f.requests {
        if !r.failed { DuplicateStops(out, x.value, n - i - 1, r.Rest()); }
        return false;
      }
      f.requests := f.requests[x.value.id := x.value.request];
      out := out + [x.value];
    }
    assert out + [] == out;
    ok := true;
  }

  lemma NoEntries()
    ensures DistinctEntries([]) && RequestsOf([]) == map[]
  {
  }

  method RestoreTables(f: A.Fabric, p: W.WorkloadPredictor, r: ByteReader) returns (ok: bool)
    requires r.Valid() && p.Valid()
    modifies f`requests, f.policies, f.reservations, p, r
    ensures r.Valid() && p.Valid()
    ensures var t := Lift(old(r.failed), GetTables(old(r.Rest()))); var w := old(Whole(f.State(), p.State()));
            if ok then f.requests == map[] && t.Got? && Standing(r, t) &&
              BuildTables(w, t.value) == Some(Whole(f.State(), p.State()))
            else t.Fail? || BuildTables(w, t.value).None?
  {
    hide GetPolicies, GetProfiles, GetRows, GetVec, GetU8, InstallEach, RegisterEach, M.Restorable, M.TableOf;
    f.requests := map[];
    var installed := RestorePolicies(f, r);
    if !installed { return false; }
    var registered := RestoreProfiles(p, r);
    if !registered { return false; }
    var rows := DecodeRows(r);
    if rows.None? { return false; }
    var reserved := DecodeVec(r);
    if reserved.None? { return false; }
    var used := DecodeVec(r);
    if used.None? { return false; }
    var mode := r.U8();
    var allowance := DecodeVec(r);
    if allowance.None? { return false; }
    var code := f.reservations.Restore(rows.value, reserved.value, used.value);
    if code != L.Ok { return false; }
    f.reservations.SetOvercommit(mode, allowance.value);
    ok := true;
  }

  method RestoreTail(f: A.Fabric, r: ByteReader) returns (ok: bool)
    requires r.Valid() && f.requests == map[]
    modifies f, f.reservations, r
    ensures r.Valid()
    ensures var t := Lift(old(r.failed), GetTail(old(r.Rest()))); var e := old(f.State());
            ok == (t.Got? && BuildTail(e, t.value).Some?) &&
              (ok ==> Standing(r, t) && BuildTail(e, t.value) == Some(f.State()))
  {
    hide GetEntries, GetU64, GetFlag, GetQuota, GetSnapshot, DistinctEntries, RequestsOf, Under;
    var listed := RestoreRequests(f, r);
    if !listed { return false; }
    var quota := DecodeQuota(r);
    if quota.None? { return false; }
    f.quota := quota.value;
    f.admissionGeneration := r.U64();
    f.reservationCounter := r.U64();
    f.hasSnapshot := r.Flag();
    if f.hasSnapshot {
      var snapshot := DecodeSnapshot(r);
      if snapshot.None? { return false; }
      f.SetSnapshot(snapshot.value);
    }
    if f.policies.latest in f.policies.policies { f.Bind(f.policies.policies[f.policies.latest]); }
    ok := !r.failed;
  }

  /** `restore_state`. A failure is noticed no later than the end; what was overwritten by then stays so. */
  method RestoreState(f: A.Fabric, p: W.WorkloadPredictor, r: ByteReader) returns (ok: bool)
    requires r.Valid() && p.Valid()
    modifies f, f.policies, f.reservations, p, r
    ensures r.Valid() && p.Valid()
    ensures var result := Lift(old(r.failed), Restore(old(Whole(f.State(), p.State())), old(r.Rest())));
            ok == result.Got? && (ok ==> Whole(f.State(), p.State()) == result.value && r.Rest() == result.rest)
  {
    hide GetTables, GetTail, BuildTables, BuildTail;
    ok := RestoreTables(f, p, r);
    if ok {
      ok := RestoreTail(f, r);
    }
  }

  /** `build_payload`. */
  method BuildPayload(f: A.Fabric, p: W.WorkloadPredictor, magic: u32, version: u32) returns (file: bytes)
    ensures file == Frame.Framed(magic, version, Save(Whole(f.State(), p.State())))
  {
    hide Save, Frame.Framed;
    var w := new ByteWriter();
    SaveState(f, p, w);
    assert w.buf == [] + Save(Whole(f.State(), p.State())) == Save(Whole(f.State(), p.State()));
    file := Frame.BuildFrame(magic, version, w.buf);
  }

  /** `apply_payload`. */
  method ApplyPayload(f: A.Fabric, p: W.WorkloadPredictor, file: bytes, magic: u32, version: u32) returns (ok: bool)
    requires p.Valid()
    modifies f, f.policies, f.reservations, p
    ensures p.Valid()
    ensures var result := Load(old(Whole(f.State(), p.State())), file, magic, version);
            ok == result.Some? && (ok ==> Whole(f.State(), p.State()) == result.value)
  {
    hide Restore, Frame.ParseFrame;
    var body := Frame.Parse(file, magic, version);
    if !body.Payload? { return false; }
    var r := new ByteReader(body.payload);
    ok := RestoreState(f, p, r);
    if ok && r.pos != |r.data| { ok := false; }
  }
}
