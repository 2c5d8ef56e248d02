/** Saving an engine and recovering it: the state that a fresh engine is in after reading what another
    one wrote, and exactly when it can read it. */
module Recovery {
  import opened Words
  import opened Ordering
  import opened Resources
  import opened Records
  import opened Grammar
  import opened Engine
  import opened ReservationManager
  import opened Persistence
  import EngineRuns
  import L = Ledger
  import P = Policies
  import Profiles
  import W = Predictor

  // ---------- What is saved ----------

  /** The values of a map in key order. */
  function Values<V>(m: map<u64, V>): (r: seq<V>)
    ensures var keys := SortedWords(m.Keys); |r| == |keys| && forall i :: 0 <= i < |r| ==> r[i] == m[keys[i]]
  {
    var keys := SortedWords(m.Keys);
    seq(|keys|, i requires 0 <= i < |keys| => m[keys[i]])
  }

  function CatalogRows(t: Profiles.Catalog): (r: seq<Profile>)
    ensures var keys := SortedTexts(t.Keys); |r| == |keys| && forall i :: 0 <= i < |r| ==> r[i] == t[keys[i]]
  {
    var keys := SortedTexts(t.Keys);
    seq(|keys|, i requires 0 <= i < |keys| => t[keys[i]])
  }

  function Entries(rs: Requests): (r: seq<Entry>)
    ensures var keys := SortedWords(rs.Keys); |r| == |keys| && forall i :: 0 <= i < |r| ==>
            r[i] == Entry(keys[i], rs[keys[i]])
  {
    var keys := SortedWords(rs.Keys);
    seq(|keys|, i requires 0 <= i < |keys| => Entry(keys[i], rs[keys[i]]))
  }

  function ImageOf(w: Whole): Image {
    var e := w.engine;
    Image(
      Tables(Values(e.history.policies), CatalogRows(w.predictor.profiles), Values(e.ledger.table), e.ledger.reserved,
             e.ledger.used, e.ledger.mode, e.ledger.allowance),
      Tail(Entries(e.requests), e.quota, e.admissionGeneration, e.reservationCounter,
           if e.hasSnapshot then Some(e.snapshot) else None))
  }

  /** The saved state of an engine. */
  function Save(w: Whole): bytes { PutImage(ImageOf(w), []) }

  // ---------- What is rebuilt ----------

  /** Every policy goes back under its own generation; the first that does not stops the recovery. */
  function InstallEach(h: P.History, ps: seq<Policy>): Option<P.History> {
    if ps == [] then Some(h)
    else
      var n := |ps| - 1;
      var front := InstallEach(h, ps[..n]);
      if front.None? then None
      else
        var r := P.InstallAt(front.value, ps[n], ps[n].generation);
        if r.1 == P.Ok then Some(r.0) else None
  }

  /** Every profile is registered; whether that succeeds is ignored. */
  function RegisterEach(p: W.Predictor, ps: seq<Profile>): W.Predictor {
    if ps == [] then p else W.Register(RegisterEach(p, ps[..|ps| - 1]), ps[|ps| - 1]).0
  }

  ghost predicate DistinctEntries(es: seq<Entry>) {
    forall i, j :: 0 <= i < j < |es| ==> es[i].id != es[j].id
  }

  function RequestsOf(es: seq<Entry>): Requests {
    if es == [] then map[] else RequestsOf(es[..|es| - 1])[es[|es| - 1].id := es[|es| - 1].request]
  }

  /** The ledger under the terms of the latest policy, if there is one. */
  function Rebound(l: L.Ledger, h: P.History): L.Ledger {
    var latest := P.Latest(h);
    if latest.Some? then Under(l, latest.value) else l
  }

  /** Policies, profiles and reservations are put back, unless one of them is refused. */
  ghost function BuildTables(w: Whole, x: Tables): Option<Whole> {
    var e := w.engine;
    var h := InstallEach(e.history, x.policies);
    if h.None? || !Restorable(x.rows, x.reserved, x.used) then None
    else
      var l := e.ledger.(table := TableOf(x.rows), reserved := x.reserved, used := x.used, mode := x.mode,
        allowance := x.allowance);
      Some(Whole(e.(history := h.value, ledger := l, requests := map[]), RegisterEach(w.predictor, x.profiles)))
  }

  /** Then requests, quota, counters and snapshot; and the ledger is bound to the latest policy. */
  ghost function BuildTail(e: Engine, x: Tail): Option<Engine> {
    if !DistinctEntries(x.entries) then None
    else
      var l := if x.snapshot.Some? then e.ledger.(total := x.snapshot.value.total) else e.ledger;
      Some(e.(
        ledger := Rebound(l, e.history), snapshot := if x.snapshot.Some? then x.snapshot.value else e.snapshot,
        hasSnapshot := x.snapshot.Some?, quota := x.quota, requests := RequestsOf(x.entries),
        admissionGeneration := x.admissionGeneration, reservationCounter := x.reservationCounter))
  }

  /** The engine that an image is rebuilt to, unless it is refused. */
  ghost function Rebuild(w: Whole, x: Image): Option<Whole> {
    var built := BuildTables(w, x.tables);
    if built.None? then None
    else
      var e := BuildTail(built.value.engine, x.tail);
      if e.None? then None else Some(built.value.(engine := e.value))
  }

  /** `restore_state` on a buffer: the rebuilt engine and the bytes left over. */
  ghost function Restore(w: Whole, s: bytes): Parse<Whole> {
    var p := GetImage(s);
    if p.Fail? then Fail
    else
      var r := Rebuild(w, p.value);
      if r.None? then Fail else Got(r.value, p.rest)
  }

  // ---------- Policies ----------

  function Among<V>(m: map<u64, V>, keys: seq<u64>): map<u64, V> { map k | k in m && k in keys :: m[k] }

  lemma AmongNext<V>(m: map<u64, V>, keys: seq<u64>, i: nat)
    requires i < |keys| && keys[i] in m
    ensures Among(m, keys[..i + 1]) == Among(m, keys[..i])[keys[i] := m[keys[i]]]
  {
    assert keys[..i + 1] == keys[..i] + [keys[i]];
  }

  /** The history that holds the first `i` policies. */
  function Partly(h: P.History, i: nat): P.History
    requires i <= |SortedWords(h.policies.Keys)|
  {
    var keys := SortedWords(h.policies.Keys);
    P.History(Among(h.policies, keys[..i]), if i == 0 then 0 else keys[i - 1], 1)
  }

  lemma PolicyReturns(h: P.History, keys: seq<u64>, i: nat, p: Policy)
    requires P.WellFiled(h) && keys == SortedWords(h.policies.Keys) && i < |keys| && p == h.policies[keys[i]]
    ensures P.InstallAt(Partly(h, i), p, p.generation) == (Partly(h, i + 1), P.Ok)
  {
    hide P.ValidPolicy, Among, SortedWords;
    AmongNext(h.policies, keys, i);
    AmongKeys(h.policies, keys[..i]);
    assert keys[i] !in keys[..i];
    assert p.(generation := keys[i]) == p;
  }

  lemma {:induction false} PoliciesReturn(h: P.History, i: nat)
    requires P.WellFiled(h) && i <= |Values(h.policies)|
    ensures InstallEach(P.START, Values(h.policies)[..i]) == Some(Partly(h, i))
  {
    hide P.WellFiled, P.InstallAt, SortedWords, Values, Among;
    var keys, ps := SortedWords(h.policies.Keys), Values(h.policies);
    if i == 0 {
      AmongNone(h.policies);
    } else {
      PoliciesReturn(h, i - 1);
      assert ps[..i][..i - 1] == ps[..i - 1];
      PolicyReturns(h, keys, i - 1, ps[i - 1]);
    }
  }

  lemma AmongNone<V>(m: map<u64, V>)
    ensures Among(m, []) == map[]
  {
  }

  lemma AmongKeys<V>(m: map<u64, V>, keys: seq<u64>)
    ensures forall k :: k in Among(m, keys) <==> k in m && k in keys
    ensures (forall k | k in m :: k in keys) ==> Among(m, keys) == m
  {
  }

  /** All policies return under their generations, and the largest one becomes the latest; the counter
      is not saved and starts over. */
  lemma HistoryReturns(h: P.History)
    requires P.WellFiled(h)
    ensures InstallEach(P.START, Values(h.policies)) == Some(P.Returned(h))
  {
    hide P.WellFiled, Among, InstallEach, SortedWords, Values, P.Largest;
    var keys, ps := SortedWords(h.policies.Keys), Values(h.policies);
    PoliciesReturn(h, |ps|);
    assert ps[..|ps|] == ps && keys[..|keys|] == keys;
    AmongKeys(h.policies, keys);
    LastIsLargest(h.policies.Keys);
  }

  lemma LastIsLargest(gs: set<u64>)
    ensures var keys := SortedWords(gs); P.Largest(gs) == if |keys| == 0 then 0 else keys[|keys| - 1]
  {
    hide SortedWords;
  }

  // ---------- Profiles ----------

  /** The same profiles under the same keys, up to the generation. */
  ghost predicate SameProfiles(a: Profiles.Catalog, b: Profiles.Catalog) {
    a.Keys == b.Keys && forall k | k in a :: b[k] == a[k].(generation := b[k].generation)
  }

  /** `r` holds the profiles of `t` under the given keys, up to the generation, and has learned nothing. */
  ghost predicate Copied(t: Profiles.Catalog, keys: seq<bytes>, r: W.Predictor) {
    && (forall k :: k in r.profiles <==> k in t && k in keys)
    && (forall k | k in r.profiles :: r.profiles[k] == t[k].(generation := r.profiles[k].generation))
    && |r.profiles| <= |keys| && r.learned == map[]
  }

  lemma CopyNext(t: Profiles.Catalog, keys: seq<bytes>, i: nat, r: W.Predictor)
    requires Profiles.WellKeyed(t) && i < |keys| && keys[i] in t && i < Profiles.MAX_PROFILES && Copied(t, keys[..i], r)
    ensures Copied(t, keys[..i + 1], W.Register(r, t[keys[i]]).0)
  {
    hide Profiles.KeyOf;
    assert keys[..i + 1] == keys[..i] + [keys[i]];
    assert Profiles.KeyOf(t[keys[i]]) == keys[i];
  }

  lemma {:induction false} CopyEach(p: W.Predictor, i: nat)
    requires W.Cataloged(p) && i <= |CatalogRows(p.profiles)|
    ensures Copied(p.profiles, SortedTexts(p.profiles.Keys)[..i], RegisterEach(W.START, CatalogRows(p.profiles)[..i]))
  {
    hide SortedTexts, CatalogRows, Copied, LeText, W.Register, Profiles.WellKeyed;
    var keys, rows := SortedTexts(p.profiles.Keys), CatalogRows(p.profiles);
    if i == 0 {
      CopyNone(p.profiles);
    } else {
      CopyEach(p, i - 1);
      assert rows[..i][..i - 1] == rows[..i - 1];
      CopyNext(p.profiles, keys, i - 1, RegisterEach(W.START, rows[..i - 1]));
    }
  }

  lemma CopyNone(t: Profiles.Catalog)
    ensures Copied(t, [], W.START)
  {
  }

  lemma CopyAll(t: Profiles.Catalog, keys: seq<bytes>, r: W.Predictor)
    requires Copied(t, keys, r) && forall k | k in t :: k in keys
    ensures SameProfiles(t, r.profiles) && r.learned == map[]
  {
  }

  /** All profiles return, renumbered; what was learned does not. */
  lemma ProfilesReturn(p: W.Predictor)
    requires W.Cataloged(p)
    ensures var r := RegisterEach(W.START, CatalogRows(p.profiles));
            SameProfiles(p.profiles, r.profiles) && r.learned == map[]
  {
    hide W.Cataloged, RegisterEach, SortedTexts, CatalogRows, Copied, SameProfiles, LeText;
    var keys, rows := SortedTexts(p.profiles.Keys), CatalogRows(p.profiles);
    CopyEach(p, |rows|);
    assert rows[..|rows|] == rows && keys[..|keys|] == keys;
    CopyAll(p.profiles, keys, RegisterEach(W.START, rows));
  }

  // ---------- Reservations ----------

  /** No reservation is released, expired or rolled back. */
  predicate AllLive(t: L.Table) { forall id | id in t :: t[id].status in {Status.Reserved, Committed} }

  lemma {:induction false} RowsHeld(t: L.Table, i: nat, s: Status, d: nat)
    requires i <= |Values(t)| && d < 12
    ensures SeqHeld(Values(t)[..i], s, d) == VisitedSum(t, SortedWords(t.Keys)[..i], s, d)
  {
    hide VisitedSum, SortedWords, Values;
    var keys, rows := SortedWords(t.Keys), Values(t);
    if i == 0 {
      NoneVisited(t, s, d);
    } else {
      assert rows[..i][..i - 1] == rows[..i - 1];
      RowsHeld(t, i - 1, s, d);
      VisitNext(t, keys, i - 1, s, d);
    }
  }

  lemma NoneVisited(t: L.Table, s: Status, d: nat)
    requires d < 12
    ensures VisitedSum(t, [], s, d) == 0
  {
    assert Visited(t, [], s) == {};
  }

  lemma RowsSum(t: L.Table, s: Status, d: nat)
    requires d < 12
    ensures SeqHeld(Values(t), s, d) == L.Held(t, s, d)
  {
    hide SortedWords, Values, SeqHeld, L.Sum;
    var keys, rows := SortedWords(t.Keys), Values(t);
    RowsHeld(t, |rows|, s, d);
    assert rows[..|rows|] == rows && keys[..|keys|] == keys;
    assert Visited(t, keys, s) == L.WithStatus(t, s);
  }

  lemma TableReturns(t: L.Table)
    requires forall id | id in t :: t[id].id == id
    ensures DistinctIds(Values(t)) && TableOf(Values(t)) == t
  {
    hide TableOf, SortedWords, Values;
    var keys, rows := SortedWords(t.Keys), Values(t);
    assert forall i :: 0 <= i < |rows| ==> keys[i] in t && rows[i].id == keys[i];
    TableOfRows(rows);
    forall id | id in t ensures id in TableOf(rows) && TableOf(rows)[id] == t[id] {
      var i :| 0 <= i < |keys| && keys[i] == id;
      assert rows[i].id == id;
    }
  }

  /** The rows of a sound ledger are accepted exactly if none is closed, and give the table back. */
  lemma RowsReturn(l: L.Ledger)
    requires L.Sound(l)
    ensures Restorable(Values(l.table), l.reserved, l.used) <==> AllLive(l.table)
    ensures TableOf(Values(l.table)) == l.table
  {
    hide L.Held, SeqHeld, IsZero, TableOf, SortedWords, Values, DistinctIds, Terminal, AllLive;
    TableReturns(l.table);
    LiveRows(l);
    var rows := Values(l.table);
    forall d, s | 0 <= d < 12 ensures SeqHeld(rows, s, d) == L.Held(l.table, s, d) { RowsSum(l.table, s, d); }
  }

  lemma LiveRows(l: L.Ledger)
    requires L.Sound(l)
    ensures AllLive(l.table) <==> forall i :: 0 <= i < |Values(l.table)| && Terminal(Values(l.table)[i].status) ==>
            IsZero(Values(l.table)[i].demand)
  {
    hide L.Held, IsZero, SortedWords, Values;
    var keys, rows := SortedWords(l.table.Keys), Values(l.table);
    if forall i :: 0 <= i < |rows| && Terminal(rows[i].status) ==> IsZero(rows[i].demand) {
      forall id | id in l.table ensures !Terminal(l.table[id].status) {
        var i :| 0 <= i < |keys| && keys[i] == id;
        assert rows[i] == l.table[id];
      }
    }
  }

  // ---------- Requests ----------

  lemma {:induction false} RequestsReturn(rs: Requests, i: nat)
    requires i <= |Entries(rs)|
    ensures RequestsOf(Entries(rs)[..i]) == Among(rs, SortedWords(rs.Keys)[..i])
  {
    hide Among, SortedWords, Entries;
    var keys, es := SortedWords(rs.Keys), Entries(rs);
    if i == 0 {
      AmongNone(rs);
    } else {
      assert es[..i][..i - 1] == es[..i - 1];
      RequestsReturn(rs, i - 1);
      AmongNext(rs, keys, i - 1);
    }
  }

  lemma EntriesReturn(rs: Requests)
    ensures DistinctEntries(Entries(rs)) && RequestsOf(Entries(rs)) == rs
  {
    hide Among, RequestsOf, SortedWords, Entries;
    var keys, es := SortedWords(rs.Keys), Entries(rs);
    RequestsReturn(rs, |es|);
    assert es[..|es|] == es && keys[..|keys|] == keys;
    AmongKeys(rs, keys);
  }

  // ---------- The theorem ----------

  /** What every reachable engine satisfies and recovery relies on. */
  ghost predicate Recoverable(e: Engine) { L.Sound(e.ledger) && P.WellFiled(e.history) && Configured(e) }

  /** The capacity of the ledger is that of the snapshot. */
  predicate Configured(e: Engine) {
    if e.hasSnapshot then e.ledger.total == e.snapshot.total
      else e.snapshot == DEFAULT_SNAPSHOT && e.ledger.total == ZERO
  }

  /** The recovered engine: everything but the latest policy generation, the policy counter and the
      generation counter of the ledger, under the overcommit terms of the policy that is now latest. */
  function Recovered(e: Engine): Engine {
    e.(history := P.Returned(e.history), ledger := Rebound(e.ledger, P.Returned(e.history)).(serial := 1))
  }

  /** The engine once the tables are back. */
  function Tabled(e: Engine): Engine {
    var l := e.ledger;
    START.(history := P.Returned(e.history),
           ledger := L.EMPTY.(table := l.table, reserved := l.reserved, used := l.used, mode := l.mode,
             allowance := l.allowance))
  }

  lemma TablesRebuilt(w: Whole)
    requires L.Sound(w.engine.ledger) && P.WellFiled(w.engine.history)
    ensures BuildTables(FRESH_WHOLE, ImageOf(w).tables) ==
              if AllLive(w.engine.ledger.table)
              then Some(Whole(Tabled(w.engine), RegisterEach(W.START, CatalogRows(w.predictor.profiles))))
              else None
  {
    hide L.Sound, P.WellFiled, P.Largest, InstallEach, Restorable, AllLive, RegisterEach, TableOf, Values, CatalogRows,
      Entries;
    HistoryReturns(w.engine.history);
    RowsReturn(w.engine.ledger);
  }

  lemma TailRebuilt(w: Whole)
    requires Configured(w.engine)
    ensures BuildTail(Tabled(w.engine), ImageOf(w).tail) == Some(Recovered(w.engine))
  {
    hide DistinctEntries, RequestsOf, Values, CatalogRows, Entries, P.Returned;
    EntriesReturn(w.engine.requests);
  }

  lemma Rebuilt(w: Whole)
    requires Recoverable(w.engine) && W.Cataloged(w.predictor)
    ensures Rebuild(FRESH_WHOLE, ImageOf(w)) ==
              if AllLive(w.engine.ledger.table)
              then Some(Whole(Recovered(w.engine), RegisterEach(W.START, CatalogRows(w.predictor.profiles))))
              else None
  {
    hide L.Sound, P.WellFiled, Configured, BuildTables, BuildTail, AllLive, RegisterEach, W.Cataloged, CatalogRows,
      ImageOf, Tabled, Recovered;
    TablesRebuilt(w);
    TailRebuilt(w);
  }

  /** Within the decoder's bounds, a fresh engine that reads what an engine saved, which may itself have
      been recovered before, succeeds exactly if no reservation is closed. It then reads every byte and
      has the same policies, profiles, reservations, sums, requests, quota, counters and snapshot. */
  lemma RestoreOfSave(w: Whole)
    requires Recoverable(w.engine) && W.Cataloged(w.predictor) && FitImage(ImageOf(w))
    ensures var r := Restore(FRESH_WHOLE, Save(w));
            && (r.Got? <==> AllLive(w.engine.ledger.table))
            && (r.Got? ==> r.rest == [] && r.value.engine == Recovered(w.engine) &&
                           SameProfiles(w.predictor.profiles, r.value.predictor.profiles) &&
                             r.value.predictor.learned == map[])
  {
    hide Recoverable, W.Cataloged, FitImage, ImageOf, PutImage, GetImage, Rebuild, AllLive, RegisterEach;
    ImageRoundTrip(ImageOf(w), []);
    Rebuilt(w);
    ProfilesReturn(w.predictor);
  }

  // ---------- In terms of the engine ----------

  /** What is saved: policies by ascending generation, profiles by ascending key, reservations and requests by
      ascending id, each exactly once; the two vectors and the overcommit terms of the ledger; quota and
      counters; and the snapshot, if one was ever set. */
  lemma SavedExactly(w: Whole, i: nat, j: nat)
    ensures var x, e := ImageOf(w), w.engine;
            && (forall p :: p in x.tables.policies <==> exists g ::
              g in e.history.policies && e.history.policies[g] == p)
            && (forall p :: p in x.tables.profiles <==> exists k :: k in w.predictor.profiles &&
                                                                    w.predictor.profiles[k] == p)
            && (forall r :: r in x.tables.rows <==> exists k :: k in e.ledger.table && e.ledger.table[k] == r)
            && (forall y :: y in x.tail.entries <==> y.id in e.requests && e.requests[y.id] == y.request)
            && |x.tables.policies| == |e.history.policies| && |x.tables.profiles| == |w.predictor.profiles|
            && |x.tables.rows| == |e.ledger.table| && |x.tail.entries| == |e.requests|
            && (i < j < |x.tail.entries| ==> x.tail.entries[i].id < x.tail.entries[j].id)
            && x.tables.reserved == e.ledger.reserved && x.tables.used == e.ledger.used
            && x.tables.mode == e.ledger.mode && x.tables.allowance == e.ledger.allowance
            && x.tail.quota == e.quota && x.tail.admissionGeneration == e.admissionGeneration
            && x.tail.reservationCounter == e.reservationCounter
            && (if e.hasSnapshot then x.tail.snapshot == Some(e.snapshot) else x.tail.snapshot == None)
  {
    hide SortedWords, SortedTexts, Values, CatalogRows, Entries, LeText;
    ValuesExactly(w.engine.history.policies);
    RowsExactly(w.predictor.profiles);
    ValuesExactly(w.engine.ledger.table);
    EntriesExactly(w.engine.requests);
  }

  lemma ValuesExactly<V(!new)>(m: map<u64, V>)
    ensures |Values(m)| == |m|
    ensures forall v :: v in Values(m) <==> exists k :: k in m && m[k] == v
  {
    hide SortedWords, Values;
    var keys := SortedWords(m.Keys);
    SortedCounts(keys, m.Keys);
    forall k | k in m ensures m[k] in Values(m) {
      var i :| 0 <= i < |keys| && keys[i] == k;
      assert Values(m)[i] == m[k];
    }
  }

  lemma {:induction false} SortedCounts(keys: seq<u64>, s: set<u64>)
    requires (forall i, j :: 0 <= i < j < |keys| ==> keys[i] < keys[j]) && forall k :: k in keys <==> k in s
    ensures |keys| == |s|
    decreases |keys|
  {
    if keys == [] {
      assert s == {};
    } else {
      var last := keys[|keys| - 1];
      var front := keys[..|keys| - 1];
      assert keys == front + [last];
      assert last !in front;
      SortedCounts(front, s - {last});
    }
  }

  lemma RowsExactly(t: Profiles.Catalog)
    ensures |CatalogRows(t)| == |t|
    ensures forall p :: p in CatalogRows(t) <==> exists k :: k in t && t[k] == p
  {
    hide SortedTexts, LeText, CatalogRows;
    var keys := SortedTexts(t.Keys);
    DistinctCounts(keys, t.Keys);
    forall k | k in t ensures t[k] in CatalogRows(t) {
      var i :| 0 <= i < |keys| && keys[i] == k;
      assert CatalogRows(t)[i] == t[k];
    }
  }

  lemma {:induction false} DistinctCounts(keys: seq<bytes>, s: set<bytes>)
    requires (forall i, j :: 0 <= i < j < |keys| ==> keys[i] != keys[j]) && forall k :: k in keys <==> k in s
    ensures |keys| == |s|
    decreases |keys|
  {
    if keys == [] {
      assert s == {};
    } else {
      var last := keys[|keys| - 1];
      var front := keys[..|keys| - 1];
      assert keys == front + [last];
      assert last !in front;
      DistinctCounts(front, s - {last});
    }
  }

  lemma EntriesExactly(rs: Requests)
    ensures |Entries(rs)| == |rs|
    ensures forall y :: y in Entries(rs) <==> y.id in rs && rs[y.id] == y.request
    ensures forall i, j :: 0 <= i < j < |Entries(rs)| ==> Entries(rs)[i].id < Entries(rs)[j].id
  {
    hide SortedWords, Entries;
    var keys := SortedWords(rs.Keys);
    SortedCounts(keys, rs.Keys);
    forall y: Entry | y.id in rs && rs[y.id] == y.request ensures y in Entries(rs) {
      var i :| 0 <= i < |keys| && keys[i] == y.id;
      assert Entries(rs)[i] == y;
    }
  }

  ghost predicate DistinctGenerations(ps: seq<Policy>) {
    forall i, j :: 0 <= i < j < |ps| ==> ps[i].generation != ps[j].generation
  }

  /** The history holds each policy of the list under its own generation, and no others. */
  ghost predicate Files(h: P.History, ps: seq<Policy>) {
    && (forall g :: g in h.policies <==> exists i :: 0 <= i < |ps| && ps[i].generation == g)
    && (forall i :: 0 <= i < |ps| ==> ps[i].generation in h.policies && h.policies[ps[i].generation] == ps[i])
  }

  /** Policies go back, whatever they are, exactly if each is acceptable and no two claim one generation; the
      history then holds each under its own. */
  lemma {:induction false} InstallEachExactly(ps: seq<Policy>)
    ensures var h := InstallEach(P.START, ps);
            && (h.Some? <==> (forall p | p in ps :: P.Acceptable(p)) && DistinctGenerations(ps))
            && (h.Some? ==> Files(h.value, ps))
  {
    hide P.Acceptable, P.InstallAt, DistinctGenerations, Files;
    if ps == [] {
      NoneFiled();
    } else {
      var front, p := ps[..|ps| - 1], ps[|ps| - 1];
      InstallEachExactly(front);
      assert ps == front + [p];
      assert forall q :: q in ps <==> q in front || q == p;
      var h := InstallEach(P.START, front);
      FrontDistinct(front, p);
      if h.Some? {
        P.InstallAtExactly(h.value, p, p.generation);
        FiledNext(front, p, h.value, P.InstallAt(h.value, p, p.generation).0);
      }
    }
  }

  lemma NoneFiled()
    ensures DistinctGenerations([]) && Files(P.START, [])
  {
  }

  lemma FrontDistinct(front: seq<Policy>, p: Policy)
    ensures DistinctGenerations(front + [p]) ==> DistinctGenerations(front)
  {
    var all := front + [p];
    assert forall i :: 0 <= i < |front| ==> all[i] == front[i];
  }

  lemma FiledNext(front: seq<Policy>, p: Policy, h: P.History, k: P.History)
    requires Files(h, front) && DistinctGenerations(front)
    ensures DistinctGenerations(front + [p]) <==> p.generation !in h.policies
    ensures p.generation !in h.policies && k.policies == h.policies[p.generation := p] ==> Files(k, front + [p])
  {
    var all := front + [p];
    assert all[|front|] == p;
    forall i | 0 <= i < |front| ensures all[i] == front[i] {
    }
    if p.generation in h.policies {
      var i :| 0 <= i < |front| && front[i].generation == p.generation;
      assert all[i].generation == all[|front|].generation;
    } else {
      forall g ensures g in h.policies || g == p.generation <==> exists i :: 0 <= i < |all| && all[i].generation == g {
        if g in h.policies {
          var i :| 0 <= i < |front| && front[i].generation == g;
          assert all[i].generation == g;
        }
      }
    }
  }

  /** A state that could be read is accepted by a fresh engine exactly if its policies are acceptable and of
      distinct generations, its reservations have distinct ids, none that is closed asks for anything, both
      vectors are the sums over them, and its requests have distinct ids. */
  lemma RebuildExactly(x: Image)
    ensures Rebuild(FRESH_WHOLE, x).Some? <==>
              && (forall p | p in x.tables.policies :: P.Acceptable(p))
              && DistinctGenerations(x.tables.policies)
              && (forall i, j :: 0 <= i < j < |x.tables.rows| ==> x.tables.rows[i].id != x.tables.rows[j].id)
              && (forall r, d | r in x.tables.rows && r.status in {Status.Released, Status.Expired, RolledBack} &&
                                0 <= d < 12 :: r.demand[d] == 0)
              && (forall d :: 0 <= d < 12 ==>
                    && x.tables.reserved[d] == SeqHeld(x.tables.rows, Status.Reserved, d)
                    && x.tables.used[d] == SeqHeld(x.tables.rows, Committed, d))
              && (forall i, j :: 0 <= i < j < |x.tail.entries| ==> x.tail.entries[i].id != x.tail.entries[j].id)
  {
    hide P.Acceptable, InstallEach, SeqHeld, RegisterEach, TableOf, RequestsOf, Rebound;
    InstallEachExactly(x.tables.policies);
    ClosedRows(x.tables.rows);
  }

  lemma ClosedRows(rows: seq<Reservation>)
    ensures (forall i :: 0 <= i < |rows| && Terminal(rows[i].status) ==> IsZero(rows[i].demand)) <==>
            (forall r, d | r in rows && r.status in {Status.Released, Status.Expired, RolledBack} && 0 <= d < 12 ::
               r.demand[d] == 0)
  {
    forall r | r in rows ensures Terminal(r.status) <==> r.status in {Status.Released, Status.Expired, RolledBack} {
      match r.status
      case Reserved =>
      case Committed =>
      case Released =>
      case Expired =>
      case RolledBack =>
    }
  }

  /** What a list of reservations holds in a status: nothing if it is empty, and with one more what that one
      asks for on top, if it has the status. */
  lemma HeldByRows(rows: seq<Reservation>, r: Reservation, s: Status, d: nat)
    requires d < 12
    ensures SeqHeld([], s, d) == 0
    ensures SeqHeld(rows + [r], s, d) == SeqHeld(rows, s, d) + if r.status == s then r.demand[d] else 0
  {
    assert (rows + [r])[..|rows|] == rows;
  }

  /** What the recovered engine has: the same policies, of which the one of the largest generation is in force
      and the ledger under its terms; the next installation is generation one again; the same reservations and
      sums, numbered from one again; and the same capacity, snapshot, quota, requests and counters. */
  lemma RecoveredExactly(e: Engine)
    requires P.WellFiled(e.history)
    ensures var f := Recovered(e); var g := f.history.latest;
            && f.history.policies == e.history.policies && f.history.counter == 1
            && (e.history.policies != map[] ==>
                  && g in e.history.policies && (forall k | k in e.history.policies :: k <= g)
                  && f.ledger.mode == e.history.policies[g].overcommit
                  && (f.ledger.mode != 0 ==> f.ledger.allowance == e.history.policies[g].overcommitAllowance)
                  && (f.ledger.mode == 0 ==> f.ledger.allowance == [0, 0, 0, 0, 0, 0, 0, 0, 0, 0, 0, 0]))
            && (e.history.policies == map[] ==>
                  g == 0 && f.ledger.mode == e.ledger.mode && f.ledger.allowance == e.ledger.allowance)
            && f.ledger.table == e.ledger.table && f.ledger.reserved == e.ledger.reserved
            && f.ledger.used == e.ledger.used && f.ledger.total == e.ledger.total && f.ledger.serial == 1
            && f.snapshot == e.snapshot && f.hasSnapshot == e.hasSnapshot && f.quota == e.quota
            && f.requests == e.requests && f.admissionGeneration == e.admissionGeneration
            && f.reservationCounter == e.reservationCounter
  {
    hide P.ValidPolicy, P.Largest;
  }
}
