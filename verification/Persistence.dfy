/** The durable state of the engine (`save_state` and `restore_state` of engine.cpp): what a saved
    state says, and when a fresh engine can be rebuilt from it. */
module Persistence {
  import opened Words
  import opened Ordering
  import opened Resources
  import opened Records
  import opened Grammar
  import opened Fields
  import opened Codec
  import opened Engine
  import opened ReservationManager
  import EngineRuns
  import L = Ledger
  import P = Policies
  import Profiles
  import W = Predictor

  datatype Entry = Entry(id: u64, request: Request)

  // The contents of a saved state, in the order in which they are written.

  datatype Tables = Tables(
    policies: seq<Policy>, profiles: seq<Profile>, rows: seq<Reservation>, reserved: Vec, used: Vec, mode: byte,
      allowance: Vec)

  datatype Tail = Tail(
    entries: seq<Entry>, quota: Quota, admissionGeneration: u64, reservationCounter: u64, snapshot: Option<Snapshot>)

  datatype Image = Image(tables: Tables, tail: Tail)

  datatype Whole = Whole(engine: Engine, predictor: W.Predictor)

  const FRESH_WHOLE: Whole := Whole(START, W.START)

  // ---------- The format ----------

  function LifecycleCode(l: Lifecycle): byte {
    match l
    case Unknown => 0
    case Proposed => 1
    case Evaluating => 2
    case Deferred => 3
    case Reserved => 4
    case Admitted => 5
    case Released => 6
    case Rejected => 7
    case Expired => 8
    case Cancelled => 9
  }

  function LifecycleOf(b: byte): (l: Option<Lifecycle>)
    ensures l.Some? <==> b <= 9
    ensures l.Some? ==> LifecycleCode(l.value) == b
  {
    match b
    case 0 => Some(Unknown)
    case 1 => Some(Proposed)
    case 2 => Some(Evaluating)
    case 3 => Some(Deferred)
    case 4 => Some(Lifecycle.Reserved)
    case 5 => Some(Admitted)
    case 6 => Some(Lifecycle.Released)
    case 7 => Some(Rejected)
    case 8 => Some(Lifecycle.Expired)
    case 9 => Some(Cancelled)
    case _ => None
  }

  function PutDecided(o: Option<Decision>, k: bytes): bytes { PutOption(PutDecision, o, k) }
  function GetDecided(s: bytes): Parse<Option<Decision>> { GetOption(GetDecision, s) }

  function PutEntry(x: Entry, k: bytes): bytes {
    PutU64(x.id, PutU8(LifecycleCode(x.request.lifecycle),
      PutDescriptor(x.request.descriptor, PutDecided(x.request.decision, k))))
  }

  function GetEntry(s: bytes): Parse<Entry> {
    var (id, s) :- GetU64(s);
    var (lifecycle, s) :- GetU8(s);
    if LifecycleOf(lifecycle).None? then Fail else
    var (descriptor, s) :- GetDescriptor(s);
    var (decision, s) :- GetDecided(s);
    Got(Entry(id, Request(LifecycleOf(lifecycle).value, descriptor, decision)), s)
  }

  predicate FitEntry(x: Entry) {
    FitDescriptor(x.request.descriptor) && (x.request.decision.Some? ==> FitDecision(x.request.decision.value))
  }

  function PutPolicies(xs: seq<Policy>, k: bytes): bytes { PutList(PutPolicy, xs, k) }
  function GetPolicies(s: bytes): Parse<seq<Policy>> { GetList(GetPolicy, P.MAX_GENERATIONS, s) }
  function PutProfiles(xs: seq<Profile>, k: bytes): bytes { PutList(PutProfile, xs, k) }
  function GetProfiles(s: bytes): Parse<seq<Profile>> { GetList(GetProfile, Profiles.MAX_PROFILES, s) }
  function PutRows(xs: seq<Reservation>, k: bytes): bytes { PutList(PutReservation, xs, k) }
  function GetRows(s: bytes): Parse<seq<Reservation>> { GetList(GetReservation, MAX_COUNT, s) }
  function PutEntries(xs: seq<Entry>, k: bytes): bytes { PutList(PutEntry, xs, k) }
  function GetEntries(s: bytes): Parse<seq<Entry>> { GetList(GetEntry, MAX_COUNT, s) }
  function PutSeen(o: Option<Snapshot>, k: bytes): bytes { PutOption(PutSnapshot, o, k) }
  function GetSeen(s: bytes): Parse<Option<Snapshot>> { GetOption(GetSnapshot, s) }

  function PutTables(x: Tables, k: bytes): bytes {
    PutPolicies(x.policies, PutProfiles(x.profiles, PutRows(x.rows, PutVec(x.reserved, PutVec(x.used, PutU8(x.mode,
      PutVec(x.allowance, k)))))))
  }

  function GetTables(s: bytes): Parse<Tables> {
    var (policies, s) :- GetPolicies(s);
    var (profiles, s) :- GetProfiles(s);
    var (rows, s) :- GetRows(s);
    var (reserved, s) :- GetVec(s);
    var (used, s) :- GetVec(s);
    var (mode, s) :- GetU8(s);
    var (allowance, s) :- GetVec(s);
    Got(Tables(policies, profiles, rows, reserved, used, mode, allowance), s)
  }

  function PutTail(x: Tail, k: bytes): bytes {
    PutEntries(x.entries, PutQuota(x.quota,
      PutU64(x.admissionGeneration, PutU64(x.reservationCounter, PutSeen(x.snapshot, k)))))
  }

  function GetTail(s: bytes): Parse<Tail> {
    var (entries, s) :- GetEntries(s);
    var (quota, s) :- GetQuota(s);
    var (admissionGeneration, s) :- GetU64(s);
    var (reservationCounter, s) :- GetU64(s);
    var (snapshot, s) :- GetSeen(s);
    Got(Tail(entries, quota, admissionGeneration, reservationCounter, snapshot), s)
  }

  function PutImage(x: Image, k: bytes): bytes { PutTables(x.tables, PutTail(x.tail, k)) }

  function GetImage(s: bytes): Parse<Image> {
    var (tables, s) :- GetTables(s);
    var (tail, s) :- GetTail(s);
    Got(Image(tables, tail), s)
  }

  predicate FitPolicies(xs: seq<Policy>) { |xs| <= P.MAX_GENERATIONS && forall x | x in xs :: FitPolicy(x) }
  predicate FitProfiles(xs: seq<Profile>) { |xs| <= Profiles.MAX_PROFILES && forall x | x in xs :: FitProfile(x) }
  predicate FitRows(xs: seq<Reservation>) { |xs| <= MAX_COUNT && forall x | x in xs :: FitReservation(x) }
  predicate FitEntries(xs: seq<Entry>) { |xs| <= MAX_COUNT && forall x | x in xs :: FitEntry(x) }

  /** The counts and lengths that the decoders accept. */
  predicate FitImage(x: Image) {
    && FitPolicies(x.tables.policies) && FitProfiles(x.tables.profiles) && FitRows(x.tables.rows) &&
      FitEntries(x.tail.entries)
    && FitQuota(x.tail.quota) && (x.tail.snapshot.Some? ==> FitSnapshot(x.tail.snapshot.value))
  }

  lemma EntryRoundTrip(x: Entry, k: bytes)
    requires FitEntry(x)
    ensures GetEntry(PutEntry(x, k)) == Got(x, k)
  {
    hide PutU64, GetU64, PutU8, GetU8, PutDescriptor, GetDescriptor, PutDecision, GetDecision, FitDescriptor,
      FitDecision, PutDecided, GetDecided;
    WordsRoundTrip();
    DecidedRoundTrip(x.request.decision, k);
    DescriptorRoundTrip(x.request.descriptor, PutDecided(x.request.decision, k));
  }

  lemma DecidedRoundTrip(o: Option<Decision>, k: bytes)
    requires o.Some? ==> FitDecision(o.value)
    ensures GetDecided(PutDecided(o, k)) == Got(o, k)
  {
    hide PutDecision, GetDecision, FitDecision, PutOption, GetOption;
    if o.Some? {
      forall k: bytes ensures GetDecision(PutDecision(o.value, k)) == Got(o.value, k) { DecisionRoundTrip(o.value, k); }
    }
    OptionRoundTrip(PutDecision, GetDecision, o, k);
  }

  lemma PoliciesRoundTrip(xs: seq<Policy>, k: bytes)
    requires FitPolicies(xs)
    ensures GetPolicies(PutPolicies(xs, k)) == Got(xs, k)
  {
    hide PutPolicy, GetPolicy, FitPolicy, PutList, GetList;
    forall x | x in xs ensures RoundTrips(PutPolicy, GetPolicy, x) {
      forall k: bytes ensures GetPolicy(PutPolicy(x, k)) == Got(x, k) { PolicyRoundTrip(x, k); }
    }
    ListRoundTrip(PutPolicy, GetPolicy, P.MAX_GENERATIONS, xs, k);
  }

  lemma ProfilesRoundTrip(xs: seq<Profile>, k: bytes)
    requires FitProfiles(xs)
    ensures GetProfiles(PutProfiles(xs, k)) == Got(xs, k)
  {
    hide PutProfile, GetProfile, FitProfile, PutList, GetList;
    forall x | x in xs ensures RoundTrips(PutProfile, GetProfile, x) {
      forall k: bytes ensures GetProfile(PutProfile(x, k)) == Got(x, k) { ProfileRoundTrip(x, k); }
    }
    ListRoundTrip(PutProfile, GetProfile, Profiles.MAX_PROFILES, xs, k);
  }

  lemma RowsRoundTrip(xs: seq<Reservation>, k: bytes)
    requires FitRows(xs)
    ensures GetRows(PutRows(xs, k)) == Got(xs, k)
  {
    hide PutReservation, GetReservation, FitReservation, PutList, GetList;
    forall x | x in xs ensures RoundTrips(PutReservation, GetReservation, x) {
      forall k: bytes ensures GetReservation(PutReservation(x, k)) == Got(x, k) { ReservationRoundTrip(x, k); }
    }
    ListRoundTrip(PutReservation, GetReservation, MAX_COUNT, xs, k);
  }

  lemma EntriesRoundTrip(xs: seq<Entry>, k: bytes)
    requires FitEntries(xs)
    ensures GetEntries(PutEntries(xs, k)) == Got(xs, k)
  {
    hide PutEntry, GetEntry, FitEntry, PutList, GetList;
    forall x | x in xs ensures RoundTrips(PutEntry, GetEntry, x) {
      forall k: bytes ensures GetEntry(PutEntry(x, k)) == Got(x, k) { EntryRoundTrip(x, k); }
    }
    ListRoundTrip(PutEntry, GetEntry, MAX_COUNT, xs, k);
  }

  lemma SeenRoundTrip(o: Option<Snapshot>, k: bytes)
    requires o.Some? ==> FitSnapshot(o.value)
    ensures GetSeen(PutSeen(o, k)) == Got(o, k)
  {
    hide PutSnapshot, GetSnapshot, FitSnapshot, PutOption, GetOption;
    if o.Some? {
      forall k: bytes ensures GetSnapshot(PutSnapshot(o.value, k)) == Got(o.value, k) { SnapshotRoundTrip(o.value, k); }
    }
    OptionRoundTrip(PutSnapshot, GetSnapshot, o, k);
  }

  lemma TablesRoundTrip(x: Tables, k: bytes)
    requires FitPolicies(x.policies) && FitProfiles(x.profiles) && FitRows(x.rows)
    ensures GetTables(PutTables(x, k)) == Got(x, k)
  {
    hide PutPolicies, GetPolicies, PutProfiles, GetProfiles, PutRows, GetRows, PutVec, GetVec, PutU8, GetU8,
      FitPolicies, FitProfiles, FitRows;
    FieldsRoundTrip();
    var k3 := PutVec(x.reserved, PutVec(x.used, PutU8(x.mode, PutVec(x.allowance, k))));
    PoliciesRoundTrip(x.policies, PutProfiles(x.profiles, PutRows(x.rows, k3)));
    ProfilesRoundTrip(x.profiles, PutRows(x.rows, k3));
    RowsRoundTrip(x.rows, k3);
  }

  lemma TailRoundTrip(x: Tail, k: bytes)
    requires FitEntries(x.entries) && FitQuota(x.quota) && (x.snapshot.Some? ==> FitSnapshot(x.snapshot.value))
    ensures GetTail(PutTail(x, k)) == Got(x, k)
  {
    hide PutEntries, GetEntries, PutSeen, GetSeen, PutU64, GetU64, PutQuota, GetQuota, FitEntries, FitQuota,
      FitSnapshot;
    FieldsRoundTrip();
    var k9 := PutU64(x.admissionGeneration, PutU64(x.reservationCounter, PutSeen(x.snapshot, k)));
    EntriesRoundTrip(x.entries, PutQuota(x.quota, k9));
    QuotaRoundTrip(x.quota, k9);
    SeenRoundTrip(x.snapshot, k);
  }

  /** What is written is read back, up to the last byte. */
  lemma ImageRoundTrip(x: Image, k: bytes)
    requires FitImage(x)
    ensures GetImage(PutImage(x, k)) == Got(x, k)
  {
    hide PutTables, GetTables, PutTail, GetTail, FitPolicies, FitProfiles, FitRows, FitEntries, FitQuota, FitSnapshot;
    TablesRoundTrip(x.tables, PutTail(x.tail, k));
    TailRoundTrip(x.tail, k);
  }

  // ---------- Locality ----------

  lemma EntryMoves(s: bytes, t: bytes)
    ensures Moved(GetEntry(s), GetEntry(s + t), t)
  {
    hide GetU64, GetU8, GetDescriptor, GetDecided, LifecycleOf;
    FieldsLocal();
    forall s: bytes, t: bytes
      ensures Moved(GetDescriptor(s), GetDescriptor(s + t), t) && Moved(GetDecided(s), GetDecided(s + t), t)
    {
      DescriptorMoves(s, t);
      DecidedMoves(s, t);
    }
  }

  lemma DecidedMoves(s: bytes, t: bytes)
    ensures Moved(GetDecided(s), GetDecided(s + t), t)
  {
    hide GetDecision, GetOption, GetList;
    forall s: bytes, t: bytes | GetDecision(s).Got?
      ensures GetDecision(s + t) == Got(GetDecision(s).value, GetDecision(s).rest + t)
    {
      DecisionMoves(s, t);
    }
    ListMoves(GetDecision, 0, s, t);
  }

  lemma SeenMoves(s: bytes, t: bytes)
    ensures Moved(GetSeen(s), GetSeen(s + t), t)
  {
    hide GetSnapshot, GetOption, GetList;
    forall s: bytes, t: bytes | GetSnapshot(s).Got?
      ensures GetSnapshot(s + t) == Got(GetSnapshot(s).value, GetSnapshot(s).rest + t)
    {
      SnapshotMoves(s, t);
    }
    ListMoves(GetSnapshot, 0, s, t);
  }

  lemma PoliciesMove(s: bytes, t: bytes)
    ensures Moved(GetPolicies(s), GetPolicies(s + t), t)
  {
    hide GetPolicy, GetList;
    forall s: bytes, t: bytes | GetPolicy(s).Got?
      ensures GetPolicy(s + t) == Got(GetPolicy(s).value, GetPolicy(s).rest + t)
    {
      PolicyMoves(s, t);
    }
    ListMoves(GetPolicy, P.MAX_GENERATIONS, s, t);
  }

  lemma ProfilesMove(s: bytes, t: bytes)
    ensures Moved(GetProfiles(s), GetProfiles(s + t), t)
  {
    hide GetProfile, GetList;
    forall s: bytes, t: bytes | GetProfile(s).Got?
      ensures GetProfile(s + t) == Got(GetProfile(s).value, GetProfile(s).rest + t)
    {
      ProfileMoves(s, t);
    }
    ListMoves(GetProfile, Profiles.MAX_PROFILES, s, t);
  }

  lemma RowsMove(s: bytes, t: bytes)
    ensures Moved(GetRows(s), GetRows(s + t), t)
  {
    hide GetReservation, GetList;
    forall s: bytes, t: bytes | GetReservation(s).Got?
      ensures GetReservation(s + t) == Got(GetReservation(s).value, GetReservation(s).rest + t)
    {
      ReservationMoves(s, t);
    }
    ListMoves(GetReservation, MAX_COUNT, s, t);
  }

  lemma EntriesMove(s: bytes, t: bytes)
    ensures Moved(GetEntries(s), GetEntries(s + t), t)
  {
    hide GetEntry, GetList;
    forall s: bytes, t: bytes | GetEntry(s).Got?
      ensures GetEntry(s + t) == Got(GetEntry(s).value, GetEntry(s).rest + t)
    {
      EntryMoves(s, t);
    }
    ListMoves(GetEntry, MAX_COUNT, s, t);
  }

  lemma TablesMove(s: bytes, t: bytes)
    ensures Moved(GetTables(s), GetTables(s + t), t)
  {
    hide GetPolicies, GetProfiles, GetRows, GetVec, GetU8;
    FieldsLocal();
    forall s: bytes, t: bytes
      ensures Moved(GetPolicies(s), GetPolicies(s + t), t) && Moved(GetProfiles(s), GetProfiles(s + t), t)
      ensures Moved(GetRows(s), GetRows(s + t), t)
    {
      PoliciesMove(s, t);
      ProfilesMove(s, t);
      RowsMove(s, t);
    }
  }

  lemma TailMoves(s: bytes, t: bytes)
    ensures Moved(GetTail(s), GetTail(s + t), t)
  {
    hide GetEntries, GetSeen, GetU64, GetQuota;
    FieldsLocal();
    forall s: bytes, t: bytes
      ensures Moved(GetEntries(s), GetEntries(s + t), t) && Moved(GetQuota(s), GetQuota(s + t), t)
      ensures Moved(GetSeen(s), GetSeen(s + t), t)
    {
      EntriesMove(s, t);
      QuotaMoves(s, t);
      SeenMoves(s, t);
    }
  }

  lemma ImageMoves(s: bytes, t: bytes)
    ensures Moved(GetImage(s), GetImage(s + t), t)
  {
    hide GetTables, GetTail;
    TablesMove(s, t);
    var tables := GetTables(s);
    if tables.Got? { TailMoves(tables.rest, t); }
  }

  /** No strict prefix of a saved state can be read. */
  lemma ImageTruncated(x: Image, n: nat)
    requires FitImage(x) && n < |PutImage(x, [])|
    ensures GetImage(PutImage(x, [])[..n]).Fail?
  {
    hide PutImage, GetImage, FitImage;
    var whole := PutImage(x, []);
    ImageRoundTrip(x, []);
    ImageMoves(whole[..n], whole[n..]);
    assert whole[..n] + whole[n..] == whole;
    CutFails(whole, n, GetImage(whole[..n]), GetImage(whole));
  }
}
