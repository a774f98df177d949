/**
 * The local record store: two collections, Users and Prescriptions, each kept
 * as one serialised array under a fixed storage key. A storage entry is
 * `None` while its key is absent; reading an absent entry gives the empty
 * list. Users are appended at the end, prescriptions inserted at the head.
 */
module Db {
  import opened Wrappers
  import opened Seqs
  import opened Text
  import opened Types

  /** The four accounts written on first start, one per role. */
  function SeedUsers(): (r: seq<User>)
    ensures |r| == 4
  {
    [ User("1", "Dr. Wilson", Doctor, "doctor@medscript.com", Some("General Physician"), None),
      User("2", "John Patient", Patient, "patient@gmail.com", None, Some("+91 9876543210")),
      User("3", "Pharma Hub", Pharmacist, "pharmacist@medscript.com", None, None),
      User("4", "Admin", Admin, "admin@medscript.com", None, None) ]
  }

  function HasRole(role: Role): User -> bool { (u: User) => u.role == role }

  /** Each seed account has its own role, in the order doctor, patient, pharmacist, administrator. */
  lemma SeedRoles()
    ensures [SeedUsers()[0].role, SeedUsers()[1].role, SeedUsers()[2].role, SeedUsers()[3].role]
         == [Doctor, Patient, Pharmacist, Admin]
  {
  }

  /** Every role has exactly one seed account. */
  lemma SeedUsersOnePerRole(role: Role)
    ensures |Filter(SeedUsers(), HasRole(role))| == 1
  {
    var s := SeedUsers();
    SeedRoles();
    assert s == [s[0]] + [s[1]] + [s[2]] + [s[3]];
    FilterConcat([s[0]] + [s[1]] + [s[2]], [s[3]], HasRole(role));
    FilterConcat([s[0]] + [s[1]], [s[2]], HasRole(role));
    FilterConcat([s[0]], [s[1]], HasRole(role));
    assert forall k :: 0 <= k < 4 ==> |Filter([s[k]], HasRole(role))| == if s[k].role == role then 1 else 0;
  }

  /** The seed ids are pairwise distinct. */
  lemma SeedIdsDistinct()
    ensures forall i, j :: 0 <= i < j < |SeedUsers()| ==> SeedUsers()[i].id != SeedUsers()[j].id
  {
  }

  // ---------------------------------------------------------------------------
  // Reads: lookups and filters over a snapshot of a collection.
  // ---------------------------------------------------------------------------

  function EmailAndRole(email: string, role: Role): User -> bool {
    (u: User) => EqualsIgnoreCase(u.email, email) && u.role == role
  }

  /**
   * `getUserByEmail(email, role)`: the first stored user whose email equals
   * `email` ignoring case AND whose role is `role`; `None` when there is none.
   */
  function UserByEmail(users: seq<User>, email: string, role: Role): (r: Option<User>)
    ensures r.None? <==> forall i :: 0 <= i < |users| ==> !(EqualsIgnoreCase(users[i].email, email) && users[i].role == role)
    ensures r.Some? ==> r.value in users && EqualsIgnoreCase(r.value.email, email) && r.value.role == role
    ensures r.Some? ==> (exists i :: 0 <= i < |users| && users[i] == r.value &&
                          forall j :: 0 <= j < i ==> !(EqualsIgnoreCase(users[j].email, email) && users[j].role == role))
  {
    Find(users, EmailAndRole(email, role))
  }

  function PatientIs(email: string): Prescription -> bool {
    (p: Prescription) => EqualsIgnoreCase(p.patientEmail, email)
  }

  function DoctorIs(email: string): Prescription -> bool {
    (p: Prescription) => EqualsIgnoreCase(p.doctorEmail, email)
  }

  /** `getPatientHistory(email)`: exactly the prescriptions whose patient email matches ignoring case, in stored order. */
  function PatientHistory(rxs: seq<Prescription>, email: string): (r: seq<Prescription>)
    ensures forall i :: 0 <= i < |r| ==> r[i] in rxs && EqualsIgnoreCase(r[i].patientEmail, email)
    ensures forall i :: 0 <= i < |rxs| && EqualsIgnoreCase(rxs[i].patientEmail, email) ==> rxs[i] in r
    ensures IsSubsequence(r, rxs)
    ensures forall x :: multiset(r)[x] == if EqualsIgnoreCase(x.patientEmail, email) then multiset(rxs)[x] else 0
  {
    FilterIsSubsequence(rxs, PatientIs(email));
    FilterCounts(rxs, PatientIs(email));
    Filter(rxs, PatientIs(email))
  }

  /** `getDoctorRecords(email)`: exactly the prescriptions whose doctor email matches ignoring case, in stored order. */
  function DoctorRecords(rxs: seq<Prescription>, email: string): (r: seq<Prescription>)
    ensures forall i :: 0 <= i < |r| ==> r[i] in rxs && EqualsIgnoreCase(r[i].doctorEmail, email)
    ensures forall i :: 0 <= i < |rxs| && EqualsIgnoreCase(rxs[i].doctorEmail, email) ==> rxs[i] in r
    ensures IsSubsequence(r, rxs)
    ensures forall x :: multiset(r)[x] == if EqualsIgnoreCase(x.doctorEmail, email) then multiset(rxs)[x] else 0
  {
    FilterIsSubsequence(rxs, DoctorIs(email));
    FilterCounts(rxs, DoctorIs(email));
    Filter(rxs, DoctorIs(email))
  }

  // ---------------------------------------------------------------------------
  // Writes, as functions of the collection read before the write.
  // ---------------------------------------------------------------------------

  function NotId(id: string): User -> bool { (u: User) => u.id != id }

  /** The list `deleteUser(id)` writes back: every user whose id is not `id`, in order. */
  function WithoutUser(users: seq<User>, id: string): (r: seq<User>)
    ensures forall i :: 0 <= i < |r| ==> r[i].id != id
    ensures forall i :: 0 <= i < |users| && users[i].id != id ==> users[i] in r
    ensures IsSubsequence(r, users)
    ensures (forall i :: 0 <= i < |users| ==> users[i].id != id) ==> r == users
  {
    FilterIsSubsequence(users, NotId(id));
    assert (forall i :: 0 <= i < |users| ==> users[i].id != id) ==> Filter(users, NotId(id)) == users by {
      if forall i :: 0 <= i < |users| ==> users[i].id != id {
        FilterKeepsAll(users, NotId(id));
      }
    }
    Filter(users, NotId(id))
  }

  /** Deletion keeps every other user as many times as it was stored, and drops every copy of `id`. */
  lemma WithoutUserCounts(users: seq<User>, id: string, u: User)
    ensures multiset(WithoutUser(users, id))[u] == if u.id == id then 0 else multiset(users)[u]
  {
    FilterMultiset(users, NotId(id), u);
  }

  /** `Partial<Prescription>`: a field given as `Some` overwrites, `None` is a key the update does not carry. */
  datatype PrescriptionPatch = PrescriptionPatch(
    id: Option<string>,
    patientEmail: Option<string>,
    doctorId: Option<string>,
    doctorName: Option<string>,
    doctorEmail: Option<string>,
    date: Option<string>,
    diagnosis: Option<string>,
    medications: Option<seq<Medication>>,
    status: Option<Status>,
    notes: Option<string>,
    qrCode: Option<string>)

  const NoChanges := PrescriptionPatch(None, None, None, None, None, None, None, None, None, None, None)

  /** The update the pharmacist's dispense action sends: `{ status }`. */
  function StatusPatch(s: Status): PrescriptionPatch {
    NoChanges.(status := Some(s))
  }

  /** `{ ...p, ...u }`: each field the update carries wins; every other field keeps its value. */
  function Merge(p: Prescription, u: PrescriptionPatch): (r: Prescription)
    ensures (u.id.Some? ==> r.id == u.id.value) && (u.id.None? ==> r.id == p.id)
    ensures (u.patientEmail.Some? ==> r.patientEmail == u.patientEmail.value) && (u.patientEmail.None? ==> r.patientEmail == p.patientEmail)
    ensures (u.doctorId.Some? ==> r.doctorId == u.doctorId.value) && (u.doctorId.None? ==> r.doctorId == p.doctorId)
    ensures (u.doctorName.Some? ==> r.doctorName == u.doctorName.value) && (u.doctorName.None? ==> r.doctorName == p.doctorName)
    ensures (u.doctorEmail.Some? ==> r.doctorEmail == u.doctorEmail.value) && (u.doctorEmail.None? ==> r.doctorEmail == p.doctorEmail)
    ensures (u.date.Some? ==> r.date == u.date.value) && (u.date.None? ==> r.date == p.date)
    ensures (u.diagnosis.Some? ==> r.diagnosis == u.diagnosis.value) && (u.diagnosis.None? ==> r.diagnosis == p.diagnosis)
    ensures (u.medications.Some? ==> r.medications == u.medications.value) && (u.medications.None? ==> r.medications == p.medications)
    ensures (u.status.Some? ==> r.status == u.status.value) && (u.status.None? ==> r.status == p.status)
    ensures (u.notes.Some? ==> r.notes == u.notes) && (u.notes.None? ==> r.notes == p.notes)
    ensures (u.qrCode.Some? ==> r.qrCode == u.qrCode.value) && (u.qrCode.None? ==> r.qrCode == p.qrCode)
  {
    Prescription(
      u.id.GetOr(p.id),
      u.patientEmail.GetOr(p.patientEmail),
      u.doctorId.GetOr(p.doctorId),
      u.doctorName.GetOr(p.doctorName),
      u.doctorEmail.GetOr(p.doctorEmail),
      u.date.GetOr(p.date),
      u.diagnosis.GetOr(p.diagnosis),
      u.medications.GetOr(p.medications),
      u.status.GetOr(p.status),
      if u.notes.Some? then u.notes else p.notes,
      u.qrCode.GetOr(p.qrCode))
  }

  /** An update that carries no field leaves a record as it is; applying an update twice is applying it once. */
  lemma MergeLaws(p: Prescription, u: PrescriptionPatch)
    ensures Merge(p, NoChanges) == p
    ensures Merge(Merge(p, u), u) == Merge(p, u)
  {
  }

  /** A status-only update changes the status field and no other. */
  lemma MergeStatus(p: Prescription, s: Status)
    ensures Merge(p, StatusPatch(s)) == p.(status := s)
  {
  }

  function HasId(id: string): Prescription -> bool { (p: Prescription) => p.id == id }

  /**
   * The list `updatePrescription(id, u)` leaves: the first record with that id
   * merged with `u`, every other index as it was; an unknown id changes nothing.
   */
  function UpdateFirst(rxs: seq<Prescription>, id: string, u: PrescriptionPatch): (r: seq<Prescription>)
    ensures |r| == |rxs|
    ensures (forall i :: 0 <= i < |rxs| ==> rxs[i].id != id) ==> r == rxs
    ensures forall k :: 0 <= k < |rxs| && rxs[k].id == id && (forall j :: 0 <= j < k ==> rxs[j].id != id) ==>
      r[k] == Merge(rxs[k], u) && forall j :: 0 <= j < |rxs| && j != k ==> r[j] == rxs[j]
  {
    match FirstIndex(rxs, HasId(id))
    case None => rxs
    case Some(k) => rxs[k := Merge(rxs[k], u)]
  }

  /**
   * The browser storage behind the store: one entry per key, `None` while the
   * key is absent. The methods are the store's write operations; each reads the
   * collection, changes it and writes the whole collection back.
   */
  class RecordStore {
    var userEntry: Option<seq<User>>
    var rxEntry: Option<seq<Prescription>>

    /** Opening the store over existing storage runs `seedData` once. */
    constructor (storedUsers: Option<seq<User>>, storedPrescriptions: Option<seq<Prescription>>)
      ensures storedUsers.None? ==> userEntry == Some(SeedUsers())
      ensures storedUsers.Some? ==> userEntry == storedUsers
      ensures rxEntry == storedPrescriptions
    {
      userEntry := storedUsers;
      rxEntry := storedPrescriptions;
      new;
      SeedData();
    }

    /** `getUsers()`: a missing entry reads as the empty list. */
    function GetUsers(): (r: seq<User>)
      reads this
      ensures userEntry.None? ==> r == []
      ensures userEntry.Some? ==> r == userEntry.value
    {
      userEntry.GetOr([])
    }

    /** `getPrescriptions()`: a missing entry reads as the empty list. */
    function GetPrescriptions(): (r: seq<Prescription>)
      reads this
      ensures rxEntry.None? ==> r == []
      ensures rxEntry.Some? ==> r == rxEntry.value
    {
      rxEntry.GetOr([])
    }

    /** `seedData()`: writes the seed accounts when the user entry is absent, otherwise changes nothing. */
    method SeedData()
      modifies this
      ensures old(userEntry).None? ==> userEntry == Some(SeedUsers())
      ensures old(userEntry).Some? ==> userEntry == old(userEntry)
      ensures rxEntry == old(rxEntry)
    {
      if userEntry.None? {
        userEntry := Some(SeedUsers());
      }
    }

    /** `addUser(u)`: pushes `u` at the end, with no duplicate check. */
    method AddUser(u: User)
      modifies this
      ensures userEntry == Some(old(GetUsers()) + [u])
      ensures rxEntry == old(rxEntry)
    {
      var users := GetUsers();
      users := users + [u];
      userEntry := Some(users);
    }

    /** `deleteUser(id)`: writes back the users whose id is not `id`. */
    method DeleteUser(id: string)
      modifies this
      ensures userEntry == Some(WithoutUser(old(GetUsers()), id))
      ensures rxEntry == old(rxEntry)
    {
      var users := Filter(GetUsers(), NotId(id));
      userEntry := Some(users);
    }

    /** `savePrescription(p)`: inserts `p` at the head. */
    method SavePrescription(p: Prescription)
      modifies this
      ensures rxEntry == Some([p] + old(GetPrescriptions()))
      ensures userEntry == old(userEntry)
    {
      var list := GetPrescriptions();
      list := [p] + list;
      rxEntry := Some(list);
    }

    /** `updatePrescription(id, u)`: merges `u` into the first record with that id; storage is written only when one exists. */
    method UpdatePrescription(id: string, u: PrescriptionPatch)
      modifies this
      ensures GetPrescriptions() == UpdateFirst(old(GetPrescriptions()), id, u)
      ensures (forall i :: 0 <= i < |old(GetPrescriptions())| ==> old(GetPrescriptions())[i].id != id) ==> rxEntry == old(rxEntry)
      ensures (exists i :: 0 <= i < |old(GetPrescriptions())| && old(GetPrescriptions())[i].id == id) ==> rxEntry.Some?
      ensures userEntry == old(userEntry)
    {
      var list := GetPrescriptions();
      var index := FirstIndex(list, HasId(id));
      if index.Some? {
        list := list[index.value := Merge(list[index.value], u)];
        rxEntry := Some(list);
      }
    }
  }

  // ---------------------------------------------------------------------------
  // Properties that relate several operations.
  // ---------------------------------------------------------------------------

  /** After `addUser(u)` a lookup by u's email and role succeeds, and finds `u` itself when no earlier user matched. */
  lemma AddedUserIsFound(users: seq<User>, u: User)
    ensures UserByEmail(users + [u], u.email, u.role).Some?
    ensures UserByEmail(users, u.email, u.role).None? ==> UserByEmail(users + [u], u.email, u.role) == Some(u)
  {
    var s := users + [u];
    assert s[|users|] == u;
    if UserByEmail(users, u.email, u.role).None? {
      var r := UserByEmail(s, u.email, u.role).value;
      var i :| 0 <= i < |s| && s[i] == r &&
        (forall j :: 0 <= j < i ==> !(EqualsIgnoreCase(s[j].email, u.email) && s[j].role == u.role));
      if i < |users| {
        assert s[i] == users[i];
      }
    }
  }

  /** Lookup is case-insensitive on the email and exact on the role. */
  lemma LookupIgnoresCaseNotRole(u: User, email: string)
    requires EqualsIgnoreCase(u.email, email)
    ensures UserByEmail([u], email, u.role) == Some(u)
    ensures forall role :: role != u.role ==> UserByEmail([u], email, role).None?
  {
  }

  /** Two prescriptions saved one after the other are listed newest first, ahead of the earlier records. */
  method SaveTwice(store: RecordStore, p1: Prescription, p2: Prescription)
    modifies store
    ensures store.GetPrescriptions() == [p2, p1] + old(store.GetPrescriptions())
    ensures store.userEntry == old(store.userEntry)
  {
    store.SavePrescription(p1);
    store.SavePrescription(p2);
    assert [p2] + ([p1] + old(store.GetPrescriptions())) == [p2, p1] + old(store.GetPrescriptions());
  }

  /** Dispensing through the store changes the status of exactly the first record with that id. */
  lemma {:induction false} DispenseChangesOnlyStatus(rxs: seq<Prescription>, k: nat)
    requires k < |rxs|
    requires forall j :: 0 <= j < k ==> rxs[j].id != rxs[k].id
    ensures UpdateFirst(rxs, rxs[k].id, StatusPatch(Dispensed)) == rxs[k := rxs[k].(status := Dispensed)]
  {
    MergeStatus(rxs[k], Dispensed);
    var r := UpdateFirst(rxs, rxs[k].id, StatusPatch(Dispensed));
    assert forall j :: 0 <= j < |rxs| ==> r[j] == rxs[k := rxs[k].(status := Dispensed)][j];
  }

  /** A saved prescription heads its patient's history. */
  lemma SavedHeadsHistory(rxs: seq<Prescription>, p: Prescription, email: string)
    requires EqualsIgnoreCase(p.patientEmail, email)
    ensures |PatientHistory([p] + rxs, email)| >= 1 && PatientHistory([p] + rxs, email)[0] == p
  {
    FilterConcat([p], rxs, PatientIs(email));
  }
}
