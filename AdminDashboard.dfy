/** `pages/AdminDashboard.tsx`: the queue of doctors awaiting verification, and the names shown on
    the prescription rows. */
module AdminDashboard {
  import opened Wrappers
  import opened Seqs
  import opened Types

  /** A doctor record as the admin page writes it (no age, photo, condition or assigned doctor). */
  function DoctorRecord(uid: string, name: string, email: string, approved: bool, specialty: string): User
  {
    User(uid, name, email, Doctor, approved, None, None, Some(specialty), None, None, None)
  }

  function PatientRecord(uid: string, name: string, email: string, age: int): User
  {
    User(uid, name, email, Patient, true, Some(age), None, None, None, None, None)
  }

  const SeedPending: seq<User> := [
    DoctorRecord("d100", "Dr. Michael Chen", "mchen@physio.com", false, "Sports Medicine"),
    DoctorRecord("d101", "Dr. Lisa Wong", "lwong@physio.com", false, "Neurological Rehab")]

  const SeedDoctors: seq<User> := [
    DoctorRecord("d1", "Dr. Sarah Smith", "sarah@physio.com", true, "Orthopedics"),
    DoctorRecord("d2", "Dr. James Wilson", "james@physio.com", true, "Pediatrics")]

  const SeedPatients: seq<User> := [
    PatientRecord("p1", "John Doe", "john@example.com", 34),
    PatientRecord("p2", "Jane Smith", "jane@example.com", 28),
    PatientRecord("p3", "Rajesh Kumar", "rajesh@example.com", 45)]

  const SeedPrescriptions: seq<ExercisePlan> := [
    ExercisePlan("ex_1", "p1", "d1", "Lumbar Support Routine", "Daily stretches for chronic back pain",
                 "15 mins", "2023-10-24"),
    ExercisePlan("ex_2", "p2", "d2", "Wrist Mobility Phase 1", "Gentle rotations and grip strengthening",
                 "10 mins", "2023-10-25")]

  /** `prev.filter(d => d.uid !== uid)`: every record with that uid removed, the rest in order. */
  function WithoutUid(users: seq<User>, uid: string): (r: seq<User>)
    ensures forall u :: u in r <==> u in users && u.uid != uid
    ensures |r| <= |users|
  {
    Filter(users, (u: User) => u.uid != uid)
  }

  /** Removing a uid a second time removes nothing more. */
  lemma WithoutUidIdempotent(users: seq<User>, uid: string)
    ensures WithoutUid(WithoutUid(users, uid), uid) == WithoutUid(users, uid)
  {
    FilterIdempotent(users, (u: User) => u.uid != uid);
  }

  /** A uid no record carries leaves the list exactly as it was. */
  lemma WithoutUnknownUid(users: seq<User>, uid: string)
    requires forall i :: 0 <= i < |users| ==> users[i].uid != uid
    ensures WithoutUid(users, uid) == users
  {
    FilterKeepsAll(users, (u: User) => u.uid != uid);
  }

  /** The survivors keep their order: removal from a list split in two is removal from each part. */
  lemma WithoutUidInOrder(a: seq<User>, b: seq<User>, uid: string)
    ensures WithoutUid(a + b, uid) == WithoutUid(a, uid) + WithoutUid(b, uid)
  {
    FilterConcat(a, b, (u: User) => u.uid != uid);
  }

  /** The "Verify Medical Professionals" panel: hidden when the queue is empty, otherwise shown
      with a badge counting the queue. */
  datatype PendingPanel = Hidden | Shown(badge: nat)

  function PendingPanelFor(pending: seq<User>): (p: PendingPanel)
    ensures p.Hidden? <==> pending == []
    ensures p.Shown? ==> p.badge == |pending| && p.badge > 0
  {
    if |pending| > 0 then Shown(|pending|) else Hidden
  }

  /** `list.find(u => u.uid === id)?.name || fallback`: the first record with that uid, its name
      when non-empty, otherwise the fallback. */
  function DisplayName(users: seq<User>, id: string, fallback: string): (name: string)
    ensures (forall i :: 0 <= i < |users| ==> users[i].uid != id) ==> name == fallback
    ensures name != fallback ==>
      exists i :: 0 <= i < |users| && users[i].uid == id && users[i].name == name &&
                  forall j :: 0 <= j < i ==> users[j].uid != id
    ensures name == "" ==> fallback == ""
    ensures forall i :: 0 <= i < |users| && users[i].uid == id &&
                        (forall j :: 0 <= j < i ==> users[j].uid != id) ==>
                          name == (if users[i].name != "" then users[i].name else fallback)
  {
    var found := Find(users, (u: User) => u.uid == id);
    if found.Some? && found.value.name != "" then found.value.name else fallback
  }

  /** The admin's page state; only the pending queue has a setter. */
  class AdminPanel {
    var pendingDoctors: seq<User>
    const allDoctors: seq<User>
    const allPatients: seq<User>
    const prescriptions: seq<ExercisePlan>

    constructor()
      ensures pendingDoctors == SeedPending && allDoctors == SeedDoctors
      ensures allPatients == SeedPatients && prescriptions == SeedPrescriptions
    {
      pendingDoctors := SeedPending;
      allDoctors := SeedDoctors;
      allPatients := SeedPatients;
      prescriptions := SeedPrescriptions;
    }

    /** `handleApprove(uid)`: the doctor leaves the queue; no `approved` flag is set anywhere. */
    method Approve(uid: string)
      modifies this
      ensures pendingDoctors == WithoutUid(old(pendingDoctors), uid)
      ensures forall u :: u in pendingDoctors ==> u in old(pendingDoctors)
    {
      pendingDoctors := WithoutUid(pendingDoctors, uid);
    }

    /** `handleReject(uid)`: the same effect on the queue as approving. */
    method Reject(uid: string)
      modifies this
      ensures pendingDoctors == WithoutUid(old(pendingDoctors), uid)
      ensures forall u :: u in pendingDoctors ==> u in old(pendingDoctors)
    {
      pendingDoctors := WithoutUid(pendingDoctors, uid);
    }
  }

  /** The first seed prescription shows John Doe and Dr. Sarah Smith. */
  lemma FirstSeedRow()
    ensures DisplayName(SeedPatients, SeedPrescriptions[0].patientId, "Unknown Patient") == "John Doe"
    ensures DisplayName(SeedDoctors, SeedPrescriptions[0].doctorId, "Unknown Doctor") == "Dr. Sarah Smith"
  {
  }

  /** The second seed prescription shows Jane Smith and Dr. James Wilson. */
  lemma SecondSeedRow()
    ensures DisplayName(SeedPatients, SeedPrescriptions[1].patientId, "Unknown Patient") == "Jane Smith"
    ensures DisplayName(SeedDoctors, SeedPrescriptions[1].doctorId, "Unknown Doctor") == "Dr. James Wilson"
  {
  }
}
