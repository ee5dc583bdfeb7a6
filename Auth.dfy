/** The mock authentication store of `context/AuthContext.tsx`: the signed-in user, the copy kept
    in browser storage under `physio_user`, and the loading flag of the start-up check. */
module Auth {
  import opened Wrappers
  import opened Text
  import opened Types

  const AdminEmail := "admin@physio.com"

  /** The profile `login(email, pass)` signs in; the password plays no part. */
  function LoginProfile(email: string): (u: User)
    ensures u.email == email && u.approved
    ensures u.role == Admin <==> email == AdminEmail
    ensures u.role == Doctor <==> email != AdminEmail && Includes(email, "doctor")
    ensures u.role == Patient <==> email != AdminEmail && !Includes(email, "doctor")
    ensures u.uid == (if u.role == Admin then "1" else if u.role == Doctor then "2" else "3")
    ensures u.condition == None && u.assignedDoctorId == None
  {
    if email == AdminEmail then
      User("1", "Admin User", email, Admin, true, None, None, None, None, None, None)
    else if Includes(email, "doctor") then
      User("2", "Dr. Sarah Smith", email, Doctor, true, None, None, Some("Orthopedics"), None, None, None)
    else
      User("3", "John Doe", email, Patient, true, Some(30), Some("Male"), None, None, None, None)
  }

  /** The admin address does not contain "doctor", so no address is caught by both tests; the
      admin test still comes first. */
  lemma AdminEmailIsNotDoctor()
    ensures !Includes(AdminEmail, "doctor")
  {
    NoLeadingPairExcludes(AdminEmail, "doctor");
  }

  /** Any address that contains "doctor" somewhere signs in as the doctor, uid '2'. */
  lemma DoctorSubstringLogin(local: string, domain: string)
    ensures LoginProfile(local + "doctor" + domain).role == Doctor
    ensures LoginProfile(local + "doctor" + domain).uid == "2"
  {
    var e := local + "doctor" + domain;
    assert OccursAt(e, "doctor", |local|) by {
      assert e[|local|..|local| + 6] == "doctor";
    }
    if e == AdminEmail {
      AdminEmailIsNotDoctor();
    }
  }

  /** The test is case-sensitive: "Doctor" with a capital letter signs in a patient. */
  lemma CapitalDoctorIsPatient()
    ensures LoginProfile("Doctor@physio.com").role == Patient
  {
    NoLeadingPairExcludes("Doctor@physio.com", "doctor");
  }

  /** The record `signup(data)` builds before the spread: defaults chosen with JavaScript's `||`,
      so an empty name falls back as well as a missing one. */
  function SignupDefaults(data: UserPatch, freshUid: string): User
  {
    User(
      freshUid,
      if Truthy(data.name) then data.name.value else "New User",
      if Truthy(data.email) then data.email.value else "",
      if data.role.Some? && RoleTruthy(data.role.value) then data.role.value else Patient,
      data.role != Some(Doctor),
      None, None, None, None, None, None)
  }

  /** The new user of `signup(data)`: the defaults, then every key of `data` spread over them.
      `freshUid` stands for the random id the source draws. */
  function SignupProfile(data: UserPatch, freshUid: string): (u: User)
    ensures u.uid == data.uid.GetOr(freshUid)
    ensures u.name == data.name.GetOr("New User")
    ensures u.email == data.email.GetOr("")
    ensures u.role == data.role.GetOr(Patient)
    ensures u.approved == data.approved.GetOr(data.role != Some(Doctor))
    ensures data.approved.None? ==> (u.approved <==> u.role != Doctor)
    ensures u.age == data.age && u.gender == data.gender
    ensures u.specialty == data.specialty && u.photoURL == data.photoURL
    ensures u.condition == data.condition && u.assignedDoctorId == data.assignedDoctorId
  {
    Merge(SignupDefaults(data, freshUid), data)
  }

  /** A sign-up as a doctor waits for approval; one without a role becomes an approved patient. */
  lemma SignupApproval(name: string, email: string, uid: string)
    ensures !SignupProfile(NoFields.(name := Some(name), email := Some(email), role := Some(Doctor)), uid).approved
    ensures var u := SignupProfile(NoFields.(name := Some(name), email := Some(email)), uid);
      u.role == Patient && u.approved
  {
  }

  /** The store. `stored` is the persisted copy; `loading` is true until the start-up check ran. */
  class AuthStore {
    var user: Option<User>
    var stored: Option<User>
    var loading: bool

    /** Once loading is over, the persisted copy always equals the signed-in user. */
    ghost predicate Valid()
      reads this
    {
      !loading ==> user == stored
    }

    /** A fresh provider: no user yet, still loading, with whatever the browser had stored. */
    constructor(saved: Option<User>)
      ensures Valid()
      ensures user == None && stored == saved && loading
    {
      user := None;
      stored := saved;
      loading := true;
    }

    /** The start-up check: adopt the stored user if there is one, then stop loading. It runs once,
        on mount, before any page can sign a user in. */
    method RestoreSession()
      requires user == None
      modifies this
      ensures Valid()
      ensures user == old(stored) && stored == old(stored) && !loading
    {
      if stored.Some? {
        user := stored;
      }
      loading := false;
    }

    /** `login(email, pass)`. */
    method Login(email: string, pass: string)
      requires Valid()
      modifies this
      ensures Valid()
      ensures user == Some(LoginProfile(email)) && stored == user && loading == old(loading)
    {
      var u := LoginProfile(email);
      user := Some(u);
      stored := Some(u);
    }

    /** `signup(data)`, with the random uid passed in. */
    method Signup(data: UserPatch, freshUid: string)
      requires Valid()
      modifies this
      ensures Valid()
      ensures user == Some(SignupProfile(data, freshUid)) && stored == user
      ensures loading == old(loading)
    {
      var u := SignupProfile(data, freshUid);
      user := Some(u);
      stored := Some(u);
    }

    /** `logout()`: both the user and the persisted copy are cleared. */
    method Logout()
      requires Valid()
      modifies this
      ensures Valid()
      ensures user == None && stored == None && loading == old(loading)
    {
      user := None;
      stored := None;
    }

    /** `updateUser(data)`: merged into the signed-in user and persisted; nothing when signed out. */
    method UpdateUser(data: UserPatch)
      requires Valid()
      modifies this
      ensures Valid()
      ensures old(user).None? ==> user == old(user) && stored == old(stored)
      ensures old(user).Some? ==> user == Some(Merge(old(user).value, data)) && stored == user
      ensures loading == old(loading)
    {
      if user.Some? {
        var updated := Merge(user.value, data);
        user := Some(updated);
        stored := Some(updated);
      }
    }
  }
}
