/** The records of `types.ts`: users with their role, a partial user used as an update, and the
    exercise plans an admin lists. */
module Types {
  import opened Wrappers

  /** A role. The three enum members, plus any other string that reaches a user record (the signup
      page casts an arbitrary `?role=` query parameter to the enum, and the persisted copy is parsed
      back without checks). `Other(raw)` stands for a raw string that is none of the three names. */
  datatype UserRole = Patient | Doctor | Admin | Other(raw: string)

  /** The roles a record can hold: a string equal to one of the three names is that enum member,
      so `Other` never carries one of them. */
  type Role = r: UserRole | !r.Other? || r.raw !in {"PATIENT", "DOCTOR", "ADMIN"} witness Patient

  /** The string value a role carries at run time. */
  function RoleName(r: UserRole): string
  {
    match r
    case Patient => "PATIENT"
    case Doctor => "DOCTOR"
    case Admin => "ADMIN"
    case Other(raw) => raw
  }

  /** Reads a role back from its string: the enum member with that value, otherwise `Other`. */
  function ParseRole(raw: string): (r: Role)
    ensures RoleName(r) == raw
    ensures r.Other? <==> raw !in {"PATIENT", "DOCTOR", "ADMIN"}
  {
    if raw == "PATIENT" then Patient
    else if raw == "DOCTOR" then Doctor
    else if raw == "ADMIN" then Admin
    else Other(raw)
  }

  /** A role read back from its string is the same role. */
  lemma ParseRoleName(r: Role)
    ensures ParseRole(RoleName(r)) == r
  {
  }

  /** Two roles with the same string are the same role. */
  lemma RoleNameInjective(a: Role, b: Role)
    ensures RoleName(a) == RoleName(b) <==> a == b
  {
    ParseRoleName(a);
    ParseRoleName(b);
  }

  /** A role is falsy only when its string is empty. */
  predicate RoleTruthy(r: UserRole)
  {
    RoleName(r) != ""
  }

  /** A user record; the fields marked optional in the source are `Option`s. */
  datatype User = User(
    uid: string,
    name: string,
    email: string,
    role: Role,
    approved: bool,
    age: Option<int>,
    gender: Option<string>,
    specialty: Option<string>,
    photoURL: Option<string>,
    condition: Option<string>,
    assignedDoctorId: Option<string>)

  /** A `Partial<User>`: each field either present (`Some`) or absent (`None`). */
  datatype UserPatch = UserPatch(
    uid: Option<string>,
    name: Option<string>,
    email: Option<string>,
    role: Option<Role>,
    approved: Option<bool>,
    age: Option<int>,
    gender: Option<string>,
    specialty: Option<string>,
    photoURL: Option<string>,
    condition: Option<string>,
    assignedDoctorId: Option<string>)

  const NoFields := UserPatch(None, None, None, None, None, None, None, None, None, None, None)

  /** An optional string is truthy when present and non-empty. */
  predicate Truthy(s: Option<string>)
  {
    s.Some? && s.value != ""
  }

  /** An optional field after a spread: the patch's value when the patch has the key. */
  function Override<T>(base: Option<T>, patch: Option<T>): (r: Option<T>)
    ensures patch.Some? ==> r == patch
    ensures patch.None? ==> r == base
  {
    if patch.Some? then patch else base
  }

  /** `{ ...u, ...p }`: every field present in `p` replaces the one in `u`; the rest stay. */
  function Merge(u: User, p: UserPatch): (r: User)
    ensures r.uid == p.uid.GetOr(u.uid) && r.name == p.name.GetOr(u.name)
    ensures r.email == p.email.GetOr(u.email) && r.role == p.role.GetOr(u.role)
    ensures r.approved == p.approved.GetOr(u.approved)
    ensures r.age == Override(u.age, p.age) && r.gender == Override(u.gender, p.gender)
    ensures r.specialty == Override(u.specialty, p.specialty)
    ensures r.photoURL == Override(u.photoURL, p.photoURL)
    ensures r.condition == Override(u.condition, p.condition)
    ensures r.assignedDoctorId == Override(u.assignedDoctorId, p.assignedDoctorId)
  {
    User(
      p.uid.GetOr(u.uid), p.name.GetOr(u.name), p.email.GetOr(u.email), p.role.GetOr(u.role),
      p.approved.GetOr(u.approved),
      Override(u.age, p.age), Override(u.gender, p.gender), Override(u.specialty, p.specialty),
      Override(u.photoURL, p.photoURL), Override(u.condition, p.condition),
      Override(u.assignedDoctorId, p.assignedDoctorId))
  }

  /** `{ ...p, ...q }` for two partial users: `q`'s keys win. */
  function Combine(p: UserPatch, q: UserPatch): (r: UserPatch)
    ensures r.uid == Override(p.uid, q.uid) && r.name == Override(p.name, q.name)
    ensures r.email == Override(p.email, q.email) && r.role == Override(p.role, q.role)
    ensures r.approved == Override(p.approved, q.approved) && r.age == Override(p.age, q.age)
    ensures r.gender == Override(p.gender, q.gender) && r.specialty == Override(p.specialty, q.specialty)
    ensures r.photoURL == Override(p.photoURL, q.photoURL)
    ensures r.condition == Override(p.condition, q.condition)
    ensures r.assignedDoctorId == Override(p.assignedDoctorId, q.assignedDoctorId)
  {
    UserPatch(
      Override(p.uid, q.uid), Override(p.name, q.name), Override(p.email, q.email),
      Override(p.role, q.role), Override(p.approved, q.approved), Override(p.age, q.age),
      Override(p.gender, q.gender), Override(p.specialty, q.specialty),
      Override(p.photoURL, q.photoURL), Override(p.condition, q.condition),
      Override(p.assignedDoctorId, q.assignedDoctorId))
  }

  /** Spreading an empty partial user changes nothing. */
  lemma MergeNoFields(u: User)
    ensures Merge(u, NoFields) == u
  {
  }

  /** Spreading the same partial user twice is the same as spreading it once. */
  lemma MergeIdempotent(u: User, p: UserPatch)
    ensures Merge(Merge(u, p), p) == Merge(u, p)
  {
  }

  /** Two updates in a row are one update with the later one's keys winning. */
  lemma MergeTwice(u: User, p: UserPatch, q: UserPatch)
    ensures Merge(Merge(u, p), q) == Merge(u, Combine(p, q))
  {
  }

  /** A prescribed exercise plan. */
  datatype ExercisePlan = ExercisePlan(
    id: string,
    patientId: string,
    doctorId: string,
    title: string,
    description: string,
    duration: string,
    datePrescribed: string)
}
