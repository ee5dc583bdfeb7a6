/** `pages/Dashboard.tsx`: the loading and signed-out cases, then one dashboard per role. */
module Dashboard {
  import opened Wrappers
  import opened Types
  import opened App

  /** What the dashboard route renders inside its frame. */
  datatype View = Spinner | Nothing | AdminView | DoctorView | PatientView | Unauthorized

  /** `Dashboard` for the current `(loading, user)`. */
  function DashboardFor(loading: bool, user: Option<User>): (v: View)
    ensures v == Spinner <==> loading
    ensures v == Nothing <==> !loading && user.None?
    ensures v == AdminView <==> !loading && user.Some? && user.value.role == Admin
    ensures v == DoctorView <==> !loading && user.Some? && user.value.role == Doctor
    ensures v == PatientView <==> !loading && user.Some? && user.value.role == Patient
    ensures v == Unauthorized <==> !loading && user.Some? && user.value.role.Other?
  {
    if loading then Spinner
    else if user.None? then Nothing
    else
      match user.value.role
      case Admin => AdminView
      case Doctor => DoctorView
      case Patient => PatientView
      case Other(_) => Unauthorized
  }

  /** Behind the gate the dashboard never shows its spinner or an empty page, a doctor sees the
      doctor view only once approved, and a patient sees the patient view only with a condition. */
  lemma GatedDashboard(loading: bool, user: Option<User>)
    requires Render("/dashboard", loading, user) == Show(DashboardPage)
    ensures DashboardFor(loading, user) !in {Spinner, Nothing}
    ensures DashboardFor(loading, user) == DoctorView ==> user.value.approved
    ensures DashboardFor(loading, user) == PatientView ==> Truthy(user.value.condition)
  {
    assert RouteFor("/dashboard") == Guarded(DashboardPage);
  }

  /** A role string outside the enum, such as one taken from a `?role=` parameter at sign-up,
      passes the gate and reaches the "Unauthorized" view. */
  lemma UnknownRoleIsUnauthorized(u: User)
    requires u.role.Other?
    ensures Render("/dashboard", false, Some(u)) == Show(DashboardPage)
    ensures DashboardFor(false, Some(u)) == Unauthorized
  {
  }

  /** The role string a signed-in record carries decides the view: each enum value its own
      dashboard, and every other string "Unauthorized". */
  lemma RoleStringDecidesView(u: User, raw: string)
    ensures var v := DashboardFor(false, Some(u.(role := ParseRole(raw))));
      (v == AdminView <==> raw == "ADMIN") && (v == DoctorView <==> raw == "DOCTOR") &&
      (v == PatientView <==> raw == "PATIENT") &&
      (v == Unauthorized <==> raw !in {"PATIENT", "DOCTOR", "ADMIN"})
  {
  }
}
