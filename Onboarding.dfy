/** `pages/Onboarding.tsx`: pick a condition, then a specialist of its specialty, then complete the
    profile through the auth store. */
module Onboarding {
  import opened Wrappers
  import opened Seqs
  import opened Types
  import opened Auth

  /** One of the condition cards (its icon and description are display only). */
  datatype Condition = Condition(id: string, title: string, specialty: string)

  const Ortho := Condition("ortho", "Orthopedic / Bone", "Orthopedics")
  const Neuro := Condition("neuro", "Neurological", "Neurology")
  const Sports := Condition("sports", "Sports Injury", "Sports Medicine")
  const Geriatric := Condition("geriatric", "Geriatric Care", "Geriatrics")

  const Conditions: seq<Condition> := [Ortho, Neuro, Sports, Geriatric]

  /** A listed specialist: a partial user with a uid, a name, a specialty and the approved flag. */
  function Specialist(uid: string, name: string, specialty: string): UserPatch
  {
    NoFields.(uid := Some(uid), name := Some(name), specialty := Some(specialty), approved := Some(true))
  }

  const MockDoctors: seq<UserPatch> := [
    Specialist("d1", "Dr. Sarah Smith", "Orthopedics"),
    Specialist("d2", "Dr. James Wilson", "Neurology"),
    Specialist("d3", "Dr. Elena Rodriguez", "Sports Medicine"),
    Specialist("d4", "Dr. Amit Shah", "Orthopedics")]

  /** The filter test: every doctor before a condition is chosen, then those of its specialty. */
  predicate Matches(selected: Option<Condition>, d: UserPatch)
  {
    selected.Some? ==> d.specialty == Some(selected.value.specialty)
  }

  /** `filteredDoctors`. */
  function FilteredDoctors(doctors: seq<UserPatch>, selected: Option<Condition>): (r: seq<UserPatch>)
    ensures selected.None? ==> r == doctors
    ensures forall d :: d in r <==> d in doctors && Matches(selected, d)
    ensures |r| <= |doctors|
  {
    var keep := (d: UserPatch) => Matches(selected, d);
    var r := Filter(doctors, keep);
    assert selected.None? ==> r == doctors by {
      if selected.None? {
        FilterKeepsAll(doctors, keep);
      }
    }
    r
  }

  /** The specialists keep their relative order: filtering a list split in two is filtering the
      two halves. */
  lemma FilteredDoctorsInOrder(a: seq<UserPatch>, b: seq<UserPatch>, selected: Option<Condition>)
    ensures FilteredDoctors(a + b, selected) == FilteredDoctors(a, selected) + FilteredDoctors(b, selected)
  {
    FilterConcat(a, b, (d: UserPatch) => Matches(selected, d));
  }

  /** Filtering four elements of which the first and the last pass. */
  lemma FilterFirstAndLast<T(!new)>(a: T, b: T, c: T, d: T, keep: T -> bool)
    requires keep(a) && !keep(b) && !keep(c) && keep(d)
    ensures Filter([a, b, c, d], keep) == [a, d]
  {
    var none: seq<T> := [];
    assert [a, b, c, d] == [a] + ([b] + ([c] + ([d] + none)));
    FilterCons(d, none, keep);
    FilterCons(c, [d] + none, keep);
    FilterCons(b, [c] + ([d] + none), keep);
    FilterCons(a, [b] + ([c] + ([d] + none)), keep);
  }

  /** On the seed list, orthopedics lists d1 then d4, in that order. */
  lemma OrthopedicSpecialists()
    ensures FilteredDoctors(MockDoctors, Some(Ortho)) == [MockDoctors[0], MockDoctors[3]]
  {
    var d1, d2, d3, d4 := MockDoctors[0], MockDoctors[1], MockDoctors[2], MockDoctors[3];
    assert MockDoctors == [d1, d2, d3, d4];
    var ortho := (d: UserPatch) => Matches(Some(Ortho), d);
    assert ortho(d1) && !ortho(d2) && !ortho(d3) && ortho(d4);
    FilterFirstAndLast(d1, d2, d3, d4, ortho);
  }

  /** No seed specialist practises geriatrics, so that condition offers nobody. */
  lemma GeriatricSpecialists()
    ensures FilteredDoctors(MockDoctors, Some(Geriatric)) == []
  {
  }

  /** The update `handleComplete` sends: the condition's title (not its specialty) and the uid. */
  function CompletionPatch(c: Condition, doctorId: string): (p: UserPatch)
    ensures p.condition == Some(c.title) && p.assignedDoctorId == Some(doctorId)
    ensures p.uid.None? && p.role.None? && p.approved.None?
  {
    NoFields.(condition := Some(c.title), assignedDoctorId := Some(doctorId))
  }

  /** Merged into any user, the completion update changes the condition and the assigned doctor
      and nothing else. */
  lemma CompletionChangesTwoFields(c: Condition, doctorId: string, u: User)
    ensures Merge(u, CompletionPatch(c, doctorId)) ==
            u.(condition := Some(c.title), assignedDoctorId := Some(doctorId))
  {
  }

  /** The wizard's state: the step shown, the condition and the doctor picked so far. */
  class Wizard {
    var step: nat
    var selectedCondition: Option<Condition>
    var selectedDoctorId: Option<string>

    /** The step is 1 or 2, the second step always has a condition, and conditions come from the
        cards. */
    ghost predicate Valid()
      reads this
    {
      step in {1, 2} &&
      (step == 2 ==> selectedCondition.Some?) &&
      (selectedCondition.Some? ==> selectedCondition.value in Conditions)
    }

    constructor()
      ensures Valid()
      ensures step == 1 && selectedCondition == None && selectedDoctorId == None
    {
      step := 1;
      selectedCondition := None;
      selectedDoctorId := None;
    }

    /** The doctors offered on step 2. */
    function Offered(): seq<UserPatch>
      reads this
    {
      FilteredDoctors(MockDoctors, selectedCondition)
    }

    /** The complete button is enabled once a (non-empty) doctor uid is picked. */
    predicate CompleteEnabled()
      reads this
    {
      Truthy(selectedDoctorId)
    }

    /** Clicking a condition card: go to step 2; the doctor picked before is kept. */
    method ChooseCondition(c: Condition)
      requires Valid() && step == 1 && c in Conditions
      modifies this
      ensures Valid()
      ensures step == 2 && selectedCondition == Some(c) && selectedDoctorId == old(selectedDoctorId)
    {
      selectedCondition := Some(c);
      step := 2;
    }

    /** "Back to conditions": step 1; neither selection is cleared. */
    method Back()
      requires Valid() && step == 2
      modifies this
      ensures Valid()
      ensures step == 1 && selectedCondition == old(selectedCondition)
      ensures selectedDoctorId == old(selectedDoctorId)
    {
      step := 1;
    }

    /** Clicking one of the offered doctors records its uid. */
    method ChooseDoctor(doc: UserPatch)
      requires Valid() && step == 2 && doc in Offered()
      modifies this
      ensures Valid()
      ensures selectedDoctorId == doc.uid
      ensures step == old(step) && selectedCondition == old(selectedCondition)
    {
      selectedDoctorId := doc.uid;
    }

    /** `handleComplete`: with a condition and a non-empty doctor uid, the signed-in user gets the
        condition's title and the doctor; otherwise nothing happens. */
    method Complete(auth: AuthStore)
      requires Valid() && auth.Valid()
      modifies auth
      ensures auth.Valid() && auth.loading == old(auth.loading)
      ensures !(selectedCondition.Some? && Truthy(selectedDoctorId)) ==>
        auth.user == old(auth.user) && auth.stored == old(auth.stored)
      ensures old(auth.user).None? ==> auth.user == old(auth.user) && auth.stored == old(auth.stored)
      ensures selectedCondition.Some? && Truthy(selectedDoctorId) && old(auth.user).Some? ==>
        auth.user == Some(old(auth.user).value.(condition := Some(selectedCondition.value.title),
                                                assignedDoctorId := selectedDoctorId)) &&
        auth.stored == auth.user
      ensures selectedCondition.Some? && Truthy(selectedDoctorId) && old(auth.user).Some? ==>
        Truthy(auth.user.value.condition) && auth.user.value.role == old(auth.user).value.role
    {
      if selectedCondition.Some? && Truthy(selectedDoctorId) {
        var c := selectedCondition.value;
        var patch := CompletionPatch(c, selectedDoctorId.value);
        assert c.title != "" by { TitlesAreTruthy(c); }
        if auth.user.Some? {
          CompletionChangesTwoFields(c, selectedDoctorId.value, auth.user.value);
        }
        auth.UpdateUser(patch);
      }
    }
  }

  /** Every condition card has a non-empty title, so a completed profile counts as onboarded. */
  lemma TitlesAreTruthy(c: Condition)
    requires c in Conditions
    ensures c.title != ""
  {
  }

  /** A doctor picked under one condition stays selected after going back and choosing another,
      although the new list does not offer them: pick d1 under orthopedics, go back, choose
      neurology, and completion is still enabled with d1. */
  method StaleDoctorKept() returns (w: Wizard)
    ensures w.Valid() && w.step == 2 && w.selectedCondition == Some(Neuro)
    ensures w.selectedDoctorId == Some("d1") && w.CompleteEnabled()
    ensures forall d :: d in w.Offered() ==> d.uid != Some("d1")
  {
    w := new Wizard();
    w.ChooseCondition(Ortho);
    assert MockDoctors[0] in w.Offered();
    w.ChooseDoctor(MockDoctors[0]);
    w.Back();
    w.ChooseCondition(Neuro);
  }
}
