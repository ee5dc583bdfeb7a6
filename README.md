# PhysioSync front-end core, modelled in Dafny

PhysioSync is a single-page telehealth application for physiotherapy. Its data is mocked in
component state and in browser storage. The model covers the parts of it that make decisions or
change state:

- the doctor's availability editor: a map from `YYYY-MM-DD` day keys to a sorted list of `HH:MM`
  slots or the `BLOCKED` marker, seeded as in pages/DoctorDashboard.tsx:27-30, the slot and block
  toggles, and the month grid with its labels (`DoctorAvailability`, over the helpers `Seqs`,
  `Text` and `StringOrder`);
- the mock authentication store: login by e-mail, sign-up with defaults, shallow-merge updates,
  logout, and the persisted copy kept next to the signed-in user (`Types`, `Auth`);
- the `ProtectedRoute` gate and the route table (`App`), and the role dispatch of the dashboard
  (`Dashboard`);
- the onboarding wizard: the specialist filter, the two steps and the guarded completion
  (`Onboarding`);
- the admin's pending-doctor queue and the prescription name look-ups (`AdminDashboard`);
- the patient's notifications, plan icons and notification styling (`PatientDashboard`);
- the assistant chat: the send guard, the transcript and the loading flag around one model call
  (`HealthChat`).

State that the source keeps in React hooks is modelled as a class with those fields. Each method's
postcondition ties the new state to a pure function of the old state. The functions' properties
are proved as lemmas. JavaScript semantics are modelled explicitly where they matter:

- falsy empty strings;
- `includes` as a substring test;
- `trim` with the ECMAScript white-space set;
- `String(n).padStart`;
- the default `sort` order;
- the object spread, where later keys win.

The auth provider wraps the whole router and renders its children only once its start-up check
is over (context/AuthContext.tsx:74). While it is loading, no route is rendered at all, so two
branches written in the source are never reached in the running app: the gate's "render nothing
while loading" branch (App.tsx:14) and the dashboard's loading spinner (pages/Dashboard.tsx:14-20).
`App.Render` models the provider's guard; `ProtectedRoute` and `DashboardFor` still model those
branches as written, and `App.BlankOnlyWhileLoading` and `Dashboard.GatedDashboard` show that
they never reach the screen.

## Model

| member | source | states |
|---|---|---|
| DoctorAvailability.Without | pages/DoctorDashboard.tsx:54 | the time no longer occurs in the list, and every other time keeps its number of occurrences |
| DoctorAvailability.ToggledSlots | pages/DoctorDashboard.tsx:53-55 | a present time is removed and all others are kept; an absent time is added once and the result is sorted |
| DoctorAvailability.ToggleSlotIn | pages/DoctorDashboard.tsx:48-58 | a blocked day leaves the map unchanged; otherwise the day ends with a slot list, an unset day counting as `[]`, with the time removed or added as above; every other key is untouched |
| DoctorAvailability.ToggleBlockIn | pages/DoctorDashboard.tsx:60-65 | a blocked day becomes `[]`, any other day (list or unset) becomes blocked; every other key is untouched |
| DoctorAvailability.InsertThenRemove | pages/DoctorDashboard.tsx:53-55 | inserting an absent time in order and then removing it gives the list back |
| DoctorAvailability.RemoveThenInsert | pages/DoctorDashboard.tsx:53-55 | removing a time from a sorted duplicate-free list and inserting it again gives the list back |
| DoctorAvailability.WithoutStrictlySorted | pages/DoctorDashboard.tsx:54 | removal keeps a list sorted and free of duplicates |
| DoctorAvailability.InsertStrictlySorted | pages/DoctorDashboard.tsx:55 | inserting an absent time keeps a list sorted and free of duplicates |
| DoctorAvailability.SortOfSorted | pages/DoctorDashboard.tsx:55 | sorting an already sorted list leaves it unchanged |
| DoctorAvailability.AddIsInsert | pages/DoctorDashboard.tsx:55 | appending to a sorted list and sorting equals inserting in order |
| DoctorAvailability.ToggledSlotsTwice | pages/DoctorDashboard.tsx:53-55 | toggling the same time twice restores a sorted, duplicate-free list |
| DoctorAvailability.ToggledSlotsStrictlySorted | pages/DoctorDashboard.tsx:53-55 | toggling keeps a list sorted and free of duplicates |
| DoctorAvailability.ToggleSlotTwice | pages/DoctorDashboard.tsx:48-58 | `toggleSlot` twice on an open day restores its list; an unset day ends with `[]` |
| DoctorAvailability.ToggleSlotTwiceRestores | pages/DoctorDashboard.tsx:48-58 | on a day holding a sorted duplicate-free list, `toggleSlot` twice restores the whole map |
| DoctorAvailability.ToggleBlockTwice | pages/DoctorDashboard.tsx:60-65 | `toggleBlockDay` twice restores whether the day is blocked, but an open day comes back with `[]` |
| DoctorAvailability.TwoDigitsOf | pages/DoctorDashboard.tsx:77 | `padStart(2, '0')` of a number below 100 is two digits denoting that number |
| DoctorAvailability.DateKeyIsFullDate | pages/DoctorDashboard.tsx:77 | for a four-digit year, a month 0-11 and a day 1-31, the key has the `full-date` shape of section 5.6 of RFC 3339, and its fields read back as the year, month + 1 and the day |
| DoctorAvailability.DayKeysDistinct | pages/DoctorDashboard.tsx:77 | different days of one month get different keys |
| DoctorAvailability.LabelFor | pages/DoctorDashboard.tsx:79-101 | the blocked label exactly for a `BLOCKED` entry; a slot-count label exactly for a non-empty list, counting its length; no label otherwise |
| DoctorAvailability.LabelText | pages/DoctorDashboard.tsx:93-101 | the text is empty exactly when there is no label; a blocked day reads `BLOCKED`; a slot count reads as decimal digits followed by ` SLOTS`, and those digits denote the count |
| DoctorAvailability.GridCell | pages/DoctorDashboard.tsx:74-81 | cell `i` is blank exactly when `i < firstDay`; otherwise it is day `i - firstDay + 1` with that day's key, highlighted exactly when the key is the selected date, and labelled by that key's entry |
| DoctorAvailability.CalendarCells | pages/DoctorDashboard.tsx:72-77 | the grid has `firstDay + daysInMonth` cells, and each one is the cell for its position |
| DoctorAvailability.AtMostOneSelected | pages/DoctorDashboard.tsx:77-78 | at most one day cell of a month is highlighted as selected, and its key is the selected date |
| DoctorAvailability.CellShowsItsEntry | pages/DoctorDashboard.tsx:77-81 | day `d`'s cell carries its own key, is highlighted exactly when that key is the selected date, is labelled blocked exactly when that day is blocked, and shows a slot count exactly when its list is non-empty |
| DoctorAvailability.AvailabilityEditor.constructor | pages/DoctorDashboard.tsx:24-30 | the editor starts with the seed map and the given day selected, every list sorted and free of duplicates |
| DoctorAvailability.AvailabilityEditor.SelectDate | pages/DoctorDashboard.tsx:86 | a click on a day selects its key and leaves the map unchanged |
| DoctorAvailability.AvailabilityEditor.ToggleSlot | pages/DoctorDashboard.tsx:48-58 | the map becomes `ToggleSlotIn` of the old map on the selected day, and every list stays sorted and free of duplicates |
| DoctorAvailability.AvailabilityEditor.ToggleBlockDay | pages/DoctorDashboard.tsx:60-65 | the map becomes `ToggleBlockIn` of the old map on the selected day, and the list invariant is kept |
| DoctorAvailability.AvailabilityEditor.RenderCalendar | pages/DoctorDashboard.tsx:67-107 | the two loops build exactly the grid `CalendarCells` describes |
| StringOrder.Sort | pages/DoctorDashboard.tsx:55 | the default `sort()` returns a sorted permutation of its input |
| Text.PaddedValue | pages/DoctorDashboard.tsx:77 | `String(n).padStart(w, '0')` is all digits, denotes `n`, and is `w` characters long or the length of `n`'s digits if that is larger |
| Text.Includes | context/AuthContext.tsx:35 | `includes` holds exactly when the text occurs at some position |
| Text.TrimEmptyIffBlank | components/HealthChat.tsx:19 | the trimmed input is empty exactly when every character is white space |
| Types.ParseRole | types.ts:2-6 | a role string reads back as the enum member of that name, and as an unrecognised role exactly when it is none of the three |
| Types.ParseRoleName | types.ts:2-6 | reading a role back from its string gives the same role, so an unrecognised role never stands for one of the three names |
| Types.RoleNameInjective | types.ts:2-6 | two roles are equal exactly when their strings are |
| Types.Merge | context/AuthContext.tsx:66 | `{ ...user, ...data }`: every field present in the update replaces the user's field, and all other fields are kept |
| Types.MergeNoFields | context/AuthContext.tsx:66 | an update with no fields changes nothing |
| Types.MergeIdempotent | context/AuthContext.tsx:66 | applying the same update twice equals applying it once |
| Types.MergeTwice | context/AuthContext.tsx:66 | two updates in a row equal one update in which the later keys win |
| Auth.LoginProfile | context/AuthContext.tsx:29-44 | exactly `admin@physio.com` gives ADMIN with uid '1'; otherwise an address containing `doctor` gives DOCTOR with uid '2', and any other address gives PATIENT with uid '3'; the result is always approved, keeps the e-mail, and has no condition |
| Auth.AdminEmailIsNotDoctor | context/AuthContext.tsx:31-35 | the admin address does not contain `doctor` |
| Auth.DoctorSubstringLogin | context/AuthContext.tsx:35-38 | any address with `doctor` anywhere in it signs in the doctor, uid '2' |
| Auth.CapitalDoctorIsPatient | context/AuthContext.tsx:35-43 | the test is case-sensitive: `Doctor@physio.com` signs in a patient |
| Auth.SignupProfile | context/AuthContext.tsx:46-54 | each supplied field wins over its default, because the data is spread last; the defaults are the fresh uid, `New User`, `''` and PATIENT; when `approved` is not supplied, the user is approved exactly when not signing up as DOCTOR; the optional fields are exactly those supplied |
| Auth.SignupApproval | context/AuthContext.tsx:51-52 | a doctor sign-up is unapproved; a sign-up with no role gives an approved patient |
| Auth.AuthStore.constructor | context/AuthContext.tsx:16-18 | the provider starts with no user, loading, with the stored copy as the browser had it |
| Auth.AuthStore.RestoreSession | context/AuthContext.tsx:20-27 | the start-up check adopts the stored user, if any, and ends loading; the user then equals the stored copy |
| Auth.AuthStore.Login | context/AuthContext.tsx:29-44 | the user and the stored copy both become `LoginProfile(email)` |
| Auth.AuthStore.Signup | context/AuthContext.tsx:46-57 | the user and the stored copy both become `SignupProfile(data, uid)` |
| Auth.AuthStore.Logout | context/AuthContext.tsx:59-62 | both the user and the stored copy are cleared |
| Auth.AuthStore.UpdateUser | context/AuthContext.tsx:64-70 | with no user nothing changes; otherwise the user and the stored copy both become the merged record |
| App.ProtectedRoute | App.tsx:12-35 | renders nothing exactly while loading; redirects to `/login` exactly when there is no user; shows approval-pending exactly for an unapproved DOCTOR; redirects to `/onboarding` exactly for a PATIENT with a missing or empty condition; passes through in every other case |
| App.LoginThroughGate | App.tsx:18-34 | a logged-in mock user passes the gate, except the patient, who is sent to onboarding |
| App.DoctorSignupIsHeld | App.tsx:18-27 | a doctor who signed up is held at the approval screen |
| App.RouteFor | App.tsx:42-61 | exactly `/onboarding` and `/dashboard` are gated, and every unknown path redirects to `/` |
| App.Render | App.tsx:39-61 | nothing is shown while the auth provider is loading; afterwards open routes show their page, gated routes show what the gate decides, and unknown paths redirect to `/` |
| App.FallbackLandsHome | App.tsx:61 | once loading is over, an unknown path redirects to `/`, which shows the home page; while loading both show nothing |
| App.BlankOnlyWhileLoading | context/AuthContext.tsx:72-76 | the screen is blank exactly while the provider is loading, so the gate's own "render nothing" branch never shows |
| App.OnboardingUnreachable | App.tsx:30-52 | as written, `/onboarding` redirects a patient without a condition to itself, and no path shows them the onboarding page |
| App.IntendedGate | App.tsx:12-35 | the corrected gate lets a patient without a condition through on the onboarding page, and in every other case decides exactly as `ProtectedRoute` does |
| App.IntendedOnboarding | App.tsx:45-59 | with the correction, a patient without a condition sees the onboarding page, the dashboard still sends them there, and all other paths render as written |
| Dashboard.DashboardFor | pages/Dashboard.tsx:11-31 | spinner exactly while loading, nothing exactly without a user, then ADMIN, DOCTOR and PATIENT to their dashboards, and any other role to "Unauthorized" |
| Dashboard.GatedDashboard | pages/Dashboard.tsx:14-31 | behind the gate, the dashboard never shows its spinner or an empty page, the doctor view implies approval, and the patient view implies a condition |
| Dashboard.UnknownRoleIsUnauthorized | pages/Dashboard.tsx:29 | a role outside the enum passes the gate and reaches "Unauthorized" |
| Dashboard.RoleStringDecidesView | pages/Dashboard.tsx:25-29 | for a signed-in record, the role string `ADMIN`, `DOCTOR` or `PATIENT` gives that role's dashboard, and every other string gives "Unauthorized" |
| Onboarding.FilteredDoctors | pages/Onboarding.tsx:49-51 | with no condition, the whole list; with a condition, exactly the doctors of its specialty |
| Onboarding.FilteredDoctorsInOrder | pages/Onboarding.tsx:49-51 | the filter keeps the doctors' original order |
| Onboarding.OrthopedicSpecialists | pages/Onboarding.tsx:25-30 | the orthopedic condition lists d1 and then d4 |
| Onboarding.GeriatricSpecialists | pages/Onboarding.tsx:22-30 | geriatric care lists nobody |
| Onboarding.CompletionPatch | pages/Onboarding.tsx:41-44 | the update carries the condition's title, not its specialty, and the doctor's uid, and no uid, role or approval |
| Onboarding.CompletionChangesTwoFields | pages/Onboarding.tsx:41-44 | merged into any user, the update sets the condition and the assigned doctor and leaves every other field as it was |
| Onboarding.TitlesAreTruthy | pages/Onboarding.tsx:18-23 | every condition title is non-empty, so a completed profile passes the onboarding check |
| Onboarding.Wizard.constructor | pages/Onboarding.tsx:35-37 | the wizard starts on step 1 with nothing selected |
| Onboarding.Wizard.ChooseCondition | pages/Onboarding.tsx:70-73 | a condition card selects the condition and moves to step 2, keeping the doctor picked before |
| Onboarding.Wizard.Back | pages/Onboarding.tsx:90 | back returns to step 1 and clears neither selection |
| Onboarding.Wizard.ChooseDoctor | pages/Onboarding.tsx:103 | picking an offered doctor records its uid |
| Onboarding.Wizard.Complete | pages/Onboarding.tsx:39-47 | nothing happens unless a condition and a non-empty doctor uid are selected, or when nobody is signed in; otherwise the signed-in user and the stored copy get the condition's title and the doctor, every other field unchanged, so the condition becomes non-empty |
| Onboarding.StaleDoctorKept | pages/Onboarding.tsx:70-103 | picking d1 under orthopedics, going back and choosing neurology leaves d1 selected and completion enabled, though the new list does not offer d1 |
| AdminDashboard.WithoutUid | pages/AdminDashboard.tsx:43-44 | exactly the records with another uid remain |
| AdminDashboard.WithoutUidIdempotent | pages/AdminDashboard.tsx:44 | removing the same uid twice equals removing it once |
| AdminDashboard.WithoutUnknownUid | pages/AdminDashboard.tsx:44 | a uid no record carries leaves the list unchanged |
| AdminDashboard.WithoutUidInOrder | pages/AdminDashboard.tsx:44 | the remaining records keep their order |
| AdminDashboard.PendingPanelFor | pages/AdminDashboard.tsx:84-91 | the panel is hidden exactly when the queue is empty, and its badge counts the queue |
| AdminDashboard.DisplayName | pages/AdminDashboard.tsx:313-322 | the first record with the uid decides: its name when non-empty, otherwise the fallback; with no such record, the fallback |
| AdminDashboard.AdminPanel.constructor | pages/AdminDashboard.tsx:16-41 | the page starts with the seed queue, doctors, patients and prescriptions |
| AdminDashboard.AdminPanel.Approve | pages/AdminDashboard.tsx:43-46 | the queue loses every record with the uid, and no record is altered |
| AdminDashboard.AdminPanel.Reject | pages/AdminDashboard.tsx:48-51 | the same effect on the queue as approving |
| AdminDashboard.FirstSeedRow | pages/AdminDashboard.tsx:312-322 | the first seed prescription shows John Doe and Dr. Sarah Smith |
| AdminDashboard.SecondSeedRow | pages/AdminDashboard.tsx:312-322 | the second seed prescription shows Jane Smith and Dr. James Wilson |
| PatientDashboard.WithoutId | pages/PatientDashboard.tsx:77-79 | exactly the notifications with another id remain |
| PatientDashboard.WithoutIdIdempotent | pages/PatientDashboard.tsx:78 | dismissing the same id twice equals dismissing it once |
| PatientDashboard.WithoutUnknownId | pages/PatientDashboard.tsx:78 | an unknown id changes nothing |
| PatientDashboard.WithoutIdInOrder | pages/PatientDashboard.tsx:78 | the remaining notifications keep their order |
| PatientDashboard.DismissEveryId | pages/PatientDashboard.tsx:77-92 | dismissing every id that occurs empties the list and hides the section |
| PatientDashboard.NotificationFeed.constructor | pages/PatientDashboard.tsx:54-69 | the feed starts with the two seed notifications |
| PatientDashboard.NotificationFeed.Dismiss | pages/PatientDashboard.tsx:77-79 | the list becomes `WithoutId` of the old list |
| PatientDashboard.PlanIcon | pages/PatientDashboard.tsx:81-87 | 'Pro' gets the crown, 'Recovery' gets the bolt, and every other name gets the shield |
| PatientDashboard.PlanIconsDistinct | pages/PatientDashboard.tsx:81-87 | Basic, Recovery and Pro get three different icons |
| PatientDashboard.NotificationTone | pages/PatientDashboard.tsx:102-108 | amber exactly for warnings, blue exactly for messages, emerald exactly for info |
| PatientDashboard.NotificationIcon | pages/PatientDashboard.tsx:111 | the alert icon exactly for amber cards, the info icon otherwise |
| HealthChat.ReplyMessage | components/HealthChat.tsx:36-39 | a model message: a non-empty reply verbatim, the fixed error text for a missing or empty reply, and the fixed connection text on failure |
| HealthChat.CanSend | components/HealthChat.tsx:19 | sending is possible exactly when nothing is loading and the input has a non-white-space character |
| HealthChat.ExchangesShape | components/HealthChat.tsx:23-41 | after `n` completed sends the transcript holds `2n + 1` alternating messages, with each send's text followed by its reply |
| HealthChat.ChatSession.constructor | components/HealthChat.tsx:7-11 | the transcript is the single greeting, the input is empty, and nothing is loading |
| HealthChat.ChatSession.SetInput | components/HealthChat.tsx:89 | typing replaces the input and nothing else |
| HealthChat.ChatSession.BeginSend | components/HealthChat.tsx:18-24 | a rejected send changes nothing; an accepted one clears the input, appends the untrimmed text as the user's message, and starts loading |
| HealthChat.ChatSession.EndSend | components/HealthChat.tsx:35-42 | the reply or fallback message is appended and loading stops, whatever the outcome |
| HealthChat.ChatSession.HandleSend | components/HealthChat.tsx:18-43 | a completed send appends exactly the user's message and then the model's, clears the input and ends not loading; a rejected one changes nothing |
| HealthChat.ChatSession.TypeAndSend | components/HealthChat.tsx:18-43 | typing a non-blank text into the idle box and sending it appends exactly that text and its reply, clears the input and ends not loading |
| HealthChat.Converse | components/HealthChat.tsx:18-43 | a fresh chat after a series of non-blank sends, each run to its end, holds the greeting followed by every typed text and its reply in order, with the input empty and nothing loading |

## Findings

| source | as written | input that shows it | evidently intended | confidence | as-written member | corrected member |
|---|---|---|---|---|---|---|
| App.tsx:30-52 | the `/onboarding` route is wrapped in the same `ProtectedRoute` that redirects a patient without a condition to `/onboarding` | a new patient (role PATIENT, no `condition`) opening `/onboarding`, for instance right after sign-up, which navigates to `/dashboard` and is redirected there | the onboarding page itself is exempt from the onboarding redirect, so the patient can pick a condition | high; not executed | App.OnboardingUnreachable | App.IntendedOnboarding |

## Left out

- Dates are not modelled: days-in-month, the first weekday, month navigation, the locale
  formatting and the `toISOString` default for the selected day (pages/DoctorDashboard.tsx:23-24,
  42-46) come from the JavaScript `Date` library. The month length, the first weekday and today's
  key are parameters. That default takes the UTC date, while the grid keys use the local date.
- Browser storage is not modelled as JSON text. `localStorage` and the JSON round trip are the
  abstract `stored` field, so a corrupt stored entry is not modelled.
- The random uid of `signup` (`Math.random`) is a parameter.
- `alert` (pages/AdminDashboard.tsx:45,50) and the `navigate` calls have no state to model.
- The model call in components/HealthChat.tsx:27-34 is an outcome parameter. The error log on
  failure and the scroll effect are not modelled.
- components/ExerciseVision.tsx, services/geminiService.ts, the home, login, sign-up and layout
  pages, charts and metric cards are streaming I/O, SDK wrappers or rendering only.
- The 08:00-18:00 slot menu is not modelled, because `toggleSlot` does not validate the times it
  gets.
- Auth.SignupProfile: a key present with the value `undefined` is modelled as absent, so the model
  keeps the default where JavaScript would copy `undefined` over it.
- Types.Merge: the same choice for `updateUser` (context/AuthContext.tsx:66): a key holding
  `undefined` is modelled as absent, so the model keeps the user's field where JavaScript would
  copy `undefined` over it.
- StringOrder.Sort orders by character value, while JavaScript's default sort compares UTF-16
  code units. The two agree on the ASCII `HH:MM` times the editor stores.
- App.RouteFor matches paths exactly. The router's case-insensitive matching and trailing-slash
  handling are not modelled.
- Onboarding.Wizard.ChooseDoctor receives the clicked doctor record. The `uid!` non-null
  assertion is modelled by storing the record's optional uid as it is.
