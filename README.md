# Smart PG front-end rules in Dafny

This project models the business rules inside four React components of a
paying-guest (hostel) management front end. Each rule is stated and proved
in Dafny:

- **ResidentList**: the "Select Empty Room" list (rooms 101 to 100+totalRooms
  that no resident holds), the record the "Allocate Room" form submits, the
  form's reset, and the "Mark Paid / Mark Unpaid" rent toggle.
- **Dashboard**: the role-scoped complaint list `relevantComplaints` (computed
  by the component but not rendered from), the "Active Issues" and "Occupied
  Rooms" figures, the "Your Room" card and the missing-room banner, the
  four-entry recent-activity lists and their empty state, and the
  "From Room ..." lookup.
- **Layout**: the role-dependent navigation list, which fixes the screens
  each role can reach; the highlighting of the active tab; the mobile
  sidebar's open/closed state.
- **Auth**: the sign-in screen as a state machine over the selected role,
  login/register mode, error text and loading flag. The asynchronous submit
  handler is split at its `await`: `HandleSubmit` returns the request that
  would be posted, and `Receive` takes the server's reply or a transport
  failure.

Files:
- `types.dfy`: the User, Complaint and Notice records and their enums.
- `seqs.dfy`: `filter` and `slice(0, n)` with their laws.
- `decimal.dfy`: `Number.prototype.toString` on naturals, with a reference
  parse and the round trip between them.
- `resident_list.dfy`, `dashboard.dfy`, `layout.dfy`, `auth.dfy`: one module
  per component.

Modelling choices:
- Optional fields of `User` (`roomNumber`, `exitDate`, `isRentPaid`, ...) are
  represented with `""` and `false` for "absent". Every read of them in
  these components (`||`, `!`, truthiness, `includes`, rendering) treats
  `undefined` the same way. Serialisation does not; see "## Left out".
- Random ids and today's date become parameters.
- Component state (`useState`) becomes a class field that the handler
  methods assign.
- The `types` module of the application is not part of this model.
  `UserRole` and `ComplaintStatus` are taken as two-valued enums:
  RESIDENT/ADMIN and PENDING/RESOLVED.

A consequence worth knowing: `isLogin` is only ever set to `true`. Every
reachable state of the sign-in screen is therefore in login mode.
`Auth.LoginModeIsInvariant` proves this over any sequence of user actions and
replies. The registration branch of the submit handler, and the name and
confirm-password inputs, can never be reached from the initial state. The
model still covers that branch: `HandleSubmit` and `Receive` are specified
for both modes.

## Model

| member | source | states |
|---|---|---|
| `Seqs.Filter` | components/ResidentList.tsx:25 | `filter` keeps exactly the elements satisfying the predicate, as a subsequence of the input, and never more elements than the input has |
| `Seqs.Take` | components/Dashboard.tsx:68 | `slice(0, n)` is a prefix of the input, of length n or the whole input when it is shorter |
| `Seqs.SubsequenceKeepsOrder` | components/ResidentList.tsx:24-25 | a subsequence of a list that is strictly increasing under a key is strictly increasing too, so filtering the ascending room range keeps it ascending |
| `Seqs.FilterConcat` | components/Dashboard.tsx:24 | filtering a concatenation is the concatenation of the filtered parts |
| `Seqs.FilterMultiplicity` | components/Dashboard.tsx:17 | filtering keeps every copy of an element that passes and drops every copy of one that fails |
| `Seqs.FilterDropsAll` | components/ResidentList.tsx:25 | a list none of whose elements pass filters to the empty list |
| `Seqs.FilterKeepsAll` | components/ResidentList.tsx:25 | a list all of whose elements pass filters to itself |
| `Decimal.DecimalString` | components/ResidentList.tsx:24 | `toString` of a natural is a non-empty string of digits with no leading zero |
| `Decimal.ValueOfDecimalString` | components/ResidentList.tsx:24 | reading back the numeral `toString` writes gives the number |
| `Decimal.DecimalStringInjective` | components/ResidentList.tsx:24 | two numbers get the same room label exactly when they are equal |
| `ResidentList.RoomRange` | components/ResidentList.tsx:24 | the generated range has `totalRooms` labels, the i-th being `(101 + i).toString()` |
| `ResidentList.RoomRangeValues` | components/ResidentList.tsx:24 | the labels stand for 101, 102, ... and are strictly ascending |
| `ResidentList.RoomRangeMembers` | components/ResidentList.tsx:24 | every label is a canonical numeral in 101..100+totalRooms, and every number in that interval has its label in the range |
| `ResidentList.OccupiedRoomNumbers` | components/ResidentList.tsx:23 | a label is occupied exactly when some resident's `roomNumber` is that label |
| `ResidentList.AvailableRooms` | components/ResidentList.tsx:23-25 | available rooms: at most `totalRooms` of them, each a label within 101..100+totalRooms, none held by any resident, every free label in range present, in strictly ascending order and without duplicates |
| `ResidentList.ExitDateIgnored` | components/ResidentList.tsx:23 | changing a resident's exit date never changes the available rooms |
| `ResidentList.DepartedResidentBlocksRoom` | components/ResidentList.tsx:23 | a resident with an exit date still keeps their room off the list |
| `ResidentList.FirstRoomsTaken` | components/ResidentList.tsx:23-25 | when, of the rooms in range, residents hold exactly the first k, the available list is the rest of the range in order; residents without a room or with labels outside the range change nothing |
| `ResidentList.TenRoomsFiveTaken` | components/ResidentList.tsx:23-25 | ten rooms with 101 to 105 taken leave exactly 106, 107, 108, 109, 110, whatever other room numbers (blank included) the residents have |
| `ResidentList.NewResident` | components/ResidentList.tsx:29-39 | the submitted record has role RESIDENT, unpaid rent, no password, the given id, and name, email, phone, room, entry and exit dates copied unchanged from the form |
| `ResidentList.EmptyForm` | components/ResidentList.tsx:14-21 | the initial and the reset form: every input blank except the entry date, which is today |
| `ResidentList.WithField` | components/ResidentList.tsx:130-163 | an input's handler puts the new value in that input and leaves every other input as it was |
| `ResidentList.EditOnlyChangesField` | components/ResidentList.tsx:130-163 | after editing one input, the submitted record carries the new value in that detail, the old value in every other, and is still an unpaid resident |
| `ResidentList.ResidentForm.constructor` | components/ResidentList.tsx:13-21 | the modal starts closed with every input empty except the entry date, which is today |
| `ResidentList.ResidentForm.OpenModal` | components/ResidentList.tsx:53 | "Add Resident" opens the modal and keeps the inputs |
| `ResidentList.ResidentForm.CloseModal` | components/ResidentList.tsx:123 | the close button closes the modal and keeps the inputs |
| `ResidentList.ResidentForm.Edit` | components/ResidentList.tsx:130-163 | an input's handler changes that input only, and leaves the modal as it was |
| `ResidentList.ResidentForm.HandleSubmit` | components/ResidentList.tsx:27-43 | submit hands `NewResident` of the current inputs to `onAddResident`, closes the modal, and resets name, email, phone, room and exit date to "" and the entry date to today |
| `ResidentList.RentToggle` | components/ResidentList.tsx:105 | the rent button requests the negation of the row's flag, for that row's id |
| `ResidentList.ApplyRentUpdate` | components/ResidentList.tsx:105 | applying a request sets the flag of the residents with that id and leaves every other resident unchanged |
| `ResidentList.RentToggleFlips` | components/ResidentList.tsx:105 | with distinct ids, the toggle flips that one resident's flag and changes no other resident |
| `ResidentList.RentToggleTwiceRestores` | components/ResidentList.tsx:105 | with distinct ids, pressing the same row's button twice restores the list |
| `ResidentList.ApplyRentUpdateIdempotent` | components/ResidentList.tsx:105 | applying the same request twice has the effect of applying it once |
| `Dashboard.RelevantComplaints` | components/Dashboard.tsx:15-17 | the value `relevantComplaints` (computed, never rendered): every complaint for an admin; for a resident exactly the complaints with their own `residentId`, as a subsequence of the input |
| `Dashboard.RelevantComplaintsMultiplicity` | components/Dashboard.tsx:17 | for a resident the value keeps every copy of their complaints and no copy of anyone else's |
| `Dashboard.ComplaintsAreScoped` | components/Dashboard.tsx:15-17 | a complaint filed by one resident is absent from another resident's value, and present in the admin's and in its filer's |
| `Dashboard.ActiveIssues` | components/Dashboard.tsx:24 | Active Issues is at most the number of complaints, and is zero exactly when every complaint is resolved |
| `Dashboard.ActiveIssuesPartition` | components/Dashboard.tsx:24 | active complaints plus resolved complaints make up all complaints |
| `Dashboard.ActiveIssuesAppend` | components/Dashboard.tsx:24 | adding a complaint raises Active Issues by one exactly when the complaint is pending |
| `Dashboard.YourRoomCard` | components/Dashboard.tsx:27 | the card reads 'Pending' exactly when no room is assigned, and otherwise 'No. ' followed by the room |
| `Dashboard.Stats` | components/Dashboard.tsx:18-30 | admin cards show occupied rooms = total residents = number of residents, the room count, exactly `ActiveIssues` of all complaints, and the notice count; resident cards show exactly `YourRoomCard` of the user's room ('No. <room>' or 'Pending') and the notice count |
| `Dashboard.RoomBannerMatchesCard` | components/Dashboard.tsx:40 | the set-your-room banner shows exactly for a non-admin whose "Your Room" card reads 'Pending' |
| `Dashboard.ShowsRoomBanner` | components/Dashboard.tsx:40 | the banner shows exactly for a non-admin with an empty `roomNumber`, that is, exactly when their room card would read 'Pending' |
| `Dashboard.RecentActivity` | components/Dashboard.tsx:63-88 | the admin's list holds the first min(n, 4) complaints of all complaints; anyone else's holds the first min(n, 4) notices |
| `Dashboard.ShowsEmptyState` | components/Dashboard.tsx:92 | "No recent activity." tests the role's whole list (complaints for an admin, notices otherwise) and shows exactly when the recent list has no entry |
| `Dashboard.FindIndex` | components/Dashboard.tsx:76 | `find` stops at the first resident whose id matches, or past the end when none does |
| `Dashboard.ComplaintRoom` | components/Dashboard.tsx:76 | the room shown is never blank: the room number of the first resident whose id matches when that is non-empty, '?' when it is empty or no resident has the id |
| `Dashboard.ComplaintRoomOfFiler` | components/Dashboard.tsx:76 | with unique ids, a complaint shows its filer's room number, or '?' when that is empty |
| `Dashboard.DetailTarget` | components/Dashboard.tsx:64 | "See Detail" opens complaints exactly for the role whose recent list shows complaints and notices for the role whose list shows notices, and the target is on the role's navigation list |
| `Dashboard.DashboardLinksAreReachable` | components/Dashboard.tsx:64 | "See Detail" and the assistant button lead to screens the user's sidebar offers |
| `Layout.NavIds` | components/Layout.tsx:16-31 | the ids of a role's navigation list, entry by entry |
| `Layout.BuildNavItems` | components/Layout.tsx:16-31 | the pushes build six entries: dashboard and food, then residents for an admin or profile for a resident, then complaints, notices and chat, all with distinct ids |
| `Layout.NavItems` | components/Layout.tsx:16-31 | a role's navigation list has six entries that never share an id |
| `Layout.RoleScreens` | components/Layout.tsx:21-25 | only an admin reaches residents, only a resident reaches profile, and no list has both |
| `Layout.SharedScreens` | components/Layout.tsx:16-31 | both roles reach dashboard, food, complaints, notices and chat |
| `Layout.HighlightIsUnique` | components/Layout.tsx:61 | at most one entry is highlighted, and one is exactly when the active tab is on the list |
| `Layout.IsHighlighted` | components/Layout.tsx:61 | an entry is highlighted exactly when its id equals the active tab |
| `Layout.Sidebar.constructor` | components/Layout.tsx:14 | the sidebar starts closed |
| `Layout.Sidebar.ToggleMenu` | components/Layout.tsx:40 | the menu button flips the sidebar |
| `Layout.Sidebar.SelectItem` | components/Layout.tsx:59 | choosing an entry selects its id and closes the sidebar |
| `Layout.Sidebar.ToggleMenuTwice` | components/Layout.tsx:40 | pressing the menu button twice restores the sidebar |
| `Auth.FailureText` | components/Auth.tsx:48 | the error is the server's text when it gave one and the fixed default otherwise, so it is never blank |
| `Auth.RegistrationRecord` | components/Auth.tsx:62-70 | the registration record is a resident with empty room and phone, carrying the form's name, email and password, whatever role tab is selected |
| `Auth.SubmitCaption` | components/Auth.tsx:179-183 | the button reads 'Please wait...' exactly while loading, otherwise 'Login' in login mode and 'Register' in register mode |
| `Auth.WithField` | components/Auth.tsx:134-165 | an input's handler puts the new value in that input and leaves every other input as it was |
| `Auth.AuthScreen.constructor` | components/Auth.tsx:9-18 | the screen starts on the resident tab, in login mode, with an empty form, no error and not loading |
| `Auth.AuthScreen.HandleRoleChange` | components/Auth.tsx:20-25 | choosing Admin forces login mode; choosing Resident keeps the mode; nothing else changes |
| `Auth.AuthScreen.Edit` | components/Auth.tsx:134-165 | an input's handler changes that input only |
| `Auth.AuthScreen.ShowsRegistrationFields` | components/Auth.tsx:128-157 | the name and confirm-password inputs show exactly on the resident tab in register mode, that is, when the idle button reads 'Register' |
| `Auth.AuthScreen.HandleSubmit` | components/Auth.tsx:27-79 | submit clears the error and sends a login request built from email, password and role. In register mode, differing passwords set 'Passwords do not match', send nothing and end not loading; matching passwords send the registration record. The screen loads exactly while a request is outstanding |
| `Auth.AuthScreen.Receive` | components/Auth.tsx:45-92 | a failed reply shows the server text or 'Login failed' / 'Registration failed'. A transport failure shows the unreachable-server text. A successful login hands the user to `onLogin`. A successful registration switches to login mode without logging in. Loading always ends |
| `Auth.LoginModeIsInvariant` | components/Auth.tsx:10-86 | from the initial state, after any sequence of role changes, edits, submissions and replies, the screen is in login mode and hides the registration inputs |

## Left out

- JSX markup, CSS classes, icons, and the rendering of modals and tables: presentation only.
- `fetch`, `res.json()`, the `await`s and `alert`: the server's answer is an abstract `Reply` (a response with `ok`, an optional error text and a body, or a transport failure) given to `Auth.AuthScreen.Receive`.
- Interleavings of several outstanding submissions: the submit button is disabled while loading, so `HandleSubmit` requires that no request is outstanding.
- The registration body: `JSON.stringify` of the record built at components/Auth.tsx:62-70 posts no `entryDate`, `exitDate` or `isRentPaid` key, while the model's `RegisterRequest` record carries `""`, `""` and `false` for them.
- Exceptions thrown by the callbacks: if `onLogin` throws, the `catch` clause shows the unreachable-server text; if `onAddResident` throws, the modal stays open and the form keeps its inputs. The model does not cover either; `ResidentList.ResidentForm.HandleSubmit` assumes the callback returns.
- `Math.random` ids and `new Date()` default entry dates: taken as parameters.
- `totalRooms` is a JavaScript number; the model takes a natural. `Array.from` truncates a fractional length, treats a negative one as 0 and throws a RangeError for 2^32 and above; none of that is modelled.
- `occupancyPercent`: floating-point division whose result is not rendered.
- The fixed "Meal Plan" and "PG Status" cards, the meal-plan text and the AI chat: hard-coded strings and an external service.
- The browser's `required` checks on the form inputs: enforced by the browser, not by these components.
- `onAddResident`, `onUpdateRent`, `onLogin` and the server-side rules (duplicate e-mail, role mismatch, capacity, complaint status changes, notice posting): their code is not part of this model. `ResidentList.ApplyRentUpdate` states only the effect that the rent request asks for.
