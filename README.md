# access-gate: a Dafny model of the front end's access and case logic

access-gate is the web front end of a community-supervision office (BAPAS).
Staff sign in with their NIP. Each user holds roles and permission codes,
and every page checks those codes before it shows its content. Each
job-specific page then lists or counts cases (litmas) and clients (klien)
from the back-end store.

This project models the parts of that front end that decide something, and
proves what they promise:

- **Access.** `Auth` covers the user's permission and role predicates, how
  a signed-in user is loaded, the sign-in error chain, and the provider
  state changed by the auth listener and by sign-out. `ProtectedRoute`
  covers the route guard. `PageLayout` covers the page layout's access
  check and menu.
- **Login and password recovery.** `Login` covers the NIP and password
  rules, the per-field error messages, the submit handler and the redirect
  after sign-in. `UpdatePassword` covers the recovery-link check, the
  session and listener flags, and the submit checks.
- **Registration operator.** `Registration` covers the age computation, the
  age category, the operator-role mismatch guard, the category that is
  stored, and the client list filter.
- **Section-head dashboard.** `Kasie` covers the per-officer statistics
  loop, the performance rate, the ordering, the summary counters and the
  status-update payload.
- **Main dashboard.** `Dashboard` covers the category and case-type pie
  charts and the monthly intake trend.
- **Probation officer's task list.** `PkTasks` covers which cases the
  officer sees.
- **Administration.** `UserAdmin` covers accounts, roles, password rules and
  search. `EmployeeAdmin` covers the employee form and its payload, saving,
  the has-account flag and search. `RoleAdmin` covers the role to
  permission join. `PermissionAdmin` covers the permission search.

Everything the code reads from or writes to the store is a parameter of
the model. Query results are input sequences. The error a write would
return is an `Option<string>`. Writes are returned as payload records. The
parts of a component whose state the source updates in place are classes:
`AuthProvider`, `RegistrationForm`, `LoginForm`, `EmployeeDialogs`,
`UpdatePasswordPage` and `PkPage`. Loops become methods proved against
specification functions: `AggregateStats`, `CollectErrors`,
`BuildUsersWithRoles`, `CountBy` and `MonthlyTrend`.

`Common` holds shared definitions:

- `Option`;
- `Filter` (order-preserving `Array.prototype.filter`, with membership in
  both directions);
- `Contains` (`String.prototype.includes`);
- occurrence counts and first occurrences;
- a stable sort, non-increasing by an integer key (`SortDesc`).

Some facts about the code that a reader might expect otherwise:

- The only status write (`Kasie.UpdateStatus`) accepts any new status
  without looking at the current one.
- The revision button sends its note even when the note is empty.
- Category scoping is enforced only by client-side filters and by the
  registration form's save guard.

## Model

| member | source | states |
|---|---|---|
| Auth.HasPermission | src/contexts/AuthContext.tsx:136-138 | false for a signed-out user; for a signed-in user, true exactly when the code is among the user's permission codes |
| Auth.HasRole | src/contexts/AuthContext.tsx:140-142 | false for a signed-out user; for a signed-in user, true exactly when the code is among the user's role codes |
| Auth.HasAnyPermission | src/contexts/AuthContext.tsx:144-146 | true exactly when some listed code passes `HasPermission`, so false for an empty list or a signed-out user |
| Auth.HasAnyRole | src/contexts/AuthContext.tsx:148-150 | true exactly when some listed code passes `HasRole` |
| Auth.AnyOfOne | src/contexts/AuthContext.tsx:144-150 | the "any" check of a one-element list agrees with the single check, for permissions and roles |
| Auth.SignedOutDeniesAll | src/contexts/AuthContext.tsx:136-150 | a signed-out user passes no permission, role, any-permission or any-role check |
| Auth.LoadUser | src/contexts/AuthContext.tsx:12-60 | a user is loaded exactly when the users/employee lookup succeeds; its roles and permissions are exactly the codes returned by the two lookups, or none when a lookup returned null |
| Auth.SignIn | src/contexts/AuthContext.tsx:95-129 | sign-in succeeds exactly when the NIP lookup returns a first employee with a non-empty email and the password sign-in succeeds; a failed or empty lookup gives "NIP tidak ditemukan"; a missing email gives the no-email message; a sign-in error containing "Invalid login credentials" is reported as "NIP atau password salah", any other sign-in error message is passed through unchanged, and an exception in either call gives "Terjadi kesalahan saat login" |
| Auth.AuthProvider.OnAuthStateChange | src/contexts/AuthContext.tsx:62-78 | loading ends; a session loads its user, no session clears the user |
| Auth.AuthProvider.OnInitialSession | src/contexts/AuthContext.tsx:81-90 | loading ends; a session loads its user, no session leaves the user as it was |
| Auth.AuthProvider.SignOut | src/contexts/AuthContext.tsx:131-134 | the user is cleared, after which every permission and role check fails |
| ProtectedRoute.HasAllPermissions | src/components/ProtectedRoute.tsx:49-54 | true exactly when every listed permission is held |
| ProtectedRoute.HasAllRoles | src/components/ProtectedRoute.tsx:63-68 | true exactly when every listed role is held |
| ProtectedRoute.Decide | src/components/ProtectedRoute.tsx:25-36 | the spinner exactly while loading; the login redirect, carrying the current location, exactly when loaded without a user |
| ProtectedRoute.RenderIff | src/components/ProtectedRoute.tsx:38-76 | children are rendered exactly when loaded, signed in, and the user meets the single permission, the single role, and the permission and role lists (all of them under requireAll, otherwise at least one); a signed-in user who misses one is sent to /unauthorized |
| ProtectedRoute.MissingSingleRequirementRedirects | src/components/ProtectedRoute.tsx:39-46 | a required single permission or role that the user lacks redirects to /unauthorized |
| ProtectedRoute.Monotone | src/components/ProtectedRoute.tsx:39-76 | giving a user more permissions and roles never turns a render into a redirect |
| PageLayout.AccessibleMenus | src/components/TestPageLayout.tsx:59 | the sidebar is the order-preserving sub-list of the menu entries whose permission the user holds, and contains every such entry; the dashboard (src/pages/Dashboard.tsx:159) applies the same filter to the same entries |
| PageLayout.Body | src/components/TestPageLayout.tsx:194-205 | children exactly when the user holds the page's permission code; otherwise an alert that names that code |
| PageLayout.DebugStatus | src/components/TestPageLayout.tsx:218-220 | "GRANTED" exactly when the children are shown, "DENIED" otherwise |
| PageLayout.SignedOutSeesNothing | src/components/TestPageLayout.tsx:58-59 | a signed-out user gets an empty menu and the permission alert |
| PageLayout.FullAccessSeesAll | src/components/TestPageLayout.tsx:59 | a user holding every entry's permission sees the whole menu, in order |
| Registration.CompletedYearsUnique | src/pages/test/OperatorRegistrasiTest.tsx:96-100 | the number of completed years between a birth date and today is unique |
| Registration.CategoryOf | src/pages/test/OperatorRegistrasiTest.tsx:102 | "Anak" exactly below 18 years, "Dewasa" otherwise |
| Registration.UserRoleCategory | src/pages/test/OperatorRegistrasiTest.tsx:44-46 | "Admin" exactly when the user holds neither operator role; "Dewasa" exactly when the user holds only the adult operator role |
| Registration.SingleRoleMismatchIff | src/pages/test/OperatorRegistrasiTest.tsx:106-119 | for an operator with exactly one of the two roles, the mismatch flag is set exactly when the age category differs from that role's category |
| Registration.MismatchByRoleCount | src/pages/test/OperatorRegistrasiTest.tsx:108-117 | a user with neither role is never flagged; a user with both roles is flagged at every age |
| Registration.StoredCategory | src/pages/test/OperatorRegistrasiTest.tsx:289-291 | the adult role forces "Dewasa", the child role alone forces "Anak", and neither keeps the computed category |
| Registration.SingleRoleStoresAgeCategory | src/pages/test/OperatorRegistrasiTest.tsx:282-291 | when a single-role operator's save is not blocked, the stored category is the one derived from the age |
| Registration.RegistrationForm.CalculateAgeAndCategory | src/pages/test/OperatorRegistrasiTest.tsx:92-120 | without a date nothing changes; otherwise the age is the completed years, the category follows it, the mismatch flag is `Mismatch`, and the warning is the blocking message of the first failing branch |
| Registration.RegistrationForm.ClearCalculation | src/pages/test/OperatorRegistrasiTest.tsx:128-134 | age, category, warning and mismatch flag are reset |
| Registration.RegistrationForm.SaveKlienPerkara | src/pages/test/OperatorRegistrasiTest.tsx:280-291 | the save is blocked exactly when the mismatch flag is set; otherwise it writes `StoredCategory`, which for a single-role operator is the age category |
| Registration.VisibleClients | src/pages/test/OperatorRegistrasiTest.tsx:166-167 | the child operator sees exactly the "Anak" clients, the adult operator exactly the "Dewasa" clients, and anyone else sees all clients, always in list order |
| Kasie.LastOfficerFound | src/pages/test/KasieTest.tsx:111-125 | the seeded entry for an id exists exactly when the officer list has that id, and it describes the last such officer |
| Kasie.FirstOfficerFound | src/pages/test/KasieTest.tsx:127-142 | an unlisted officer gets an entry exactly when some case with a truthy officer id names them; it is built from the first such case |
| Kasie.KindsPartition | src/pages/test/KasieTest.tsx:144-153 | every counted case is exactly one of approved, revision or in progress, so an officer's total is the sum of the three |
| Kasie.EntryOfficerFound | src/pages/test/KasieTest.tsx:111-142 | an officer has an entry exactly when they are listed or named by a counted case, and the entry's officer carries that id |
| Kasie.CountOfIds | src/pages/test/KasieTest.tsx:127-153 | each counter of an officer equals the number of times their id occurs among the counted cases of that kind |
| Kasie.ZeroCounts | src/pages/test/KasieTest.tsx:127-153 | an officer no counted case names has every counter at zero |
| Kasie.CountedExpected | src/pages/test/KasieTest.tsx:144-153 | a case counted for an officer raises their total and exactly the counter of its status by one, starting from a zeroed entry for an officer met for the first time |
| Kasie.SeededEntries | src/pages/test/KasieTest.tsx:111-125 | after seeding, the map's keys are exactly the listed ids, each with a zeroed entry for the last officer listed under it |
| Kasie.SeededOrder | src/pages/test/KasieTest.tsx:111-125 | after seeding, the keys are in order of first listing, without repeats |
| Kasie.TallyEntries | src/pages/test/KasieTest.tsx:127-155 | after the pass over the cases, the map has a key exactly for the officers with an entry, and each entry holds that officer's name, NIP and exact counts |
| Kasie.TallyOrder | src/pages/test/KasieTest.tsx:127-155 | after the pass over the cases, the keys are the listed ids and then the ids first met in the cases, in order of first appearance |
| Kasie.OrderCaseStep | src/pages/test/KasieTest.tsx:129-131 | a counted case appends its officer's id to the key order exactly when the map has no entry for it yet |
| Kasie.AggregateStats | src/pages/test/KasieTest.tsx:109-155 | the map's keys are the listed officers, then the officers first met in the cases, without repeats; each entry holds that officer's name and NIP and the exact counts of their total, approved, revision and in-progress cases |
| Kasie.PerformanceRate | src/pages/test/KasieTest.tsx:157-162 | 0 without cases; otherwise the completed percentage rounded to the nearest integer with halves up, which lies between 0 and 100 |
| Kasie.RatedTotal | src/pages/test/KasieTest.tsx:157-162 | the rated entries' totals add up to the number of counted cases |
| Kasie.TallySum | src/pages/test/KasieTest.tsx:127-162 | the totals of the rated entries add up to the number of cases with an officer |
| Kasie.TableRows | src/pages/test/KasieTest.tsx:157-164 | every row of the sorted table is an officer's expected entry with its rate |
| Kasie.TableKeys | src/pages/test/KasieTest.tsx:157-164 | the sorted table has a row for every listed or counted officer, and no two rows share an id |
| Kasie.FetchStats | src/pages/test/KasieTest.tsx:109-164 | the table is sorted by total, largest first; it has exactly one row per officer, listed or found in a case; each row carries the exact counts and rate; the totals add up to the number of cases with an officer |
| Kasie.StatsConsistent | src/pages/test/KasieTest.tsx:144-162 | in every row, completed, revision and in-progress add up to the total, and the rate is between 0 and 100 |
| Kasie.GlobalStatsOf | src/pages/test/KasieTest.tsx:231-236 | waiting counts status "Menunggu Verifikasi" or empty, process counts "Proses", completed counts "Disetujui", and active_pk is the number of officer rows |
| Kasie.GlobalCountsBounded | src/pages/test/KasieTest.tsx:231-234 | the three status counters together never exceed the number of cases |
| Kasie.UpdateStatus | src/pages/test/KasieTest.tsx:198-208 | nothing is sent without a selected case; otherwise the update targets that case with the new status, and the note is null exactly when it is missing or empty |
| Kasie.RevisionNoteRoundTrip | src/pages/test/KasieTest.tsx:187-218 | sending a case back with a note and reopening it shows the same note, and the case then counts as a revision |
| Kasie.ApproveClearsNote | src/pages/test/KasieTest.tsx:198-218 | approving stores no note, so reopening shows an empty note, and the case then counts as completed |
| Login.SchemaIssues | src/pages/Login.tsx:12-15 | no issue exactly when the NIP is non-empty ASCII digits and the password has at least 6 characters; a password issue is always the last one |
| Login.CollectErrors | src/pages/Login.tsx:45-49 | each field gets the message of its last issue |
| Login.ErrorsOfSchema | src/pages/Login.tsx:43-50 | a field shows a message exactly when its rule fails; a bad NIP, even an empty one, shows the digits-only message; a short password shows "Password minimal 6 karakter" |
| Login.LoginForm.HandleSubmit | src/pages/Login.tsx:38-63 | sign-in is attempted exactly when both rules pass; otherwise each field shows the message of its last schema issue, and a field without an issue shows none; after an attempt the error is the sign-in message when there is one, and loading stays on exactly when there is none |
| Login.RedirectTarget | src/pages/Login.tsx:29 | the origin path when one is given and non-empty, "/dashboard" otherwise |
| Login.AutoNavigate | src/pages/Login.tsx:32-36 | navigation happens exactly when a user is present, and goes to the redirect target |
| UserAdmin.RolesOfUser | src/components/admin/UserManagement.tsx:79-81 | a user's roles are exactly the roles that have a user_roles row for them, in role-list order |
| UserAdmin.BuildUsersWithRoles | src/components/admin/UserManagement.tsx:70-93 | the loop builds the list that `UsersWithRoles` specifies |
| UserAdmin.UsersWithRolesMembers | src/components/admin/UserManagement.tsx:84-92 | the list has one entry for each user with an employee record, carrying that user's roles, and no other entries |
| UserAdmin.EmployeesWithoutUser | src/components/admin/UserManagement.tsx:105-106 | exactly the employees that no account points to, in list order |
| UserAdmin.FindEmployee | src/components/admin/UserManagement.tsx:136 | finds a listed employee with the id, or reports that none exists |
| UserAdmin.CreateUser | src/components/admin/UserManagement.tsx:123-148 | missing fields are reported first, then a short password, then a chosen employee who is missing or has no email ("Employee ini tidak memiliki email terdaftar"), then a missing session ("Sesi habis. Silakan login ulang."); the create call is made exactly when an employee is chosen, the password has at least 6 characters, the session exists and the chosen employee has an email; the call carries that email, the password and the chosen roles |
| UserAdmin.ChangePassword | src/components/admin/UserManagement.tsx:202-206 | nothing happens without a user or a password; a password shorter than 6 is rejected; otherwise the update is requested for that user |
| UserAdmin.ToggleRole | src/components/admin/UserManagement.tsx:343-349 | the toggled role changes membership and every other role keeps its membership |
| UserAdmin.ToggleTwice | src/components/admin/UserManagement.tsx:343-349 | toggling adds no duplicates; toggling twice restores membership, and exactly restores a list that lacked the role |
| UserAdmin.AvailableRoles | src/components/admin/UserManagement.tsx:445-446 | exactly the roles whose id the user does not hold, in list order |
| UserAdmin.OptionsComplementRoles | src/components/admin/UserManagement.tsx:445-446 | a role is offered exactly when it is not among the user's roles |
| UserAdmin.AddRole | src/components/admin/UserManagement.tsx:255-265 | added exactly when the insert succeeds; unique_violation 23505 is reported as "already has this role" |
| UserAdmin.FilteredUsers | src/components/admin/UserManagement.tsx:272-275 | the accounts whose lower-cased name contains the lower-cased term or whose NIP contains the term, in list order |
| UserAdmin.EmptySearchKeepsAll | src/components/admin/UserManagement.tsx:272-275 | an empty search keeps every account |
| EmployeeAdmin.NullIfEmpty | src/components/admin/EmployeeManagement.tsx:143 | null exactly for the empty input, otherwise the input |
| EmployeeAdmin.EmptyIfNull | src/components/admin/EmployeeManagement.tsx:273-294 | empty exactly for null or the empty column, otherwise the column |
| EmployeeAdmin.StatusOrDefault | src/components/admin/EmployeeManagement.tsx:163 | never empty; a non-empty status is kept |
| EmployeeAdmin.ToPayload | src/components/admin/EmployeeManagement.tsx:140-163 | NIP and name are written as typed, the status is never empty, and no optional column is written as the empty string |
| EmployeeAdmin.FormOf | src/components/admin/EmployeeManagement.tsx:272-296 | the edit form carries the record's NIP and name and a non-empty status |
| EmployeeAdmin.FormRoundTrip | src/components/admin/EmployeeManagement.tsx:270-298 | saving a form and opening the record for editing gives the same form back, except that an empty status becomes "Aktif" |
| EmployeeAdmin.RecordRoundTrip | src/components/admin/EmployeeManagement.tsx:140-163 | opening a record and saving it unchanged writes the same record, when the record has a status and no empty columns |
| EmployeeAdmin.SetField | src/components/admin/EmployeeManagement.tsx:334 | an input's change replaces that input's value and leaves every other input as it was |
| EmployeeAdmin.SaveResultOf | src/components/admin/EmployeeManagement.tsx:166-173 | saved exactly when the write succeeds; a duplicate NIP exactly for unique_violation 23505 |
| EmployeeAdmin.EmployeeDialogs.OnChange | src/components/admin/EmployeeManagement.tsx:334 | only the changed input of the form changes |
| EmployeeAdmin.EmployeeDialogs.OpenEditDialog | src/components/admin/EmployeeManagement.tsx:270-298 | selects the employee, fills the form from the record and opens the edit dialog |
| EmployeeAdmin.EmployeeDialogs.HandleAdd | src/components/admin/EmployeeManagement.tsx:130-185 | the record is written exactly when NIP and name are filled, as `ToPayload` of the form; a successful add closes the dialog and empties the form, and a failed add keeps both |
| EmployeeAdmin.EmployeeDialogs.HandleEdit | src/components/admin/EmployeeManagement.tsx:187-244 | the update is sent exactly when an employee is selected and NIP and name are filled, to that employee's id; success closes the dialog, clears the selection and empties the form |
| EmployeeAdmin.WithHasUser | src/components/admin/EmployeeManagement.tsx:110-115 | the employees in order, each flagged exactly when some account's employee id is theirs |
| EmployeeAdmin.DeleteAllowedIff | src/components/admin/EmployeeManagement.tsx:745 | the delete button is enabled exactly for employees without an account |
| EmployeeAdmin.FilteredEmployees | src/components/admin/EmployeeManagement.tsx:310-316 | the rows whose name, position or unit (lower-cased) contains the lower-cased term, or whose NIP or NIK contains the term, in table order |
| EmployeeAdmin.EmptySearchKeepsAll | src/components/admin/EmployeeManagement.tsx:310-316 | an empty search keeps every row |
| Dashboard.LabelOf | src/pages/Dashboard.tsx:98 | a missing or empty value is counted under the fallback label, any other value under itself |
| Dashboard.CountsOfExact | src/pages/Dashboard.tsx:97-101 | the counting object has a key exactly for each label, holding that label's number of occurrences |
| Dashboard.CountBy | src/pages/Dashboard.tsx:97-101 | the keys are the distinct labels in order of first appearance, and each key's count is its number of occurrences |
| Dashboard.ChartOf | src/pages/Dashboard.tsx:103-106 | one chart entry per key, in key order, valued with that key's count |
| Dashboard.CountChart | src/pages/Dashboard.tsx:97-106 | the chart is exactly one entry per distinct label, in order of first appearance, valued with that label's number of rows (a missing or empty value counted under the fallback); entry names are distinct, every row's label has an entry, and the values add up to the number of rows |
| Dashboard.ClientChart | src/pages/Dashboard.tsx:97-106 | one entry per distinct age category in order of first appearance, valued with its number of clients, clients without a category counted under "Tidak Diketahui"; the values add up to the number of clients |
| Dashboard.TypeChart | src/pages/Dashboard.tsx:131-140 | one entry per distinct case type in order of first appearance, valued with its number of cases, cases without a type counted under "Lainnya"; the values add up to the number of cases |
| Dashboard.MonthlyTrend | src/pages/Dashboard.tsx:115-123 | twelve fresh buckets, each holding the number of dated cases received in its month (the sequence `Buckets`); undated cases are counted nowhere |
| Dashboard.TrendTotal | src/pages/Dashboard.tsx:115-123 | the twelve buckets add up to the number of dated cases, so every dated case is in exactly one bucket |
| Dashboard.TrendToShow | src/pages/Dashboard.tsx:126-127 | the months from January up to and including the current month, with their buckets unchanged |
| UpdatePassword.RecoveryLinkIff | src/pages/auth/UpdatePassword.tsx:25-26 | a hash is a recovery link exactly when "type=recovery" or "access_token" occurs in it at some offset |
| UpdatePassword.SessionDecision | src/pages/auth/UpdatePassword.tsx:31-44 | an existing session stops the check; no session with a recovery link waits; neither rejects the link |
| UpdatePassword.CheckSubmit | src/pages/auth/UpdatePassword.tsx:73-81 | a short password is rejected first, then a confirmation mismatch; the update proceeds exactly when both checks pass |
| UpdatePassword.UpdatePasswordPage.VerifyUser | src/pages/auth/UpdatePassword.tsx:23-45 | an existing session ends checking while mounted; a pending recovery link changes nothing; otherwise an invalid-link error and navigation to /login |
| UpdatePassword.UpdatePasswordPage.OnAuthEvent | src/pages/auth/UpdatePassword.tsx:50-62 | PASSWORD_RECOVERY or SIGNED_IN ends checking while mounted; every other event, SIGNED_OUT included, leaves it unchanged |
| UpdatePassword.UpdatePasswordPage.Unmount | src/pages/auth/UpdatePassword.tsx:64-67 | the effect is no longer mounted |
| UpdatePassword.UpdatePasswordPage.HandleUpdatePassword | src/pages/auth/UpdatePassword.tsx:70-105 | the update is requested exactly when both checks pass; each failed check shows its message; a successful update signs out and navigates to /login; a failed one shows the prefixed error; loading ends after a request |
| RoleAdmin.RolePermIds | src/components/admin/RoleManagement.tsx:45-47 | a permission id is listed for a role exactly when a role_permissions row links the two |
| RoleAdmin.PermissionsOf | src/components/admin/RoleManagement.tsx:49 | a role's permissions are exactly the fetched permissions linked to it, in fetched order |
| RoleAdmin.RolesWithPermissions | src/components/admin/RoleManagement.tsx:44-52 | every role, in query order, paired with its linked permissions |
| RoleAdmin.NoPermissionTextIff | src/components/admin/RoleManagement.tsx:108-118 | the count is at most the number of permissions, and "Tidak ada permission" is shown exactly when no fetched permission is linked to the role |
| PermissionAdmin.FilteredPermissions | src/components/admin/PermissionManagement.tsx:39-42 | exactly the permissions whose lower-cased code or name contains the lower-cased term, in fetched order |
| PermissionAdmin.EmptySearchKeepsAll | src/components/admin/PermissionManagement.tsx:39-42 | an empty search keeps every permission |
| PermissionAdmin.Total | src/components/admin/PermissionManagement.tsx:112 | the total is at most the number of permissions, and equal to it exactly when every permission matches |
| PkTasks.SelectTasks | src/pages/test/PKTest.tsx:54-74 | newest case first; a non-admin with a PK id sees exactly the cases assigned to that id; anyone else sees every case |
| PkTasks.PkPage.FetchMyTasks | src/pages/test/PKTest.tsx:27-92 | without a user nothing changes; a non-admin without a PK record gets an empty list; otherwise the list is `SelectTasks`, and a failed lookup or query keeps the old list; loading ends once a user is present |
| PkTasks.EmptyStateColumns | src/pages/test/PKTest.tsx:195 | the empty-state row spans 7 columns for an admin and 6 otherwise |

## Left out

- Store I/O is not modelled. This covers Supabase queries, inserts, updates, RPCs, edge-function calls and the realtime channel. Their results are parameters; their writes are returned payloads.
- Database ordering and limits are not modelled (`order('name')`, `limit(20)`), except the case ordering in the officer's task list.
- Rendering, toasts other than the update-password page's, dialogs and tabs are not modelled, except the decisions that choose what is shown.
- Asynchrony and timing are not modelled: `await` ordering, the `setTimeout` deferral in the auth listener, and effects re-running on dependency changes. Each handler is modelled as one atomic step.
- Dates are not parsed or localised. A date is a (year, month, day) triple, a month is its `getMonth` index 0..11, and "today" and the current month are parameters.
- `String.prototype.toLowerCase` is a parameter `lower` of the search filters; Unicode case mapping is not modelled.
- Auth.LoadUser: the employee record is reduced to its name, the only part the modelled pages read.
- Login.SchemaIssues: string lengths count characters, whereas JavaScript counts UTF-16 code units; the two differ only for characters outside the Basic Multilingual Plane. The same holds for the password lengths in UserAdmin and UpdatePassword.
- Login.SchemaIssues: an empty NIP gets both the "NIP harus diisi" and the digits-only issue, and the form shows the later one. The code does this and the model follows it.
- Kasie.PerformanceRate: computed as exact rational rounding with halves up, `(200c + t) div (2t)`, rather than as floating-point `Math.round(c / t * 100)`; the two could differ only where the floating-point product lands just beside a half.
- Kasie.AggregateStats: an officer id that is the empty string is falsy in the source and counts for no one; the model does the same.
- Kasie: the case search filter (`filteredLitmas`) and the per-officer task popup (`selectedOfficerTasks`) are display filters outside the statistics and are not modelled.
- Common.SortDesc: ties keep their input order by construction, matching a stable `Array.prototype.sort`, but no lemma states stability.
- Dashboard.CountBy: the chart keys follow first appearance. JavaScript's `Object.keys` lists integer-like keys first, in ascending numeric order, and that is not modelled.
- PkTasks.SelectTasks: a non-admin whose PK id is the empty string is not filtered, because the id is falsy, and so sees every case. The code does this and the model follows it.
- Not modelled: the DOCX letter generator (`SuratTugasGenerator`), the what's-new dialog (a `localStorage` flag and a timer), the class-name and date-format utilities, the routing table, and the placeholder pages.
