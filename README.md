# Instructor form engine and role resolution of the yoga-studio admin front end

This project models two pieces of client-side logic from a studio's administrative web
front end, and proves properties of the model.

- **Instructor Management screen**
  (`src/features/admin/components/InstructorManagement.tsx`). The model covers:
  - the instructor record and the empty draft;
  - per-field edits of the draft and how they clear that field's error;
  - the validation rules `validateForm` applies, including the email regular expression
    `/\S+@\S+\.\S+/`, which `.test` uses as an unanchored search;
  - the specialty tag list: typed add, exact-match remove and one-click suggestions;
  - the screen's state machine (`instructors`, `loading`, `saving`, `showForm`,
    `editingInstructor`, `errors`, `formData`, `newSpecialty`) across fetch, input,
    submit, edit, delete and reset.
- **Auth context** (`src/features/auth/contexts/AuthContext.tsx`). The model covers:
  - `fetchUserRoles`: first the `user_roles` lookup, then the `admin_users` allowlist,
    then the default role `user`, with `isMantraCurator` derived from the roles;
  - the provider's handling of session events and of unmounting;
  - the `useAuth` guard.

The remote database service is not part of the model. Every remote call is represented by
its outcome, passed in as an argument: rows, `null` data, a reported error, or a thrown
exception. A handler that would write to the remote table returns the call it issues
(`RemoteCall`), so a contract can say which write happens and when none does. The
browser's `confirm()` is a boolean argument.

Files, one module each:
- `wrappers.dfy`: `Option`, `Result`.
- `text.dfy`: JavaScript whitespace and `trim`.
- `instructor_model.dfy`: the record, field edits, the email rule, the validation rules.
- `specialties.dfy`: the tag-list operations.
- `instructor_screen.dfy`: the `Screen` class and walk-throughs.
- `role_resolution.dfy`: role resolution as a pure function.
- `auth_provider.dfy`: the `Provider` class, `useAuth` and walk-throughs.

Whitespace (`Text.IsSpace`) is the code-point set of ECMAScript's WhiteSpace and
LineTerminator productions. `String.prototype.trim` strips exactly this set and `\s`
matches exactly this set. `Trim` is written out from it.

The email rule is stated twice. `MatchesEmailPattern` is the regular expression's meaning:
some whitespace-free substring has the form X@Y.Z, with X, Y and Z non-empty.
`EmailShapeOk` is the computed check that validation uses. `EmailShapeOkIffPattern`
proves that the two agree.

A signed-in user whose `user_roles` lookup succeeds with no rows, or with `null` data, gets
`[]`, not `["user"]` (`AuthContext.tsx:43-46`). `["user"]` is reached only when that lookup
fails. `RoleResolution.EmptyPrimaryGivesNoRoles` states this.

## Model

| member | source | states |
|---|---|---|
| `Text.Trim` | src/features/admin/components/InstructorManagement.tsx:96-99 | `trim()` gives an empty result exactly when the string is all whitespace; otherwise the result starts and ends with non-whitespace and is the string with a whitespace prefix and suffix cut off |
| `Text.TrimIdempotent` | src/features/admin/components/InstructorManagement.tsx:80 | trimming an already trimmed string changes nothing |
| `InstructorModel.ApplyEdit` | src/features/admin/components/InstructorManagement.tsx:70 | the edited property takes the new value and every other property of the draft keeps its value |
| `InstructorModel.ClearFieldError` | src/features/admin/components/InstructorManagement.tsx:71-73 | the set of error keys is kept (nothing is deleted); the edited field's truthy error becomes ''; every other error is unchanged |
| `InstructorModel.EmailShapeOkIffPattern` | src/features/admin/components/InstructorManagement.tsx:98 | the computed email check holds exactly when some whitespace-free substring of the address has the form X@Y.Z with X, Y, Z non-empty (the unanchored regex search), both directions |
| `InstructorModel.FormErrors` | src/features/admin/components/InstructorManagement.tsx:93-102 | only the keys name, email, bio, experience_years and specialties can appear; name/bio error iff all whitespace, with 'Name is required' / 'Bio is required'; email error iff the pattern fails, with 'Email is required' for a blank address and otherwise 'Invalid email format' (at most one message); experience error iff negative, with 'Experience years cannot be negative'; specialties error iff the list is empty, with 'At least one specialty is required' |
| `InstructorModel.FormErrorsEmptyIffValid` | src/features/admin/components/InstructorManagement.tsx:103-104 | the error map is empty exactly when the draft meets the record invariant (name and bio not blank, email matches, experience at least 0, at least one specialty) |
| `InstructorModel.ValidationIgnoresOptionalFields` | src/features/admin/components/InstructorManagement.tsx:93-105 | phone, certification, avatar URL, the active flag and the id never change the error map |
| `InstructorModel.EmailExamples` | src/features/admin/components/InstructorManagement.tsx:97-98 | "a@b.co" is accepted; "a@b" and "not-an-email" give 'Invalid email format'; "" gives 'Email is required' |
| `InstructorModel.CompleteDraftIsValid` | src/features/admin/components/InstructorManagement.tsx:93-105 | a complete draft (Jane Doe, jane@studio.com, a bio, 5 years, one specialty) has no errors |
| `InstructorModel.BlankDraftErrors` | src/features/admin/components/InstructorManagement.tsx:96-101 | the blank draft has errors for exactly name, email, bio and specialties (0 years is accepted); -1 years gives the experience message |
| `Specialties.AddSpecialty` | src/features/admin/components/InstructorManagement.tsx:76-84 | a non-blank, unlisted trimmed text is appended at the end and the box is cleared; a blank or already listed text leaves both list and box unchanged |
| `Specialties.AddPreservesNoDuplicates` | src/features/admin/components/InstructorManagement.tsx:77-81 | adding keeps a duplicate-free list duplicate-free |
| `Specialties.AddGrowsByAtMostOne` | src/features/admin/components/InstructorManagement.tsx:76-84 | the old list is a prefix of the new one, which is at most one longer |
| `Specialties.AddIdempotent` | src/features/admin/components/InstructorManagement.tsx:76-84 | adding the same text a second time leaves the list unchanged |
| `Specialties.AddedTagIsTrimmed` | src/features/admin/components/InstructorManagement.tsx:80 | when the text is not blank and not listed, the list grows by exactly one and the new last tag is non-empty and already trimmed |
| `Specialties.RemoveSpecialty` | src/features/admin/components/InstructorManagement.tsx:86-91 | the argument no longer occurs; every other element keeps its multiplicity; the result is a subsequence (order kept) |
| `Specialties.RemoveAbsent` | src/features/admin/components/InstructorManagement.tsx:89 | removing an absent value leaves the list unchanged |
| `Specialties.RemoveSize` | src/features/admin/components/InstructorManagement.tsx:86-91 | on a duplicate-free list, removing a listed tag shrinks it by exactly one; removing an absent one is a no-op |
| `Specialties.RemoveKeepsOthers` | src/features/admin/components/InstructorManagement.tsx:89 | a value other than the removed one is listed afterwards exactly when it was before |
| `Specialties.QuickAdd` | src/features/admin/components/InstructorManagement.tsx:390-397 | the suggestion is listed afterwards; it is appended untrimmed when absent, and the list is unchanged when present |
| `Specialties.QuickAddAgreesWithAdd` | src/features/admin/components/InstructorManagement.tsx:42-46 | each of the thirteen suggestions is already trimmed, so one-click adding gives the same list as typing it in |
| `Specialties.QuickAddPreservesNoDuplicates` | src/features/admin/components/InstructorManagement.tsx:391-397 | one-click adding keeps a duplicate-free list duplicate-free |
| `InstructorScreen.CollectErrors` | src/features/admin/components/InstructorManagement.tsx:94-102 | filling `newErrors` one rule at a time, in the source's order, yields exactly the error map the rules define |
| `InstructorScreen.Screen.constructor` | src/features/admin/components/InstructorManagement.tsx:21-40 | the list is empty, `loading` is true, `saving` is false, and the form is closed, in create mode, blank and without errors |
| `InstructorScreen.Screen.FetchInstructors` | src/features/admin/components/InstructorManagement.tsx:52-67 | the list becomes the rows read (`null` gives []); a failed read leaves it unchanged; `loading` is false afterwards; nothing else changes |
| `InstructorScreen.Screen.HandleInputChange` | src/features/admin/components/InstructorManagement.tsx:69-74 | only `formData[field]` changes and the errors follow the clearing rule; all other state is unchanged |
| `InstructorScreen.Screen.SetNewSpecialty` | src/features/admin/components/InstructorManagement.tsx:368 | typing sets the specialty box and nothing else |
| `InstructorScreen.Screen.HandleAddSpecialty` | src/features/admin/components/InstructorManagement.tsx:76-84 | the list and the box become what the add rule gives; the other draft fields and all other state are unchanged |
| `InstructorScreen.Screen.HandleRemoveSpecialty` | src/features/admin/components/InstructorManagement.tsx:86-91 | the list follows the remove rule; everything else is unchanged |
| `InstructorScreen.Screen.QuickAddSpecialty` | src/features/admin/components/InstructorManagement.tsx:390-397 | the list follows the quick-add rule; the box and everything else are unchanged |
| `InstructorScreen.Screen.ValidateForm` | src/features/admin/components/InstructorManagement.tsx:93-105 | `errors` becomes the draft's error map; the result is true exactly when that map is empty, which is exactly when the draft is valid; nothing else changes |
| `InstructorScreen.Screen.HandleSubmit` | src/features/admin/components/InstructorManagement.tsx:107-138 | an invalid draft stores its errors and issues no call; a valid one issues update-by-id when editing and insert otherwise; on success the list is re-read and the form is reset; on failure `errors` is exactly `{general: message}` and the form stays open in the same mode; `saving` is false afterwards |
| `InstructorScreen.Screen.HandleEdit` | src/features/admin/components/InstructorManagement.tsx:140-144 | edit mode on the row, the draft is a copy of it and the form is open; errors and the box are kept |
| `InstructorScreen.Screen.HandleDelete` | src/features/admin/components/InstructorManagement.tsx:146-163 | a declined confirmation issues no call and changes nothing; a confirmed one issues delete-by-id; only a successful delete re-reads the list; a failed one leaves the list unchanged |
| `InstructorScreen.Screen.ResetForm` | src/features/admin/components/InstructorManagement.tsx:165-181 | the form is closed, the draft is back to the defaults, `editingInstructor` is null, `errors` is {} and the box is ''; the list and flags are kept |
| `InstructorScreen.Screen.OpenForm` | src/features/admin/components/InstructorManagement.tsx:199 | the form opens and nothing else changes |
| `InstructorScreen.CreateWalkThrough` | src/features/admin/components/InstructorManagement.tsx:107-131 | entering a complete instructor, adding a specialty and submitting issues an insert of exactly that record and ends with the form reset |
| `InstructorScreen.EditWalkThrough` | src/features/admin/components/InstructorManagement.tsx:115-119 | editing a valid row and changing the experience count issues an update of that row by its id with only that field changed |
| `InstructorScreen.DeclinedDeleteWalkThrough` | src/features/admin/components/InstructorManagement.tsx:147 | a declined confirmation issues no call and the list is what it was |
| `RoleResolution.RoleNames` | src/features/auth/contexts/AuthContext.tsx:45 | a name is among the result exactly when some row's joined role carries it; the result is no longer than the rows |
| `RoleResolution.RoleNamesAppend` | src/features/auth/contexts/AuthContext.tsx:45 | the names of concatenated rows are the concatenated names, so row order is kept |
| `RoleResolution.FallbackRoles` | src/features/auth/contexts/AuthContext.tsx:53-71 | every fallback branch yields a single role, either 'user' or an admin role |
| `RoleResolution.FetchUserRoles` | src/features/auth/contexts/AuthContext.tsx:29-73 | the curator flag equals membership of 'mantra_curator' in the roles in every branch; no session or no user gives []; a primary lookup without an error gives its rows' names; a failed one gives a single role and no curator flag |
| `RoleResolution.FallbackGrantsAdminRole` | src/features/auth/contexts/AuthContext.tsx:60-62 | after a failed primary lookup, an allowlist row with role 'admin' or 'super_admin' gives exactly that role, whatever error the answer reports |
| `RoleResolution.FallbackDefaultsToUser` | src/features/auth/contexts/AuthContext.tsx:63-70 | after a failed primary lookup, any other role, no row, a null role or a thrown allowlist lookup gives ['user'] |
| `RoleResolution.AllowlistErrorIgnored` | src/features/auth/contexts/AuthContext.tsx:54-58 | the error reported with the allowlist answer never changes the outcome: only `data` is read |
| `RoleResolution.AllowlistUnusedOnPrimarySuccess` | src/features/auth/contexts/AuthContext.tsx:43-47 | when the primary lookup succeeds, the allowlist answer has no influence |
| `RoleResolution.EmptyPrimaryGivesNoRoles` | src/features/auth/contexts/AuthContext.tsx:45 | a successful primary lookup with no rows or with `null` data gives [] for a signed-in user, not ['user'] |
| `RoleResolution.PrimaryRolesInRowOrder` | src/features/auth/contexts/AuthContext.tsx:45-46 | a row with a name appends that name at the end of the roles; a row without a joined role adds nothing |
| `RoleResolution.PrimaryRolesSkipNullName` | src/features/auth/contexts/AuthContext.tsx:45 | a row whose joined role has a null name adds nothing to the roles of a successful primary lookup |
| `RoleResolution.CuratorFromPrimary` | src/features/auth/contexts/AuthContext.tsx:47 | a 'mantra_curator' row in a successful primary lookup sets the curator flag |
| `AuthProvider.UseAuth` | src/features/auth/contexts/AuthContext.tsx:142-147 | without a provider value the hook fails with its message; with one it returns that value unchanged |
| `AuthProvider.Provider.constructor` | src/features/auth/contexts/AuthContext.tsx:24-27 | no user, no roles, no curator flag, `loading` true, mounted and subscribed |
| `AuthProvider.Provider.OnSession` | src/features/auth/contexts/AuthContext.tsx:79-96 | while mounted, the user is the session's user, the roles are what role resolution gives, and `loading` becomes false; once unmounted, a session event changes nothing; the curator flag keeps agreeing with the roles |
| `AuthProvider.Provider.Unmount` | src/features/auth/contexts/AuthContext.tsx:98-101 | the mounted flag is cleared and the subscription dropped; user, roles and `loading` are kept |
| `AuthProvider.UnmountBeforeSession` | src/features/auth/contexts/AuthContext.tsx:76-101 | a provider unmounted before any session arrives keeps `loading` true and stays without a user or roles |
| `AuthProvider.SignedOutSession` | src/features/auth/contexts/AuthContext.tsx:30-34 | a session without a user gives no roles, no curator flag and `loading` false |

## Left out

- Remote calls: the query builder (`select`, `insert`, `update`, `delete`, `eq`, `order`,
  `maybeSingle`) and the auth API (`getSession`, `onAuthStateChange`). These are network
  calls into a hosted service. Only their outcomes are modelled, as arguments. Row order
  (`order('name')`) is the service's concern, so the rows read are taken as given.
- The rows the service stores are not modelled. The model cannot say that a later read
  contains the inserted row. It states instead which write is issued, and that the list
  becomes whatever the following read returns.
- `signIn`, `signUp` and `signOut` only forward the service's error, so there is nothing
  to model.
- Rendering, styling, icons, the image `onError` handler, `alert` and `console.error`.
  These are presentation or logging only.
- Concurrency: each handler is modelled as one atomic step. A double submit before the
  button is disabled is not modelled. Nor is a role resolution that finishes after unmount
  and still sets the roles, or the spinner shown while `loading` is briefly true during a
  re-read.
- The mount effect's first `fetchInstructors()` call is a `FetchInstructors` call made by
  the client after the constructor.
- Number parsing: `parseInt(value) || 0` on the experience input. `experience_years` is
  an unbounded integer, and the edit carries the parsed value.
- `handleInputChange` is modelled only for the eight field names the form passes to it (a
  `FieldEdit` value). A call with any other property name cannot happen in the source.
- The error map is unordered. The source only tests whether it is empty, so the insertion
  order of JavaScript object keys is not modelled.
- The event kind passed to the auth-state callback is ignored by the source, so it is not
  modelled.
- Which characters count as whitespace depends on the Unicode version of the JavaScript
  engine (the Zs category). The model fixes the set listed in `Text.IsSpace`.
- The re-export lists (`src/features/admin/index.ts`, `src/features/learning/index.ts`,
  `src/features/marketing/index.ts`, `src/shared/index.ts`, `src/features/auth/index.ts`,
  `src/features/scheduling/index.ts`) contain no logic.
