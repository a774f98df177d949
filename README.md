# MedScriptAI record store and portal rules, in Dafny

MedScriptAI is a browser application for digital prescriptions. It has four
portals: doctor, patient, pharmacist and administrator. All of them share one
local record store, which holds two collections, Users and Prescriptions. Each
collection is kept as one serialised array under a fixed storage key.

This project models:
- that store;
- the rules the portals layer on top of it:
  - the doctor's prescription form;
  - QR verification, dispensing and the stock register in the pharmacist's portal;
  - the reminder columns and figures of the patient's portal;
  - the figures, recent list and history search of the doctor's portal;
  - patient self-registration;
  - the administrator's user management.

Modules follow the program's files:

| module | file | models |
|---|---|---|
| `Types` | `types.ts` | the records and the closed role and status enumerations |
| `Db` | `services/db.ts` | class `RecordStore`: one `Option<seq<…>>` field per storage entry (`None` while the key is absent); one method per write; the reads and lookups as functions |
| `PrescriptionForm` | `components/PrescriptionForm.tsx` | class `Form` over the form's local state, and the record `handleSubmit` builds |
| `PharmacistDashboard` | `views/PharmacistDashboard.tsx` | class `VerificationHub` (scan input, active prescription, error); routing; the stock register |
| `PatientDashboard` | `views/PatientDashboard.tsx` | the flattened medication list, the slot filters, the figures and labels |
| `DoctorDashboard` | `views/DoctorDashboard.tsx` | the doctor filter, the headline figures, recent interactions, search and badge styles |
| `Register` | `views/Register.tsx` | class `RegisterForm` and its duplicate-email guard |
| `AdminDashboard` | `views/AdminDashboard.tsx` | class `UserAdmin` (list, modal, search term, add-user form) and the search filter |
| `AiGateway` | `services/gemini.ts` | the local guard in front of the interaction check |
| `Seqs` | — | `filter`, `find` and `findIndex` |
| `Text` | — | the string operations used: ASCII `toLowerCase`/`toUpperCase`, `startsWith`, `endsWith`, `includes`, `substr` and `split` |
| `Wrappers` | — | `Option`, standing for `undefined`/`null` |

Each write method states the whole new state of both storage entries. A browser
event handler becomes a method of the class holding that component's state. The
store is passed to the handler as a parameter. These inputs are parameters:
- the clock (`Date.now()`, `new Date().toISOString()`);
- the random token text (`Math.random().toString(36)`);
- the user's answer to a confirmation dialog;
- the answers of the AI services.

## Model

| member | source | states |
|---|---|---|
| Db.SeedUsers | services/db.ts:12-17 | the four seed accounts, with their ids, names, roles, emails, specialty and phone |
| Db.SeedRoles | services/db.ts:13-16 | the seed accounts are, in order, a doctor, a patient, a pharmacist and an administrator |
| Db.SeedUsersOnePerRole | services/db.ts:12-17 | every role has exactly one seed account |
| Db.SeedIdsDistinct | services/db.ts:13-16 | the seed ids are pairwise distinct |
| Db.RecordStore.constructor | services/db.ts:9-22 | loading the module runs the seeding once over the existing storage: an absent user entry becomes the seed list, a present one and the prescription entry are kept |
| Db.RecordStore.SeedData | services/db.ts:9-20 | writes the seed users only when the user entry is absent; otherwise nothing changes; prescriptions are never touched |
| Db.RecordStore.GetUsers | services/db.ts:25 | an absent user entry reads as the empty list, a present one as its contents |
| Db.RecordStore.GetPrescriptions | services/db.ts:43 | an absent prescription entry reads as the empty list, a present one as its contents |
| Db.UserByEmail | services/db.ts:27-30 | none exactly when no user matches both the email (ignoring case) and the role; otherwise a stored, matching user with no matching user before it |
| Db.LookupIgnoresCaseNotRole | services/db.ts:29 | in a store holding only that user, the lookup finds the user under any casing of its email, and finds nobody under another role |
| Db.AddedUserIsFound | services/db.ts:27-36 | after an append the lookup by the added user's email and role succeeds, and finds that user itself when nobody earlier matched |
| Db.RecordStore.AddUser | services/db.ts:32-36 | the user entry becomes the old list with the user appended, with no duplicate check; prescriptions unchanged |
| Db.WithoutUser | services/db.ts:39 | no remaining user has the id; every other user is kept, in order (a subsequence); an absent id leaves the list equal |
| Db.WithoutUserCounts | services/db.ts:39 | deletion keeps each other user with its multiplicity and removes every copy with that id |
| Db.RecordStore.DeleteUser | services/db.ts:38-41 | the user entry becomes the old list without that id; prescriptions unchanged |
| Db.RecordStore.SavePrescription | services/db.ts:45-49 | the prescription entry becomes the new record followed by the old list; users unchanged |
| Db.SaveTwice | services/db.ts:45-49 | two calls of the save operation leave the second record first, then the first, then the earlier records; users unchanged |
| Db.Merge | services/db.ts:55 | each field the update carries takes the update's value; every other field keeps the record's value |
| Db.MergeLaws | services/db.ts:55 | the shallow merge with an empty update is the identity, and merging the same update twice equals merging it once |
| Db.MergeStatus | services/db.ts:55 | a status-only update changes the status field and no other |
| Db.UpdateFirst | services/db.ts:51-58 | same length; an unknown id changes nothing; the first record with the id is merged with the update and every other index is unchanged |
| Db.RecordStore.UpdatePrescription | services/db.ts:51-58 | the prescriptions read afterwards are the first-match update of the old list; storage is written only when the id exists; users unchanged |
| Db.PatientHistory | services/db.ts:60-62 | exactly the records whose patient email matches ignoring case, as a subsequence of the stored order, each matching record as many times as it is stored |
| Db.DoctorRecords | services/db.ts:64-66 | exactly the records whose doctor email matches ignoring case, as a subsequence of the stored order, each matching record as many times as it is stored |
| Db.SavedHeadsHistory | services/db.ts:45-62 | a saved record heads its patient's history |
| Db.DispenseChangesOnlyStatus | services/db.ts:51-58 | dispensing the first record with an id sets its status to DISPENSED and leaves every other field and every other record as it was |
| AiGateway.CheckInteractions | services/gemini.ts:8-9 | with fewer than two medications the answer is empty and the service is not asked; otherwise the answer is the service's answer |
| PrescriptionForm.SetField | components/PrescriptionForm.tsx:32 | the edited field takes the value; every other field, and the reminder flag, are unchanged |
| PrescriptionForm.RemoveAt | components/PrescriptionForm.tsx:27 | an index in range is removed, with the rest kept in order; an index out of range changes nothing |
| PrescriptionForm.RemoveKeepsARow | components/PrescriptionForm.tsx:190 | a removal through the control, which is shown only for two or more rows, shortens the list by one and never empties it |
| PrescriptionForm.AfterOcr | components/PrescriptionForm.tsx:44-47 | an OCR result replaces the list only when it exists and is non-empty; otherwise the list is kept |
| PrescriptionForm.SafetyCheckInput | components/PrescriptionForm.tsx:55 | exactly the rows whose name is longer than two characters, in order, each as many times as it occurs |
| PrescriptionForm.ShortListsAreNotChecked | components/PrescriptionForm.tsx:55 | when fewer than two rows are properly named, the check yields no interactions, whatever the service would answer |
| PrescriptionForm.QrToken | components/PrescriptionForm.tsx:74 | "VERIFY-" followed by as many characters as `substr(2, 6)` of the random text yields (at most six, exactly six for a text of eight or more), each the upper-cased character of the random text at index 2 onwards; none is a lower-case letter |
| PrescriptionForm.NewPrescription | components/PrescriptionForm.tsx:64-75 | status PENDING; the doctor's id, name and email; the entered patient, diagnosis and rows; id "RX-" followed by the timestamp; no notes; the token is the one built from the random text, "VERIFY-" and at most six more characters |
| PrescriptionForm.InitialRows | components/PrescriptionForm.tsx:17-19 | without initial rows one blank row; otherwise the given rows as they are, so the form starts with no row exactly when it is given the empty list |
| PrescriptionForm.Form.constructor | components/PrescriptionForm.tsx:15-22 | without initial rows a single blank row; otherwise the given rows; empty fields, no interactions, not submitting |
| PrescriptionForm.Form.AddMed | components/PrescriptionForm.tsx:26 | appends one blank row and keeps the others |
| PrescriptionForm.Form.RemoveMed | components/PrescriptionForm.tsx:27 | the rows become the old rows without that index |
| PrescriptionForm.Form.UpdateMed | components/PrescriptionForm.tsx:30-34 | same length; row `index` has only that field changed; every other row unchanged |
| PrescriptionForm.Form.ApplyOcrResult | components/PrescriptionForm.tsx:44-47 | the rows follow the OCR replacement rule |
| PrescriptionForm.Form.CheckAI | components/PrescriptionForm.tsx:53-58 | the interactions become the guarded answer for the properly named rows |
| PrescriptionForm.Form.HandleSubmit | components/PrescriptionForm.tsx:60-77 | sets submitting; the new record is saved at the head of the store; users unchanged |
| PharmacistDashboard.ViewOf | views/PharmacistDashboard.tsx:45-49 | the verify view exactly for "/verify", the stock view exactly for "/stock", the overview otherwise |
| PharmacistDashboard.ViewOfPathOf | views/PharmacistDashboard.tsx:198-210 | each switcher button's path shows that button's view |
| PharmacistDashboard.UpdateInventory | views/PharmacistDashboard.tsx:93-97 | same length and order; only quantities change; a matching item gets zero or quantity plus delta, never less than zero or than quantity plus delta; others unchanged |
| PharmacistDashboard.UpdateKeepsStockNonNegative | views/PharmacistDashboard.tsx:95 | an adjustment keeps every quantity non-negative |
| PharmacistDashboard.IsLow | views/PharmacistDashboard.tsx:416 | with a non-negative threshold an item with no stock is always flagged low |
| PharmacistDashboard.IsOut | views/PharmacistDashboard.tsx:417 | with a non-negative threshold an out-of-stock item is also flagged low |
| PharmacistDashboard.OutOfStockIsLow | views/PharmacistDashboard.tsx:416-417 | with a non-negative threshold an out-of-stock item is also low |
| PharmacistDashboard.LowStockCount | views/PharmacistDashboard.tsx:226 | at most the number of items; zero exactly when no item is low; the whole count exactly when every item is low |
| PharmacistDashboard.LowCountIsExact | views/PharmacistDashboard.tsx:226 | the number of items passing the low-stock filter is zero, or all of them, exactly when no item, or every item, is low |
| PharmacistDashboard.DrainingRaisesAlert | views/PharmacistDashboard.tsx:93-97 | an adjustment that takes an item's whole stock leaves it out of stock, and with a non-negative threshold the alert figure is then at least one |
| PharmacistDashboard.LowStockCountAdds | views/PharmacistDashboard.tsx:470 | the alert count is additive over concatenated registers |
| PharmacistDashboard.InitialAlerts | views/PharmacistDashboard.tsx:60-66 | the initial register raises three alerts |
| PharmacistDashboard.TargetCode | views/PharmacistDashboard.tsx:75 | a non-empty argument is used; an empty one falls back to the typed input; the result is empty only when both are |
| PharmacistDashboard.FindByQrCode | views/PharmacistDashboard.tsx:76 | none exactly when no stored record carries the token; otherwise the first record carrying it |
| PharmacistDashboard.VerificationHub.constructor | views/PharmacistDashboard.tsx:52-54 | empty input, nothing active, no error |
| PharmacistDashboard.VerificationHub.ShowsDispenseControl | views/PharmacistDashboard.tsx:189 | never shown without an active record; for an active record shown exactly when its status is PENDING or CANCELED, that is, not DISPENSED |
| PharmacistDashboard.VerificationHub.HandleVerify | views/PharmacistDashboard.tsx:73-84 | looks up the argument or else the typed input; a hit becomes active, clears the error and copies a given code into the input; a miss clears the active record and sets the error |
| PharmacistDashboard.VerificationHub.HandleDispense | views/PharmacistDashboard.tsx:86-91 | with an active record: the store applies the DISPENSED update to that id, the active copy becomes DISPENSED and the control is withdrawn; with none, nothing changes |
| PharmacistDashboard.DispenseTwiceIsAccepted | views/PharmacistDashboard.tsx:189 | the store has no guard: a second dispense of the same id is accepted and changes nothing more |
| PatientDashboard.Tagged | views/PatientDashboard.tsx:59-61 | each medication of a prescription, in order, tagged with its doctor's name and the date |
| PatientDashboard.AllMeds | views/PatientDashboard.tsx:56-64 | its length is the total number of medications |
| PatientDashboard.AllMedsConcat | views/PatientDashboard.tsx:58-62 | flattening is in prescription order, then medication order |
| PatientDashboard.AllMedsContains | views/PatientDashboard.tsx:58-62 | every medication of every prescription appears, tagged with that prescription's doctor and date |
| PatientDashboard.InSlot | views/PatientDashboard.tsx:268-270 | morning: the first character is '1'; afternoon: the character after the first '-' is '1' and is followed by the end or another '-'; evening: the last character is '1' |
| PatientDashboard.AfternoonChars | views/PatientDashboard.tsx:269 | the split-based afternoon test agrees with the character-level description |
| PatientDashboard.SlotMeds | views/PatientDashboard.tsx:268-270 | a reminder column holds exactly the medications of the flattened list in that slot, as a subsequence, each as many times as it occurs |
| PatientDashboard.ThreeSlotCode | views/PatientDashboard.tsx:268-270 | for a code "x-y-z" the morning, afternoon and evening columns read x, y and z |
| PatientDashboard.MorningAndEvening | views/PatientDashboard.tsx:268-270 | "1-0-1" falls in the morning and evening columns, not the afternoon one |
| PatientDashboard.AdherenceScore | views/PatientDashboard.tsx:51-54 | zero exactly for no prescriptions, otherwise 100 |
| PatientDashboard.GetStatusDisplay | views/PatientDashboard.tsx:66-77 | each of the three captions, and each of the three colours, is produced by exactly one status |
| PatientDashboard.StatusDisplayDistinct | views/PatientDashboard.tsx:66-77 | the three statuses get three different captions and colours |
| PatientDashboard.InitialSelection | views/PatientDashboard.tsx:45-49 | a non-empty history selects its first record unless one is selected; otherwise the selection is kept |
| DoctorDashboard.DoctorPrescriptions | views/DoctorDashboard.tsx:50-52 | exactly the stored records with the doctor's id, compared exactly, in stored order, each as many times as it is stored |
| DoctorDashboard.PatientEmails | views/DoctorDashboard.tsx:57 | exactly the patient emails that occur, compared exactly; no more of them than records |
| DoctorDashboard.ComputeStats | views/DoctorDashboard.tsx:54-64 | the totals are the record count, the distinct patient count and the PENDING count; both counts are bounded by the total; no patients exactly when no records |
| DoctorDashboard.PatientCountIsCaseSensitive | views/DoctorDashboard.tsx:57 | any two distinct patient emails count as two patients, even when they are equal ignoring case; the history lookup then returns both records for either spelling |
| DoctorDashboard.PendingCountExact | views/DoctorDashboard.tsx:56 | the pending count equals the total exactly when every record is PENDING |
| DoctorDashboard.PendingCountAll | views/DoctorDashboard.tsx:56 | the PENDING filter keeps every record exactly when all are PENDING |
| DoctorDashboard.InsertByDate | views/DoctorDashboard.tsx:67 | insertion adds exactly the one record (as multisets) |
| DoctorDashboard.InsertKeepsSorted | views/DoctorDashboard.tsx:67 | insertion keeps a newest-first list newest first |
| DoctorDashboard.SortByDateDesc | views/DoctorDashboard.tsx:67 | the sorted list is a permutation of the input, newest first |
| DoctorDashboard.RecentInteractions | views/DoctorDashboard.tsx:66-73 | at most five entries (exactly min(n, 5)), each showing the email, date and diagnosis of some record |
| DoctorDashboard.QuickScan | views/DoctorDashboard.tsx:83-87 | any answer of the digitiser, the empty list included, becomes the form's initial rows and opens the form; a failed scan changes nothing and opens nothing |
| DoctorDashboard.QuickScanLooserThanForm | views/DoctorDashboard.tsx:83-87 | the portal's scan opens the form with exactly the scanned rows; for a non-empty answer that agrees with the form's own scan, but an empty answer opens a form with no rows where the form's scan keeps its rows |
| DoctorDashboard.PatientSearch | views/DoctorDashboard.tsx:93-97 | an empty search keeps the previous result; otherwise the result is that patient's history |
| DoctorDashboard.GetStatusStyle | views/DoctorDashboard.tsx:99-121 | each background, text and border colour is produced by exactly one status |
| DoctorDashboard.StatusStyleDistinct | views/DoctorDashboard.tsx:99-121 | each status has its own badge style |
| Register.TakenExactlyWhenFound | views/Register.tsx:24-25 | taken exactly when the duplicate search finds an account; a login lookup that finds the email under any role implies it is taken |
| Register.NewPatient | views/Register.tsx:30-36 | a PATIENT account with the entered name, email and phone, the given id and no specialty |
| Register.AppendFreshEmailKeepsDistinct | views/Register.tsx:24-38 | appending an account whose email is not taken keeps the stored emails pairwise distinct ignoring case |
| Register.RegisterForm.constructor | views/Register.tsx:13-18 | empty fields, no success, no error |
| Register.RegisterForm.HandleSubmit | views/Register.tsx:20-40 | an email taken under any role, ignoring case, sets the error and leaves the store and success flag alone; otherwise exactly the new patient is appended, the error is clear and success is set; distinct emails stay distinct |
| AdminDashboard.FormUser | views/AdminDashboard.tsx:68-74 | the form's id, name, email and role; a specialty exactly for DOCTOR, and then the entered one; no phone |
| AdminDashboard.SearchMatchWindows | views/AdminDashboard.tsx:96-97 | true exactly when the lower-cased term occurs at some position of the lower-cased email or name; the empty term matches everyone; a match needs the email or the name to be at least as long as the term |
| AdminDashboard.FilteredUsers | views/AdminDashboard.tsx:95-98 | a user is kept exactly when its lower-cased email or name includes the lower-cased term, as many times as it is listed; list order is kept; an empty term keeps everyone |
| AdminDashboard.ShowsDeleteControl | views/AdminDashboard.tsx:270 | no delete control on a row with the administrator's own id; one on every other row |
| AdminDashboard.OfferedDeleteKeepsAdmin | views/AdminDashboard.tsx:270 | deleting through a shown control, which is never offered on the administrator's own row, keeps the administrator's account |
| AdminDashboard.UserAdmin.constructor | views/AdminDashboard.tsx:40-64 | mounting loads the user list; modal closed, empty search, empty form with role DOCTOR |
| AdminDashboard.UserAdmin.HandleAddUser | views/AdminDashboard.tsx:66-81 | appends the form's account, closes the modal, clears name, email and specialty, keeps the role and reloads the list; prescriptions unchanged |
| AdminDashboard.UserAdmin.HandleDeleteUser | views/AdminDashboard.tsx:83-88 | with confirmation the id is deleted from the store and the list reloaded; without it nothing changes |
| Text.Lower | services/db.ts:29 | same length; each ASCII upper-case letter is lowered and every other character kept |
| Text.Upper | components/PrescriptionForm.tsx:74 | same length; each ASCII lower-case letter is raised and every other character kept |
| Text.EqualsIgnoreCasePointwise | services/db.ts:29 | true exactly when the two strings have the same length and agree at every position after ASCII folding |
| Text.LowerIdempotent | services/db.ts:29 | lowering twice is lowering once, and leaves no upper-case letter |
| Text.EqualsIgnoreCaseIsEquivalence | services/db.ts:29 | case-insensitive equality is reflexive, symmetric and transitive, and implies equal length |
| Text.Contains | views/AdminDashboard.tsx:96-97 | true exactly when some window of the string spells the needle |
| Text.ContainsEmpty | views/AdminDashboard.tsx:95-98 | every string includes the empty string |
| Text.Substr | components/PrescriptionForm.tsx:74 | at most `len` characters; the exact window when in range; the tail from `start` when the window runs past the end; empty when the start is past the end; every character is the one at the same offset from `start` |
| Text.StartsWith | views/PatientDashboard.tsx:268 | true exactly when the prefix is no longer than the string and agrees with it at every position |
| Text.EndsWith | views/PatientDashboard.tsx:270 | true exactly when the suffix is no longer than the string and agrees at every position with its last characters |
| Text.Split | views/PatientDashboard.tsx:269 | at least one field, none containing the separator |
| Text.SplitAtFirst | views/PatientDashboard.tsx:269 | the first field of a split is everything before the first separator, and the rest is the split of what follows it |
| Text.SplitHeadIsChar | views/PatientDashboard.tsx:269 | the first field is one given character exactly when the string starts with it followed by the end or a separator |
| Text.JoinSplit | views/PatientDashboard.tsx:269 | joining the fields of a split gives back the string |
| Text.SplitJoin | views/PatientDashboard.tsx:269 | splitting a join of separator-free fields gives back the fields |
| Seqs.Filter | services/db.ts:39 | no longer than the input; holds only passing elements of the input, and every passing element |
| Seqs.FilterIsSubsequence | services/db.ts:61 | the filter keeps input order |
| Seqs.FilterConcat | services/db.ts:61 | filtering distributes over concatenation |
| Seqs.FilterKeepsAll | views/AdminDashboard.tsx:95-98 | a filter every element passes returns the input |
| Seqs.FilterMultiset | services/db.ts:39 | each passing element keeps its multiplicity, every other has none |
| Seqs.FilterCounts | services/db.ts:61 | the multiplicity statement of the filter for every element at once |
| Seqs.FirstIndex | services/db.ts:53 | an index of a passing element with none passing before it, or none when nothing passes |
| Seqs.Find | services/db.ts:29 | none exactly when nothing passes; otherwise the first passing element |

## Left out

- Rendering, styling, icons and the React lifecycle. A handler is a method, and `useMemo` values are functions of the state they depend on.
- `views/Login.tsx`, `App.tsx`, `components/Layout.tsx` and the static pages are not part of this model. They hold the session routing and the login call, which is `Db.UserByEmail` plus an error string.
- The camera, file and QR decoding path of the pharmacist's portal: device input and a foreign library.
- The prompts sent to the generative model, its answers, the JSON parsing and the swallowed failures (`services/gemini.ts`). The interaction check is the oracle `analyse`; the digitiser's answer is an `Option` parameter, `None` when it failed.
- The shape of the rows the digitiser returns. Its response schema (`services/gemini.ts:57-66`) lists name, dosage, frequency and instructions, has no duration and marks no field required, and the parsed JSON is stored as the rows unchecked (components/PrescriptionForm.tsx:45-46, views/DoctorDashboard.tsx:84-85). The model takes the answer as well-formed `Medication` values, so a row missing `duration`, or missing `frequency` (on which the reminder columns call `startsWith`, views/PatientDashboard.tsx:268, and would throw), is not captured.
- The navigation to the new-prescription view and the reset of the prefilled rows in `onSuccess` (views/DoctorDashboard.tsx:349): routing only. Which rows reach the form is `DoctorDashboard.QuickScan` followed by `PrescriptionForm.InitialRows`.
- Browser storage and JSON serialisation: each storage entry is an in-memory value, and the serialisation is assumed to round-trip. Concurrent writes from several tabs are out of scope.
- `window.confirm`, `alert` and the settings tab are not modelled. The answer to the confirmation is the `confirmed` parameter.
- `Date.now()`, `new Date().toISOString()` and `Math.random().toString(36)` are string parameters. `new Date(d).getTime()` is the oracle `timeOf`.
- Case folding is ASCII only. JavaScript's full Unicode `toLowerCase`/`toUpperCase` is not modelled.
- String lengths, indices and `substr` are counted in characters (Unicode scalar values), not in JavaScript's UTF-16 code units. A name with a character outside the Basic Multilingual Plane, such as "💊A", has length 3 in the source but 2 here. The name-length filter of the safety check and the token's `substr(2, 6)` differ on such text.
- The browser's `required`/`type="email"` form validation is not modelled: handlers accept any strings.
- The busy flags (`isChecking`, `isScanning`) and the `setTimeout` after submission are not modelled.
- The unreachable `default` branches of the status switches: the status type is closed.
- Quantities and deltas are unbounded integers, not JavaScript floating-point numbers.
- Db.Merge: an update that sets a field to an explicit `undefined` is not modelled. `None` means that the update does not carry the key.
- Db.RecordStore.constructor: the seeding that runs when the module loads is modelled as the store's constructor.
- PrescriptionForm.Form.UpdateMed: the source copies the array shallowly and mutates the shared row object. The model updates the row as a value, so aliasing with the previous state or a parent's list is not captured. It requires an index in range, because the handlers only pass shown rows.
- PrescriptionForm.Form.HandleSubmit: the 800 ms timer that clears the submitting flag and calls `onSuccess` is not modelled.
- PrescriptionForm.QrToken: the random text is any string. The contract does not restrict the characters to base 36.
- DoctorDashboard.RecentInteractions: the locale time string is shown as the raw date. The contract states the count and where each entry comes from. The newest-first order is the contract of `DoctorDashboard.SortByDateDesc`. Stability of the sort is not stated.
- DoctorDashboard.SortByDateDesc: the contract states a newest-first permutation only. The order among records with the same date is not stated, although JavaScript's `sort` is stable and the model's insertion sort also puts each record ahead of later records with the same date.
- Register.RegisterForm.HandleSubmit: on the rejection path the success flag is stated as unchanged, not as false. The form is only shown while it is false (views/Register.tsx:42).
- Register: the password field is never read by the source, so it is not modelled.
- AdminDashboard.UserAdmin.constructor: the empty initial list and the first run of the mount effect are folded into one step. The later reload when the modal is toggled is the explicit reload in `HandleAddUser`.
