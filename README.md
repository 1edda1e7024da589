# Person management: validation, update forms and the in-memory person service

This project models the core of a small Angular application that manages a
directory of persons (id, first name, last name, email):

- **Field validation and the submit decision** (`persons.dfy`,
  `form_validators.dfy`, `person_management.dfy`). The first- and last-name
  controls carry Angular's `required`, `pattern('^[a-zA-ZäöüÄÖÜß]+$')` and
  `minLength(3)`; the email control carries `required` and the pattern
  `[a-zA-Z0-9._%+-]+@[a-zA-Z0-9.-]+\.[a-zA-Z]{2,}`. Each validator is modelled with
  Angular's semantics: a string pattern is anchored with `^…$`, `pattern` and
  `minLength` let the empty string through (so an empty control reports only
  `required`), and `minLength` counts UTF-16 code units. `Decide` is the
  four-way decision that `addPerson` and `updatePerson` share: the name message,
  the empty-email message, the bad-email message, or a person with id 0 to send.
- **Update-form sessions** (`person_management.dfy`). The component keeps the id
  of the one open update form (0 for none) and a map from person id to form.
  `Toggle`, `GetOrCreate` and `Cancel` are the transitions; the class
  `PersonManagementComponent` performs them in place and its methods state their
  new state through these functions. The invariant `SingleOpen` (the open id is
  0 or has a form) holds after every operation.
- **The in-memory person service** (`person_service_mock.dfy`). The class
  `PersonServiceMock` holds the table as a sequence that its methods reassign:
  append under id max+1 (0 when empty), overwrite the first record with the id
  (keeping that id), remove the first record with the id, and look up the first
  record with the id. The pure functions `Added`, `Replaced`, `Removed` and
  `Lookup` give each operation's result, and lemmas show that unique ids stay
  unique and that lookups then find what was added or updated and nothing that
  was deleted.
- `walkthrough.dfy` replays the component's test scenarios against the
  contracts of the two classes.

**The email pattern as written.** In a TypeScript string literal `'\.'` is just
`'.'`, so the character before the top-level domain is any character other
than a line terminator, not a dot. The model keeps this: `EmailPatternMatches`
accepts `john@mailde` (the lemma `DomainWithoutDotPasses`). The evident intent
is a literal dot; the model follows the code.

**Updating closes the form by toggling it.** After a successful update the
component calls `toggleUpdateForm(id)`, so the form is closed and blanked when
it was the open one (the model assumes an update is submitted from the open
form); if another form was open, the updated form is opened instead. `UpdatePerson` states the
toggle.

A JavaScript regular expression's `.` consumes one UTF-16 code unit, so no
character outside the Basic Multilingual Plane can be part of a match of the
email pattern; `MatchesDot` excludes such characters for that reason.

## Model

| member | source | states |
|---|---|---|
| FormValidators.NameRule | src/app/persons/person-management.component.ts:19-23 | A name control is valid iff its text has at least three characters, each in a–z, A–Z or äöüÄÖÜß (required, anchored pattern and minLength combined). |
| FormValidators.EmailRule | src/app/persons/person-management.component.ts:26-29 | The email control reports `required` iff it is empty, and is valid iff it is non-empty and matches the anchored email pattern. |
| FormValidators.EmailScanAgrees | src/app/persons/person-management.component.ts:28 | The email pattern (an existential over where the `@` and the any-character sit) holds iff the search-free scan accepts: the local part is everything before the first `@`, and the any-character sits at the leftmost admissible place. |
| FormValidators.EmailScanSound | src/app/persons/person-management.component.ts:28 | Every string the scan accepts matches the email pattern. |
| FormValidators.EmailScanComplete | src/app/persons/person-management.component.ts:28 | Every split that matches the email pattern makes the scan accept. |
| PersonManagement.Decide | src/app/persons/person-management.component.ts:54-83 | Name message iff either name is invalid (whatever the email); empty-email message iff the names are valid and the email is empty; pattern message iff the names are valid and a non-empty email misses the pattern; otherwise the person sent has id 0 and the form's three values. |
| PersonManagement.CreatePersonForm | src/app/persons/person-management.component.ts:158-164 | A new update form has three empty values, and submitting it raises the name message. |
| PersonManagement.DecideEmptyForm | src/app/persons/person-management.component.spec.ts:33-45 | An all-empty form raises the name message, not an email message. |
| PersonManagement.DecideEmptyLastName | src/app/persons/person-management.component.spec.ts:62-84 | An empty last name raises the name message for every email. |
| PersonManagement.DecideEmailWithoutAt | src/app/persons/person-management.component.spec.ts:86-101 | `john.doemail.de` with valid names raises the pattern message. |
| PersonManagement.DecideValidForm | src/app/persons/person-management.component.spec.ts:47-60 | John / Doe / john.doe@mail.de is submitted as that person with id 0. |
| PersonManagement.DecideUpdatedForm | src/app/persons/person-management.component.spec.ts:103-136 | The update test's form (last name Updated) is submitted with its values. |
| PersonManagement.DecideEmptyEmail | src/app/persons/person-management.component.ts:105-108 | Valid names with an empty email raise the empty-email message, never the pattern message. |
| PersonManagement.DomainWithoutDotPasses | src/app/persons/person-management.component.ts:28 | An email whose domain contains no dot (john@mailde) passes, because the character before the top-level domain is unrestricted. |
| PersonManagement.Toggle | src/app/persons/person-management.component.ts:133-140 | Open id becomes 0 if it was id, id otherwise; the form of id is blank; no key is added or removed and other forms are unchanged; afterwards at most one form is open and it exists. |
| PersonManagement.GetOrCreate | src/app/persons/person-management.component.ts:150-155 | A blank form is created only when id has none; an existing form is returned unchanged; the open id and all other forms are unchanged; the single-open invariant is kept. |
| PersonManagement.Cancel | src/app/persons/person-management.component.ts:166-169 | Open id becomes 0 and exactly the key id is removed; every remaining form is unchanged. |
| PersonManagement.GetOrCreateIdempotent | src/app/persons/person-management.component.ts:150-155 | Getting the same form twice has the effect of getting it once. |
| PersonManagement.ToggleTwice | src/app/persons/person-management.component.ts:133-140 | Two toggles of the same form blank it and leave it open only if it was open before; any other open form ends up closed. |
| PersonManagement.SuccessfulUpdateCloses | src/app/persons/person-management.component.ts:125 | When the updated form is the open one, the toggle after the service answers closes it and blanks its three values. |
| PersonManagement.PersonManagementComponent.constructor | src/app/persons/person-management.component.ts:13-36 | No form open, no update forms, blank create form. |
| PersonManagement.PersonManagementComponent.AddPerson | src/app/persons/person-management.component.ts:54-83 | Returns exactly `Decide` of the create form and changes nothing. |
| PersonManagement.PersonManagementComponent.UpdatePerson | src/app/persons/person-management.component.ts:97-126 | Returns `Decide` of the form of id; on an alert the open id and every form are unchanged; on success the state becomes `Toggle` of the old state; the single-open invariant is kept. |
| PersonManagement.PersonManagementComponent.ToggleUpdateForm | src/app/persons/person-management.component.ts:133-140 | The new sessions are `Toggle` of the old; requires the form of id to exist, as the source dereferences it. |
| PersonManagement.PersonManagementComponent.IsOpen | src/app/persons/person-management.component.ts:143-145 | True iff the open id equals id; under the single-open invariant an open non-zero id has a form. |
| PersonManagement.PersonManagementComponent.GetPersonForm | src/app/persons/person-management.component.ts:150-155 | The new sessions are `GetOrCreate` of the old, and the returned form is the one now stored for id. |
| PersonManagement.PersonManagementComponent.CancelPersonUpdate | src/app/persons/person-management.component.ts:166-169 | The new sessions are `Cancel` of the old. |
| MockService.FirstIndex | src/app/persons/person.service.mock.ts:24 | -1 iff no record has the id; otherwise a position holding the id with no earlier position holding it. |
| MockService.MaxId | src/app/persons/person.service.mock.ts:42 | At least 0, at least every id, and either 0 or the id of some record. |
| MockService.NextId | src/app/persons/person.service.mock.ts:41-44 | At least 1, greater than every stored id, and 1 or one past a stored id. |
| MockService.Lookup | src/app/persons/person.service.mock.ts:11-14 | None iff no record has the id; otherwise the stored record with that id at the first position holding it. |
| MockService.Added | src/app/persons/person.service.mock.ts:16-21 | One more record; the earlier ones unchanged; the last has the fresh id and the input's other fields. |
| MockService.Replaced | src/app/persons/person.service.mock.ts:23-31 | Same length; absent id leaves the table unchanged; otherwise the first matching position gets the input's fields under the path id and every other position is unchanged. |
| MockService.Removed | src/app/persons/person.service.mock.ts:33-39 | Absent id leaves the table unchanged; otherwise one record fewer, namely the first with the id, the rest in order. |
| MockService.AddedKeepsIds | src/app/persons/person.service.mock.ts:16-21 | Adding keeps ids unique, and a lookup of the fresh id finds the added record. |
| MockService.ReplacedKeepsIds | src/app/persons/person.service.mock.ts:23-31 | Updating keeps ids unique, and a lookup of a present id then finds the updated record. |
| MockService.RemovedKeepsIds | src/app/persons/person.service.mock.ts:33-39 | Deleting keeps ids unique, and with unique ids no record with the id remains. |
| MockService.FirstAddGetsIdOne | src/app/persons/person-management.component.spec.ts:57-59 | The first person added to an empty table is stored under id 1. |
| MockService.PersonServiceMock.constructor | src/app/persons/person.service.mock.ts:5 | The table starts empty, so ids are trivially unique. |
| MockService.PersonServiceMock.GetPersons | src/app/persons/person.service.mock.ts:7-9 | Returns the table. |
| MockService.PersonServiceMock.GetPerson | src/app/persons/person.service.mock.ts:11-14 | Returns `Lookup` of the table; when ids are unique, the record found is the only one with the id. |
| MockService.PersonServiceMock.AddPerson | src/app/persons/person.service.mock.ts:16-21 | Returns the input under the fresh id; the table becomes `Added`; unique ids stay unique. |
| MockService.PersonServiceMock.UpdatePerson | src/app/persons/person.service.mock.ts:23-31 | Returns the input under the path id when the id is present and None otherwise; the table becomes `Replaced`; unique ids stay unique. |
| MockService.PersonServiceMock.DeletePerson | src/app/persons/person.service.mock.ts:33-39 | The table becomes `Removed`; with unique ids, no record with the id remains. |
| MockService.PersonServiceMock.GenerateId | src/app/persons/person.service.mock.ts:41-44 | Returns `NextId` of the table, computed by a loop over the ids. |
| MockService.PersonServiceMock.FindIndex | src/app/persons/person.service.mock.ts:24 | Returns `FirstIndex` of the table, computed by a linear search. |

## Left out

- The HTTP person service (`person.service.ts`) is not part of this model: it forwards the five operations to a REST backend and has no logic of its own. The component's successful submissions are modelled as the person they would send.
- `ngOnInit`, `getPersons`, the `persons` list and the refreshes in the subscription callbacks are not modelled: they copy the service's table into the component asynchronously. The walkthrough hands each submission to the in-memory service directly instead.
- The component's `deletePerson` is not modelled: it only forwards the id to the service and refreshes afterwards (under the in-memory service, whose `deletePerson` emits nothing, the refresh never runs).
- `showPersonDetails` is not modelled: it only writes into a new browser window.
- `alert`, `menuOption` and the templates are not modelled; an alert is the `Alert` value returned by the decision.
- PersonManagement.PersonManagementComponent.UpdatePerson: assumes the service answers; when the request fails, the source never runs the toggle, which the model does not capture.
- PersonManagement.PersonManagementComponent.ToggleUpdateForm: requires a form for the id; the source sets the open id and then fails with a TypeError when there is none, a state the model does not reach.
- PersonManagement.PersonManagementComponent.UpdatePerson: requires a form for the id, for the same reason.
- A form is its three values; every form is assumed to carry the standard validators. A form built without validators (as one component test does) always validates in the source.
- Angular's `FormGroup`/`FormControl` internals (status, touched state, value changes) are not modelled.
- Ids are unbounded integers: floating-point and non-numeric ids (which `Math.max` would turn into fractions or NaN) are not modelled.
- `getPersons` of the in-memory service returns its array by reference; this aliasing is not modelled (the model returns the table's value).
- Object spread copies any extra properties of the input person; a person in the model has exactly its four fields.
- Asynchronous ordering between requests is not modelled.
- Strings are sequences of Unicode scalar values, so a JavaScript string holding a lone surrogate code unit cannot be represented; the email pattern's unescaped `.` matches such a code unit in JavaScript (for example in `ab@cd` + U+D800 + `ef`), a case outside the model.
