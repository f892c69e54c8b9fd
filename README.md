# User management app: the users store and the add-user form

This project models two pieces of a small React/Redux user-management
application and proves properties about them:

- **The users slice** (`src/store/usersSlice.js`). The store state is
  `{ items, loading, error }`. Three reducers change the list: `addUser`
  builds a normalised record and puts it at the front; `updateUser`
  shallow-merges a payload into the first entry with the payload's id;
  `deleteUser` drops every entry with a given id. The three cases of the
  `fetchUsers` lifecycle (`pending`, `fulfilled`, `rejected`) move the
  `loading` and `error` flags and replace the list.
- **The add-user form** (`src/components/AddUserForm.jsx`). `validateForm`
  requires a name that is not blank after `trim()`, and an email that is not
  blank and matches `/^[^\s@]+@[^\s@]+\.[^\s@]+$/`. `handleChange` stores a
  typed value and clears that field's error. `handleSubmit` either records the
  errors or hands the data on and resets the form.

Files:

- `js_values.dfy` (module `JsValues`): the JavaScript values that occur in
  records and payloads, truthiness, property access and `a.b || fallback`.
- `users_slice.dfy` (module `UsersSlice`):
  - a `User` is an integer `id` plus a map of its other properties;
  - a pure function for the list each of `addUser`, `updateUser` and
    `deleteUser` leaves, with lemmas about those functions;
  - the class `UsersState`, whose fields `items`, `loading` and `error` are
    updated in place by one method per reducer and fetch case. The three list
    methods are proved to compute their pure function. The three fetch
    methods state their new field values directly; they only assign fields.
- `add_user_form.dfy` (module `AddUserForm`):
  - one whitespace predicate shared by `trim()` and the regular-expression
    class `\s`;
  - `Trim`;
  - the email pattern, stated as a split of the string. It is proved equal to
    an independent left-to-right scan;
  - `ValidateForm`;
  - the class `FormState`, with fields `formData` and `errors` and the two
    handlers as methods.

How JavaScript is read here:

- `===` between a user's id and a payload value is equality with `Num(id)`.
- An absent property reads as `undefined`.
- `{ ...a, ...b }` is map union with `b` winning.
- `Date.now()` is a parameter `now`.

## Model

| member | source | states |
|---|---|---|
| JsValues.Truthy | src/store/usersSlice.js:36 | the operand test of `\|\|`: the falsy values are exactly `null`, `false`, `0` and `''`; every object is truthy |
| JsValues.Get | src/store/usersSlice.js:42 | reading `payload.id`: defined exactly when the property is present, and then its value |
| JsValues.OrElse | src/store/usersSlice.js:36 | `payload.company \|\| ''`: the property when it is present and truthy, else the fallback |
| UsersSlice.AsObject | src/store/usersSlice.js:44 | the record as the stored object: its fields plus `id`, with the id's number under `id` |
| UsersSlice.IdMatches | src/store/usersSlice.js:42 | `user.id === action.payload.id`, where `None` stands for a missing property: true only for a number equal to the user's id |
| UsersSlice.IdMatchesStrictEquality | src/store/usersSlice.js:48 | the match holds exactly when the payload value equals the stored object's `id` property |
| UsersSlice.CompanyName | src/store/usersSlice.js:35-37 | `user.company.name`: defined exactly when `company` is an object with a `name` property, and then that property |
| UsersSlice.NewUser | src/store/usersSlice.js:24-38 | the built user's id is `now` whatever the payload's id; phone, website and the four address fields are `''`; `company.name` is the payload's company when truthy, else `''`; every other payload property is copied; the key set is exactly the payload's plus the fixed ones |
| UsersSlice.FindIndex | src/store/usersSlice.js:42 | `findIndex`: -1 exactly when no entry's id equals the payload id; otherwise an index whose entry matches, with no match before it |
| UsersSlice.Merge | src/store/usersSlice.js:44 | the merged record keeps the id; payload fields win, fields absent from the payload keep their old values; when the payload's id is the record's id, the object equals `{ ...old, ...payload }` |
| UsersSlice.Updated | src/store/usersSlice.js:41-46 | the length and every id are unchanged; the list is unchanged when no id matches; otherwise only the first matching entry changes, and it becomes the old entry merged with the payload |
| UsersSlice.WithoutId | src/store/usersSlice.js:48 | `filter(user => user.id !== id)`: the result is no longer than the list, no entry left has the id, and nothing changes when no entry has the id |
| UsersSlice.WithoutIdSubset | src/store/usersSlice.js:48 | every entry left was in the list and has a different id |
| UsersSlice.WithoutIdAppend | src/store/usersSlice.js:48 | the filter distributes over concatenation |
| UsersSlice.WithoutIdStep | src/store/usersSlice.js:48 | filtering a prefix one element longer appends that element exactly when its id differs |
| UsersSlice.WithoutIdCounts | src/store/usersSlice.js:48 | exactly the entries with that id are removed: each other entry keeps its number of occurrences, and entries with the id occur zero times |
| UsersSlice.WithoutIdKeepsOrder | src/store/usersSlice.js:48 | the kept entries are a subsequence of the old list, in the same relative order |
| UsersSlice.SubsequenceOfTail | src/store/usersSlice.js:48 | dropping the head of a subsequence leaves a subsequence |
| UsersSlice.SubsequenceOfCons | src/store/usersSlice.js:48 | a subsequence stays one when an element is put in front of the longer list |
| UsersSlice.WithoutPresentIdRemovesOne | src/store/usersSlice.js:47-49 | with unique ids, deleting an id that is present shortens the list by exactly one |
| UsersSlice.UniqueIdsCons | src/store/usersSlice.js:39 | ids are unique in `[x] + rest` exactly when they are unique in `rest` and `x`'s id is new |
| UsersSlice.WithoutIdKeepsUnique | src/store/usersSlice.js:48 | deleting keeps ids unique |
| UsersSlice.AddFreshIdKeepsUnique | src/store/usersSlice.js:26-39 | adding under a timestamp no entry has keeps ids unique |
| UsersSlice.UpdatedKeepsUnique | src/store/usersSlice.js:42-44 | updating keeps ids unique |
| UsersSlice.UsersState.constructor | src/store/usersSlice.js:17-21 | initial state: no users, not loading, no error |
| UsersSlice.UsersState.AddUser | src/store/usersSlice.js:23-40 | the new list is the built user followed by the old list unchanged: the length grows by one and `items[0]` is the new user; `loading` and `error` are unchanged |
| UsersSlice.UsersState.UpdateUser | src/store/usersSlice.js:41-46 | the new list is `Updated(old list, payload)`; `loading` and `error` are unchanged |
| UsersSlice.UsersState.DeleteUser | src/store/usersSlice.js:47-49 | the new list is `WithoutId(old list, id)`; `loading` and `error` are unchanged |
| UsersSlice.UsersState.FetchPending | src/store/usersSlice.js:53-56 | loading is set, the error is cleared, and the items are untouched |
| UsersSlice.UsersState.FetchFulfilled | src/store/usersSlice.js:57-60 | loading is cleared, the items become the payload, and the error is as before |
| UsersSlice.UsersState.FetchRejected | src/store/usersSlice.js:61-64 | loading is cleared, the error becomes the message, and the items are untouched |
| AddUserForm.IsWhitespace | src/components/AddUserForm.jsx:31 | the one whitespace class shared by `trim()` (lines 31 and 35) and `\s` (line 37): the JavaScript WhiteSpace and LineTerminator code points |
| AddUserForm.VisibleAsciiIsNotWhitespace | src/components/AddUserForm.jsx:37 | `@`, `.` and every visible ASCII character are not whitespace |
| AddUserForm.Blank | src/components/AddUserForm.jsx:31 | a string whose `trim()` is empty: every character is whitespace |
| AddUserForm.BlankIffAllWhitespace | src/components/AddUserForm.jsx:31 | blank means that every character occurring in the string is whitespace |
| AddUserForm.SkipLeading | src/components/AddUserForm.jsx:31 | where the whitespace run that `trim()` removes at the front ends: all blank before it, and the next character is not whitespace |
| AddUserForm.SkipTrailing | src/components/AddUserForm.jsx:31 | where the whitespace run that `trim()` removes at the back starts: all blank after it, and the character before it is not whitespace |
| AddUserForm.Trim | src/components/AddUserForm.jsx:31 | `trim()`: the result is an infix of the input with blank text on both sides; it neither starts nor ends with whitespace; it is empty exactly when the input is blank |
| AddUserForm.EmailPattern | src/components/AddUserForm.jsx:37 | `/^[^\s@]+@[^\s@]+\.[^\s@]+$/.test(email)`: some split of the email fits the pattern |
| AddUserForm.SplitsAt | src/components/AddUserForm.jsx:37 | the split with `@` at `i` and `.` at `j` leaves three non-empty runs without whitespace or `@` |
| AddUserForm.EmailScan | src/components/AddUserForm.jsx:37 | an independent left-to-right reading of the pattern: no whitespace, one `@` not in first place, and a `.` strictly inside what follows it |
| AddUserForm.EmailPatternMinimal | src/components/AddUserForm.jsx:37 | a matching email has at least five characters, among them `@` and `.` |
| AddUserForm.IndexOf | src/components/AddUserForm.jsx:37 | the first index of the character, or -1 exactly when it is absent |
| AddUserForm.PatternCharsAroundDot | src/components/AddUserForm.jsx:37 | a `[^\s@]*` text splits around any `.` in it into two such texts, and back |
| AddUserForm.PatternCharsIff | src/components/AddUserForm.jsx:37 | `[^\s@]*` means no whitespace and no `@` |
| AddUserForm.NoWhitespaceAround | src/components/AddUserForm.jsx:37 | a text has no whitespace exactly when neither side of its `@` has any |
| AddUserForm.PatternImpliesScan | src/components/AddUserForm.jsx:37 | a string matching the split pattern passes the left-to-right scan |
| AddUserForm.ScanImpliesPattern | src/components/AddUserForm.jsx:37 | a string passing the scan matches the split pattern |
| AddUserForm.EmailPatternIffScan | src/components/AddUserForm.jsx:37 | the email pattern holds exactly when the scan passes: no whitespace, one `@` not in first place, and a `.` strictly inside the domain |
| AddUserForm.WhitespaceFailsPattern | src/components/AddUserForm.jsx:35-38 | the pattern is tested on the untrimmed email, so whitespace anywhere (leading and trailing included) makes it fail |
| AddUserForm.BlankFailsPattern | src/components/AddUserForm.jsx:35-38 | a blank email never matches, so the "required" case lies inside the "does not match" case |
| AddUserForm.EmailExamples | src/components/AddUserForm.jsx:37 | `a@b.c` matches; `x@y`, `a@@b.c`, ` a@b.c` and `a@b.c ` do not |
| AddUserForm.FormData.Get | src/components/AddUserForm.jsx:5-9 | the value of the named input in the form data |
| AddUserForm.FormData.With | src/components/AddUserForm.jsx:15-18 | `{ ...prevData, [name]: value }`: the named field gets the value, and the others are unchanged |
| AddUserForm.ValidateForm | src/components/AddUserForm.jsx:28-41 | only name and email errors occur. There is a name error, "Name is required", exactly when the trimmed name is empty. There is an email error exactly when the email fails the pattern: "Email is required" when it is blank, else "Please enter a valid email address". Each rule is decided independently |
| AddUserForm.SubmitAcceptsIff | src/components/AddUserForm.jsx:45-46 | the error map is empty exactly when the name is not blank and the email matches |
| AddUserForm.BothErrorsReported | src/components/AddUserForm.jsx:29-40 | a blank name and a blank email give both errors at once, each with its message |
| AddUserForm.FormState.constructor | src/components/AddUserForm.jsx:5-11 | the form opens with three empty fields and no errors |
| AddUserForm.FormState.HandleChange | src/components/AddUserForm.jsx:13-26 | only the changed field of the data is updated. That field's error is set to `""` when it was shown (non-empty); otherwise the errors are untouched |
| AddUserForm.FormState.HandleSubmit | src/components/AddUserForm.jsx:43-58 | the data is forwarded exactly when validation finds no error. It is then the old data, and the form is reset to empty data and no errors. Otherwise the data is unchanged and the errors are the validation result |
| AddUserForm.AsPayload | src/components/AddUserForm.jsx:51 | the forwarded form data as an object with exactly the properties `name`, `email` and `company`, each the string typed into that input |
| AddUserForm.NewUserFromForm | src/components/AddUserForm.jsx:51 | the user `addUser` builds from the form data has the timestamp id, the typed name and email, and the typed company as `company.name` (also when it is empty) |
| AddUserForm.SubmittedUserIsValid | src/components/AddUserForm.jsx:45-51 | data the form accepts has a non-blank name and an email matching the pattern, and the stored user carries them |

## Left out

- The network request in `fetchUsers` (src/store/usersSlice.js:3-13) is left out. So are the requests in `UserDetails.jsx` and `UsersList.jsx`. They are HTTP I/O and JSON parsing. Their outcome enters only as the argument of `FetchFulfilled` (the fetched list) and `FetchRejected` (the message).
- `FetchRejected` takes `action.error.message` as a string. Redux Toolkit's serialisation of the thrown error is not modelled.
- The local fetch in `UsersList.jsx` never records its error: line 26 reads `setError.message` instead of calling `setError`. That component's state is not part of this model.
- JSX rendering, routing in `App.jsx`, CSS classes, and the `useState`/`useEffect` hook machinery are left out. Each handler runs against the state it sees and replaces it in full, as one method call.
- Redux Toolkit and Immer internals are left out: action creators, action types and draft proxies. Each reducer is a method acting on the state object directly.
- `Date.now()` is a parameter. Nothing makes it unique, so uniqueness of ids is proved only when the caller passes a timestamp that no entry already has (`AddFreshIdKeepsUnique`).
- Ids are integers. JavaScript numbers that are not integers, `NaN`, and ids of other types are not modelled. The `deleteUser` payload is a `Value`; it never matches when it is not a number.
- `undefined`, arrays and functions are not values of `Value`. A `deleteUser` action without a payload cannot be written. A payload property explicitly set to `undefined` is treated as absent: in JavaScript `{ ...old, ...payload }` would set that property to `undefined`, while `Merge` keeps the old value.
- The insertion order of object keys is not modelled: objects are maps.
- `handleChange` is modelled only for the form's three inputs (`name`, `email`, `company`). An event from a control with another `name` attribute cannot occur in this form.
- How `onAddUser` is wired to `addUser` is outside this model: its parent component is not part of it. `HandleSubmit` returns the forwarded data. `NewUserFromForm` and `SubmittedUserIsValid` state what `addUser` builds from that data, using the string payload `AsPayload`.
- `IsWhitespace` is the list of JavaScript WhiteSpace and LineTerminator code points from the ECMAScript specification. Any later Unicode changes to the space-separator category are not tracked.
- The search, filter and sort views of the user list do not exist in this code.
