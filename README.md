# User administration UI — a Dafny model

This project models the logic of a small single-page admin application that
lists, creates, edits and deletes user records kept in a remote REST store.
Each core source file is one Dafny module:

- `UserTypes` (`user_types.dfy`) holds the record types: `User`,
  `UserFormData`, the sort field and direction, the error shape and the
  query-cache keys.
- `Api` (`api.dfy`) is the HTTP adapter. It covers the normalisation of
  stored records (`transformUser`), the request each endpoint sends, and
  the outcome of each endpoint for a given response, including how errors
  are wrapped.
- `UserTable` (`user_table.dfy`) is the table component. It covers the
  comparator and the sort, pagination with JavaScript `slice` semantics,
  the pager and the delete control. The sort is an insertion sort on a
  fresh array, proved to produce a sorted permutation.
- `UserListPage` (`user_list_page.dfy`) is the list page. Its view state is
  a class: the current page, the sort field and the sort direction, changed
  by the header-click and pager callbacks.
- `UserForm` (`user_form.dfy`) is the form component. It covers the default
  values, the validation rules with their messages, and a class for the
  form state with its dynamic list of skill rows.
- `UserFormPage` (`user_form_page.dfy`) is the create/edit page. It covers
  edit-mode detection, skill filtering with the ECMAScript `trim`, the
  choice of what to render, and what each mutation sends and does once it
  settles.

The model has no network, no clock and no locale. They enter as
parameters:

- An HTTP exchange is a `Response` value: a status and a decoded body, or a
  rejection carrying either an `Error` object or some other thrown value.
- The clock reading that `transformUser` and `createUser` take is a string
  parameter (`now`, `sentAt`).
- `localeCompare(…, 'ru')` is a `collate` function. It is assumed only to
  induce a total preorder (`IsCollation`).
- `new Date(s).getTime()` is an `epoch` function from strings to integers.
- `window.confirm` is a boolean input.

The adapter has a single error shape: every failure it raises is a plain
`Error` whose message starts with `Ошибка API: `, or the fixed unknown-error
message. A 404 on update or delete is such an error, and a 404 on
`getUserById` is an absent user. The model follows the code. It has no
separate "not found" error type. Outside the adapter, the update mutation
raises `ID не указан` without the prefix when there is no route id.

## Model

| member | source | states |
|---|---|---|
| Api.ParseDecimal | src/services/api.ts:19 | `parseInt(_, 10)` on a digit string: the last digit is the units digit, and a leading zero does not change the value |
| Api.ShowDecimal | src/services/api.ts:34 | the decimal spelling of a status or id is a non-empty digit string without a leading zero unless the number is 0 |
| Api.ShowInt | src/services/api.ts:49 | the spelling of an id in a path: a sign for negatives, then the decimal digits |
| Api.ParseShowDecimal | src/services/api.ts:19 | `parseInt(_, 10)` reads back every decimal spelling as the number it spells |
| Api.Truthy | src/services/api.ts:24 | the `\|\|` test on an optional string: an absent value or `""` is falsy, and any other string is truthy |
| Api.TransformUser | src/services/api.ts:17-26 | string ids are parsed and numeric ids kept; the names and email are copied; skills become `[]` unless they are an array; the date is `registrationDate`, else `createdAt`, else now, using JavaScript truthiness |
| Api.TransformParsesStringId | src/services/api.ts:19 | a record whose string id spells n normalises to id n |
| Api.RegistrationDateAlwaysSet | src/services/api.ts:24 | the normalised date is one of the three candidates and is never empty while the clock's text is not |
| Api.RecordPath | src/services/api.ts:49 | `/${id}`: a slash and then the id's spelling, from which the id reads back, sign included |
| Api.RecordPathInjective | src/services/api.ts:49 | two ids share a record path only when they are equal |
| Api.GetAllUsersRequest | src/services/api.ts:32 | a GET of the collection, without a body |
| Api.GetUserByIdRequest | src/services/api.ts:49 | a GET of the record's path, without a body |
| Api.CreateUserRequest | src/services/api.ts:69-78 | a POST to the collection carrying every form field plus the send-time registration date |
| Api.UpdateUserRequest | src/services/api.ts:95-101 | a PUT to the record's path carrying exactly the form fields and no date |
| Api.DeleteUserRequest | src/services/api.ts:121-123 | a DELETE of the record's path, without a body |
| Api.RequestsAddressTheirRecord | src/services/api.ts:32-121 | the list and create requests go to the collection; the read, update and delete requests for an id all go to that record's path, and never to another id's |
| Api.CreateAndUpdateBodiesDiffer | src/services/api.ts:74-100 | the create and update bodies for the same form data differ only in the registration date |
| Api.IsOk | src/services/api.ts:33 | `response.ok`: the status is in the 2xx class |
| Api.HttpErrorMessage | src/services/api.ts:34 | the message is `HTTP error! status: ` followed by digits that read back as the status |
| Api.Rethrow | src/services/api.ts:38-43 | an `Error` is rewrapped with the `Ошибка API: ` prefix and anything else becomes the unknown-error message |
| Api.GetAllUsers | src/services/api.ts:30-44 | a success exactly on a 2xx status, with every record normalised in order; otherwise the prefixed HTTP-status error or the rewrapped rejection |
| Api.GetUserById | src/services/api.ts:47-64 | a 404 is exactly an absent user; a 2xx status is exactly a present user, normalised; other statuses and rejections are wrapped errors |
| Api.CreateUser | src/services/api.ts:67-90 | a success exactly on a 2xx status, with the stored record normalised; otherwise a wrapped error |
| Api.UpdateUser | src/services/api.ts:93-116 | a success exactly on a 2xx status; a 404 gives the prefixed not-found message, other failures the prefixed HTTP-status error or the rewrapped rejection |
| Api.DeleteUser | src/services/api.ts:119-136 | a success exactly on a 2xx status; a 404 gives the prefixed not-found message, other failures a wrapped error |
| Api.PrefixedIsAdapterError | src/services/api.ts:40 | any message behind the API prefix has the adapter's error shape |
| Api.RethrowIsAdapterError | src/services/api.ts:38-43 | whatever was thrown, the `catch` lets out an error of the adapter's shape |
| Api.EndpointErrorsAreWrapped | src/services/api.ts:30-136 | every error any of the five endpoints yields is either prefixed with `Ошибка API: ` or is the unknown-error message |
| UserTable.Compare | src/components/UserTable.tsx:48-84 | the comparator orders by the chosen field's key in the chosen direction: ids and parsed dates as numbers, names and e-mail by the collation |
| UserTable.DescendingSwapsArguments | src/components/UserTable.tsx:77-83 | descending order compares the arguments of ascending order in reverse |
| UserTable.PrecedesTotal | src/components/UserTable.tsx:48-84 | for every field and direction, any two users are ordered one way or the other |
| UserTable.PrecedesTransitive | src/components/UserTable.tsx:48-84 | for every field and direction, the comparator's order is transitive |
| UserTable.SortedKeys | src/components/UserTable.tsx:52-83 | in a sorted list the chosen key (id, parsed date, or collated name/email) is monotone in the chosen direction |
| UserTable.SortInPlace | src/components/UserTable.tsx:48-84 | the array ends sorted by the comparator and holds the same multiset of users |
| UserTable.SortUsers | src/components/UserTable.tsx:48 | a copy of the users of the same length, a permutation of them, sorted by the comparator |
| UserTable.RelativeIndex | src/components/UserTable.tsx:88 | `slice`'s index normalisation: negative indices count from the end, and everything is clamped to the length |
| UserTable.Slice | src/components/UserTable.tsx:88 | for non-negative bounds, `slice` is the sub-sequence between the clamped bounds |
| UserTable.TotalPages | src/components/UserTable.tsx:86 | `Math.ceil(count / perPage)`: the pages cover every row, and the last page is not empty |
| UserTable.StartIndex | src/components/UserTable.tsx:87 | page 1 starts at 0, a page from 1 on starts at a non-negative index, and each page starts where the one before it ends |
| UserTable.PageOf | src/components/UserTable.tsx:87-88 | a page holds at most perPage rows; from page 1 on it is the slice at `(page-1)*perPage`; it is empty past the end and on page 0 |
| UserTable.PagesUpToIsPrefix | src/components/UserTable.tsx:86-88 | the first k pages laid end to end are the first `k*perPage` rows |
| UserTable.PagesReassemble | src/components/UserTable.tsx:86-88 | all pages laid end to end are exactly the sorted list |
| UserTable.LastPageSize | src/components/UserTable.tsx:86-88 | the last page holds the rows left after the full pages |
| UserTable.PageCountExamples | src/components/UserTable.tsx:86-88 | 25 rows give 3 pages with 5 on the third; after a delete 21 rows still give 3 pages, and 20 rows give 2 |
| UserTable.PageInRangeStartsInside | src/components/UserTable.tsx:86-87 | a page between 1 and the page count starts inside the list |
| UserTable.SubrangeSortedSubset | src/components/UserTable.tsx:88 | a contiguous range of a sorted list is sorted and a sub-multiset of it |
| UserTable.PageIsSortedSubset | src/components/UserTable.tsx:88 | every page of the sorted list is sorted and a sub-multiset of the list |
| UserTable.PagerView | src/components/UserTable.tsx:209-263 | the pager is shown exactly when there is more than one page, with one button per page numbered 1 to the page count |
| UserTable.PagerDescribesPage | src/components/UserTable.tsx:214-237 | on a page in range, the "shown from–to" label names exactly the rows on that page, and the arrows are disabled exactly on the first and on the last page |
| UserTable.PagerTargetsInRange | src/components/UserTable.tsx:244-266 | from a page of at least 1, every enabled button leads to a page of at least 1, and from a page in range it leads to a page in range |
| UserTable.NextEnabledPastLastPage | src/components/UserTable.tsx:226 | for any list that has shrunk below the current page, `next` stays enabled and the current page of that list shows no rows |
| UserTable.DeleteButtonDisabled | src/components/UserTable.tsx:196 | a row's delete button is disabled exactly while its id is the one being deleted, and never while no delete runs |
| UserTable.AtMostOneRowBusy | src/components/UserTable.tsx:196 | at most one row's delete button is disabled at a time |
| UserTable.DeleteControl.constructor | src/components/UserTable.tsx:28 | no row is being deleted at first |
| UserTable.DeleteControl.HandleDelete | src/components/UserTable.tsx:37-46 | a declined confirm does nothing; a confirmed one marks the row as being deleted (its button disabled), sends the DELETE, clears the mark whatever the outcome, and invalidates the list only on success |
| UserListPage.Flip | src/pages/UserListPage.tsx:21 | the direction toggles |
| UserListPage.NextSort | src/pages/UserListPage.tsx:19-26 | a click on the active column flips its direction; a click on another column makes that column active, ascending |
| UserListPage.SortTwiceRestores | src/pages/UserListPage.tsx:20-21 | two clicks on the active column restore the sort state |
| UserListPage.ClickedColumnBecomesActive | src/pages/UserListPage.tsx:19-26 | the clicked column always becomes active, and a second click on it only flips the direction |
| UserListPage.ListPage.constructor | src/pages/UserListPage.tsx:10-12 | the view starts on page 1, sorted by id, ascending |
| UserListPage.ListPage.HandleSort | src/pages/UserListPage.tsx:19-26 | the sort state moves as `NextSort` says, and the page stays where it is |
| UserListPage.ListPage.HandlePageChange | src/pages/UserListPage.tsx:28-30 | the requested page is taken as given, and the sort is untouched |
| UserListPage.ListPage.Render | src/pages/UserListPage.tsx:53-61 | the users are sorted into a permutation by the current field and direction, and the rows shown are exactly the current page of that sorted list; so there are at most 10 of them, drawn from the fetched users and in order, and a page in range is not empty; the pager follows the list length and the page |
| UserListPage.PagerKeepsPageAtLeastOne | src/components/UserTable.tsx:244-266 | from page 1 or later, every enabled pager button leads to page 1 or later |
| UserForm.DefaultValues | src/components/UserForm.tsx:20-25 | the initial data when supplied, and otherwise three empty text fields and a single empty skill row |
| UserForm.CheckName | src/components/UserForm.tsx:49-55 | `required` then `minLength: 2`: an empty value gets the required message, a one-character value the too-short message, and only two or more characters pass |
| UserForm.ValidateFirstName | src/components/UserForm.tsx:49-55 | the first name passes exactly when it has at least two characters |
| UserForm.ValidateLastName | src/components/UserForm.tsx:70-76 | the last name passes exactly when it has at least two characters |
| UserForm.EmailPattern | src/components/UserForm.tsx:94 | the reading of `/^[A-Z0-9._%+-]+@[A-Z0-9.-]+\.[A-Z]{2,}$/i` as a split into local part, `@`, domain, `.` and at least two letters; an accepted string has at least six characters, an `@` and a `.` |
| UserForm.MatchesEmail | src/components/UserForm.tsx:94 | when the matcher accepts, the first `@` and the last `.` split the string as the pattern requires |
| UserForm.MatchesEmailIffPattern | src/components/UserForm.tsx:94 | the executable matcher accepts exactly the strings that the e-mail pattern describes |
| UserForm.EmailShape | src/components/UserForm.tsx:94 | an accepted e-mail holds exactly one `@` and ends in at least two letters |
| UserForm.ValidateEmail | src/components/UserForm.tsx:91-97 | an empty value gets the required message, another one not matching the pattern gets the format message, and the value passes exactly when it matches |
| UserForm.Validate | src/components/UserForm.tsx:49-97 | the form has no errors exactly when both names have at least two characters and the e-mail matches the pattern |
| UserForm.FormState.constructor | src/components/UserForm.tsx:19-26 | the form opens on its default values |
| UserForm.FormState.Reset | src/components/UserForm.tsx:35 | the whole state is replaced by the given data |
| UserForm.FormState.SyncInitialData | src/components/UserForm.tsx:33-37 | supplied initial data replaces the state, and absent initial data leaves it alone |
| UserForm.FormState.EditText | src/components/UserForm.tsx:46-99 | typing into a text input changes that field and nothing else |
| UserForm.FormState.EditSkill | src/components/UserForm.tsx:112-117 | typing into a skill row changes that row and nothing else |
| UserForm.FormState.AppendSkill | src/components/UserForm.tsx:129-135 | one blank row is added at the end and the other rows stay as they are |
| UserForm.FormState.RemoveSkill | src/components/UserForm.tsx:118-126 | the chosen row is removed and the others keep their order; since the button exists only with two or more rows, at least one row remains |
| UserForm.FormState.Submit | src/components/UserForm.tsx:147-153 | nothing happens while saving; otherwise the values are submitted exactly when every field rule passes, and else the validation errors are shown |
| UserFormPage.IsEditMode | src/pages/UserFormPage.tsx:11 | `!!id`: edit mode exactly for a present, non-empty route id, so an empty id means create |
| UserFormPage.TrimStart | src/pages/UserFormPage.tsx:43 | the result is a suffix of the input; what was dropped is all whitespace; and it does not start with whitespace |
| UserFormPage.TrimEnd | src/pages/UserFormPage.tsx:43 | the result is a prefix of the input; what was dropped is all whitespace; and it does not end with whitespace |
| UserFormPage.Trim | src/pages/UserFormPage.tsx:43 | `trim`: the result is a piece of the input that neither starts nor ends with whitespace, and only whitespace is cut from either side |
| UserFormPage.TrimEmptyIffBlank | src/pages/UserFormPage.tsx:43 | a string trims to empty exactly when every character in it is ECMAScript whitespace |
| UserFormPage.FilterSkills | src/pages/UserFormPage.tsx:43 | the result is never longer than the input; every kept skill is non-blank; and a skill is kept exactly when it occurs in the input and is non-blank |
| UserFormPage.FilterSkillsAppend | src/pages/UserFormPage.tsx:43 | filtering distributes over concatenation, so the order of the kept skills is the input's |
| UserFormPage.FilterSkillsKeepsNonBlank | src/pages/UserFormPage.tsx:43 | a list without blank skills passes through unchanged |
| UserFormPage.FilterSkillsIdempotent | src/pages/UserFormPage.tsx:41-44 | filtering twice is filtering once |
| UserFormPage.FilterSkillsExample | src/pages/UserFormPage.tsx:43 | `["", "Go", ""]` is cleaned to `["Go"]` |
| UserFormPage.FilteredData | src/pages/UserFormPage.tsx:41-44 | the names and e-mail pass through untouched and the skills are filtered |
| UserFormPage.FilteredDataIdempotent | src/pages/UserFormPage.tsx:41-44 | cleaning already cleaned form data changes nothing |
| UserFormPage.InitialData | src/pages/UserFormPage.tsx:69-76 | present exactly when the user is; the names and e-mail are copied; the user's skills are used, or a single blank row when there are none |
| UserFormPage.ChooseView | src/pages/UserFormPage.tsx:53-67 | the loading view exactly in edit mode while loading; the not-found view exactly in edit mode with no user once loaded; otherwise the form, which in edit mode is always pre-filled |
| UserFormPage.FormOpensWithARow | src/pages/UserFormPage.tsx:69-76 | whichever way the form is reached, it opens with at least one skill row |
| UserFormPage.HandleSubmit | src/pages/UserFormPage.tsx:39-51 | the cleaned data goes to the update mutation exactly in edit mode, and to the create mutation otherwise |
| UserFormPage.RunCreate | src/pages/UserFormPage.tsx:19-25 | the create request is sent; on success the list is invalidated and the app navigates to `/`; on failure neither happens |
| UserFormPage.RunUpdate | src/pages/UserFormPage.tsx:27-37 | without an id the mutation fails with `ID не указан` and sends nothing; otherwise the update request goes to the id's path; on success the list and that record's entry are invalidated and the app navigates to `/` |
| UserFormPage.Submit | src/pages/UserFormPage.tsx:39-51 | a submit runs the update in edit mode and the create otherwise, each on the cleaned form data |
| UserFormPage.SubmitEffects | src/pages/UserFormPage.tsx:19-51 | every submit sends the filtered skills; the app leaves the page exactly when the store accepts; every success refreshes the list; the record's own entry is refreshed exactly after a successful edit |

## Left out

- Network I/O, `fetch`, `response.json()` and the base URL are not modelled. A response is an input value, and a body that fails to decode is folded into a rejection carrying an `Error`.
- A stored record whose fields are not strings is left out, because the adapter's type annotations are not checked at run time. Only the `id` and `skills` shapes the code tests are modelled.
- Api.TransformUser: requires a string id to be a decimal digit string. `parseInt` on other strings (leading signs, spaces, trailing junk, `NaN`) is not modelled. Numbers are unbounded integers rather than IEEE doubles.
- Api.GetAllUsers: uses one clock reading for every record, whereas the code reads the clock once per record that lacks both dates.
- UserFormPage.RunUpdate: requires a route id to be a decimal digit string, so `Number(id)` on other text (`NaN`, non-integers, hex) is not modelled.
- UserFormPage.RunUpdate: reads a digit string exactly, whereas `Number` rounds ids above 2^53 to the nearest double. Api.RecordPath spells any integer exactly, whereas `${n}` switches to exponent form from 1e21 on.
- `localeCompare` with the `ru` locale is a parameter assumed to be a total preorder. The actual collation rules are not modelled.
- `new Date(…).getTime()` is a parameter returning an integer. Unparsable dates (`NaN`, which makes the comparator inconsistent) are not modelled.
- UserTable.SortUsers: promises a sorted permutation only. `Array.prototype.sort` is stable, and the relative order of users with equal keys is not stated.
- The comparator's `default: return 0` branch is unreachable, because the sort field is a closed datatype.
- The react-query cache (fetching, deduplication, refetch on invalidation, `isLoading`, `isPending`, error state) is not modelled. The model records only which query keys are invalidated.
- The `['user', id]` query itself is not modelled (src/pages/UserFormPage.tsx:13-17). Its loading flag and result are inputs to `ChooseView`.
- Routing, `navigate` and `window.history.back` are not modelled. The model records only the navigation target.
- `window.confirm` is a boolean input to `HandleDelete`.
- UserTable.DeleteControl.HandleDelete: treats one delete at a time. A second confirmed delete started while the first is in flight overwrites `deletingId`, and that is not modelled. Neither is the rejection that propagates out of `mutateAsync` after the `finally`.
- The list page's loading and error renderings (src/pages/UserListPage.tsx:32-46) and all JSX markup, styling, the sort icons and date formatting are not modelled.
- UserForm.CheckName: counts code points, whereas JavaScript's `minLength` counts UTF-16 code units. The two differ for characters outside the Basic Multilingual Plane.
- The e-mail pattern has no `u` flag, so its `i` flag folds only ASCII letters. The model's character classes are ASCII-only to match.
- react-hook-form's internals are not modelled: field-array row ids, registration, touched and dirty state, and the re-validation mode. Only the values, the rule order and the messages are modelled.
- UserForm.FormState.SyncInitialData: models one run of the `initialData` effect, not when it runs. The page builds a new `initialData` object on every render (src/pages/UserFormPage.tsx:69-76) and the effect depends on it (src/components/UserForm.tsx:33-37). So in edit mode the effect fires again on every page re-render, for example when the update mutation's pending flag changes, and resets the form to the fetched record. Unsaved edits are then lost after a failed update. The model does not capture this re-firing.
- UserForm.FormState.Submit: ignores the browser's own validation. The e-mail input is `type="email"` in a form without `noValidate` (src/components/UserForm.tsx:40, 89), so addresses the pattern accepts but HTML rejects (such as `a@-b.co` or `a@b..co`) never reach the handler, while the model returns `Submitted` for them.
- UserForm.FormState.Submit: its disabled branch stands for the submit button's `disabled` attribute. The form library's asynchronous `handleSubmit` wrapper is not modelled.
- The application shell (src/App.tsx and src/components/Layout.tsx) is not part of this model.
