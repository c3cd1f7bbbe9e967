# Library borrowing client — a Dafny model

This project models the client of a small library system. It covers these parts:

- the axios service layer (`src/services/api.ts`): one wrapper per backend endpoint, plus the request interceptor that attaches the stored token as a bearer credential to every call except login;
- the authentication provider (`src/services/AuthProvider.tsx`): it restores the user and role from `localStorage` at mount and clears them on logout;
- the route guard (`src/components/PrivateRoute.tsx`);
- the login screen (`src/components/Login.tsx`);
- the book catalog and the book form (`BookList.tsx`, `BookForm.tsx`);
- the borrowing-transaction list and the transaction form (`TransactionList.tsx`, `TransactionForm.tsx`).

The browser and the backend are modelled as follows:

- `localStorage` is a `Storage.LocalStorage` object holding a `map<string, string>`.
- Every awaited backend call is a parameter of type `Js.Reply<T>`, either `Ok(data)` or `Err(cause)`. A handler returns the `Api.Call` values it issued, in order.
- `window.confirm` is a `bool` parameter.
- A toast is a returned `Js.Toast`.
- A navigation is a returned path.
- A throw is a returned flag.

Each React component with state is a class. Its `useState` variables are fields, and each handler or effect is a method. The method's `ensures` ties the new state and the issued calls to pure functions. Properties of those functions are proved as lemmas:

- the interceptor attaches a credential exactly to the non-login calls, and only when the token is truthy;
- the guard and the interceptor agree on what "signed in" means;
- logout clears the session, and storing a login is read back by the provider;
- a USER's list holds only that user's transactions;
- the row buttons allow exactly the Borrowed → Pending → Returned lifecycle;
- the forms send only validated data.

JavaScript semantics are written out where the code depends on them:

- truthiness of a string or a number, with `Number` producing `NaN`;
- `String.prototype.trim` over the ECMAScript whitespace set;
- decimal `Number(...)` and `${id}` formatting, with a proved round trip;
- `parseInt(value, 10)` on the year input, which gives `NaN` when there is no digit;
- `URLSearchParams.get` on the query string, split into pairs at `&` and `=`.

`JSON.stringify`/`JSON.parse` of a user is a length-prefixed encoding with a proved round trip (`UserJson`).

## Model

| member | source | states |
|---|---|---|
| Js.ToNumber | src/components/TransactionForm.tsx:41 | `Number(s)` is a number exactly when `s` is a decimal integer literal, and `NaN` otherwise |
| Js.ToNumberOfString | src/components/TransactionForm.tsx:41 | `Number` of a printed id is that id |
| Js.LeadingBlanks | src/components/BookForm.tsx:51-53 | the whitespace `trim` drops at the start: an all-whitespace prefix that is followed by a non-whitespace character or the end |
| Js.TrailingBlanks | src/components/BookForm.tsx:51-53 | the whitespace `trim` drops at the end: an all-whitespace suffix that is preceded by a non-whitespace character or the start |
| Js.TrimEmptyIffBlank | src/components/BookForm.tsx:51-53 | `!s.trim()` holds exactly when `s` is empty or all whitespace (both directions) |
| Js.LeadingDigitsValue | src/components/BookForm.tsx:144 | the digit run `parseInt` reads: `NaN` exactly when the text does not start with a digit, and otherwise a value that is not negative |
| Js.ParseIntPrefix | src/components/BookForm.tsx:144 | `parseInt` of a text with no digit at all, the emptied input in particular, is `NaN` |
| Js.ParseIntPrefixOfString | src/components/BookForm.tsx:144 | `parseInt` reads back a printed integer, and stops at the first non-digit after it |
| Strings.SplitAt | src/components/TransactionForm.tsx:39 | splits at the first separator: the part before it holds none, and the parts around it join back to the input; no separator gives none |
| Strings.Split | src/components/TransactionForm.tsx:39 | the query's `&`-separated pairs: none holds a `&`, and joined back with `&` they give the query |
| Strings.SplitOfJoin | src/components/TransactionForm.tsx:39 | splitting `&`-joined pairs that hold no `&` gives the same pairs back |
| Decimal.NatToString | src/components/BookList.tsx:105 | `${n}` of a natural number is a non-empty digit string |
| Decimal.IntToString | src/components/BookList.tsx:105 | `${id}` is non-empty and made only of digits after an optional leading minus |
| Decimal.NatRoundTrip | src/components/BookList.tsx:105 | reading the digits of `${n}` back gives `n` |
| Decimal.IntRoundTrip | src/components/BookList.tsx:105 | parsing `${id}` gives back `id`, for negative ids too |
| Decimal.IntToStringInjective | src/services/api.ts:17 | distinct ids print as distinct path segments |
| UserJson.ParseSerialize | src/components/Login.tsx:40 | the stored user read back (`JSON.parse(JSON.stringify(u))`) is `u` |
| Api.ToRequest | src/services/api.ts:10-27 | only the login wrapper targets `/login` |
| Api.RouteOfRequest | src/services/api.ts:16-27 | each wrapper's url names the resource its call addresses: the collection, or the item with that id |
| Api.RequestRoundTrip | src/services/api.ts:10-27 | every wrapper call is recovered from its method, url and body, so no two calls send the same request |
| Api.AuthHeader | src/services/api.ts:29-35 | a truthy token gives exactly `Authorization: Bearer <token>`, and a falsy one gives no header |
| Api.WithAuth | src/services/api.ts:37-46 | login headers are untouched; other urls get the bearer header when the token is truthy; all other headers are kept |
| Api.Intercept | src/services/api.ts:37-48 | the config's headers are replaced in place by `WithAuth` of the old headers and the stored token, and the same config is returned |
| Api.CredentialOnEveryCallButLogin | src/services/api.ts:37-46 | a request carries `Authorization` exactly when it is not the login call and the token is truthy |
| AuthProvider.Restore | src/services/AuthProvider.tsx:24-34 | a parse error occurs exactly when `user` is truthy and unparsable; the user is restored exactly when its key is truthy; the same holds for the role, with its value |
| AuthProvider.RestoreIgnoresToken | src/services/AuthProvider.tsx:24-34 | setting or removing the token does not change what is restored |
| AuthProvider.Cleared | src/services/AuthProvider.tsx:37-39 | token, user and role are removed, and every other key is kept |
| AuthProvider.ClearedIdempotent | src/services/AuthProvider.tsx:36-42 | logging out twice leaves the same storage as logging out once |
| AuthProvider.RestoreAfterLogout | src/services/AuthProvider.tsx:24-42 | a provider mounted after logout restores neither a user nor a role |
| AuthProvider.UseAuth | src/services/AuthProvider.tsx:51-57 | outside a provider `useAuth` throws its message; inside, it returns the provider's state |
| AuthProvider.Provider.constructor | src/services/AuthProvider.tsx:21-22 | user and role start null |
| AuthProvider.Provider.Mount | src/services/AuthProvider.tsx:24-34 | throws exactly on a parse error, touching nothing; otherwise each field is overwritten only when its key is truthy |
| AuthProvider.Provider.SetUser | src/services/AuthProvider.tsx:45 | the exposed `setUser` replaces the user |
| AuthProvider.Provider.SetRole | src/services/AuthProvider.tsx:45 | the exposed `setRole` replaces the role |
| AuthProvider.Provider.Logout | src/services/AuthProvider.tsx:36-42 | storage becomes `Cleared` of the old storage, and user and role become null |
| Login.StoredAfter | src/components/Login.tsx:38-41 | an accepted response stores the dummy token, the serialized user and the role; anything else leaves storage unchanged; other keys are kept |
| Login.Feedback | src/components/Login.tsx:38-55 | navigates to the dashboard exactly on acceptance, with a success toast; a rejection shows the fixed message; a thrown `Error` shows its own message |
| Login.MountRedirect | src/components/Login.tsx:21-26 | the login screen forwards to `/dashboard` exactly when the stored token is truthy |
| Login.LoginForm.constructor | src/components/Login.tsx:18 | not loading at first |
| Login.LoginForm.HandleSubmit | src/components/Login.tsx:28-59 | sends the login call while loading; storage becomes `StoredAfter`; toast and navigation are `Feedback`; loading is off at the end |
| Login.LoginForm.HandleSubmitAndSync | src/components/Login.tsx:28-59 | sends the login call while loading, with the storage, toast and navigation of `HandleSubmit`; on acceptance the provider's user and role equal what a remount would restore, and otherwise they are unchanged |
| Login.RestoreAfterLogin | src/components/Login.tsx:38-41 | a provider mounted after an accepted login restores that user and its role |
| PrivateRoute.Guard | src/components/PrivateRoute.tsx:4-13 | renders the outlet exactly when the token is truthy; otherwise a replacing redirect to `/` that remembers the location |
| TransactionList.OwnedBy | src/components/TransactionList.tsx:38 | the filter keeps each transaction of user `uid` with its multiplicity and drops every other one |
| TransactionList.OwnedByAppend | src/components/TransactionList.tsx:38 | filtering distributes over concatenation |
| TransactionList.OwnedByAllOwned | src/components/TransactionList.tsx:38 | a list owned entirely by `uid` is returned unchanged |
| TransactionList.Visible | src/components/TransactionList.tsx:37-39 | a USER with a user object sees only their own transactions; every other session sees the whole list |
| TransactionList.VisibleToUserIsOwn | src/components/TransactionList.tsx:37-39 | every transaction shown to a USER belongs to that user and came from the fetched list |
| TransactionList.IndexOfId | src/components/TransactionList.tsx:64 | `find` gives the first index with the id, or none exactly when no element has it |
| TransactionList.WithStatus | src/components/TransactionList.tsx:71-74 | the spread copy has the new status, and only the status differs |
| TransactionList.StatusUpdate | src/components/TransactionList.tsx:62-74 | not found exactly when no listed transaction has the id; otherwise it updates the first match, status replaced |
| TransactionList.RowControls | src/components/TransactionList.tsx:152-176 | ADMIN gets Edit and Delete, and Approve exactly on Pending; USER gets Return exactly on Borrowed; any other role gets nothing |
| TransactionList.ControlsMatchLifecycle | src/components/TransactionList.tsx:160-174 | the Return and Approve buttons appear exactly when the Borrowed → Pending (USER) and Pending → Returned (ADMIN) transitions are allowed |
| TransactionList.ButtonUpdateIsAllowed | src/components/TransactionList.tsx:62-95 | pressing a shown button sends the whole record with the new status, and that move is an allowed transition |
| TransactionList.TransactionListView.constructor | src/components/TransactionList.tsx:24-26 | the list is empty with no error, and the session's role and user are captured |
| TransactionList.TransactionListView.FetchTransactions | src/components/TransactionList.tsx:32-46 | fetches all transactions and shows `Visible` of them; a failure keeps the list and sets the error and toast |
| TransactionList.TransactionListView.HandleDelete | src/components/TransactionList.tsx:48-60 | nothing happens unless confirmed; a success deletes, toasts success and refetches; a failure toasts and sets the error |
| TransactionList.TransactionListView.UpdateStatus | src/components/TransactionList.tsx:62-103 | an unknown id only toasts "Transaction not found"; otherwise sends `StatusUpdate`, then refetches on success, or sets the error on failure |
| TransactionList.TransactionListView.HandleReturnRequest | src/components/TransactionList.tsx:62-82 | sends the listed record with status Pending, then refetches, or sets the return-request error |
| TransactionList.TransactionListView.HandleApproveReturn | src/components/TransactionList.tsx:84-103 | sends the listed record with status Returned, then refetches, or sets the approval error |
| TransactionForm.ParamValue | src/components/TransactionForm.tsx:39 | a pair gives a value for the name exactly when it is the name or starts with the name and `=`; the value is what follows that `=`, or empty |
| TransactionForm.FirstValue | src/components/TransactionForm.tsx:39 | none exactly when no pair gives a value for the name; otherwise the value of the first pair that does |
| TransactionForm.BookIdParam | src/components/TransactionForm.tsx:39 | a path without `?` gives no `bookId` |
| TransactionForm.BookIdParamOfQuery | src/components/TransactionForm.tsx:39 | for any path, `bookId` is `FirstValue` of the pairs after the first `?` |
| TransactionForm.LeadingBookIdWins | src/components/TransactionForm.tsx:39 | a query whose first pair is `bookId=v` gives `v`, whatever pairs follow |
| TransactionForm.BookTitle | src/components/TransactionForm.tsx:44-49 | the title of the first book with the id; none exactly for `NaN` or an unlisted id |
| TransactionForm.ValidateDates | src/components/TransactionForm.tsx:68-71 | one error per missing date, with its message, and nothing else |
| TransactionForm.Submit | src/components/TransactionForm.tsx:65-100 | invalid exactly when a date is missing; "Book or User cannot be null" exactly when dates are present but the book id is falsy or there is no user; otherwise an update of the route id or a create, with the form's fields |
| TransactionForm.EditOfLoadedSendsUpdate | src/components/TransactionForm.tsx:84-85 | saving a loaded transaction's own fields updates it with its book, dates and status |
| TransactionForm.TransactionFormView.constructor | src/components/TransactionForm.tsx:16-30 | all fields null or empty, and the status is Borrowed |
| TransactionForm.TransactionFormView.Mount | src/components/TransactionForm.tsx:32-63 | reads the stored user, throwing exactly on a parse error; fetches the books; sets `bookId` and its title from a truthy query value |
| TransactionForm.TransactionFormView.LoadForEdit | src/components/TransactionForm.tsx:6 | with a route id, fetches that transaction and fills book, dates and status from it; a failure changes nothing |
| TransactionForm.TransactionFormView.SetBorrowDate | src/components/TransactionForm.tsx:124-128 | stores the picked date and blanks its error; the next render throws exactly when the input was cleared |
| TransactionForm.TransactionFormView.SetReturnDate | src/components/TransactionForm.tsx:141-145 | stores the picked date and blanks its error; the next render throws exactly when the input was cleared |
| TransactionForm.TransactionFormView.SetStatus | src/components/TransactionForm.tsx:158 | the status select replaces the status |
| TransactionForm.TransactionFormView.HandleSubmit | src/components/TransactionForm.tsx:65-100 | errors become `ValidateDates`; the call, toast and navigation follow `Submit` and the reply |
| BookForm.Errors | src/components/BookForm.tsx:50-54 | each field has an entry exactly when its check failed, and the entry is that field's message |
| BookForm.Validate | src/components/BookForm.tsx:50-55 | a text field is in error exactly when it is blank; the year exactly when it is a number not above 0, so a `NaN` year raises nothing; each error has its field's message |
| BookForm.Submit | src/components/BookForm.tsx:57-67 | sends exactly when there are no errors: an update of the route id, or a create |
| BookForm.SubmittedBooksAreWellFormed | src/components/BookForm.tsx:50-58 | a book is sent exactly when its three texts are not blank and its year is positive or `NaN` |
| BookForm.EmptiedYearIsSent | src/components/BookForm.tsx:54 | a cleared year input gives `NaN`, which passes the check, and the book is created with that year |
| BookForm.ValidateIntended | src/components/BookForm.tsx:54 | with the year check written to reject `NaN`, the year is in error exactly when it is not a positive number; the other fields are as in `Validate` |
| BookForm.SubmitIntended | src/components/BookForm.tsx:50-67 | with that check, a book is sent exactly when its texts are not blank and its year is a positive number |
| BookForm.BookFormView.constructor | src/components/BookForm.tsx:10-20 | empty texts, year 0, no errors |
| BookForm.BookFormView.Load | src/components/BookForm.tsx:22-44 | with a route id, fetches the book and fills the fields; a failure only toasts; without an id, nothing happens |
| BookForm.BookFormView.SetTitle | src/components/BookForm.tsx:95-98 | stores the title as typed and blanks its error |
| BookForm.BookFormView.SetAuthor | src/components/BookForm.tsx:111-114 | stores the author as typed and blanks its error |
| BookForm.BookFormView.SetPublisher | src/components/BookForm.tsx:127-130 | stores the publisher as typed and blanks its error |
| BookForm.BookFormView.SetPublicationYear | src/components/BookForm.tsx:143-146 | stores `parseInt` of the input and blanks the year's error |
| BookForm.BookFormView.HandleSubmit | src/components/BookForm.tsx:46-74 | errors become `Validate`; sends `Submit`; navigates to `/books` exactly on a successful send; a failed send toasts |
| BookList.HeaderControls | src/components/BookList.tsx:55-59 | Add Book is shown exactly to a signed-in ADMIN |
| BookList.RowControls | src/components/BookList.tsx:85-112 | Edit and Delete exactly for a signed-in ADMIN, Borrow with the book's id exactly for a signed-in USER, nothing without a user and a truthy role |
| BookList.AdminAndBorrowExclusive | src/components/BookList.tsx:85-112 | no row offers both Delete and Borrow |
| BookList.BookListView.constructor | src/components/BookList.tsx:18-19 | the book list starts empty |
| BookList.BookListView.FetchBooks | src/components/BookList.tsx:25-33 | fetches all books and shows them; a failure keeps the list and toasts |
| BookList.BookListView.HandleDelete | src/components/BookList.tsx:35-46 | nothing unless confirmed; a success deletes then refetches; a failure toasts |
| Session.GuardAgreesWithInterceptor | src/components/PrivateRoute.tsx:7-10 | for every non-login call, the guard admits exactly when the interceptor attaches a credential |
| Session.LogoutLocksOut | src/services/AuthProvider.tsx:36-42 | after logout every guarded route redirects to `/`, no request gets a credential, and the login screen stays |
| Session.LoginUnlocks | src/components/Login.tsx:38-41 | after an accepted login the guard admits, the login screen forwards to the dashboard, and calls carry `Bearer dummy-token` |
| Session.BorrowLinkCarriesBookId | src/components/BookList.tsx:105 | the Borrow link's query gives the form the book's id, and `Number` of it is the id |
| Session.BorrowFromCatalogCreates | src/components/TransactionForm.tsx:74-88 | a borrow started from the catalog creates a Borrowed transaction for that book and the signed-in user |
| Session.EditLinkHasNoBookId | src/components/TransactionList.tsx:154 | the list's Edit link yields no `bookId` |
| Session.StaleSessionScenario | src/services/AuthProvider.tsx:24-34 | after a login on the same page load, a USER's list holds another user's transaction, and their own has no Return button |
| Session.ReloadedSessionScenario | src/services/AuthProvider.tsx:24-34 | after a reload, a list opened once the provider has mounted on the storage the login left shows the USER only their own transaction, with its Return button |
| Session.ReloadOnListScenario | src/components/TransactionList.tsx:28-39 | on a reload that lands on the list, the fetch runs before the provider restores the session, so the USER's list keeps another user's transaction, and that row offers them a Return button |
| Session.OpenList | src/components/TransactionList.tsx:24 | a list opened inside a provider takes the user and role that `useAuth` returns on that render |
| Session.SyncedSessionScenario | src/components/Login.tsx:38-45 | with the provider updated at login, the list holds only the user's own transaction, with its Return button |
| Session.EditFromListScenario | src/components/TransactionForm.tsx:74-98 | saving an edit opened from the list sends nothing and toasts "Book or User cannot be null." |
| Session.EditFromListLoadedScenario | src/components/TransactionForm.tsx:6 | with the transaction loaded first, saving the edit sends its update and returns to `/transactions` |
| Session.EmptiedYearScenario | src/components/BookForm.tsx:46-74 | a new book with visible texts and a cleared year input is saved with no error, created with a `NaN` year, and the form returns to `/books` |

## Left out

- Transport is left out: the base url, the axios instance and HTTP itself. A call is the `Api.Call` value a handler issues, and the reply is a parameter.
- The interceptor's error handler is left out. It only re-rejects the error, so it changes nothing that is modelled.
- Asynchrony and races are left out. Each handler runs to completion with its replies given, and a refetch's outcome is one more parameter. React's batched state updates and effects re-running on dependency changes are not modelled. The order of effects within one commit, where a child's mount effect runs before its provider's, is modelled only in `Session.ReloadOnListScenario`. The list view holds the role and user of the render it was opened on. The re-render after the provider's effect is modelled only there, by reading the provider's context again for the row controls.
- Rendering is left out: JSX, CSS classes, the status badge colours, the row numbering, the borrower column (shown to ADMIN only) and the "No book selected" placeholder. Only the controls each row offers are modelled.
- `console.log`/`console.error` are left out. So is the toast library; a toast is a returned value.
- Js.ToNumber: only decimal integer literals map to numbers; everything else is `NaN`. JavaScript also accepts surrounding whitespace, `+`, hex, exponents and fractions. A `bookId` written in one of those forms, such as `?bookId=+3`, is a book id in JavaScript and `NaN` here.
- Decimal.IntToString, Js.ToNumber and Js.ParseIntPrefix work on unbounded integers. JavaScript numbers are doubles: integers above 2^53 lose precision, `${n}` prints 10^21 and above in exponent form, and `parseInt` rounds a long run of digits. Ids and years are taken to be small enough for none of this to arise.
- Route `:id` parameters are taken as integers. `Number(id)` of a malformed id (NaN) is not modelled.
- TransactionForm.BookIdParam: the query is split into pairs at `&` and `=` as `URLSearchParams` does. Percent-decoding, `+` read as a space, and a `#` fragment after the query are not modelled.
- UserJson.ParseSerialize: JSON is replaced by a length-prefixed encoding with the same round-trip property. Malformed JSON written into storage by other code is modelled only as "unparsable".
- Dates are the date input's text. `new Date(...)`, `toISOString()` and time zones are not modelled. A cleared input, stored as `Some("")`, stands for the Invalid Date. The setters report that the next render throws; what React does then (with no error boundary, it unmounts the tree) is not modelled.
- Hook identity is left out: `useNavigate`, `useParams`, `useLocation` and `useSearchParams` appear only as the values they return.
- `BookList.tsx` and `Dashboard.tsx` import `useAuth` from `src/services/AuthContext`. That module is not part of this model; it is taken to behave as `AuthProvider.UseAuth`.
- The wiring in `src/App.tsx` and `src/main.tsx` mounts no `AuthProvider`. There, `useAuth` in `TransactionList` would throw (`AuthProvider.UseAuth` with no context). The model assumes each screen is rendered inside a provider.
- Dashboard.tsx is not part of this model. Its logout button is `AuthProvider.Provider.Logout`.

## Findings

| source | as written | input that shows it | evidently intended | confidence | as-written member | corrected member |
|---|---|---|---|---|---|---|
| src/components/Login.tsx:38-45 | A login writes only `localStorage`. The provider reads storage once, at mount (AuthProvider.tsx:24-34), so its user and role stay null until the page reloads and the list is then opened. | On a page load with empty storage, USER 7 logs in and opens the transaction list. The list shows transaction 2 of user 8, and transaction 1 of user 7 has no Return button. | The login should also set the provider's user and role (`setUser`/`setRole` are exposed for this). | not executed | Session.StaleSessionScenario | Login.LoginForm.HandleSubmitAndSync |
| src/components/BookForm.tsx:54 | The year check is `publicationYear <= 0`. The year input stores `parseInt(e.target.value, 10)` (line 144), which is `NaN` once the input is cleared, and `NaN <= 0` is false. | A user types a title, author and publisher, clears the year and saves. No error is shown, and `POST /books` is sent with a `NaN` year, which `JSON.stringify` writes as `null`. | A missing or non-numeric year should be rejected with "Invalid year", like a non-positive one. | not executed | Session.EmptiedYearScenario | BookForm.SubmitIntended |
| src/components/TransactionForm.tsx:74 | The form gets `bookId` only from the query string (line 39), but the list's Edit link `/transactions/<id>/edit` (TransactionList.tsx:154) has none. `getBorrowingTransactionById` is imported but never called. | An admin clicks Edit on any row, fills in both dates and saves. Nothing is sent, and the form shows "Book or User cannot be null." | The edit form should load the transaction and start from its book, dates and status. | not executed | Session.EditFromListScenario | TransactionForm.TransactionFormView.LoadForEdit |
