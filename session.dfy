/**
 * Properties that span components: the route guard, the interceptor, login
 * and logout agree on what "signed in" means, and end-to-end runs that
 * show where the screens disagree with that or with their own checks.
 */
module Session {
  import opened Wrappers
  import opened Entities
  import opened Storage
  import Js
  import Api
  import UserJson
  import Decimal
  import Strings
  import AuthProvider
  import Login
  import PrivateRoute
  import TransactionList
  import TransactionForm
  import BookList
  import BookForm

  /** The guard admits exactly when the interceptor would attach a credential to a non-login call. */
  lemma GuardAgreesWithInterceptor(items: map<string, string>, location: PrivateRoute.Location, c: Api.Call)
    requires !c.Login?
    ensures PrivateRoute.Guard(items, location).Outlet?
        <==> Api.Authorization in Api.WithAuth(map[], Api.ToRequest(c).url, Get(items, TokenKey))
  {
  }

  /** After logout every protected route redirects to login, no request carries a credential, and the login screen stays. */
  lemma LogoutLocksOut(items: map<string, string>, location: PrivateRoute.Location, headers: map<string, string>, url: string)
    ensures PrivateRoute.Guard(AuthProvider.Cleared(items), location) == PrivateRoute.Navigate(PrivateRoute.LoginScreen, location, true)
    ensures Api.WithAuth(headers, url, Get(AuthProvider.Cleared(items), TokenKey)) == headers
    ensures Login.MountRedirect(AuthProvider.Cleared(items)).None?
  {
    assert Get(AuthProvider.Cleared(items), TokenKey) == None;
  }

  /** After an accepted login the guard admits, the login screen forwards to the dashboard, and calls carry the token. */
  lemma LoginUnlocks(items: map<string, string>, location: PrivateRoute.Location, message: string, u: User, c: Api.Call)
    requires u.id != 0 && !c.Login?
    ensures var stored := Login.StoredAfter(items, Js.Ok(Login.LoginResponse(message, Some(u))));
      && PrivateRoute.Guard(stored, location).Outlet?
      && Login.MountRedirect(stored) == Some(Login.DashboardPath)
      && Api.WithAuth(map[], Api.ToRequest(c).url, Get(stored, TokenKey)) == map[Api.Authorization := "Bearer " + Login.DummyToken]
  {
  }

  const Reader := User(7, "reader", USER)
  const Mine := Transaction(1, BookRef(3, "Dune"), UserRef(7, "reader"), "2024-01-01", "2024-01-15", BORROWED)
  const Theirs := Transaction(2, BookRef(4, "Emma"), UserRef(8, "other"), "2024-01-02", "2024-01-16", BORROWED)

  /** What the list screen shows of `Mine` and `Theirs`, without a session and with the reader's. */
  lemma ListFacts()
    ensures TransactionList.Visible([Mine, Theirs], None, None) == [Mine, Theirs]
    ensures TransactionList.Visible([Mine, Theirs], Some(USER), Some(Reader)) == [Mine]
  {
    assert [Mine, Theirs] == [Mine] + [Theirs];
    TransactionList.OwnedByAppend([Mine], [Theirs], Reader.id);
  }

  /** The reader's Return button on `Mine` is shown only to a USER session. */
  lemma ReturnButtonFacts()
    ensures TransactionList.ReturnButton !in TransactionList.RowControls(None, Mine)
    ensures TransactionList.ReturnButton in TransactionList.RowControls(Some(USER), Mine)
  {
  }

  /** What a provider mounted on empty storage, and on the storage left by the reader's login, restores. */
  lemma RestoreFacts()
    ensures AuthProvider.Restore(map[]) == AuthProvider.Restored(None, None)
    ensures AuthProvider.Restore(Login.StoredAfter(map[], Js.Ok(Login.LoginResponse("", Some(Reader)))))
         == AuthProvider.Restored(Some(Reader), Some(USER))
  {
    Login.RestoreAfterLogin(map[], Reader, "");
  }

  /**
   * The client as written, on one page load: the provider mounts on empty
   * storage, the reader logs in, and the transaction list is opened. The
   * provider still holds the null user and role it restored at mount, so the
   * list is not filtered: it shows another user's transaction, and the
   * reader's own has no Return button.
   */
  method StaleSessionScenario() returns (listed: seq<Transaction>, showsReturn: bool)
    ensures listed == [Mine, Theirs]
    ensures !showsReturn
  {
    ListFacts();
    ReturnButtonFacts();
    var reply := Js.Ok(Login.LoginResponse("", Some(Reader)));
    var storage := new LocalStorage(map[]);
    var provider := new AuthProvider.Provider(storage);
    var _ := provider.Mount();
    assert provider.user == None && provider.role == None by {
      RestoreFacts();
    }
    var form := new Login.LoginForm(storage);
    var _, _, _, _ := form.HandleSubmit(Api.Credentials("reader", "secret"), reply);
    var view := OpenList(provider);
    var _, _ := view.FetchTransactions(Js.Ok([Mine, Theirs]));
    listed := view.transactions;
    showsReturn := TransactionList.ReturnButton in TransactionList.RowControls(view.role, Mine);
  }

  /**
   * After a reload, a list opened once the provider has mounted on the
   * storage the reader's login left behind shows the reader's own
   * transaction alone, with its Return button.
   */
  method ReloadedSessionScenario() returns (listed: seq<Transaction>, showsReturn: bool)
    ensures listed == [Mine]
    ensures showsReturn
  {
    ListFacts();
    ReturnButtonFacts();
    RestoreFacts();
    var storage := new LocalStorage(Login.StoredAfter(map[], Js.Ok(Login.LoginResponse("", Some(Reader)))));
    var provider := new AuthProvider.Provider(storage);
    var _ := provider.Mount();
    var view := OpenList(provider);
    var _, _ := view.FetchTransactions(Js.Ok([Mine, Theirs]));
    listed := view.transactions;
    showsReturn := TransactionList.ReturnButton in TransactionList.RowControls(view.role, Mine);
  }

  /**
   * A reload that lands on the list itself. A child's mount effect runs
   * before its provider's, so the list's fetch reads the context of the
   * first render, where user and role are still null, and the whole list is
   * kept. The provider's effect then restores the reader's session, the
   * list renders again with role USER, and another user's borrowed book
   * offers the reader a Return button.
   */
  method ReloadOnListScenario() returns (listed: seq<Transaction>, returnOnTheirs: bool)
    ensures listed == [Mine, Theirs]
    ensures returnOnTheirs
  {
    ListFacts();
    RestoreFacts();
    var storage := new LocalStorage(Login.StoredAfter(map[], Js.Ok(Login.LoginResponse("", Some(Reader)))));
    var provider := new AuthProvider.Provider(storage);
    var view := OpenList(provider);
    var _, _ := view.FetchTransactions(Js.Ok([Mine, Theirs]));
    var _ := provider.Mount();
    var rerendered := AuthProvider.UseAuth(Some(provider.Context()));
    listed := view.transactions;
    returnOnTheirs := TransactionList.ReturnButton in TransactionList.RowControls(rerendered.value.role, Theirs);
  }

  /** Opens the transaction list inside `provider`: the list takes the user and role `useAuth` hands it on this render. */
  method OpenList(provider: AuthProvider.Provider) returns (view: TransactionList.TransactionListView)
    ensures fresh(view)
    ensures view.role == provider.role && view.user == provider.user
    ensures view.transactions == [] && view.error == None
  {
    var context := AuthProvider.UseAuth(Some(provider.Context()));
    view := new TransactionList.TransactionListView(context.value.role, context.value.user);
  }

  /** The same page load with the login handler that brings the provider up to date: the list is the reader's own at once. */
  method SyncedSessionScenario() returns (listed: seq<Transaction>, showsReturn: bool)
    ensures listed == [Mine]
    ensures showsReturn
  {
    ListFacts();
    ReturnButtonFacts();
    RestoreFacts();
    var reply := Js.Ok(Login.LoginResponse("", Some(Reader)));
    var storage := new LocalStorage(map[]);
    var provider := new AuthProvider.Provider(storage);
    var _ := provider.Mount();
    var form := new Login.LoginForm(storage);
    var _, _, _, _ := form.HandleSubmitAndSync(provider, Api.Credentials("reader", "secret"), reply);
    assert provider.user == Some(Reader) && provider.role == Some(USER);
    var view := OpenList(provider);
    var _, _ := view.FetchTransactions(Js.Ok([Mine, Theirs]));
    listed := view.transactions;
    showsReturn := TransactionList.ReturnButton in TransactionList.RowControls(view.role, Mine);
  }

  /** The catalog's Borrow link hands the book's id to the transaction form through the query string. */
  lemma BorrowLinkCarriesBookId(id: int)
    ensures TransactionForm.BookIdParam(BookList.BorrowPath(id)) == Some(Decimal.IntToString(id))
    ensures Js.ToNumber(Decimal.IntToString(id)) == Js.Int(id)
  {
    var prefix := "/transactions/create";
    var d := Decimal.IntToString(id);
    var pairs := ["bookId=" + d];
    assert '&' !in pairs[0];
    assert BookList.BorrowPath(id) == prefix + "?" + Strings.Join(pairs, '&');
    TransactionForm.BookIdParamOfQuery(prefix, pairs);
    TransactionForm.LeadingBookIdWins(d, []);
    assert pairs == ["bookId=" + d] + [];
    Js.ToNumberOfString(id);
  }

  /** A borrow started from the catalog, with both dates and a signed-in user, creates a Borrowed transaction for that book and user. */
  lemma BorrowFromCatalogCreates(id: int, u: User, borrowDate: string, returnDate: string)
    requires id != 0
    ensures var param := TransactionForm.BookIdParam(BookList.BorrowPath(id));
      && param.Some?
      && TransactionForm.Submit(None, Some(Js.ToNumber(param.value)), Some(u), Some(borrowDate), Some(returnDate), TransactionForm.DefaultStatus)
         == TransactionForm.Send(Api.CreateBorrowingTransaction(Api.FormFields(id, u.id, borrowDate, returnDate, BORROWED)))
  {
    BorrowLinkCarriesBookId(id);
  }

  /** The list's Edit link carries no query string, so no `bookId` reaches the form. */
  lemma EditLinkHasNoBookId(id: int)
    ensures TransactionForm.BookIdParam(TransactionList.EditPath(id)) == None
  {
    var d := Decimal.IntToString(id);
    assert forall k :: 0 <= k < |d| ==> d[k] != '?';
    assert '?' !in TransactionList.EditPath(id);
  }

  /** A user stored under `user` is read back by the form's mount. */
  lemma StoredUserFacts(u: User)
    ensures Get(map[UserKey := UserJson.Serialize(u)], UserKey) == Some(UserJson.Serialize(u))
    ensures Js.TruthyString(Some(UserJson.Serialize(u)))
    ensures UserJson.Parse(UserJson.Serialize(u)) == Some(u)
  {
    UserJson.ParseSerialize(u);
  }

  /**
   * The client as written: an admin follows a row's Edit link, the form
   * mounts (the books load, the stored user is read), both dates are filled
   * in and the form is saved. No `bookId` was ever set, so nothing is sent
   * and the form reports that the book or user is missing.
   */
  method EditFromListScenario(admin: User, id: int, borrowDate: string, returnDate: string, books: seq<BookRef>)
    returns (sent: Option<Api.Call>, toast: Option<Js.Toast>)
    requires borrowDate != "" && returnDate != ""
    ensures sent == None
    ensures toast == Some(Js.Error(TransactionForm.MissingBookOrUserMessage))
  {
    var form := OpenEditFromList(admin, id, books);
    var _ := form.SetBorrowDate(borrowDate);
    var _ := form.SetReturnDate(returnDate);
    form.SetStatus(RETURNED);
    assert form.bookId == None && form.borrowDate.Some? && form.returnDate.Some?;
    assert TransactionForm.Submit(form.routeId, form.bookId, form.currentUser, form.borrowDate, form.returnDate, form.status).MissingBookOrUser?;
    var navigate;
    sent, toast, navigate := form.HandleSubmit(Js.Ok(()));
  }

  /** The form an admin reaches through a row's Edit link, once mounted: the stored user is read, and no book is set. */
  method OpenEditFromList(admin: User, id: int, books: seq<BookRef>) returns (form: TransactionForm.TransactionFormView)
    ensures fresh(form)
    ensures form.routeId == Some(id) && form.currentUser == Some(admin) && form.bookId == None
  {
    StoredUserFacts(admin);
    var storage := new LocalStorage(map[UserKey := UserJson.Serialize(admin)]);
    form := new TransactionForm.TransactionFormView(Some(id));
    EditLinkHasNoBookId(id);
    var _, _, _ := form.Mount(storage, TransactionForm.BookIdParam(TransactionList.EditPath(id)), Js.Ok(books));
  }

  /** The same edit with the form loading the transaction first: saving sends the update for that id and book. */
  method EditFromListLoadedScenario(admin: User, t: Transaction, books: seq<BookRef>)
    returns (sent: Option<Api.Call>, navigate: Option<string>)
    requires t.book.id != 0
    ensures sent == Some(Api.UpdateBorrowingTransaction(t.id, Api.FormFields(t.book.id, admin.id, t.borrowDate, t.returnDate, t.status)))
    ensures navigate == Some(TransactionForm.ListPath)
  {
    var form := OpenEditFromList(admin, t.id, books);
    var _ := form.LoadForEdit(Js.Ok(t));
    assert TransactionForm.EditFields(form.bookId, form.borrowDate, form.returnDate, form.status) == TransactionForm.FieldsOf(t);
    TransactionForm.EditOfLoadedSendsUpdate(t.id, t, admin);
    var update := Api.UpdateBorrowingTransaction(t.id, Api.FormFields(t.book.id, admin.id, t.borrowDate, t.returnDate, t.status));
    assert TransactionForm.Submit(form.routeId, form.bookId, form.currentUser, form.borrowDate, form.returnDate, form.status)
        == TransactionForm.Send(update);
    var toast;
    sent, toast, navigate := form.HandleSubmit(Js.Ok(()));
  }

  /**
   * The book form as written: a new book is typed in with visible texts, the
   * year input is cleared and the form is saved. `parseInt("")` is `NaN`,
   * which the `<= 0` check lets through, so no error is shown and the book is
   * created with a `NaN` year.
   */
  method EmptiedYearScenario(title: string, author: string, publisher: string)
    returns (errors: map<BookForm.Field, string>, sent: Option<Api.Call>, navigate: Option<string>)
    requires !Js.AllWhitespace(title) && !Js.AllWhitespace(author) && !Js.AllWhitespace(publisher)
    ensures errors == map[]
    ensures sent == Some(Api.CreateBook(BookData(title, author, publisher, Js.NaN)))
    ensures navigate == Some(BookForm.ListPath)
  {
    var form := FillWithEmptiedYear(title, author, publisher);
    assert form.Fields() == BookData(title, author, publisher, Js.NaN);
    BookForm.EmptiedYearIsSent(title, author, publisher);
    var toast;
    sent, toast, navigate := form.HandleSubmit(Js.Ok(()));
    errors := form.errors;
  }

  /** A new book form with the three texts typed in and the year input cleared. */
  method FillWithEmptiedYear(title: string, author: string, publisher: string) returns (form: BookForm.BookFormView)
    ensures fresh(form)
    ensures form.routeId == None
    ensures form.title == title && form.author == author && form.publisher == publisher && form.publicationYear == Js.NaN
  {
    form := new BookForm.BookFormView(None);
    form.SetTitle(title);
    form.SetAuthor(author);
    assert form.title == title;
    form.SetPublisher(publisher);
    assert form.title == title && form.author == author;
    form.SetPublicationYear("");
    assert form.title == title && form.author == author && form.publisher == publisher;
  }
}
