/**
 * The transaction form: on mount it reads the current user from storage, loads
 * the books and takes `bookId` from the query string; on submit it checks the
 * two dates, then requires a book and a user and creates or updates.
 */
module TransactionForm {
  import opened Wrappers
  import opened Entities
  import opened Storage
  import Js
  import Api
  import UserJson
  import Strings

  const BorrowDateRequired := "Borrow date is required"
  const ReturnDateRequired := "Return date is required"
  const MissingBookOrUserMessage := "Book or User cannot be null."
  const FetchBooksFailed := "Failed to fetch books."
  const SaveFailed := "Failed to save transaction data."
  const ListPath := "/transactions"

  /** The status a new form starts with. */
  const DefaultStatus := BORROWED

  /**
   * The value one `name=value` pair of a query string gives for `name`: the
   * pair is split at its first `=`, and a pair without `=` has an empty value.
   */
  function ParamValue(pair: string, name: string): (r: Option<string>)
    ensures '=' !in name ==> (r.Some? <==> pair == name || name + "=" <= pair)
    ensures '=' !in name && r.Some? ==> r.value == (if pair == name then "" else pair[|name| + 1..])
  {
    match Strings.SplitAt(pair, '=')
    case Some((key, value)) =>
      if key == name then
        assert pair[..|name| + 1] == name + "=";
        assert pair[|name| + 1..] == value;
        Some(value)
      else
        assert '=' !in name ==> !(name + "=" <= pair) by {
          if '=' !in name && name + "=" <= pair {
            assert pair == name + "=" + pair[|name| + 1..];
            Strings.SplitJoin(name, '=', pair[|name| + 1..]);
          }
        }
        None
    case None =>
      if pair == name then Some("")
      else
        assert |pair| <= |name| || pair[|name|] != '=';
        None
  }

  /** `URLSearchParams.get(name)` over the `&`-separated pairs: the value of the first pair that has the name. */
  function FirstValue(pairs: seq<string>, name: string): (r: Option<string>)
    ensures r.None? <==> forall i :: 0 <= i < |pairs| ==> ParamValue(pairs[i], name).None?
    ensures r.Some? ==> exists i :: (0 <= i < |pairs| && ParamValue(pairs[i], name) == r
      && forall j :: 0 <= j < i ==> ParamValue(pairs[j], name).None?)
  {
    if pairs == [] then None
    else
      var first := ParamValue(pairs[0], name);
      if first.Some? then first
      else
        var r := FirstValue(pairs[1..], name);
        if r.Some? then
          ghost var k :| 0 <= k < |pairs[1..]| && ParamValue(pairs[1..][k], name) == r
            && forall j :: 0 <= j < k ==> ParamValue(pairs[1..][j], name).None?;
          assert ParamValue(pairs[k + 1], name) == r;
          r
        else r
  }

  /**
   * `searchParams.get('bookId')` for the location a path leads to: the query
   * is everything after the first `?`, split into pairs at each `&`.
   */
  function BookIdParam(path: string): (r: Option<string>)
    ensures '?' !in path ==> r.None?
  {
    match Strings.SplitAt(path, '?')
    case None => None
    case Some((_, query)) => FirstValue(Strings.Split(query, '&'), "bookId")
  }

  /** A path's `bookId` is that of the first pair of its query naming `bookId`, whatever comes before the `?`. */
  lemma BookIdParamOfQuery(before: string, pairs: seq<string>)
    requires '?' !in before
    requires |pairs| >= 1 && forall i :: 0 <= i < |pairs| ==> '&' !in pairs[i]
    ensures BookIdParam(before + "?" + Strings.Join(pairs, '&')) == FirstValue(pairs, "bookId")
  {
    Strings.SplitJoin(before, '?', Strings.Join(pairs, '&'));
    Strings.SplitOfJoin(pairs, '&');
  }

  /** A query whose first pair is `bookId=<value>` gives that value, whatever pairs follow. */
  lemma LeadingBookIdWins(value: string, rest: seq<string>)
    ensures FirstValue(["bookId=" + value] + rest, "bookId") == Some(value)
  {
    var pairs := ["bookId=" + value] + rest;
    assert "bookId=" <= pairs[0];
    assert ParamValue(pairs[0], "bookId") == Some(value) by {
      assert pairs[0] != "bookId" by { assert |pairs[0]| > |"bookId"|; }
      assert pairs[0][|"bookId"| + 1..] == value;
    }
  }

  /** The title of the first listed book whose id equals `n`; none for `NaN` or an unlisted id. */
  function BookTitle(books: seq<BookRef>, n: Js.Number): (r: Option<string>)
    ensures r.None? <==> n.NaN? || forall i :: 0 <= i < |books| ==> books[i].id != n.value
    ensures r.Some? ==> exists i :: (0 <= i < |books| && books[i].id == n.value && r.value == books[i].title
      && forall j :: 0 <= j < i ==> books[j].id != n.value)
  {
    if n.NaN? || books == [] then None
    else if books[0].id == n.value then Some(books[0].title)
    else
      var r := BookTitle(books[1..], n);
      if r.Some? then
        ghost var k :| 0 <= k < |books[1..]| && books[1..][k].id == n.value && r.value == books[1..][k].title
          && forall j :: 0 <= j < k ==> books[1..][j].id != n.value;
        assert books[k + 1].id == n.value && r.value == books[k + 1].title;
        r
      else r
  }

  /** The keys ever put in the `errors` object (its type also names `bookId` and `userId`, which are never set). */
  datatype Field = BorrowDate | ReturnDate

  /** `newErrors`: one entry per missing date, nothing else. */
  function ValidateDates(borrowDate: Option<string>, returnDate: Option<string>): (errors: map<Field, string>)
    ensures BorrowDate in errors <==> borrowDate.None?
    ensures ReturnDate in errors <==> returnDate.None?
    ensures BorrowDate in errors ==> errors[BorrowDate] == BorrowDateRequired
    ensures ReturnDate in errors ==> errors[ReturnDate] == ReturnDateRequired
  {
    var withBorrow := if borrowDate.None? then map[BorrowDate := BorrowDateRequired] else map[];
    if returnDate.None? then withBorrow[ReturnDate := ReturnDateRequired] else withBorrow
  }

  /** The three ways a submission ends before or at the backend call. */
  datatype Submission = Invalid | MissingBookOrUser | Send(call: Api.Call)

  /**
   * The decision `handleSubmit` takes: invalid when a date is missing; with
   * both dates, a missing or falsy book id or a missing user stops it;
   * otherwise it sends `{book:{id}, user:{id}, borrowDate, returnDate, status}`
   * as an update of the route's id, or as a create without one.
   */
  function Submit(routeId: Option<int>, bookId: Option<Js.Number>, currentUser: Option<User>,
                  borrowDate: Option<string>, returnDate: Option<string>, status: string): (r: Submission)
    ensures r.Invalid? <==> ValidateDates(borrowDate, returnDate) != map[]
    ensures r.MissingBookOrUser? <==> ValidateDates(borrowDate, returnDate) == map[] && !(Js.TruthyNumber(bookId) && currentUser.Some?)
    ensures r.Send? ==> r.call.UpdateBorrowingTransaction? == routeId.Some?
    ensures r.Send? && routeId.Some? ==> r.call.id == routeId.value
    ensures r.Send? ==> r.call.CreateBorrowingTransaction? || r.call.UpdateBorrowingTransaction?
    ensures r.Send? ==> r.call.transaction == Api.FormFields(bookId.value.value, currentUser.value.id, borrowDate.value, returnDate.value, status)
  {
    if ValidateDates(borrowDate, returnDate) != map[] then Invalid
    else if !(Js.TruthyNumber(bookId) && currentUser.Some?) then MissingBookOrUser
    else
      var body := Api.FormFields(bookId.value.value, currentUser.value.id, borrowDate.value, returnDate.value, status);
      if routeId.Some? then Send(Api.UpdateBorrowingTransaction(routeId.value, body))
      else Send(Api.CreateBorrowingTransaction(body))
  }

  /** The fields an edit of an existing transaction should start from. */
  datatype EditFields = EditFields(bookId: Option<Js.Number>, borrowDate: Option<string>, returnDate: Option<string>, status: string)

  /** The edited transaction's own book, dates and status. */
  function FieldsOf(t: Transaction): EditFields {
    EditFields(Some(Js.Int(t.book.id)), Some(t.borrowDate), Some(t.returnDate), t.status)
  }

  /** Saving a loaded transaction unchanged updates it in place with its own book and dates. */
  lemma EditOfLoadedSendsUpdate(id: int, t: Transaction, user: User)
    requires t.book.id != 0
    ensures var f := FieldsOf(t);
      Submit(Some(id), f.bookId, Some(user), f.borrowDate, f.returnDate, f.status)
      == Send(Api.UpdateBorrowingTransaction(id, Api.FormFields(t.book.id, user.id, t.borrowDate, t.returnDate, t.status)))
  {
  }

  class TransactionFormView {
    const routeId: Option<int>
    var bookId: Option<Js.Number>
    var borrowDate: Option<string>
    var returnDate: Option<string>
    var status: string
    var selectedBookTitle: Option<string>
    var books: seq<BookRef>
    var currentUser: Option<User>
    var errors: map<Field, string>

    /** The first render: nothing selected, status Borrowed. */
    constructor (routeId: Option<int>)
      ensures this.routeId == routeId && status == DefaultStatus
      ensures bookId == None && borrowDate == None && returnDate == None && selectedBookTitle == None
      ensures books == [] && currentUser == None && errors == map[]
    {
      this.routeId := routeId;
      bookId, borrowDate, returnDate := None, None, None;
      status := DefaultStatus;
      selectedBookTitle := None;
      books := [];
      currentUser := None;
      errors := map[];
    }

    /**
     * The mount effect. A truthy but unparsable stored user throws before the
     * books are fetched. On a fetched list, a truthy `bookId` parameter sets
     * `bookId` to `Number(param)`, and the title of the first listed book with
     * that id, if any. A failed fetch changes nothing but the toast.
     */
    method Mount(storage: LocalStorage, bookIdParam: Option<string>, reply: Js.Reply<seq<BookRef>>)
      returns (sent: seq<Api.Call>, thrown: bool, toast: Option<Js.Toast>)
      modifies this`currentUser, this`books, this`bookId, this`selectedBookTitle
      ensures var stored := storage.GetItem(UserKey);
        thrown <==> Js.TruthyString(stored) && UserJson.Parse(stored.value).None?
      ensures thrown ==>
        sent == [] && toast == None && currentUser == old(currentUser) && books == old(books)
        && bookId == old(bookId) && selectedBookTitle == old(selectedBookTitle)
      ensures !thrown ==>
        sent == [Api.GetAllBooks]
        && currentUser == (if Js.TruthyString(storage.GetItem(UserKey)) then UserJson.Parse(storage.GetItem(UserKey).value) else old(currentUser))
      ensures !thrown && reply.Ok? ==>
        toast == None && books == reply.data
        && bookId == (if Js.TruthyString(bookIdParam) then Some(Js.ToNumber(bookIdParam.value)) else old(bookId))
        && selectedBookTitle == (if Js.TruthyString(bookIdParam) && BookTitle(reply.data, Js.ToNumber(bookIdParam.value)).Some?
                                 then BookTitle(reply.data, Js.ToNumber(bookIdParam.value)) else old(selectedBookTitle))
      ensures !thrown && reply.Err? ==>
        toast == Some(Js.Error(FetchBooksFailed)) && books == old(books)
        && bookId == old(bookId) && selectedBookTitle == old(selectedBookTitle)
    {
      var userString := storage.GetItem(UserKey);
      if Js.TruthyString(userString) {
        var parsed := UserJson.Parse(userString.value);
        if parsed.None? {
          return [], true, None;
        }
        currentUser := parsed;
      }
      thrown := false;
      sent := [Api.GetAllBooks];
      match reply {
        case Ok(data) =>
          books := data;
          if Js.TruthyString(bookIdParam) {
            var n := Js.ToNumber(bookIdParam.value);
            bookId := Some(n);
            var title := BookTitle(data, n);
            if title.Some? {
              selectedBookTitle := title;
            }
          }
          toast := None;
        case Err(_) =>
          toast := Some(Js.Error(FetchBooksFailed));
      }
    }

    /**
     * Loading the transaction being edited (`getBorrowingTransactionById` is
     * imported for this but never called): with a route id, fetch it and fill
     * the book, dates and status from it; a failed fetch changes nothing.
     */
    method LoadForEdit(reply: Js.Reply<Transaction>) returns (sent: Option<Api.Call>)
      modifies this`bookId, this`borrowDate, this`returnDate, this`status
      ensures routeId.None? ==> sent == None
      ensures routeId.Some? ==> sent == Some(Api.GetBorrowingTransactionById(routeId.value))
      ensures routeId.Some? && reply.Ok? ==> EditFields(bookId, borrowDate, returnDate, status) == FieldsOf(reply.data)
      ensures routeId.None? || reply.Err? ==>
        bookId == old(bookId) && borrowDate == old(borrowDate) && returnDate == old(returnDate) && status == old(status)
    {
      sent := None;
      if routeId.Some? {
        sent := Some(Api.GetBorrowingTransactionById(routeId.value));
        if reply.Ok? {
          var f := FieldsOf(reply.data);
          bookId, borrowDate, returnDate, status := f.bookId, f.borrowDate, f.returnDate, f.status;
        }
      }
    }

    /**
     * The borrow date input: stores `new Date(value)` and blanks the field's
     * error. A date input yields `yyyy-mm-dd`, or the empty string once
     * cleared; a date is kept as that text, so `Some("")` stands for the
     * Invalid Date, which is truthy but makes the next render's
     * `toISOString()` throw.
     */
    method SetBorrowDate(value: string) returns (renderThrows: bool)
      modifies this`borrowDate, this`errors
      ensures borrowDate == Some(value) && errors == old(errors)[BorrowDate := ""]
      ensures renderThrows <==> value == ""
    {
      borrowDate := Some(value);
      errors := errors[BorrowDate := ""];
      renderThrows := value == "";
    }

    /** The return date input, as `SetBorrowDate`. */
    method SetReturnDate(value: string) returns (renderThrows: bool)
      modifies this`returnDate, this`errors
      ensures returnDate == Some(value) && errors == old(errors)[ReturnDate := ""]
      ensures renderThrows <==> value == ""
    {
      returnDate := Some(value);
      errors := errors[ReturnDate := ""];
      renderThrows := value == "";
    }

    /** The status select. */
    method SetStatus(value: string)
      modifies this`status
      ensures status == value
    {
      status := value;
    }

    /** `handleSubmit`, with the awaited create or update call's outcome as `reply`. */
    method HandleSubmit(reply: Js.Reply<()>) returns (sent: Option<Api.Call>, toast: Option<Js.Toast>, navigate: Option<string>)
      modifies this`errors
      ensures errors == ValidateDates(borrowDate, returnDate)
      ensures var s := Submit(routeId, bookId, currentUser, borrowDate, returnDate, status);
        && (s.Invalid? ==> sent == None && toast == None && navigate == None)
        && (s.MissingBookOrUser? ==> sent == None && toast == Some(Js.Error(MissingBookOrUserMessage)) && navigate == None)
        && (s.Send? ==> sent == Some(s.call))
        && (s.Send? && reply.Ok? ==> navigate == Some(ListPath) && toast.Some? && toast.value.Success?)
        && (s.Send? && reply.Err? ==> navigate == None && toast == Some(Js.Error(SaveFailed)))
    {
      errors := ValidateDates(borrowDate, returnDate);
      sent, toast, navigate := None, None, None;
      if errors == map[] {
        if Js.TruthyNumber(bookId) && currentUser.Some? {
          var body := Api.FormFields(bookId.value.value, currentUser.value.id, borrowDate.value, returnDate.value, status);
          if routeId.Some? {
            sent := Some(Api.UpdateBorrowingTransaction(routeId.value, body));
          } else {
            sent := Some(Api.CreateBorrowingTransaction(body));
          }
          if reply.Ok? {
            toast := Some(Js.Success(if routeId.Some? then "Transaction updated successfully!" else "Transaction created successfully!"));
            navigate := Some(ListPath);
          } else {
            toast := Some(Js.Error(SaveFailed));
          }
        } else {
          toast := Some(Js.Error(MissingBookOrUserMessage));
        }
      }
    }
  }
}
