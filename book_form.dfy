/**
 * The book form: on mount with a route id it loads the book; on submit it
 * checks the four fields and, only when all pass, creates or updates the book
 * with the fields exactly as typed.
 */
module BookForm {
  import opened Wrappers
  import opened Entities
  import Js
  import Api

  const TitleRequired := "Title is required"
  const AuthorRequired := "Author is required"
  const PublisherRequired := "Publisher is required"
  const InvalidYear := "Invalid year"
  const FetchFailed := "Failed to fetch book details."
  const SaveFailed := "Failed to save book data."
  const ListPath := "/books"

  /** `!s.trim()`: the field is empty or whitespace only. */
  predicate Blank(s: string) {
    Js.Trim(s) == ""
  }

  /** The keys of the `errors` object. */
  datatype Field = Title | Author | Publisher | PublicationYear

  function Message(field: Field): string {
    match field
    case Title => TitleRequired
    case Author => AuthorRequired
    case Publisher => PublisherRequired
    case PublicationYear => InvalidYear
  }

  /** The `newErrors` object built from the outcome of each field's check, in the source's order. */
  function Errors(titleFails: bool, authorFails: bool, publisherFails: bool, yearFails: bool): (errors: map<Field, string>)
    ensures Title in errors <==> titleFails
    ensures Author in errors <==> authorFails
    ensures Publisher in errors <==> publisherFails
    ensures PublicationYear in errors <==> yearFails
    ensures forall f :: f in errors ==> errors[f] == Message(f)
  {
    var none: map<Field, string> := map[];
    var withTitle := if titleFails then none[Title := TitleRequired] else none;
    var withAuthor := if authorFails then withTitle[Author := AuthorRequired] else withTitle;
    var withPublisher := if publisherFails then withAuthor[Publisher := PublisherRequired] else withAuthor;
    if yearFails then withPublisher[PublicationYear := InvalidYear] else withPublisher
  }

  /**
   * `newErrors`: an entry for each of title, author and publisher that is
   * empty or whitespace only, and for a year with `publicationYear <= 0`.
   * That comparison is false for `NaN`, so a `NaN` year raises no error.
   */
  function Validate(book: BookData): (errors: map<Field, string>)
    ensures Title in errors <==> Js.AllWhitespace(book.title)
    ensures Author in errors <==> Js.AllWhitespace(book.author)
    ensures Publisher in errors <==> Js.AllWhitespace(book.publisher)
    ensures PublicationYear in errors <==> book.publicationYear.Int? && book.publicationYear.value <= 0
    ensures forall f :: f in errors ==> errors[f] == Message(f)
  {
    Js.TrimEmptyIffBlank(book.title);
    Js.TrimEmptyIffBlank(book.author);
    Js.TrimEmptyIffBlank(book.publisher);
    Errors(Blank(book.title), Blank(book.author), Blank(book.publisher),
      book.publicationYear.Int? && book.publicationYear.value <= 0)
  }

  /**
   * The call a submission makes: none unless every field passes; otherwise the
   * untrimmed `{title, author, publisher, publicationYear}`, as an update of
   * the route's id or as a create.
   */
  function Submit(routeId: Option<int>, book: BookData): (r: Option<Api.Call>)
    ensures r.Some? <==> Validate(book) == map[]
    ensures r.Some? ==> r.value == (if routeId.Some? then Api.UpdateBook(routeId.value, book) else Api.CreateBook(book))
  {
    if Validate(book) != map[] then None
    else if routeId.Some? then Some(Api.UpdateBook(routeId.value, book))
    else Some(Api.CreateBook(book))
  }

  /** A book passes validation exactly when it has a visible title, author and publisher and a year that is positive or `NaN`. */
  lemma SubmittedBooksAreWellFormed(routeId: Option<int>, book: BookData)
    ensures Submit(routeId, book).Some? <==>
      && !Js.AllWhitespace(book.title) && !Js.AllWhitespace(book.author) && !Js.AllWhitespace(book.publisher)
      && (book.publicationYear.NaN? || book.publicationYear.value > 0)
  {
  }

  /**
   * Clearing the year input stores `parseInt("")`, which is `NaN`; the
   * `<= 0` check lets it through, and the book is created with a `NaN` year
   * (which `JSON.stringify` sends as `null`).
   */
  lemma EmptiedYearIsSent(title: string, author: string, publisher: string)
    requires !Js.AllWhitespace(title) && !Js.AllWhitespace(author) && !Js.AllWhitespace(publisher)
    ensures var book := BookData(title, author, publisher, Js.ParseIntPrefix(""));
      book.publicationYear == Js.NaN && Submit(None, book) == Some(Api.CreateBook(book))
  {
  }

  /** A year the intended check accepts: a number, and a positive one. */
  predicate ValidYear(n: Js.Number) {
    n.Int? && n.value > 0
  }

  /** `newErrors` with the year check written as `!(publicationYear > 0)`, which also rejects `NaN`. */
  function ValidateIntended(book: BookData): (errors: map<Field, string>)
    ensures PublicationYear in errors <==> !ValidYear(book.publicationYear)
    ensures forall f :: f != PublicationYear ==> (f in errors <==> f in Validate(book))
    ensures forall f :: f in errors ==> errors[f] == Message(f)
  {
    var errors := Validate(book);
    if book.publicationYear.NaN? then errors[PublicationYear := InvalidYear] else errors
  }

  /** The submission with the intended check: sent exactly when the texts are visible and the year is a positive number. */
  function SubmitIntended(routeId: Option<int>, book: BookData): (r: Option<Api.Call>)
    ensures r.Some? <==>
      && !Js.AllWhitespace(book.title) && !Js.AllWhitespace(book.author) && !Js.AllWhitespace(book.publisher)
      && ValidYear(book.publicationYear)
    ensures r.Some? ==> r.value == (if routeId.Some? then Api.UpdateBook(routeId.value, book) else Api.CreateBook(book))
  {
    var errors := ValidateIntended(book);
    assert errors == map[] <==> forall f :: f !in errors;
    if errors != map[] then None
    else if routeId.Some? then Some(Api.UpdateBook(routeId.value, book))
    else Some(Api.CreateBook(book))
  }

  class BookFormView {
    const routeId: Option<int>
    var title: string
    var author: string
    var publisher: string
    var publicationYear: Js.Number
    var errors: map<Field, string>

    /** The first render: empty fields and year 0. */
    constructor (routeId: Option<int>)
      ensures this.routeId == routeId && title == "" && author == "" && publisher == "" && publicationYear == Js.Int(0)
      ensures errors == map[]
    {
      this.routeId := routeId;
      title, author, publisher, publicationYear := "", "", "", Js.Int(0);
      errors := map[];
    }

    function Fields(): BookData
      reads this
    {
      BookData(title, author, publisher, publicationYear)
    }

    /** The mount effect: with a route id, load that book into the fields; a failed load only raises a toast. */
    method Load(reply: Js.Reply<BookData>) returns (sent: Option<Api.Call>, toast: Option<Js.Toast>)
      modifies this`title, this`author, this`publisher, this`publicationYear
      ensures routeId.None? ==> sent == None && toast == None && Fields() == old(Fields())
      ensures routeId.Some? ==> sent == Some(Api.GetBookById(routeId.value))
      ensures routeId.Some? && reply.Ok? ==> Fields() == reply.data && toast == None
      ensures routeId.Some? && reply.Err? ==> Fields() == old(Fields()) && toast == Some(Js.Error(FetchFailed))
    {
      sent, toast := None, None;
      if routeId.Some? {
        sent := Some(Api.GetBookById(routeId.value));
        match reply {
          case Ok(data) =>
            title, author, publisher, publicationYear := data.title, data.author, data.publisher, data.publicationYear;
          case Err(_) =>
            toast := Some(Js.Error(FetchFailed));
        }
      }
    }

    /** The title input: stores the text as typed and blanks the field's error. */
    method SetTitle(value: string)
      modifies this`title, this`errors
      ensures title == value && errors == old(errors)[Title := ""]
    {
      title := value;
      errors := errors[Title := ""];
    }

    /** The author input: stores the text as typed and blanks the field's error. */
    method SetAuthor(value: string)
      modifies this`author, this`errors
      ensures author == value && errors == old(errors)[Author := ""]
    {
      author := value;
      errors := errors[Author := ""];
    }

    /** The publisher input: stores the text as typed and blanks the field's error. */
    method SetPublisher(value: string)
      modifies this`publisher, this`errors
      ensures publisher == value && errors == old(errors)[Publisher := ""]
    {
      publisher := value;
      errors := errors[Publisher := ""];
    }

    /** The number input: stores `parseInt(value, 10)`, `NaN` for an emptied input, and blanks the field's error. */
    method SetPublicationYear(value: string)
      modifies this`publicationYear, this`errors
      ensures publicationYear == Js.ParseIntPrefix(value) && errors == old(errors)[PublicationYear := ""]
    {
      publicationYear := Js.ParseIntPrefix(value);
      errors := errors[PublicationYear := ""];
    }

    /** `handleSubmit`, with the awaited create or update call's outcome as `reply`; navigation to the list only on success. */
    method HandleSubmit(reply: Js.Reply<()>) returns (sent: Option<Api.Call>, toast: Option<Js.Toast>, navigate: Option<string>)
      modifies this`errors
      ensures errors == Validate(Fields())
      ensures sent == Submit(routeId, Fields())
      ensures navigate.Some? <==> sent.Some? && reply.Ok?
      ensures navigate.Some? ==> navigate.value == ListPath && toast.Some? && toast.value.Success?
      ensures sent.Some? && reply.Err? ==> toast == Some(Js.Error(SaveFailed))
      ensures sent.None? ==> toast == None
    {
      errors := Validate(Fields());
      sent, toast, navigate := None, None, None;
      if errors == map[] {
        var data := BookData(title, author, publisher, publicationYear);
        if routeId.Some? {
          sent := Some(Api.UpdateBook(routeId.value, data));
        } else {
          sent := Some(Api.CreateBook(data));
        }
        if reply.Ok? {
          toast := Some(Js.Success(if routeId.Some? then "Book updated successfully!" else "Book created successfully!"));
          navigate := Some(ListPath);
        } else {
          toast := Some(Js.Error(SaveFailed));
        }
      }
    }
  }
}
