/**
 * The authenticated client: the endpoint wrappers (each a fixed HTTP method
 * and path over the shared axios instance) and the request interceptor that
 * adds the stored token as a bearer credential to every request except login.
 */
module Api {
  import opened Wrappers
  import opened Entities
  import Decimal
  import Js
  import Storage

  const LoginPath := "/login"
  const BooksPath := "/books"
  const TransactionsPath := "/borrowing-transactions"
  const Authorization := "Authorization"

  datatype HttpMethod = Get | Post | Put | Delete

  datatype Credentials = Credentials(username: string, password: string)

  /**
   * The body of a transaction create or update. The list screen sends back the
   * whole listed record with its status replaced; the form sends only the fields
   * the wrapper's type names.
   */
  datatype TransactionBody =
    | WholeRecord(record: Transaction)
    | FormFields(bookId: int, userId: int, borrowDate: string, returnDate: string, status: string)

  datatype Body =
    | NoBody
    | CredentialsBody(credentials: Credentials)
    | BookBody(book: BookData)
    | TransactionPayload(transaction: TransactionBody)

  /** One call of an exported wrapper, with its arguments. */
  datatype Call =
    | Login(credentials: Credentials)
    | GetAllBooks
    | GetBookById(id: int)
    | CreateBook(book: BookData)
    | UpdateBook(id: int, book: BookData)
    | DeleteBook(id: int)
    | GetAllBorrowingTransactions
    | GetBorrowingTransactionById(id: int)
    | CreateBorrowingTransaction(transaction: TransactionBody)
    | UpdateBorrowingTransaction(id: int, transaction: TransactionBody)
    | DeleteBorrowingTransaction(id: int)

  /** What reaches the interceptor: the method, the url relative to the base url, and the data. */
  datatype Request = Request(verb: HttpMethod, url: string, body: Body)

  /** `base + "/" + id`: the url of one resource. */
  function ItemPath(base: string, id: int): string {
    base + "/" + Decimal.IntToString(id)
  }

  /** The request each wrapper issues. */
  function ToRequest(c: Call): (r: Request)
    ensures r.url == LoginPath <==> c.Login?
  {
    match c
    case Login(cr) => Request(Post, LoginPath, CredentialsBody(cr))
    case GetAllBooks => Request(Get, BooksPath, NoBody)
    case GetBookById(id) => Request(Get, ItemPath(BooksPath, id), NoBody)
    case CreateBook(b) => Request(Post, BooksPath, BookBody(b))
    case UpdateBook(id, b) => Request(Put, ItemPath(BooksPath, id), BookBody(b))
    case DeleteBook(id) => Request(Delete, ItemPath(BooksPath, id), NoBody)
    case GetAllBorrowingTransactions => Request(Get, TransactionsPath, NoBody)
    case GetBorrowingTransactionById(id) => Request(Get, ItemPath(TransactionsPath, id), NoBody)
    case CreateBorrowingTransaction(t) => Request(Post, TransactionsPath, TransactionPayload(t))
    case UpdateBorrowingTransaction(id, t) => Request(Put, ItemPath(TransactionsPath, id), TransactionPayload(t))
    case DeleteBorrowingTransaction(id) => Request(Delete, ItemPath(TransactionsPath, id), NoBody)
  }

  /** The resource a url names, as the backend routes it. */
  datatype Route = LoginRoute | BooksRoute | BookItem(id: int) | TransactionsRoute | TransactionItem(id: int) | Unknown

  /** The id in `base + "/" + id`, if `url` has that shape. */
  function ItemId(base: string, url: string): Option<int> {
    if |url| > |base| + 1 && url[..|base| + 1] == base + "/" then Decimal.ParseInt(url[|base| + 1..]) else None
  }

  function RouteOf(url: string): Route {
    if url == LoginPath then LoginRoute
    else if url == BooksPath then BooksRoute
    else if url == TransactionsPath then TransactionsRoute
    else if ItemId(BooksPath, url).Some? then BookItem(ItemId(BooksPath, url).value)
    else if ItemId(TransactionsPath, url).Some? then TransactionItem(ItemId(TransactionsPath, url).value)
    else Unknown
  }

  /** The backend's reading of a request: which resource operation it asks for. */
  function FromRequest(r: Request): Option<Call> {
    FromRoute(RouteOf(r.url), r.verb, r.body)
  }

  /** The operation a method and body ask of a resource. */
  function FromRoute(route: Route, verb: HttpMethod, body: Body): Option<Call> {
    match route
    case LoginRoute =>
      if verb == Post && body.CredentialsBody? then Some(Login(body.credentials)) else None
    case BooksRoute =>
      if verb == Get && body.NoBody? then Some(GetAllBooks)
      else if verb == Post && body.BookBody? then Some(CreateBook(body.book))
      else None
    case BookItem(id) =>
      if verb == Get && body.NoBody? then Some(GetBookById(id))
      else if verb == Put && body.BookBody? then Some(UpdateBook(id, body.book))
      else if verb == Delete && body.NoBody? then Some(DeleteBook(id))
      else None
    case TransactionsRoute =>
      if verb == Get && body.NoBody? then Some(GetAllBorrowingTransactions)
      else if verb == Post && body.TransactionPayload? then Some(CreateBorrowingTransaction(body.transaction))
      else None
    case TransactionItem(id) =>
      if verb == Get && body.NoBody? then Some(GetBorrowingTransactionById(id))
      else if verb == Put && body.TransactionPayload? then Some(UpdateBorrowingTransaction(id, body.transaction))
      else if verb == Delete && body.NoBody? then Some(DeleteBorrowingTransaction(id))
      else None
    case Unknown => None
  }

  /** The resource each wrapper call addresses. */
  function RouteOfCall(c: Call): Route {
    match c
    case Login(_) => LoginRoute
    case GetAllBooks => BooksRoute
    case CreateBook(_) => BooksRoute
    case GetBookById(id) => BookItem(id)
    case UpdateBook(id, _) => BookItem(id)
    case DeleteBook(id) => BookItem(id)
    case GetAllBorrowingTransactions => TransactionsRoute
    case CreateBorrowingTransaction(_) => TransactionsRoute
    case GetBorrowingTransactionById(id) => TransactionItem(id)
    case UpdateBorrowingTransaction(id, _) => TransactionItem(id)
    case DeleteBorrowingTransaction(id) => TransactionItem(id)
  }

  lemma RouteOfCollections()
    ensures RouteOf(LoginPath) == LoginRoute
    ensures RouteOf(BooksPath) == BooksRoute
    ensures RouteOf(TransactionsPath) == TransactionsRoute
  {
    assert BooksPath != LoginPath by { assert BooksPath[1] != LoginPath[1]; }
    assert TransactionsPath != LoginPath by { assert TransactionsPath[1] != LoginPath[1]; }
    assert TransactionsPath != BooksPath by { assert TransactionsPath[3] != BooksPath[3]; }
  }

  lemma RouteOfBookItem(id: int)
    ensures RouteOf(ItemPath(BooksPath, id)) == BookItem(id)
  {
    var u := ItemPath(BooksPath, id);
    assert |u| > |BooksPath| + 1;
    assert u[..|BooksPath| + 1] == BooksPath + "/" && u[|BooksPath| + 1..] == Decimal.IntToString(id);
    assert u != LoginPath && u != BooksPath && u != TransactionsPath by {
      assert u[1] == 'b' && u[3] == 'o' && |u| > 6;
    }
    Decimal.IntRoundTrip(id);
  }

  lemma RouteOfTransactionItem(id: int)
    ensures RouteOf(ItemPath(TransactionsPath, id)) == TransactionItem(id)
  {
    var u := ItemPath(TransactionsPath, id);
    assert |u| > |TransactionsPath| + 1;
    assert u[..|TransactionsPath| + 1] == TransactionsPath + "/" && u[|TransactionsPath| + 1..] == Decimal.IntToString(id);
    assert u != LoginPath && u != BooksPath && u != TransactionsPath by {
      assert u[1] == 'b' && u[3] == 'r' && |u| > 23;
    }
    assert ItemId(BooksPath, u).None? by {
      assert u[..|BooksPath| + 1][3] == 'r';
    }
    Decimal.IntRoundTrip(id);
  }

  /** Every wrapper call is recovered from the request it sends: no two calls share a method, url and body. */
  lemma RequestRoundTrip(c: Call)
    ensures FromRequest(ToRequest(c)) == Some(c)
  {
    RouteOfRequest(c);
    var r := ToRequest(c);
    assert FromRequest(r) == FromRoute(RouteOfCall(c), r.verb, r.body);
  }

  /** The url each wrapper call sends is routed to the resource the call addresses. */
  lemma RouteOfRequest(c: Call)
    ensures RouteOf(ToRequest(c).url) == RouteOfCall(c)
  {
    match c
    case GetBookById(id) => RouteOfBookItem(id);
    case UpdateBook(id, _) => RouteOfBookItem(id);
    case DeleteBook(id) => RouteOfBookItem(id);
    case GetBorrowingTransactionById(id) => RouteOfTransactionItem(id);
    case UpdateBorrowingTransaction(id, _) => RouteOfTransactionItem(id);
    case DeleteBorrowingTransaction(id) => RouteOfTransactionItem(id);
    case _ => RouteOfCollections();
  }

  /** `getAuthHeader()`: a bearer header for a truthy stored token, no header otherwise. */
  function AuthHeader(token: Option<string>): (h: map<string, string>)
    ensures Authorization in h <==> Js.TruthyString(token)
    ensures Authorization in h ==> h[Authorization] == "Bearer " + token.value
    ensures h.Keys <= {Authorization}
  {
    if Js.TruthyString(token) then map[Authorization := "Bearer " + token.value] else map[]
  }

  /** The headers the interceptor leaves on a request to `url` when `token` is stored. */
  function WithAuth(headers: map<string, string>, url: string, token: Option<string>): (r: map<string, string>)
    ensures url == LoginPath ==> r == headers
    ensures url != LoginPath && Js.TruthyString(token) ==> r == headers[Authorization := "Bearer " + token.value]
    ensures !Js.TruthyString(token) ==> r == headers
    ensures forall k :: k != Authorization ==> (k in r <==> k in headers) && (k in r ==> r[k] == headers[k])
  {
    if url != LoginPath then headers + AuthHeader(token) else headers
  }

  /** The mutable request configuration axios hands to the interceptor. */
  class RequestConfig {
    const url: string
    var headers: map<string, string>

    constructor (url: string, headers: map<string, string>)
      ensures this.url == url && this.headers == headers
    {
      this.url := url;
      this.headers := headers;
    }
  }

  /** The request interceptor: merges the auth header into `config.headers` in place and returns the same config. */
  method Intercept(config: RequestConfig, storage: Storage.LocalStorage) returns (r: RequestConfig)
    modifies config
    ensures r == config
    ensures config.headers == WithAuth(old(config.headers), config.url, storage.GetItem(Storage.TokenKey))
  {
    if config.url != LoginPath {
      config.headers := config.headers + AuthHeader(storage.GetItem(Storage.TokenKey));
    }
    r := config;
  }

  /** Only the login call goes out without the stored credential; every other call carries it when it is truthy. */
  lemma CredentialOnEveryCallButLogin(c: Call, headers: map<string, string>, token: Option<string>)
    requires Authorization !in headers
    ensures Authorization in WithAuth(headers, ToRequest(c).url, token) <==> !c.Login? && Js.TruthyString(token)
  {
  }
}
