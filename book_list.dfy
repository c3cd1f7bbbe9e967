/**
 * The book catalog screen: the "Add Book" button and the per-row controls
 * gated by the signed-in user and role, and the confirm-gated delete.
 */
module BookList {
  import opened Wrappers
  import opened Entities
  import Js
  import Api
  import Decimal

  const FetchFailed := "Failed to fetch books."
  const DeleteFailed := "Failed to delete book."
  const Deleted := "Book deleted successfully!"
  const AddBookPath := "/books/create"

  datatype Control = AddBookLink(to: string) | EditLink(to: string) | DeleteButton | BorrowLink(to: string)

  function EditPath(id: int): string {
    "/books/" + Decimal.IntToString(id) + "/edit"
  }

  /** The borrow link opens the transaction form with the book preselected through the query string. */
  function BorrowPath(id: int): string {
    "/transactions/create?bookId=" + Decimal.IntToString(id)
  }

  /** The header's extra button: "Add Book" iff a user is signed in with role ADMIN. */
  function HeaderControls(user: Option<User>, role: Option<string>): (r: seq<Control>)
    ensures AddBookLink(AddBookPath) in r <==> user.Some? && role == Some(ADMIN)
    ensures |r| <= 1
  {
    if user.Some? && role == Some(ADMIN) then [AddBookLink(AddBookPath)] else []
  }

  /**
   * A row's controls: nothing unless both a user and a (truthy) role are set;
   * then Edit and Delete for ADMIN, Borrow for USER, nothing for other roles.
   */
  function RowControls(user: Option<User>, role: Option<string>, book: Book): (r: seq<Control>)
    ensures !(user.Some? && Js.TruthyString(role)) ==> r == []
    ensures DeleteButton in r <==> user.Some? && role == Some(ADMIN)
    ensures EditLink(EditPath(book.id)) in r <==> user.Some? && role == Some(ADMIN)
    ensures BorrowLink(BorrowPath(book.id)) in r <==> user.Some? && role == Some(USER)
    ensures forall c :: c in r ==> c == EditLink(EditPath(book.id)) || c == DeleteButton || c == BorrowLink(BorrowPath(book.id))
  {
    if user.Some? && Js.TruthyString(role) then
      (if role.value == ADMIN then [EditLink(EditPath(book.id)), DeleteButton] else [])
      + (if role.value == USER then [BorrowLink(BorrowPath(book.id))] else [])
    else []
  }

  /** No row offers both the catalog's admin controls and borrowing. */
  lemma AdminAndBorrowExclusive(user: Option<User>, role: Option<string>, book: Book)
    ensures !(DeleteButton in RowControls(user, role, book) && BorrowLink(BorrowPath(book.id)) in RowControls(user, role, book))
  {
  }

  /** The catalog screen's state: the listed `books`, with the `user` and `role` it was rendered with. */
  class BookListView {
    const user: Option<User>
    const role: Option<string>
    var books: seq<Book>

    constructor (user: Option<User>, role: Option<string>)
      ensures this.user == user && this.role == role && books == []
    {
      this.user := user;
      this.role := role;
      books := [];
    }

    /** `fetchBooks`: on success the fetched list replaces `books`; on failure `books` is unchanged. */
    method FetchBooks(reply: Js.Reply<seq<Book>>) returns (sent: Api.Call, toast: Option<Js.Toast>)
      modifies this`books
      ensures sent == Api.GetAllBooks
      ensures reply.Ok? ==> books == reply.data && toast == None
      ensures reply.Err? ==> books == old(books) && toast == Some(Js.Error(FetchFailed))
    {
      sent := Api.GetAllBooks;
      if reply.Ok? {
        books := reply.data;
        toast := None;
      } else {
        toast := Some(Js.Error(FetchFailed));
      }
    }

    /** `handleDelete`: nothing unless confirmed; then the delete call, and a refetch only when it succeeds. */
    method HandleDelete(id: int, confirmed: bool, reply: Js.Reply<()>, refetch: Js.Reply<seq<Book>>)
      returns (sent: seq<Api.Call>, toast: Option<Js.Toast>)
      modifies this`books
      ensures !confirmed ==> sent == [] && toast == None && books == old(books)
      ensures confirmed && reply.Ok? ==>
        sent == [Api.DeleteBook(id), Api.GetAllBooks] && toast == Some(Js.Success(Deleted))
        && books == (if refetch.Ok? then refetch.data else old(books))
      ensures confirmed && reply.Err? ==>
        sent == [Api.DeleteBook(id)] && toast == Some(Js.Error(DeleteFailed)) && books == old(books)
    {
      sent, toast := [], None;
      if confirmed {
        sent := [Api.DeleteBook(id)];
        if reply.Ok? {
          toast := Some(Js.Success(Deleted));
          var again, _ := FetchBooks(refetch);
          sent := sent + [again];
        } else {
          toast := Some(Js.Error(DeleteFailed));
        }
      }
    }
  }
}
