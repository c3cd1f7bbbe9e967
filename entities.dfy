/** The records the client exchanges with the backend, and the role and status names it compares against. */
module Entities {
  import Js

  /** A logged-in user as the backend returns it; `role` is a free string the client compares with "ADMIN" and "USER". */
  datatype User = User(id: int, username: string, role: string)

  const ADMIN := "ADMIN"
  const USER := "USER"

  /** A catalog entry as listed by `GET /books`. */
  datatype Book = Book(id: int, title: string, author: string, publisher: string, publicationYear: int)

  /**
   * The body of `POST /books` and `PUT /books/{id}`, as the book form holds it;
   * its year is whatever `parseInt` made of the number input, `NaN` included.
   */
  datatype BookData = BookData(title: string, author: string, publisher: string, publicationYear: Js.Number)

  /** The book and user a transaction refers to, as embedded in a listed transaction. */
  datatype BookRef = BookRef(id: int, title: string)
  datatype UserRef = UserRef(id: int, username: string)

  /** A borrowing transaction as listed by `GET /borrowing-transactions`; `status` is a free string. */
  datatype Transaction = Transaction(
    id: int,
    book: BookRef,
    user: UserRef,
    borrowDate: string,
    returnDate: string,
    status: string)

  const BORROWED := "Borrowed"
  const PENDING := "Pending"
  const RETURNED := "Returned"
}
