/**
 * The transaction list screen: the role filter applied to the fetched list,
 * the per-row controls gated by role and status, and the handlers that delete
 * a transaction or resend a listed record with only its status replaced.
 */
module TransactionList {
  import opened Wrappers
  import opened Entities
  import Js
  import Api
  import Decimal

  const FetchFailed := "Failed to fetch transactions."
  const DeleteFailed := "Failed to delete transaction."
  const NotFound := "Transaction not found"
  const Deleted := "Transaction deleted successfully!"

  /** The transactions of user `uid`, in their original order. */
  function OwnedBy(ts: seq<Transaction>, uid: int): (r: seq<Transaction>)
    ensures |r| <= |ts|
    ensures forall t :: multiset(r)[t] == if t.user.id == uid then multiset(ts)[t] else 0
  {
    if ts == [] then []
    else
      assert ts == [ts[0]] + ts[1..];
      if ts[0].user.id == uid then [ts[0]] + OwnedBy(ts[1..], uid) else OwnedBy(ts[1..], uid)
  }

  /** Filtering a concatenation filters each part: the order of the kept transactions is the fetched order. */
  lemma {:induction false} OwnedByAppend(a: seq<Transaction>, b: seq<Transaction>, uid: int)
    ensures OwnedBy(a + b, uid) == OwnedBy(a, uid) + OwnedBy(b, uid)
  {
    if a == [] {
      assert a + b == b;
    } else {
      assert (a + b)[0] == a[0] && (a + b)[1..] == a[1..] + b;
      OwnedByAppend(a[1..], b, uid);
    }
  }

  /** A list whose transactions all belong to `uid` is kept whole. */
  lemma {:induction false} OwnedByAllOwned(ts: seq<Transaction>, uid: int)
    requires forall i :: 0 <= i < |ts| ==> ts[i].user.id == uid
    ensures OwnedBy(ts, uid) == ts
  {
    if ts != [] {
      OwnedByAllOwned(ts[1..], uid);
    }
  }

  /**
   * What `fetchTransactions` stores: for a USER with a known user, exactly that
   * user's transactions; for ADMIN, a null role, or a USER whose user is null,
   * the fetched list unchanged.
   */
  function Visible(all: seq<Transaction>, role: Option<string>, user: Option<User>): (r: seq<Transaction>)
    ensures role == Some(USER) && user.Some? ==>
      forall t :: multiset(r)[t] == if t.user.id == user.value.id then multiset(all)[t] else 0
    ensures !(role == Some(USER) && user.Some?) ==> r == all
  {
    if role == Some(USER) && user.Some? then OwnedBy(all, user.value.id) else all
  }

  /** Every transaction a USER sees is their own. */
  lemma VisibleToUserIsOwn(all: seq<Transaction>, u: User, t: Transaction)
    requires t in Visible(all, Some(USER), Some(u))
    ensures t.user.id == u.id && t in all
  {
    assert multiset(Visible(all, Some(USER), Some(u)))[t] > 0;
  }

  /** The position of the first transaction with id `id` (`Array.prototype.find`). */
  function IndexOfId(ts: seq<Transaction>, id: int): (r: Option<nat>)
    ensures r.None? <==> forall i :: 0 <= i < |ts| ==> ts[i].id != id
    ensures r.Some? ==> r.value < |ts| && ts[r.value].id == id && forall j :: 0 <= j < r.value ==> ts[j].id != id
  {
    if ts == [] then None
    else if ts[0].id == id then Some(0)
    else match IndexOfId(ts[1..], id)
      case Some(k) => Some(k + 1)
      case None => None
  }

  /** `{...t, status}`: the record with only its status replaced. */
  function WithStatus(t: Transaction, status: string): (r: Transaction)
    ensures r.status == status
    ensures r.(status := t.status) == t
  {
    t.(status := status)
  }

  /**
   * The update a return request or an approval sends for `id` from the listed
   * `ts`: none when no listed transaction has that id, otherwise the first
   * such record with only its status set. The current status is not consulted.
   */
  function StatusUpdate(ts: seq<Transaction>, id: int, status: string): (r: Option<Api.Call>)
    ensures r.None? <==> forall i :: 0 <= i < |ts| ==> ts[i].id != id
    ensures r.Some? ==> exists i :: (0 <= i < |ts| && ts[i].id == id && (forall j :: 0 <= j < i ==> ts[j].id != id)
      && r.value == Api.UpdateBorrowingTransaction(id, Api.WholeRecord(WithStatus(ts[i], status))))
  {
    match IndexOfId(ts, id)
    case None => None
    case Some(i) => Some(Api.UpdateBorrowingTransaction(id, Api.WholeRecord(WithStatus(ts[i], status))))
  }

  /** The controls in a row's action cell. */
  datatype RowControl = EditLink(to: string) | DeleteButton | ApproveButton | ReturnButton | PendingLabel | DoneLabel

  function EditPath(id: int): string {
    "/transactions/" + Decimal.IntToString(id) + "/edit"
  }

  /**
   * The action cell of a row. ADMIN: Edit and Delete always, Approve when the
   * status is Pending. USER: Return when Borrowed, a Pending or Done label
   * otherwise. Any other role: nothing.
   */
  function RowControls(role: Option<string>, t: Transaction): (r: seq<RowControl>)
    ensures role == Some(ADMIN) ==> EditLink(EditPath(t.id)) in r && DeleteButton in r && ReturnButton !in r
    ensures ApproveButton in r <==> role == Some(ADMIN) && t.status == PENDING
    ensures ReturnButton in r <==> role == Some(USER) && t.status == BORROWED
    ensures role != Some(ADMIN) ==> DeleteButton !in r && forall c :: c in r ==> !c.EditLink?
    ensures role != Some(ADMIN) && role != Some(USER) ==> r == []
  {
    if role == Some(ADMIN) then
      [EditLink(EditPath(t.id)), DeleteButton] + (if t.status == PENDING then [ApproveButton] else [])
    else if role == Some(USER) then
      if t.status == BORROWED then [ReturnButton]
      else if t.status == PENDING then [PendingLabel]
      else if t.status == RETURNED then [DoneLabel]
      else []
    else []
  }

  /**
   * The lifecycle table: a USER moves Borrowed to Pending (a return request),
   * an ADMIN moves Pending to Returned (an approval). Direct edits through the
   * admin form and deletion are outside the table.
   */
  predicate AllowedTransition(role: string, from: string, to: string) {
    || (role == USER && from == BORROWED && to == PENDING)
    || (role == ADMIN && from == PENDING && to == RETURNED)
  }

  /** The status-changing buttons are shown exactly for the transitions the table allows. */
  lemma ControlsMatchLifecycle(role: string, t: Transaction)
    ensures ReturnButton in RowControls(Some(role), t) <==> AllowedTransition(role, t.status, PENDING)
    ensures ApproveButton in RowControls(Some(role), t) <==> AllowedTransition(role, t.status, RETURNED)
  {
  }

  /**
   * A shown Return or Approve button sends an update whose new status is the
   * one the table allows from the row's status, for the row's own record.
   */
  lemma ButtonUpdateIsAllowed(role: string, ts: seq<Transaction>, i: nat, status: string)
    requires i < |ts| && forall j :: 0 <= j < |ts| && j != i ==> ts[j].id != ts[i].id
    requires (status == PENDING && ReturnButton in RowControls(Some(role), ts[i]))
          || (status == RETURNED && ApproveButton in RowControls(Some(role), ts[i]))
    ensures StatusUpdate(ts, ts[i].id, status) == Some(Api.UpdateBorrowingTransaction(ts[i].id, Api.WholeRecord(WithStatus(ts[i], status))))
    ensures AllowedTransition(role, ts[i].status, status)
  {
    var r := StatusUpdate(ts, ts[i].id, status);
    assert r.Some?;
  }

  /** The list screen's state: `transactions` and `error`, with the `role` and `user` it was rendered with. */
  class TransactionListView {
    const role: Option<string>
    const user: Option<User>
    var transactions: seq<Transaction>
    var error: Option<string>

    constructor (role: Option<string>, user: Option<User>)
      ensures this.role == role && this.user == user && transactions == [] && error == None
    {
      this.role := role;
      this.user := user;
      transactions := [];
      error := None;
    }

    /** `fetchTransactions`: on success the filtered list replaces `transactions`; on failure only `error` is set. */
    method FetchTransactions(reply: Js.Reply<seq<Transaction>>) returns (sent: Api.Call, toast: Option<Js.Toast>)
      modifies this`transactions, this`error
      ensures sent == Api.GetAllBorrowingTransactions
      ensures reply.Ok? ==> transactions == Visible(reply.data, role, user) && error == old(error) && toast == None
      ensures reply.Err? ==> transactions == old(transactions) && error == Some(FetchFailed) && toast == Some(Js.Error(FetchFailed))
    {
      sent := Api.GetAllBorrowingTransactions;
      if reply.Ok? {
        transactions := Visible(reply.data, role, user);
        toast := None;
      } else {
        error := Some(FetchFailed);
        toast := Some(Js.Error(FetchFailed));
      }
    }

    /**
     * `handleDelete`: nothing unless confirmed; then the delete call, followed
     * on success by a refetch (whose reply is `refetch`), or on failure by the
     * error with `transactions` unchanged. `sent` lists the calls in order;
     * `toast` is the handler's own toast (the refetch raises its own on failure).
     */
    method HandleDelete(id: int, confirmed: bool, reply: Js.Reply<()>, refetch: Js.Reply<seq<Transaction>>)
      returns (sent: seq<Api.Call>, toast: Option<Js.Toast>)
      modifies this`transactions, this`error
      ensures !confirmed ==> sent == [] && toast == None && transactions == old(transactions) && error == old(error)
      ensures confirmed && reply.Ok? ==>
        sent == [Api.DeleteBorrowingTransaction(id), Api.GetAllBorrowingTransactions] && toast == Some(Js.Success(Deleted))
      ensures confirmed && reply.Ok? && refetch.Ok? ==> transactions == Visible(refetch.data, role, user) && error == old(error)
      ensures confirmed && reply.Ok? && refetch.Err? ==> transactions == old(transactions) && error == Some(FetchFailed)
      ensures confirmed && reply.Err? ==>
        sent == [Api.DeleteBorrowingTransaction(id)] && toast == Some(Js.Error(DeleteFailed))
        && transactions == old(transactions) && error == Some(DeleteFailed)
    {
      sent, toast := [], None;
      if confirmed {
        sent := [Api.DeleteBorrowingTransaction(id)];
        if reply.Ok? {
          toast := Some(Js.Success(Deleted));
          var again, _ := FetchTransactions(refetch);
          sent := sent + [again];
        } else {
          error := Some(DeleteFailed);
          toast := Some(Js.Error(DeleteFailed));
        }
      }
    }

    /**
     * The shared body of `handleReturnRequest` and `handleApproveReturn`:
     * look `id` up in the listed transactions; if absent, report it and send
     * nothing; otherwise send the record with `status` and refetch on success,
     * or set `failure` and keep `transactions` on error.
     */
    method UpdateStatus(id: int, status: string, success: string, failure: string,
                        reply: Js.Reply<()>, refetch: Js.Reply<seq<Transaction>>)
      returns (sent: seq<Api.Call>, toast: Js.Toast)
      modifies this`transactions, this`error
      ensures StatusUpdate(old(transactions), id, status).None? ==>
        sent == [] && toast == Js.Error(NotFound) && transactions == old(transactions) && error == old(error)
      ensures StatusUpdate(old(transactions), id, status).Some? && reply.Ok? ==>
        sent == [StatusUpdate(old(transactions), id, status).value, Api.GetAllBorrowingTransactions]
        && toast == Js.Success(success)
        && (refetch.Ok? ==> transactions == Visible(refetch.data, role, user) && error == old(error))
        && (refetch.Err? ==> transactions == old(transactions) && error == Some(FetchFailed))
      ensures StatusUpdate(old(transactions), id, status).Some? && reply.Err? ==>
        sent == [StatusUpdate(old(transactions), id, status).value]
        && toast == Js.Error(failure) && transactions == old(transactions) && error == Some(failure)
    {
      var update := StatusUpdate(transactions, id, status);
      if update.None? {
        return [], Js.Error(NotFound);
      }
      sent := [update.value];
      if reply.Ok? {
        toast := Js.Success(success);
        var again, _ := FetchTransactions(refetch);
        sent := sent + [again];
      } else {
        error := Some(failure);
        toast := Js.Error(failure);
      }
    }

    /** `handleReturnRequest`: resend the listed record with status Pending. */
    method HandleReturnRequest(id: int, reply: Js.Reply<()>, refetch: Js.Reply<seq<Transaction>>)
      returns (sent: seq<Api.Call>, toast: Js.Toast)
      modifies this`transactions, this`error
      ensures StatusUpdate(old(transactions), id, PENDING).None? ==>
        sent == [] && toast == Js.Error(NotFound) && transactions == old(transactions) && error == old(error)
      ensures StatusUpdate(old(transactions), id, PENDING).Some? && reply.Ok? ==>
        (refetch.Ok? ==> transactions == Visible(refetch.data, role, user) && error == old(error))
        && (refetch.Err? ==> transactions == old(transactions) && error == Some(FetchFailed))
      ensures StatusUpdate(old(transactions), id, PENDING).Some? ==>
        |sent| >= 1 && sent[0] == StatusUpdate(old(transactions), id, PENDING).value
        && (reply.Ok? ==> sent == [sent[0], Api.GetAllBorrowingTransactions] && toast == Js.Success("Return request submitted!"))
        && (reply.Err? ==> sent == [sent[0]] && transactions == old(transactions) && error == Some("Failed to submit return request."))
    {
      sent, toast := UpdateStatus(id, PENDING, "Return request submitted!", "Failed to submit return request.", reply, refetch);
    }

    /** `handleApproveReturn`: resend the listed record with status Returned. */
    method HandleApproveReturn(id: int, reply: Js.Reply<()>, refetch: Js.Reply<seq<Transaction>>)
      returns (sent: seq<Api.Call>, toast: Js.Toast)
      modifies this`transactions, this`error
      ensures StatusUpdate(old(transactions), id, RETURNED).None? ==>
        sent == [] && toast == Js.Error(NotFound) && transactions == old(transactions) && error == old(error)
      ensures StatusUpdate(old(transactions), id, RETURNED).Some? && reply.Ok? ==>
        (refetch.Ok? ==> transactions == Visible(refetch.data, role, user) && error == old(error))
        && (refetch.Err? ==> transactions == old(transactions) && error == Some(FetchFailed))
      ensures StatusUpdate(old(transactions), id, RETURNED).Some? ==>
        |sent| >= 1 && sent[0] == StatusUpdate(old(transactions), id, RETURNED).value
        && (reply.Ok? ==> sent == [sent[0], Api.GetAllBorrowingTransactions] && toast == Js.Success("Return request approved!"))
        && (reply.Err? ==> sent == [sent[0]] && transactions == old(transactions) && error == Some("Failed to approve return request."))
    {
      sent, toast := UpdateStatus(id, RETURNED, "Return request approved!", "Failed to approve return request.", reply, refetch);
    }
  }
}
