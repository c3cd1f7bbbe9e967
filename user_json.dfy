/**
 * The text form of a `User` kept under the `user` storage key. It stands for
 * `JSON.stringify` (written at login) and `JSON.parse` (read at mount and by
 * the transaction form): any injective encoding with a parser that can fail
 * serves, so the model uses a length-prefixed one and proves its round trip.
 */
module UserJson {
  import opened Wrappers
  import opened Entities
  import Decimal
  import Strings

  /** `id:len:` followed by the username (of length `len`) and then the role. */
  function Serialize(u: User): string {
    Decimal.IntToString(u.id) + ":" + Decimal.NatToString(|u.username|) + ":" + u.username + u.role
  }

  /** Reads the username and role that follow a length prefix. */
  function ParseNamed(id: int, len: string, body: string): Option<User> {
    if len != [] && Decimal.AllDigits(len) && Decimal.DigitsValue(len) <= |body| then
      var n := Decimal.DigitsValue(len);
      Some(User(id, body[..n], body[n..]))
    else None
  }

  /** Reads a stored user back; `None` where `JSON.parse` would throw on malformed text. */
  function Parse(s: string): Option<User> {
    match Strings.SplitAt(s, ':')
    case None => None
    case Some((head, rest)) =>
      match (Decimal.ParseInt(head), Strings.SplitAt(rest, ':'))
      case (Some(id), Some((len, body))) => ParseNamed(id, len, body)
      case _ => None
  }

  /** What login stores is what mount reads back. */
  lemma ParseSerialize(u: User)
    ensures Parse(Serialize(u)) == Some(u)
  {
    var a := Decimal.IntToString(u.id);
    var b := Decimal.NatToString(|u.username|);
    var body := u.username + u.role;
    assert forall k :: 0 <= k < |a| ==> a[k] != ':';
    assert forall k :: 0 <= k < |b| ==> b[k] != ':';
    assert Serialize(u) == a + [':'] + (b + [':'] + body);
    Strings.SplitJoin(a, ':', b + [':'] + body);
    Strings.SplitJoin(b, ':', body);
    Decimal.IntRoundTrip(u.id);
    Decimal.NatRoundTrip(|u.username|);
    assert body[..|u.username|] == u.username && body[|u.username|..] == u.role;
  }
}
