/** The persistent state the billing core reads and writes: members and
    memberships keyed by id, and the append-only invoice ledger. */
module Repository {
  import opened Schema

  /** `nextId` stands for the store's key generator: every key handed out so
      far lies below it. */
  datatype Store = Store(
    members: map<Id, Member>,
    memberships: map<Id, Membership>,
    invoices: seq<Invoice>,
    nextId: Id)

  /** The errors the service operations raise: a missing record, a duplicate
      email, and any other exception, which their catch blocks wrap as an
      internal server error. */
  datatype Error = NotFound | BadRequest | Internal

  /** The outcome of a mutating operation: the new store and the operation's
      value, or an error (the store is then left as it was). */
  datatype Result<+T> = Ok(store: Store, value: T) | Err(error: Error)

  predicate EmailsUnique(members: map<Id, Member>) {
    forall a, b :: a in members && b in members && members[a].email == members[b].email ==> a == b
  }

  /** Well-formedness of the store: each record sits under its own id, every id
      was handed out by the generator, a membership's owner reference points at
      a stored member, and no two members share an email. */
  predicate Valid(s: Store) {
    && (forall k :: k in s.members ==> s.members[k].id == k && k < s.nextId)
    && (forall k :: k in s.memberships ==> s.memberships[k].id == k && k < s.nextId)
    && (forall k :: k in s.memberships && s.memberships[k].memberId.Some? ==>
          s.memberships[k].memberId.value in s.members)
    && EmailsUnique(s.members)
  }

  /** The member a membership's `member` relation loads, if any. */
  function OwnerOf(members: map<Id, Member>, m: Membership): Option<Member> {
    if m.memberId.Some? && m.memberId.value in members then Some(members[m.memberId.value]) else None
  }
}
