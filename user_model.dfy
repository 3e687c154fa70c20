/** The `users` collection and `UserSchema` (src/models/User.js). */
module UserModel {
  import opened Wrappers
  import opened ObjectIds

  const Roles: seq<string> := ["client", "admin", "washer"]
  const DefaultRole: string := "client"
  const AdminRole: string := "admin"

  /** A stored user document; a field the document lacks is `None`. */
  datatype UserDoc = UserDoc(
    id: DocId,
    fullName: Option<string>,
    phone: Option<string>,
    email: Option<string>,
    address: Option<string>,
    passwordHash: Option<string>,
    role: Option<string>,
    createdAt: Option<int>,
    updatedAt: Option<int>)

  /** The role a loaded document shows: mongoose fills in the default when the field is missing. */
  function RoleOf(u: UserDoc): string
  {
    u.role.GetOr(DefaultRole)
  }

  /** UserSchema's validators: fullName, phone, email and passwordHash required, role in its enum. */
  predicate UserValid(u: UserDoc)
  {
    && Truthy(u.fullName)
    && Truthy(u.phone)
    && Truthy(u.email)
    && Truthy(u.passwordHash)
    && RoleOf(u) in Roles
  }

  /** The address is optional: validity does not depend on it. */
  lemma AddressOptional(u: UserDoc, address: Option<string>)
    ensures UserValid(u.(address := address)) <==> UserValid(u)
  {
  }

  /** A missing role reads as "client", which the enum accepts. */
  lemma RoleDefaultsToClient(u: UserDoc)
    requires u.role.None?
    ensures RoleOf(u) == "client" && RoleOf(u) in Roles
  {
  }

  predicate IdsUnique(docs: seq<UserDoc>)
  {
    forall i, j :: 0 <= i < j < |docs| ==> docs[i].id != docs[j].id
  }

  /**
   * The unique index on email. MongoDB indexes a missing email as null, so at
   * most one document may lack it.
   */
  predicate EmailsUnique(docs: seq<UserDoc>)
  {
    forall i, j :: 0 <= i < j < |docs| ==> docs[i].email != docs[j].email
  }

  /**
   * `User.findOne({ email })`: the position of the first user with that email,
   * or `|docs|`. An `email` the body lacks is sent as null, which matches a
   * user without one.
   */
  function IndexOfEmail(docs: seq<UserDoc>, email: Option<string>): (i: nat)
    ensures i <= |docs|
    ensures i < |docs| ==> docs[i].email == email
    ensures forall j :: 0 <= j < i ==> docs[j].email != email
  {
    if |docs| == 0 then 0
    else if docs[0].email == email then 0
    else 1 + IndexOfEmail(docs[1..], email)
  }

  /** Some user holds `email`. */
  predicate EmailTaken(docs: seq<UserDoc>, email: Option<string>)
  {
    exists i :: 0 <= i < |docs| && docs[i].email == email
  }

  lemma IndexOfEmailFinds(docs: seq<UserDoc>, email: Option<string>)
    ensures IndexOfEmail(docs, email) < |docs| <==> EmailTaken(docs, email)
  {
  }

  /** Appending a user does not move the first match of an email already held, and is the first match of a new one. */
  lemma {:induction false} IndexOfEmailAppend(docs: seq<UserDoc>, u: UserDoc, email: Option<string>)
    ensures EmailTaken(docs, email) ==> IndexOfEmail(docs + [u], email) == IndexOfEmail(docs, email)
    ensures !EmailTaken(docs, email) && u.email == email ==> IndexOfEmail(docs + [u], email) == |docs|
  {
    if |docs| > 0 {
      assert (docs + [u])[1..] == docs[1..] + [u];
      IndexOfEmailAppend(docs[1..], u, email);
      if docs[0].email != email {
        assert EmailTaken(docs, email) ==> EmailTaken(docs[1..], email) by {
          if EmailTaken(docs, email) {
            var i :| 0 <= i < |docs| && docs[i].email == email;
            assert docs[1..][i - 1] == docs[i];
          }
        }
        assert !EmailTaken(docs, email) ==> !EmailTaken(docs[1..], email) by {
          if EmailTaken(docs[1..], email) {
            var i :| 0 <= i < |docs[1..]| && docs[1..][i].email == email;
            assert docs[i + 1] == docs[1..][i];
          }
        }
      }
    }
  }

  /** The lookup reads only emails: two collections with the same email at every position agree on it. */
  lemma {:induction false} IndexOfEmailSameEmails(docs: seq<UserDoc>, docs': seq<UserDoc>, email: Option<string>)
    requires |docs| == |docs'|
    requires forall i :: 0 <= i < |docs| ==> docs[i].email == docs'[i].email
    ensures IndexOfEmail(docs, email) == IndexOfEmail(docs', email)
  {
    if |docs| > 0 && docs[0].email != email {
      IndexOfEmailSameEmails(docs[1..], docs'[1..], email);
    }
  }

  /** A document can join the collection when neither its `_id` nor its email is held already. */
  predicate Insertable(docs: seq<UserDoc>, u: UserDoc)
  {
    forall i :: 0 <= i < |docs| ==> docs[i].id != u.id && docs[i].email != u.email
  }

  class UserCollection {
    var docs: seq<UserDoc>

    predicate Valid()
      reads this
    {
      IdsUnique(docs) && EmailsUnique(docs)
    }

    constructor ()
      ensures Valid() && docs == []
    {
      docs := [];
    }

    /** The write of `User.create`: refused with a duplicate-key error when a unique index would break. */
    method Insert(u: UserDoc) returns (ok: bool)
      requires Valid()
      modifies this
      ensures Valid()
      ensures ok == Insertable(old(docs), u)
      ensures docs == if ok then old(docs) + [u] else old(docs)
    {
      ok := Insertable(docs, u);
      if ok {
        docs := docs + [u];
      }
    }

    /** The write of `user.save()` after `user.role = role`: only that field of that document changes. */
    method SetRole(i: nat, role: string)
      requires Valid() && i < |docs|
      modifies this
      ensures Valid()
      ensures docs == old(docs)[i := old(docs)[i].(role := Some(role))]
    {
      docs := docs[i := docs[i].(role := Some(role))];
    }
  }
}
