/**
 * The role-promotion script (makeAdmin.js): find a user by the email given
 * on the command line and make it an admin. Console messages and the
 * database connection are not modelled; the exit code is.
 */
module MakeAdmin {
  import opened Wrappers
  import opened UserModel

  /** The exit code and the users collection the script leaves behind. */
  datatype RunResult = RunResult(exitCode: int, docs: seq<UserDoc>)

  /**
   * What `run` does: exit 1 with no (or an empty) argument or no such user;
   * otherwise set the role to "admin" and `save()`, whose validation failure
   * also ends in exit 1.
   */
  function Promote(docs: seq<UserDoc>, emailArg: Option<string>): RunResult
  {
    if !Truthy(emailArg) then RunResult(1, docs)
    else
      var i := IndexOfEmail(docs, emailArg);
      if i == |docs| then RunResult(1, docs)
      else
        var promoted := docs[i].(role := Some(AdminRole));
        if !UserValid(promoted) then RunResult(1, docs)
        else RunResult(0, docs[i := promoted])
  }

  method Run(users: UserCollection, emailArg: Option<string>) returns (exitCode: int)
    requires users.Valid()
    modifies users
    ensures users.Valid()
    ensures RunResult(exitCode, users.docs) == Promote(old(users.docs), emailArg)
  {
    if !Truthy(emailArg) {
      return 1;
    }
    var user := IndexOfEmail(users.docs, emailArg);
    if user == |users.docs| {
      return 1;
    }
    var promoted := users.docs[user].(role := Some(AdminRole));
    if !UserValid(promoted) {
      return 1;
    }
    users.SetRole(user, AdminRole);
    exitCode := 0;
  }

  /** Without an email argument the script exits 1 and modifies nothing. */
  lemma NoArgumentExits(docs: seq<UserDoc>, emailArg: Option<string>)
    requires !Truthy(emailArg)
    ensures Promote(docs, emailArg) == RunResult(1, docs)
  {
  }

  /** With no user holding the email the script exits 1 and modifies nothing. */
  lemma UnknownUserExits(docs: seq<UserDoc>, email: string)
    requires !EmailTaken(docs, Some(email))
    ensures Promote(docs, Some(email)) == RunResult(1, docs)
  {
    IndexOfEmailFinds(docs, Some(email));
  }

  /**
   * With unique emails: exit 0 exactly when a user holds the email and is
   * valid once promoted; then that user's role, and nothing else in the
   * collection, becomes "admin".
   */
  lemma PromotionChangesOnlyRole(docs: seq<UserDoc>, email: string)
    requires EmailsUnique(docs)
    requires email != ""
    ensures var r := Promote(docs, Some(email));
      && (r.exitCode == 0 <==>
            exists i :: 0 <= i < |docs| && docs[i].email == Some(email) && UserValid(docs[i].(role := Some("admin"))))
      && (r.exitCode != 0 ==> r.docs == docs)
      && (r.exitCode == 0 ==>
            exists i :: 0 <= i < |docs| && docs[i].email == Some(email)
              && r.docs == docs[i := docs[i].(role := Some("admin"))]
              && RoleOf(r.docs[i]) == "admin")
  {
    var i := IndexOfEmail(docs, Some(email));
    IndexOfEmailFinds(docs, Some(email));
    forall j | 0 <= j < |docs| && docs[j].email == Some(email)
      ensures j == i
    {
      assert i <= j;
    }
  }

  /** Running the script twice with the same email ends as running it once. */
  lemma PromoteIdempotent(docs: seq<UserDoc>, emailArg: Option<string>)
    ensures var once := Promote(docs, emailArg);
      once.exitCode == 0 ==> Promote(once.docs, emailArg) == once
  {
    var once := Promote(docs, emailArg);
    if once.exitCode == 0 {
      var i := IndexOfEmail(docs, emailArg);
      IndexOfEmailSameEmails(docs, once.docs, emailArg);
      assert once.docs[i].(role := Some(AdminRole)) == once.docs[i];
      assert once.docs[i := once.docs[i]] == once.docs;
    }
  }
}
