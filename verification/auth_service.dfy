/** The admin decision: a signed-in user with an email is an admin when the allow-list
    document exists and lists that email. */
module AuthDecision {
  import opened Wrappers

  /** The signed-in user; `""` stands for a missing email. */
  datatype User = User(email: string)

  /** The `settings/admins` document: absent, or present with its `allowed_emails` field
      (`None` when the document has no data or no such field). */
  datatype AdminsSnapshot = Missing | Present(allowedEmails: Option<seq<string>>)

  /** The allow-list as the code reads it: a missing field is an empty list. */
  function AllowedEmails(snapshot: AdminsSnapshot): (emails: seq<string>)
    ensures snapshot.Missing? ==> emails == []
    ensures snapshot.Present? && snapshot.allowedEmails.None? ==> emails == []
    ensures snapshot.Present? && snapshot.allowedEmails.Some? ==> emails == snapshot.allowedEmails.value
  {
    if snapshot.Present? then snapshot.allowedEmails.GetOr([]) else []
  }

  /** The rule both checks apply, stated once: admin iff there is a user with an email,
      the document exists, and its list contains that exact email. */
  ghost predicate IsAdminByRule(user: Option<User>, snapshot: AdminsSnapshot) {
    user.Some? && user.value.email != "" && snapshot.Present?
    && exists i :: 0 <= i < |AllowedEmails(snapshot)| && AllowedEmails(snapshot)[i] == user.value.email
  }

  /** `isAdmin$` for one user value. `fetch` is the outcome of reading the document,
      which happens only when there is a user with an email. */
  function IsAdminStream(user: Option<User>, fetch: Result<AdminsSnapshot>): (r: Result<bool>)
    ensures user.None? || user.value.email == "" ==> r == Success(false)
    ensures user.Some? && user.value.email != "" && fetch.Failure? ==> r.Failure?
    ensures fetch.Success? ==> r.Success? && (r.value <==> IsAdminByRule(user, fetch.value))
  {
    if user.None? || user.value.email == "" then Success(false)
    else
      match fetch
      case Failure(msg) => Failure(msg)
      case Success(docSnap) =>
        if docSnap.Present? then
          var allowed := match docSnap.allowedEmails case Some(list) => list case None => [];
          assert allowed == AllowedEmails(docSnap);
          Success(user.value.email in allowed)
        else Success(false)
  }

  /** `isAdmin()`: the same decision, written as early returns over the first user value. */
  function IsAdminOnce(user: Option<User>, fetch: Result<AdminsSnapshot>): (r: Result<bool>)
    ensures user.None? || user.value.email == "" ==> r == Success(false)
    ensures user.Some? && user.value.email != "" && fetch.Failure? ==> r.Failure?
    ensures fetch.Success? ==> r.Success? && (r.value <==> IsAdminByRule(user, fetch.value))
  {
    if user.None? then Success(false)
    else if user.value.email == "" then Success(false)
    else if fetch.Failure? then Failure(fetch.msg)
    else if fetch.value.Missing? then Success(false)
    else Success(user.value.email in AllowedEmails(fetch.value))
  }

  /** The stream and the one-shot check always agree. */
  lemma StreamAndOnceAgree(user: Option<User>, fetch: Result<AdminsSnapshot>)
    ensures IsAdminStream(user, fetch) == IsAdminOnce(user, fetch)
  {
  }
}
