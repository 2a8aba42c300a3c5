/**
 * Who may do what: the `admin_only` guard and the decision `login` takes
 * before it logs anybody in. Both only read; the session they act on is the
 * logged-in user's id, or None when nobody is logged in.
 */
module Access {
  import opened Wrappers
  import opened Schema
  import opened Queries

  /** The one account the storefront treats as administrator. */
  const ADMIN_ID := 1

  /**
   * `admin_only(handler)`: the handler runs, and its answer is the response,
   * only for user 1. Any other logged-in user gets 403 and the handler does
   * not run; with nobody logged in, reading `current_user.id` fails first.
   */
  function AdminOnly<R>(session: Option<int>, handler: () -> R): (r: Result<R, Error>)
    ensures r.Ok? <==> session == Some(ADMIN_ID)
    ensures r.Ok? ==> r.value == handler()
    ensures session.None? ==> r == Err(AnonymousUser)
    ensures session.Some? && session.value != ADMIN_ID ==> r == Err(Forbidden)
  {
    match session
    case None => Err(AnonymousUser)
    case Some(id) => if id != ADMIN_ID then Err(Forbidden) else Ok(handler())
  }

  /** `i` is the first user, in store order, with this email. */
  predicate FirstWithEmail(users: seq<User>, email: string, i: int)
  {
    && 0 <= i < |users|
    && users[i].email == email
    && forall k :: 0 <= k < i ==> users[k].email != email
  }

  /**
   * The branches of `login`: no user with the email, a password the stored
   * hash does not match, or the user to log in. `matches(hash, password)`
   * stands for the library's password-hash check.
   */
  function LoginDecision(users: seq<User>, email: string, password: string,
                         matches: (string, string) -> bool): (r: Result<User, Error>)
    ensures r.Ok? || r == Err(UnknownEmail) || r == Err(BadPassword)
    ensures r == Err(UnknownEmail) <==> forall k :: 0 <= k < |users| ==> users[k].email != email
    ensures r == Err(BadPassword) <==>
      exists i :: FirstWithEmail(users, email, i) && !matches(users[i].passwordHash, password)
    ensures r.Ok? <==>
      exists i :: FirstWithEmail(users, email, i) && matches(users[i].passwordHash, password) && r.value == users[i]
  {
    match FindUserByEmail(users, email)
    case None => Err(UnknownEmail)
    case Some(i) =>
      assert FirstWithEmail(users, email, i);
      if !matches(users[i].passwordHash, password) then Err(BadPassword) else Ok(users[i])
  }

  /**
   * A user who registers with an email no user has and then logs in with the same
   * password is let in as that user, provided the hash check accepts the
   * password the hash was made from.
   */
  lemma RegisterThenLogin(users: seq<User>, newcomer: User, password: string,
                          matches: (string, string) -> bool)
    requires forall k :: 0 <= k < |users| ==> users[k].email != newcomer.email
    requires matches(newcomer.passwordHash, password)
    ensures LoginDecision(users + [newcomer], newcomer.email, password, matches) == Ok(newcomer)
  {
    var all := users + [newcomer];
    assert FirstWithEmail(all, newcomer.email, |users|);
  }
}
