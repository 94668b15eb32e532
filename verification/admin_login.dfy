/**
 * The admin login page: a username/password form whose submission, after a
 * simulated delay, compares the pair with one fixed account and, on a match,
 * stores the session flag and moves on to the dashboard.
 */
module AdminLogin {
  import opened Wrappers
  import opened Storage

  const AdminUsername: string := "admin"
  const AdminPassword: string := "moviezone2024"

  /** Where a successful login navigates. */
  const DashboardRoute: string := "/admin/dashboard"

  /** The form's `credentials` state. */
  datatype Credentials = Credentials(username: string, password: string)

  /** Exact, case-sensitive comparison with the one admin account: one pair matches. */
  predicate CredentialsMatch(c: Credentials): (b: bool)
    ensures b <==> c == Credentials("admin", "moviezone2024")
  {
    c.username == AdminUsername && c.password == AdminPassword
  }

  /** What the delayed check leaves behind: the stored items and the navigation, if any. */
  datatype Outcome = Outcome(items: map<string, string>, route: Option<string>)

  /**
   * The body of the delayed check, as a function of the store before it.  Only a
   * match writes anything, and what it writes opens the dashboard guard; every key
   * other than the session flag is left alone either way.
   */
  function Attempt(items: map<string, string>, c: Credentials): (r: Outcome)
    ensures r.route.Some? <==> CredentialsMatch(c)
    ensures r.route.Some? ==> r.route.value == DashboardRoute
    ensures Authenticated(r.items) <==> CredentialsMatch(c) || Authenticated(items)
    ensures CredentialsMatch(c) ==> r.items == items[AdminKey := AuthenticatedValue]
    ensures !CredentialsMatch(c) ==> r.items == items
    ensures forall k :: k != AdminKey ==> (k in r.items <==> k in items)
    ensures forall k :: k != AdminKey && k in items ==> r.items[k] == items[k]
  {
    if CredentialsMatch(c) then
      Outcome(items[AdminKey := AuthenticatedValue], Some(DashboardRoute))
    else
      Outcome(items, None)
  }

  /** The store after a series of submissions, each checked in turn. */
  function AfterAttempts(items: map<string, string>, attempts: seq<Credentials>): map<string, string>
    decreases |attempts|
  {
    if attempts == [] then items
    else AfterAttempts(Attempt(items, attempts[0]).items, attempts[1..])
  }

  /** There is no attempt counter: any number of failed submissions leaves the store as it was. */
  lemma {:induction false} FailedAttemptsChangeNothing(items: map<string, string>, attempts: seq<Credentials>)
    requires forall i :: 0 <= i < |attempts| ==> !CredentialsMatch(attempts[i])
    ensures AfterAttempts(items, attempts) == items
    decreases |attempts|
  {
    if attempts != [] {
      FailedAttemptsChangeNothing(items, attempts[1..]);
    }
  }

  /**
   * After a series of submissions the session is open exactly when it was open
   * before or one of the submissions carried the admin credentials.
   */
  lemma {:induction false} AttemptsAuthenticate(items: map<string, string>, attempts: seq<Credentials>)
    ensures Authenticated(AfterAttempts(items, attempts))
        <==> Authenticated(items) || exists i :: 0 <= i < |attempts| && CredentialsMatch(attempts[i])
    decreases |attempts|
  {
    if attempts != [] {
      var next := Attempt(items, attempts[0]).items;
      AttemptsAuthenticate(next, attempts[1..]);
      if exists i :: 0 <= i < |attempts[1..]| && CredentialsMatch(attempts[1..][i]) {
        var i :| 0 <= i < |attempts[1..]| && CredentialsMatch(attempts[1..][i]);
        assert CredentialsMatch(attempts[i + 1]);
      }
      if exists i :: 0 <= i < |attempts| && CredentialsMatch(attempts[i]) {
        var i :| 0 <= i < |attempts| && CredentialsMatch(attempts[i]);
        if i > 0 {
          assert CredentialsMatch(attempts[1..][i - 1]);
        }
      }
    }
  }

  /** The login page's state: the form, the loading flag, and the check waiting on the timer. */
  class LoginPage {
    const storage: LocalStorage
    var credentials: Credentials
    var isLoading: bool
    /** The credentials captured by a submission whose delayed check has not run yet. */
    var pending: Option<Credentials>

    /** A check is waiting exactly while the page shows that it is loading. */
    ghost predicate Valid()
      reads this
    {
      isLoading <==> pending.Some?
    }

    /** The sign-in button is disabled while loading. */
    predicate SubmitDisabled()
      reads this
    {
      isLoading
    }

    constructor (storage: LocalStorage)
      ensures this.storage == storage
      ensures credentials == Credentials("", "") && !isLoading && pending == None
      ensures Valid()
    {
      this.storage := storage;
      credentials := Credentials("", "");
      isLoading := false;
      pending := None;
    }

    method SetUsername(username: string)
      modifies this
      ensures credentials == old(credentials).(username := username)
      ensures isLoading == old(isLoading) && pending == old(pending)
    {
      credentials := credentials.(username := username);
    }

    method SetPassword(password: string)
      modifies this
      ensures credentials == old(credentials).(password := password)
      ensures isLoading == old(isLoading) && pending == old(pending)
    {
      credentials := credentials.(password := password);
    }

    /**
     * Submitting the form: the page starts loading and the check is scheduled with
     * the credentials as they are now.  The store is not touched yet.
     */
    method Submit()
      requires Valid() && !SubmitDisabled()
      modifies this
      ensures Valid() && isLoading && SubmitDisabled()
      ensures pending == Some(old(credentials)) && credentials == old(credentials)
    {
      isLoading := true;
      pending := Some(credentials);
    }

    /**
     * The delayed check: it compares the captured credentials, writes the session
     * flag only on a match, and stops loading in both branches.
     */
    method CompleteSubmit() returns (route: Option<string>)
      requires Valid() && isLoading
      modifies this, storage
      ensures Valid() && !isLoading && !SubmitDisabled() && pending == None
      ensures credentials == old(credentials)
      ensures storage.items == Attempt(old(storage.items), old(pending.value)).items
      ensures route == Attempt(old(storage.items), old(pending.value)).route
    {
      var c := pending.value;
      if c.username == AdminUsername && c.password == AdminPassword {
        storage.SetItem(AdminKey, AuthenticatedValue);
        route := Some(DashboardRoute);
      } else {
        route := None;
      }
      isLoading := false;
      pending := None;
    }
  }
}
