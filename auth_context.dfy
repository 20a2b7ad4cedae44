/** The session held by the authentication provider: the current user, the
    authenticated flag and the one stored session slot (the browser's local
    storage entry `currentUser`). */
module AuthContext {
  import opened Wrappers
  import opened Seqs
  import opened Text
  import opened Types
  import MockData

  /** The lookup's test: the emails agree once both are lowercased. */
  predicate EmailMatches(u: User, email: string) {
    Lower(u.email) == Lower(email)
  }

  function EmailIs(email: string): User -> bool {
    (u: User) => EmailMatches(u, email)
  }

  /** `i` is the first index whose user's email matches. */
  predicate FirstMatchAt(users: seq<User>, email: string, i: int) {
    0 <= i < |users| && EmailMatches(users[i], email) &&
    forall j :: 0 <= j < i ==> !EmailMatches(users[j], email)
  }

  /** `users.find(u => u.email.toLowerCase() === email.toLowerCase())`. */
  function FindUserByEmail(users: seq<User>, email: string): (r: Option<User>)
    ensures r.Some? <==> exists i :: 0 <= i < |users| && EmailMatches(users[i], email)
    ensures r.Some? ==> exists i :: FirstMatchAt(users, email, i) && users[i] == r.value
  {
    match FindFirst(users, EmailIs(email))
    case None => None
    case Some(i) =>
      assert FirstMatchAt(users, email, i);
      Some(users[i])
  }

  /** In the fixed user table an email identifies at most one user, whatever its case. */
  lemma LookupUnambiguous(email: string, i: nat)
    requires i < |MockData.Users()| && EmailMatches(MockData.Users()[i], email)
    ensures FindUserByEmail(MockData.Users(), email) == Some(MockData.Users()[i])
  {
    MockData.EmailsUniqueIgnoringCase();
  }

  class AuthProvider {
    const users: seq<User>
    var currentUser: Option<User>
    var isAuthenticated: bool
    var storedUser: Option<User>

    /** The flag and the user are set and cleared together. */
    ghost predicate Valid()
      reads this
    {
      isAuthenticated <==> currentUser.Some?
    }

    /** The provider as first rendered: nobody signed in yet, whatever the stored slot holds. */
    constructor (stored: Option<User>)
      ensures Valid()
      ensures users == MockData.Users()
      ensures currentUser == None && !isAuthenticated && storedUser == stored
    {
      users := MockData.Users();
      currentUser := None;
      isAuthenticated := false;
      storedUser := stored;
    }

    /** The start-up effect: a stored user becomes the current user as it is,
        without being looked up in `users` again. */
    method RestoreSession()
      requires Valid()
      modifies this
      ensures Valid()
      ensures old(storedUser).Some? ==> currentUser == old(storedUser) && isAuthenticated
      ensures old(storedUser).None? ==> currentUser == old(currentUser) && isAuthenticated == old(isAuthenticated)
      ensures storedUser == old(storedUser)
    {
      if storedUser.Some? {
        currentUser := storedUser;
        isAuthenticated := true;
      }
    }

    /** Signs in the first user whose email matches ignoring case; the password
        takes no part in the decision. */
    method Login(email: string, password: string) returns (ok: bool)
      requires Valid()
      modifies this
      ensures Valid()
      ensures ok <==> exists i :: 0 <= i < |users| && EmailMatches(users[i], email)
      ensures ok ==> isAuthenticated && currentUser.Some? && storedUser == currentUser
      ensures ok ==> exists i :: FirstMatchAt(users, email, i) && users[i] == currentUser.value
      ensures !ok ==> unchanged(this)
    {
      var user := FindUserByEmail(users, email);
      if user.Some? {
        currentUser := user;
        isAuthenticated := true;
        storedUser := user;
        return true;
      }
      return false;
    }

    /** Signs out from any state and empties the stored slot. */
    method Logout()
      requires Valid()
      modifies this
      ensures Valid()
      ensures currentUser == None && !isAuthenticated && storedUser == None
    {
      currentUser := None;
      isAuthenticated := false;
      storedUser := None;
    }

    /** `currentUser?.role || null`. */
    function UserRole(): (r: Option<Role>)
      reads this
      requires Valid()
      ensures r.Some? <==> currentUser.Some?
      ensures r.Some? ==> r.value == currentUser.value.role
      ensures isAuthenticated ==> r.Some?
    {
      match currentUser
      case Some(u) => Some(u.role)
      case None => None
    }
  }
}
