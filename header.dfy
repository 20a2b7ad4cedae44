/** The top bar: the signed-in user's notifications with an unread badge, and
    two drop-down menus of which at most one is open. */
module Header {
  import opened Wrappers
  import opened Seqs
  import opened Types
  import opened App
  import opened AuthContext

  function AddressedTo(id: string): Notification -> bool {
    (n: Notification) => n.userId == id
  }

  function IsUnread(): Notification -> bool {
    (n: Notification) => !n.read
  }

  /** `notifications.filter(n => n.userId === currentUser?.id)`: signed out,
      `undefined` equals no user id. */
  function UserNotifications(ns: seq<Notification>, currentUser: Option<User>): (r: seq<Notification>)
    ensures currentUser.None? ==> r == []
    ensures currentUser.Some? ==> forall i :: 0 <= i < |r| ==> r[i].userId == currentUser.value.id
    ensures currentUser.Some? ==>
              forall i :: 0 <= i < |ns| && ns[i].userId == currentUser.value.id ==> ns[i] in r
    ensures IsSubsequence(r, ns)
    // a notification addressed to the user appears as often as in `ns`
    ensures currentUser.Some? ==>
              forall i :: 0 <= i < |ns| ==>
                multiset(r)[ns[i]] == if ns[i].userId == currentUser.value.id then multiset(ns)[ns[i]] else 0
  {
    match currentUser
    case None => []
    case Some(u) =>
      forall i | 0 <= i < |ns| ensures multiset(Filter(ns, AddressedTo(u.id)))[ns[i]] ==
                                       if ns[i].userId == u.id then multiset(ns)[ns[i]] else 0 {
        FilterMultiplicity(ns, AddressedTo(u.id), ns[i]);
      }
      Filter(ns, AddressedTo(u.id))
  }

  /** The number on the bell badge: the user's notifications not yet read. */
  function UnreadCount(ns: seq<Notification>, currentUser: Option<User>): (n: nat)
    ensures n == CountIf(UserNotifications(ns, currentUser), IsUnread())
    ensures n <= |UserNotifications(ns, currentUser)|
    ensures n == 0 <==> forall i :: 0 <= i < |UserNotifications(ns, currentUser)| ==>
                          UserNotifications(ns, currentUser)[i].read
  {
    var own := UserNotifications(ns, currentUser);
    assert (forall i :: 0 <= i < |own| ==> own[i].read) ==> Filter(own, IsUnread()) == [] by {
      if forall i :: 0 <= i < |own| ==> own[i].read {
        FilterNone(own, IsUnread());
      }
    }
    FilterLength(own, IsUnread());
    |Filter(own, IsUnread())|
  }

  /** The badge is drawn exactly when some notification of the user is unread. */
  function ShowsBadge(ns: seq<Notification>, currentUser: Option<User>): (b: bool)
    ensures b <==> exists i :: 0 <= i < |UserNotifications(ns, currentUser)| && !UserNotifications(ns, currentUser)[i].read
  {
    UnreadCount(ns, currentUser) > 0
  }

  /** `currentUser?.name || 'User'`: the name the avatar is drawn from. */
  function AvatarName(currentUser: Option<User>): (name: string)
    ensures name != ""
    ensures currentUser.Some? && currentUser.value.name != "" ==> name == currentUser.value.name
    ensures !(currentUser.Some? && currentUser.value.name != "") ==> name == "User"
  {
    if currentUser.Some? && currentUser.value.name != "" then currentUser.value.name else "User"
  }

  class HeaderView {
    var showNotifications: bool
    var showProfile: bool

    /** Opening one menu closes the other. */
    ghost predicate Valid()
      reads this
    {
      !(showNotifications && showProfile)
    }

    constructor ()
      ensures Valid() && !showNotifications && !showProfile
    {
      showNotifications, showProfile := false, false;
    }

    /** The bell button. */
    method ToggleNotifications()
      requires Valid()
      modifies this
      ensures Valid()
      ensures showNotifications == !old(showNotifications) && !showProfile
    {
      showNotifications := !showNotifications;
      showProfile := false;
    }

    /** The avatar button. */
    method ToggleProfile()
      requires Valid()
      modifies this
      ensures Valid()
      ensures showProfile == !old(showProfile) && !showNotifications
    {
      showProfile := !showProfile;
      showNotifications := false;
    }

    /** The "Profile" entry of the profile menu. */
    method OpenProfile() returns (to: Path)
      ensures to == ProfilePath
    {
      to := ProfilePath;
    }

    /** The "Logout" entry: sign out, then go to `/login`. */
    method HandleLogout(auth: AuthProvider) returns (to: Path)
      requires auth.Valid()
      modifies auth
      ensures auth.Valid() && !auth.isAuthenticated && auth.currentUser.None?
      ensures auth.storedUser == None
      ensures to == LoginPath
      ensures Resolve(to, auth.isAuthenticated, auth.UserRole()) == Show(LoginForm)
    {
      auth.Logout();
      to := LoginPath;
    }
  }

  /** Every signed-in user with a role may open the profile page. */
  lemma ProfileOpenToEveryRole(role: Role)
    ensures Resolve(ProfilePath, true, Some(role)) == Show(Section("Profile"))
  {
  }
}
