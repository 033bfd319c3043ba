/** The admin dashboard: the access gate on mount, the user search, the
    per-user log dialog with its colour-coded actions, and logout. */
module AdminDashboard {

  import opened Js
  import Paging

  // ---------------------------------------------------------------------
  // Action colours

  const ActionColors: map<string, string> := map[
    "sent" := "#22c55e",
    "received" := "#3b82f6",
    "failed" := "#ef4444",
    "pending" := "#f59e0b"
  ]

  const DefaultColor: string := "#64748b"

  /** `getActionColor`: `colors[action.toLowerCase()] || '#64748b'` (every
      own value and every inherited member is truthy, so only a missing key
      falls through to the default). */
  function ActionColor(action: string): (color: string)
    ensures ToLower(action) in ActionColors ==> color == ActionColors[ToLower(action)]
    ensures ToLower(action) !in ActionColors && InheritedMember(ToLower(action)).None? ==> color == DefaultColor
  {
    match ObjectLookup(ActionColors, ToLower(action))
    case Some(c) => c
    case None => DefaultColor
  }

  /** The lookup ignores case, and any action outside the four names (and
      the inherited member names) gets the slate default. */
  lemma ActionColorCases(action: string)
    ensures ActionColor(action) == ActionColor(ToLower(action))
    ensures ToLower(action) == "sent" ==> ActionColor(action) == "#22c55e"
    ensures ToLower(action) == "received" ==> ActionColor(action) == "#3b82f6"
    ensures ToLower(action) == "failed" ==> ActionColor(action) == "#ef4444"
    ensures ToLower(action) == "pending" ==> ActionColor(action) == "#f59e0b"
  {
    LowerIdempotent(action);
    ColorTable();
  }

  /** The four own entries of the colour table. */
  lemma ColorTable()
    ensures "sent" in ActionColors && ActionColors["sent"] == "#22c55e"
    ensures "received" in ActionColors && ActionColors["received"] == "#3b82f6"
    ensures "failed" in ActionColors && ActionColors["failed"] == "#ef4444"
    ensures "pending" in ActionColors && ActionColors["pending"] == "#f59e0b"
  {
    assert "sent"[0] != "received"[0] && "sent"[0] != "failed"[0] && "sent"[0] != "pending"[0];
    assert "received"[0] != "failed"[0] && "received"[0] != "pending"[0];
    assert "failed"[0] != "pending"[0];
  }

  /** Lower-casing twice is lower-casing once. */
  lemma LowerIdempotent(s: string)
    ensures ToLower(ToLower(s)) == ToLower(s)
  {
    assert forall i :: 0 <= i < |s| ==> LowerChar(LowerChar(s[i])) == LowerChar(s[i]);
  }

  /** Text without capital letters is its own lower case. */
  lemma LowerOfLower(s: string)
    requires forall i :: 0 <= i < |s| ==> !('A' <= s[i] <= 'Z')
    ensures ToLower(s) == s
  {
  }

  /** Neither `refined` nor `generated` has a colour of its own. */
  lemma LoggedActionsUnlisted()
    ensures "refined" !in ActionColors && "generated" !in ActionColors
  {
    assert "refined"[0] != "sent"[0] && "refined"[2] != "received"[2];
    assert "refined"[0] != "failed"[0] && "refined"[0] != "pending"[0];
    assert "generated"[0] != "sent"[0] && "generated"[0] != "received"[0];
    assert "generated"[0] != "failed"[0] && "generated"[0] != "pending"[0];
  }

  /** An illustration of a mismatch between the two sides, not a general
      property: the backend logs the actions `refined` and `generated`, and
      neither has a colour of its own here, so both get the default. The
      general rule is ActionColor with ActionColorCases. */
  lemma LoggedActionsDefault()
    ensures ActionColor("refined") == DefaultColor
    ensures ActionColor("generated") == DefaultColor
  {
    LowerOfLower("refined");
    NotInheritedByInitial("refined");
    LowerOfLower("generated");
    NotInheritedByInitial("generated");
    LoggedActionsUnlisted();
  }

  // ---------------------------------------------------------------------
  // User search

  /** A row of the user table. */
  datatype AdminUser = AdminUser(id: int, email: string)

  /** The search test: the email contains the term, ignoring ASCII case
      (ToLower maps ASCII letters only). */
  predicate Matches(user: AdminUser, term: string) {
    Includes(ToLower(user.email), ToLower(term))
  }

  /** `users.filter(user => user.email.toLowerCase().includes(searchTerm.toLowerCase()))`. */
  function FilterUsers(users: seq<AdminUser>, term: string): (r: seq<AdminUser>)
    ensures |r| <= |users|
    ensures forall u :: u in r <==> u in users && Matches(u, term)
  {
    if users == [] then []
    else (if Matches(users[0], term) then [users[0]] else []) + FilterUsers(users[1..], term)
  }

  /** Filtering a list split in two filters each half, keeping their order. */
  lemma {:induction false} FilterUsersAppend(a: seq<AdminUser>, b: seq<AdminUser>, term: string)
    ensures FilterUsers(a + b, term) == FilterUsers(a, term) + FilterUsers(b, term)
  {
    if a == [] {
      assert a + b == b;
    } else {
      assert (a + b)[1..] == a[1..] + b;
      FilterUsersAppend(a[1..], b, term);
    }
  }

  /** An empty search term keeps every user, in order. */
  lemma {:induction false} EmptyTermKeepsAll(users: seq<AdminUser>)
    ensures FilterUsers(users, "") == users
  {
    if users != [] {
      assert OccursAt("", ToLower(users[0].email), 0);
      EmptyTermKeepsAll(users[1..]);
    }
  }

  // ---------------------------------------------------------------------
  // The page

  /** A row of the log dialog. */
  datatype LogEntry = LogEntry(action: string, content: string, timestamp: string)

  /** What `axios.get` does: resolve with the data, or reject with the HTTP
      status (when there was a response) and `err.response?.data?.error`. */
  datatype Fetched<T> = Fetched(data: T) | FetchFailed(status: Option<nat>, error: Option<string>)

  /** `err.response?.data?.error || fallback`. */
  function ErrorText<T>(reply: Fetched<T>, fallback: string): string
    requires reply.FetchFailed?
  {
    if reply.error.Some? && reply.error.value != "" then reply.error.value else fallback
  }

  /** The stored session without its token and admin flag. */
  function SignedOut(storage: map<string, string>): (r: map<string, string>)
    ensures "token" !in r && "is_admin" !in r
    ensures forall k :: k in r <==> k in storage && k != "token" && k != "is_admin"
    ensures forall k :: k in r ==> r[k] == storage[k]
  {
    storage - {"token", "is_admin"}
  }

  /** The mount gate lets the page load only with a token and `is_admin` set to "true". */
  predicate AdminSession(storage: map<string, string>) {
    "token" in storage && storage["token"] != "" && "is_admin" in storage && storage["is_admin"] == "true"
  }

  class AdminPage {
    var users: seq<AdminUser>
    var filteredUsers: seq<AdminUser>
    var logs: seq<LogEntry>
    var loading: bool
    var errorMessage: string
    var errorOpen: bool
    var selectedUser: Option<int>
    var searchTerm: string
    var storage: map<string, string>
    var route: Option<string>

    constructor (storage: map<string, string>)
      ensures users == [] && filteredUsers == [] && logs == [] && loading
      ensures errorMessage == "" && !errorOpen && selectedUser == None && searchTerm == ""
      ensures this.storage == storage && route == None
    {
      users, filteredUsers, logs, loading := [], [], [], true;
      errorMessage, errorOpen, selectedUser, searchTerm := "", false, None, "";
      this.storage, route := storage, None;
    }

    /** `handleError`. */
    method HandleError(message: string)
      modifies this`errorMessage, this`errorOpen, this`loading
      ensures errorMessage == message && errorOpen && !loading
    {
      errorMessage, errorOpen, loading := message, true, false;
    }

    /** The mount effect: the access gate, then the user list, with the
        request as an oracle (None: the gate stopped before any request). */
    method Mount(fetchUsers: string -> Fetched<seq<AdminUser>>) returns (requested: Option<string>)
      modifies this`storage, this`route, this`users, this`filteredUsers, this`loading,
               this`errorMessage, this`errorOpen
      ensures !AdminSession(old(storage)) ==>
        && requested == None
        && storage == SignedOut(old(storage)) && route == Some("/login")
        && users == old(users) && filteredUsers == old(filteredUsers) && loading == old(loading)
        && errorMessage == old(errorMessage) && errorOpen == old(errorOpen)
      ensures AdminSession(old(storage)) ==>
        var reply := fetchUsers(old(storage)["token"]);
        && requested == Some(old(storage)["token"])
        && (reply.Fetched? ==>
              && users == reply.data && filteredUsers == FilterUsers(reply.data, searchTerm)
              && !loading && storage == old(storage) && route == old(route)
              && errorMessage == old(errorMessage) && errorOpen == old(errorOpen))
        && (reply.FetchFailed? ==>
              && users == old(users) && filteredUsers == old(filteredUsers)
              && errorMessage == ErrorText(reply, "Failed to fetch users") && errorOpen && !loading
              && (reply.status == Some(403) ==> storage == SignedOut(old(storage)) && route == Some("/login"))
              && (reply.status != Some(403) ==> storage == old(storage) && route == old(route)))
      ensures logs == old(logs) && selectedUser == old(selectedUser) && searchTerm == old(searchTerm)
    {
      if !AdminSession(storage) {
        storage := SignedOut(storage);
        route := Some("/login");
        return None;
      }
      var token := storage["token"];
      requested := Some(token);
      LoadUsers(token, fetchUsers);
    }

    /** The user list request of the mount effect, once the gate has let
        the session through: a 403 also signs the admin out. */
    method LoadUsers(token: string, fetchUsers: string -> Fetched<seq<AdminUser>>)
      modifies this`storage, this`route, this`users, this`filteredUsers, this`loading,
               this`errorMessage, this`errorOpen
      ensures var reply := fetchUsers(token);
        && (reply.Fetched? ==>
              && users == reply.data && filteredUsers == FilterUsers(reply.data, searchTerm)
              && !loading && storage == old(storage) && route == old(route)
              && errorMessage == old(errorMessage) && errorOpen == old(errorOpen))
        && (reply.FetchFailed? ==>
              && users == old(users) && filteredUsers == old(filteredUsers)
              && errorMessage == ErrorText(reply, "Failed to fetch users") && errorOpen && !loading
              && (reply.status == Some(403) ==> storage == SignedOut(old(storage)) && route == Some("/login"))
              && (reply.status != Some(403) ==> storage == old(storage) && route == old(route)))
    {
      var reply := fetchUsers(token);
      if reply.Fetched? {
        users := reply.data;
        filteredUsers := FilterUsers(users, searchTerm);
        loading := false;
      } else {
        if reply.status == Some(403) {
          storage := SignedOut(storage);
          route := Some("/login");
        }
        HandleError(ErrorText(reply, "Failed to fetch users"));
      }
    }

    /** Typing in the search box: the filter effect reruns. */
    method SetSearchTerm(term: string)
      modifies this`searchTerm, this`filteredUsers
      ensures searchTerm == term && filteredUsers == FilterUsers(users, term)
    {
      searchTerm := term;
      filteredUsers := FilterUsers(users, term);
    }

    /** `fetchUserLogs`, with the request as an oracle. */
    method FetchUserLogs(userId: int, fetchLogs: int -> Fetched<seq<LogEntry>>)
      modifies this`logs, this`selectedUser, this`errorMessage, this`errorOpen, this`loading
      ensures fetchLogs(userId).Fetched? ==>
        && logs == fetchLogs(userId).data && selectedUser == Some(userId)
        && errorMessage == old(errorMessage) && errorOpen == old(errorOpen) && loading == old(loading)
      ensures fetchLogs(userId).FetchFailed? ==>
        && logs == old(logs) && selectedUser == old(selectedUser)
        && errorMessage == ErrorText(fetchLogs(userId), "Failed to fetch user logs") && errorOpen && !loading
    {
      var reply := fetchLogs(userId);
      if reply.Fetched? {
        logs := reply.data;
        selectedUser := Some(userId);
      } else {
        HandleError(ErrorText(reply, "Failed to fetch user logs"));
      }
    }

    /** `handleLogout`. */
    method Logout()
      modifies this`storage, this`route
      ensures storage == SignedOut(old(storage)) && route == Some("/login")
    {
      storage := SignedOut(storage);
      route := Some("/login");
    }

    /** `handleCloseLogsDialog`: no user selected and no logs kept. */
    method CloseLogsDialog()
      modifies this`selectedUser, this`logs
      ensures selectedUser == None && logs == []
    {
      selectedUser := None;
      logs := [];
    }
  }

  /** The log dialog's pager starts on the first page with 5 rows. */
  method NewLogDialogPager() returns (pager: Paging.Pager)
    ensures fresh(pager) && pager.page == 0 && pager.rowsPerPage == 5
  {
    pager := new Paging.Pager(5);
  }
}
