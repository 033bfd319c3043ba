/** The login page: the client-side email and password checks, and the
    handler that posts the credentials, stores the session and picks the
    landing route. */
module Login {

  import opened Js
  import opened Http

  // ---------------------------------------------------------------------
  // Email validation

  /** A part of the address pattern: `[^\s@]+`. */
  predicate Part(s: string) {
    |s| > 0 && forall i :: 0 <= i < |s| ==> !IsSpace(s[i]) && s[i] != '@'
  }

  /** `s` splits as part `@` part `.` part, with the `@` at `p` and the `.` at `q`. */
  predicate PatternAt(s: string, p: int, q: int) {
    && 0 <= p < q < |s|
    && s[p] == '@' && s[q] == '.'
    && Part(s[..p]) && Part(s[p + 1..q]) && Part(s[q + 1..])
  }

  /** `/^[^\s@]+@[^\s@]+\.[^\s@]+$/.test(s)`. */
  ghost predicate MatchesPattern(s: string) {
    exists p, q :: PatternAt(s, p, q)
  }

  /** No character of `s` is whitespace. */
  predicate NoSpace(s: string) {
    forall i :: 0 <= i < |s| ==> !IsSpace(s[i])
  }

  /** With the first `@` at `p`: something precedes it, no other `@`
      follows, and a `.` sits strictly between it and the last character. */
  predicate DotAfterAt(s: string, p: nat)
    requires p < |s|
  {
    0 < p && p + 2 < |s| && '@' !in s[p + 1..] && '.' in s[p + 2..|s| - 1]
  }

  /** The pattern, decided directly: no whitespace, exactly one `@` with
      something before it, and a `.` strictly inside what follows it. */
  predicate DirectTest(s: string) {
    NoSpace(s) && '@' in s && DotAfterAt(s, IndexOf(s, '@'))
  }

  /** A string the direct test accepts matches the pattern. */
  lemma DirectSound(s: string)
    requires DirectTest(s)
    ensures MatchesPattern(s)
  {
    var p := IndexOf(s, '@');
    var tail := s[p + 2..|s| - 1];
    var q := p + 2 + IndexOf(tail, '.');
    assert s[q] == tail[q - p - 2];
    assert Part(s[..p]) by {
      forall i | 0 <= i < p ensures !IsSpace(s[..p][i]) && s[..p][i] != '@' {
        assert s[..p][i] == s[i];
      }
    }
    var mid, last := s[p + 1..q], s[q + 1..];
    assert Part(mid) by {
      forall i | 0 <= i < |mid| ensures !IsSpace(mid[i]) && mid[i] != '@' {
        assert mid[i] == s[p + 1..][i];
      }
    }
    assert Part(last) by {
      forall i | 0 <= i < |last| ensures !IsSpace(last[i]) && last[i] != '@' {
        assert last[i] == s[p + 1..][q - p + i];
      }
    }
    assert PatternAt(s, p, q);
  }

  /** A string matching the pattern passes the direct test. */
  lemma DirectComplete(s: string, p: int, q: int)
    requires PatternAt(s, p, q)
    ensures DirectTest(s)
  {
    forall i | 0 <= i < |s| ensures !IsSpace(s[i]) && (s[i] == '@' ==> i == p) {
      if i < p {
        assert s[i] == s[..p][i];
      } else if p < i < q {
        assert s[i] == s[p + 1..q][i - p - 1];
      } else if q < i {
        assert s[i] == s[q + 1..][i - q - 1];
      }
    }
    assert s[..p + 1][p] == '@';
    var k := IndexOf(s, '@');
    assert k == p;
    var after := s[p + 1..];
    assert '@' !in after by {
      forall i | 0 <= i < |after| ensures after[i] != '@' {
        assert after[i] == s[p + 1 + i];
      }
    }
    assert s[p + 2..|s| - 1][q - p - 2] == '.';
  }

  /** The direct test decides the pattern. */
  function MatchesDirect(s: string): (b: bool)
    ensures b <==> MatchesPattern(s)
  {
    if DirectTest(s) then
      DirectSound(s);
      true
    else
      assert !MatchesPattern(s) by {
        if MatchesPattern(s) {
          var p, q :| PatternAt(s, p, q);
          DirectComplete(s, p, q);
        }
      }
      false
  }

  /** `validateEmail`: the pattern tested on the lower-cased address. */
  function ValidEmail(email: string): (b: bool)
    ensures b <==> MatchesPattern(ToLower(email))
  {
    MatchesDirect(ToLower(email))
  }

  /** Lower-casing changes no whitespace, `@` or `.`, so the verdict does
      not depend on case. */
  lemma ValidEmailIgnoresCase(email: string)
    ensures ValidEmail(email) <==> MatchesPattern(email)
  {
    var l := ToLower(email);
    assert forall i :: 0 <= i < |email| ==> l[i] == LowerChar(email[i]);
    assert forall i :: 0 <= i < |email| ==> (IsSpace(l[i]) <==> IsSpace(email[i]));
    assert forall i :: 0 <= i < |email| ==> (l[i] == '@' <==> email[i] == '@');
    assert forall i :: 0 <= i < |email| ==> (l[i] == '.' <==> email[i] == '.');
    if MatchesPattern(email) {
      var p, q :| PatternAt(email, p, q);
      SameShape(email, l, p, q);
    }
    if MatchesPattern(l) {
      var p, q :| PatternAt(l, p, q);
      SameShape(l, email, p, q);
    }
  }

  /** Two strings that agree on where whitespace, `@` and `.` sit match the
      pattern at the same positions. */
  lemma SameShape(s: string, t: string, p: int, q: int)
    requires |s| == |t|
    requires forall i :: 0 <= i < |s| ==> (IsSpace(s[i]) <==> IsSpace(t[i]))
    requires forall i :: 0 <= i < |s| ==> (s[i] == '@' <==> t[i] == '@')
    requires forall i :: 0 <= i < |s| ==> (s[i] == '.' <==> t[i] == '.')
    requires PatternAt(s, p, q)
    ensures PatternAt(t, p, q)
  {
    assert Part(t[..p]) by {
      forall i | 0 <= i < p ensures !IsSpace(t[..p][i]) && t[..p][i] != '@' {
        assert s[..p][i] == s[i] && t[..p][i] == t[i];
      }
    }
    var mid, last := t[p + 1..q], t[q + 1..];
    assert Part(mid) by {
      forall i | 0 <= i < |mid| ensures !IsSpace(mid[i]) && mid[i] != '@' {
        assert s[p + 1..q][i] == s[p + 1 + i] && mid[i] == t[p + 1 + i];
      }
    }
    assert Part(last) by {
      forall i | 0 <= i < |last| ensures !IsSpace(last[i]) && last[i] != '@' {
        assert s[q + 1..][i] == s[q + 1 + i] && last[i] == t[q + 1 + i];
      }
    }
  }

  /** A plain address is accepted. */
  lemma ValidEmailAccepts()
    ensures ValidEmail("a@b.co")
  {
    assert ToLower("a@b.co") == "a@b.co";
    assert PatternAt("a@b.co", 1, 3);
  }

  /** An address without a dot after the `@` is rejected. */
  lemma ValidEmailNeedsDot()
    ensures !ValidEmail("a@b")
  {
    assert ToLower("a@b") == "a@b";
  }

  /** An address with two `@` is rejected. */
  lemma ValidEmailOneAt()
    ensures !ValidEmail("a@@b.co")
  {
    assert ToLower("a@@b.co") == "a@@b.co";
    assert "a@@b.co"[2] == '@';
  }

  /** An address with a space is rejected. */
  lemma ValidEmailNoSpace()
    ensures !ValidEmail("a b@c.de")
  {
    assert ToLower("a b@c.de") == "a b@c.de";
    assert IsSpace("a b@c.de"[1]);
  }

  /** The password rule: at least 8 characters. */
  predicate PasswordLongEnough(password: string) {
    |password| >= 8
  }

  // ---------------------------------------------------------------------
  // The login handler

  /** `response.data.user`. */
  datatype User = User(id: Scalar, email: Scalar, isAdmin: Scalar)

  /** `response.data`: the token and the user, None when absent or null. */
  datatype LoginData = LoginData(token: Option<string>, user: Option<User>)

  /** What `axios.post('/api/auth/login', …)` does: resolve with the body, or
      reject, carrying `err.response?.data?.error` when it is a string. */
  datatype LoginReply = Answered(data: LoginData) | Rejected(error: Option<string>)

  const InvalidEmail: string := "Please enter a valid email address"
  const ShortPassword: string := "Password must be at least 8 characters"
  const InvalidResponse: string := "Invalid server response"
  const NetworkError: string := "Network error. Please try again later."

  /** The storage after a successful login: the token, the admin flag as
      "true" or "false", and the user's id and email as they print. */
  function SignedIn(storage: map<string, string>, token: string, user: User): (r: map<string, string>)
    ensures r.Keys == storage.Keys + {"token", "is_admin", "user_id", "email"}
    ensures r["token"] == token && r["user_id"] == Printed(user.id) && r["email"] == Printed(user.email)
    ensures r["is_admin"] == (if Truthy(user.isAdmin) then "true" else "false")
    ensures forall k :: k in storage && k !in {"token", "is_admin", "user_id", "email"} ==> r[k] == storage[k]
  {
    storage["token" := token]["is_admin" := if Truthy(user.isAdmin) then "true" else "false"]
           ["user_id" := Printed(user.id)]["email" := Printed(user.email)]
  }

  /** The route after a successful login. */
  function Landing(user: User): string {
    if Truthy(user.isAdmin) then "/admin" else "/dashboard"
  }

  /** The page's state: the two inputs, the `loading` and `error` state, the
      browser storage it writes, where it navigated, and the credentials it
      posted. */
  class LoginPage {
    var email: string
    var password: string
    var loading: bool
    var error: string
    var storage: map<string, string>
    var route: Option<string>
    var posted: seq<(string, string)>

    constructor (email: string, password: string, storage: map<string, string>)
      ensures this.email == email && this.password == password && this.storage == storage
      ensures !loading && error == "" && route == None && posted == []
    {
      this.email := email;
      this.password := password;
      this.storage := storage;
      loading := false;
      error := "";
      route := None;
      posted := [];
    }

    /** `handleLogin`, with the login request as an oracle. */
    method HandleLogin(post: (string, string) -> LoginReply)
      modifies this
      ensures email == old(email) && password == old(password)
      ensures !loading
      ensures !ValidEmail(email) ==>
        && error == InvalidEmail && posted == old(posted)
        && storage == old(storage) && route == old(route)
      ensures ValidEmail(email) && !PasswordLongEnough(password) ==>
        && error == ShortPassword && posted == old(posted)
        && storage == old(storage) && route == old(route)
      ensures posted != old(posted) <==> ValidEmail(email) && PasswordLongEnough(password)
      ensures posted != old(posted) ==> posted == old(posted) + [(email, password)]
      ensures posted != old(posted) ==> Settled(post(email, password), old(storage), old(route))
    {
      loading := true;
      error := "";
      if !ValidEmail(email) {
        error := InvalidEmail;
        loading := false;
        return;
      }
      if |password| < 8 {
        error := ShortPassword;
        loading := false;
        return;
      }
      Submit(post);
    }

    /** What the page holds once the reply has been handled. */
    ghost predicate Settled(reply: LoginReply, storage0: map<string, string>, route0: Option<string>)
      reads this
    {
      match reply
      case Rejected(e) =>
        && error == (if e.Some? && e.value != "" then e.value else NetworkError)
        && storage == storage0 && route == route0
      case Answered(data) =>
        if data.token.Some? && data.token.value != "" && data.user.Some? then
          && error == ""
          && storage == SignedIn(storage0, data.token.value, data.user.value)
          && route == Some(Landing(data.user.value))
        else
          error == InvalidResponse && storage == storage0 && route == route0
    }

    /** The request half of `handleLogin`, once both checks have passed. */
    method Submit(post: (string, string) -> LoginReply)
      requires error == ""
      modifies this
      ensures email == old(email) && password == old(password) && !loading
      ensures posted == old(posted) + [(email, password)]
      ensures Settled(post(email, password), old(storage), old(route))
    {
      posted := posted + [(email, password)];
      var response := post(email, password);
      match response {
        case Rejected(e) =>
          error := if e.Some? && e.value != "" then e.value else NetworkError;
        case Answered(data) =>
          if data.token.Some? && data.token.value != "" && data.user.Some? {
            storage := SignedIn(storage, data.token.value, data.user.value);
            route := Some(Landing(data.user.value));
          } else {
            error := InvalidResponse;
          }
      }
      loading := false;
    }
  }
}
