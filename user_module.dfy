/**
 * The user module of the TypeScript refresher's export demo: `createUser` with its default role,
 * `isAdmin`, and the regular-expression email check `/^[^\s@]+@[^\s@]+\.[^\s@]+$/`.
 */
module UserModule {
  import opened Wrappers
  import JsString
  import JsRandom

  datatype UserRole = Admin | RegularUser | Guest

  function RoleName(role: UserRole): string {
    match role
    case Admin => "admin"
    case RegularUser => "user"
    case Guest => "guest"
  }

  const DefaultRole := RegularUser

  datatype User = User(id: int, username: string, email: string, role: UserRole)

  /** `createUser(username, email, role = DEFAULT_ROLE)`, with `Math.random()` as the draw. */
  function CreateUser(username: string, email: string, role: Option<UserRole>, draw: JsRandom.Draw): (u: User)
    ensures u.username == username && u.email == email
    ensures role.None? ==> RoleName(u.role) == "user"
    ensures role.Some? ==> u.role == role.value
    ensures 0 <= u.id < 10000
  {
    User(JsRandom.FloorTimes(draw, 10000), username, email, role.GetOr(DefaultRole))
  }

  /** `isAdmin` */
  predicate IsAdmin(user: User) {
    RoleName(user.role) == "admin"
  }

  lemma IsAdminIff(user: User)
    ensures IsAdmin(user) <==> user.role == Admin
  {
  }

  /** The demo's second user takes the default role and so is not an admin. */
  lemma DefaultUserIsNotAdmin(username: string, email: string, draw: JsRandom.Draw)
    ensures !IsAdmin(CreateUser(username, email, None, draw))
  {
  }

  /** A character the class `[^\s@]` admits. */
  predicate PartChar(c: char) {
    !JsString.IsWhitespace(c) && c != '@'
  }

  /** `[^\s@]+` */
  predicate Part(x: string) {
    x != [] && forall i :: 0 <= i < |x| ==> PartChar(x[i])
  }

  /**
   * What the regular expression accepts: a part, '@', a part, '.', a part, filling the whole
   * string, for some placement k of the '@' and j of the '.'.
   */
  predicate Matches(s: string) {
    exists k, j :: 0 < k < j < |s| - 1 && s[k] == '@' && s[j] == '.' &&
      Part(s[..k]) && Part(s[k + 1..j]) && Part(s[j + 1..])
  }

  /** The index of the first c in s. */
  function IndexOfChar(s: string, c: char): (r: Option<nat>)
    ensures r.Some? ==> r.value < |s| && s[r.value] == c && forall i :: 0 <= i < r.value ==> s[i] != c
    ensures r.None? ==> forall i :: 0 <= i < |s| ==> s[i] != c
  {
    if s == [] then None
    else if s[0] == c then Some(0)
    else
      var r := IndexOfChar(s[1..], c);
      if r.None? then None else Some(r.value + 1)
  }

  /** No whitespace anywhere in s. */
  predicate NoWhitespace(s: string) {
    forall i :: 0 <= i < |s| ==> !JsString.IsWhitespace(s[i])
  }

  /** A '.' strictly between the '@' at `at` and the last character. */
  predicate DotAfter(s: string, at: nat) {
    exists j :: at + 1 < j < |s| - 1 && s[j] == '.'
  }

  /** The scan accepts with the first '@' at index `at`. */
  predicate ScanAccepts(s: string, at: Option<nat>) {
    NoWhitespace(s) && at.Some? && at.value > 0 && (forall i :: at.value < i < |s| ==> s[i] != '@') && DotAfter(s, at.value)
  }

  /** The check as a scan: no whitespace, a first '@' after at least one character, no second '@', and a '.' strictly inside the domain. */
  function ValidateEmail(s: string): (r: bool)
    ensures r <==> Matches(s)
  {
    var at := IndexOfChar(s, '@');
    var ok := NoWhitespace(s) && at.Some? && at.value > 0 && (forall i :: at.value < i < |s| ==> s[i] != '@') &&
      DotAfter(s, at.value);
    assert ok <==> Matches(s) by {
      if ok {
        ScanSound(s, at);
      }
      if Matches(s) {
        ScanComplete(s, at);
      }
    }
    ok
  }

  /** In a matched string every character other than the '@' and the chosen '.' is a part character. */
  lemma MatchedChars(s: string, k: int, j: int)
    requires 0 < k < j < |s| - 1 && Part(s[..k]) && Part(s[k + 1..j]) && Part(s[j + 1..])
    ensures forall i :: 0 <= i < |s| && i != k && i != j ==> PartChar(s[i])
  {
    forall i | 0 <= i < |s| && i != k && i != j
      ensures PartChar(s[i])
    {
      if i < k {
        assert s[i] == s[..k][i];
      } else if i < j {
        assert s[i] == s[k + 1..j][i - k - 1];
      } else {
        assert s[i] == s[j + 1..][i - j - 1];
      }
    }
  }

  lemma ScanSound(s: string, at: Option<nat>)
    requires at == IndexOfChar(s, '@') && ScanAccepts(s, at)
    ensures Matches(s)
  {
    var k := at.value;
    var j :| k + 1 < j < |s| - 1 && s[j] == '.';
    assert Part(s[..k]);
    assert Part(s[k + 1..j]);
    assert Part(s[j + 1..]);
  }

  lemma ScanComplete(s: string, at: Option<nat>)
    requires at == IndexOfChar(s, '@') && Matches(s)
    ensures ScanAccepts(s, at)
  {
    var k, j :| 0 < k < j < |s| - 1 && s[k] == '@' && s[j] == '.' &&
      Part(s[..k]) && Part(s[k + 1..j]) && Part(s[j + 1..]);
    MatchedChars(s, k, j);
    assert at == Some(k);
  }

  /** The demo's address is accepted. */
  lemma DemoEmailValid(s: string)
    requires s == "test@example.com"
    ensures ValidateEmail(s)
  {
    assert s[4] == '@' && s[12] == '.';
    assert Part(s[..4]);
    assert Part(s[5..12]);
    assert Part(s[13..]);
  }

  /** An address with two '@' is refused. */
  lemma TwoAtsRefused(s: string, k1: int, k2: int)
    requires 0 <= k1 < k2 < |s| && s[k1] == '@' && s[k2] == '@'
    ensures !ValidateEmail(s)
  {
    if Matches(s) {
      var k, j :| 0 < k < j < |s| - 1 && s[k] == '@' && s[j] == '.' &&
        Part(s[..k]) && Part(s[k + 1..j]) && Part(s[j + 1..]);
      MatchedChars(s, k, j);
    }
  }
}
