/**
 * The login decision: look the user up by email, check the password against
 * the stored hash, and sign a payload built from the stored record.
 * The hash comparison and the token signer are parameters: the model says
 * only which inputs they are given and what is done with their answers.
 */
module Auth {
  import opened Wrappers

  /** A row of the user table; `password` holds the stored hash. */
  datatype User = User(id: string, email: string, name: string, password: string)

  /** The payload that is signed into the access token. */
  datatype Claims = Claims(sub: string, email: string, name: string)

  const InvalidCredentials: string := "Invalid credentials"

  /** What a login answers: a token, or the one refusal for every failure. */
  datatype SignInResult = Signed(access_token: string) | Unauthorized(message: string)

  /** The user table enforces a unique email. */
  ghost predicate UniqueEmails(users: seq<User>)
  {
    forall i, j :: 0 <= i < j < |users| ==> users[i].email != users[j].email
  }

  /** Lookup by the unique email field: the first user with that email, if any. */
  function FindByEmail(users: seq<User>, email: string): (r: Option<User>)
    ensures r.None? <==> forall u :: u in users ==> u.email != email
    ensures r.Some? ==> r.value in users && r.value.email == email
    decreases |users|
  {
    if users == [] then None
    else if users[0].email == email then Some(users[0])
    else FindByEmail(users[1..], email)
  }

  /** The claims of a user record: its id as subject, its email and its name. */
  function ClaimsOf(u: User): Claims
  {
    Claims(u.id, u.email, u.name)
  }

  /**
   * Login. `compare(plain, hash)` stands for the password-hash check and
   * `sign(claims)` for the token signer.
   */
  function SignIn(users: seq<User>, email: string, password: string,
                  compare: (string, string) -> bool, sign: Claims -> string): (r: SignInResult)
    ensures r.Signed? <==> FindByEmail(users, email).Some? && compare(password, FindByEmail(users, email).value.password)
    ensures r.Signed? ==> r.access_token == sign(Claims(FindByEmail(users, email).value.id, email, FindByEmail(users, email).value.name))
    ensures r.Unauthorized? ==> r == Unauthorized(InvalidCredentials)
  {
    var user := FindByEmail(users, email);
    if user.None? then Unauthorized(InvalidCredentials)
    else if !compare(password, user.value.password) then Unauthorized(InvalidCredentials)
    else Signed(sign(ClaimsOf(user.value)))
  }

  /** With unique emails, the lookup finds exactly the user that holds the email. */
  lemma FindByEmailUnique(users: seq<User>, u: User)
    requires UniqueEmails(users)
    requires u in users
    ensures FindByEmail(users, u.email) == Some(u)
  {
  }

  /**
   * Login succeeds exactly for a stored user with that email whose hash the
   * password matches, and the token signs that user's id, email and name.
   */
  lemma SignInSucceedsIff(users: seq<User>, u: User, password: string,
                          compare: (string, string) -> bool, sign: Claims -> string)
    requires UniqueEmails(users)
    requires u in users
    ensures SignIn(users, u.email, password, compare, sign) ==
      if compare(password, u.password) then Signed(sign(ClaimsOf(u))) else Unauthorized(InvalidCredentials)
  {
    FindByEmailUnique(users, u);
  }

  /** An unknown email and a wrong password give the same answer: the caller cannot tell them apart. */
  lemma FailuresIndistinguishable(users: seq<User>, unknown: string, p1: string, u: User, p2: string,
                                  compare: (string, string) -> bool, sign: Claims -> string)
    requires forall v :: v in users ==> v.email != unknown
    requires FindByEmail(users, u.email) == Some(u) && !compare(p2, u.password)
    ensures SignIn(users, unknown, p1, compare, sign) == SignIn(users, u.email, p2, compare, sign)
  {
  }

  /** No failure carries a token: only a matching password yields one. */
  lemma TokenOnlyOnSuccess(users: seq<User>, email: string, password: string,
                           compare: (string, string) -> bool, sign: Claims -> string)
    requires SignIn(users, email, password, compare, sign).Signed?
    ensures exists u :: u in users && u.email == email && compare(password, u.password)
  {
  }
}
