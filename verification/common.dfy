/** Shared vocabulary of the route handlers: optional values, the JSON values a
    request body may carry, JavaScript truthiness, HTTP responses, store
    replies, the authenticated user, and `Math.round`. */
module Common {

  datatype Option<+T> = None | Some(value: T) {
    function GetOr(default: T): T {
      match this
      case Some(v) => v
      case None => default
    }
  }

  /** A JSON value as it arrives in a request body (`await request.json()`).
      Arrays and objects are not inspected by the core, so they are opaque. */
  datatype Json = JNull | JBool(b: bool) | JNumber(x: real) | JString(s: string) | JComposite

  /** JavaScript truthiness of a body field; `None` is a missing field
      (`undefined`). A JSON number is never NaN, so only 0 is a falsy number. */
  predicate Truthy(v: Option<Json>) {
    match v
    case None => false
    case Some(JNull) => false
    case Some(JBool(b)) => b
    case Some(JNumber(x)) => x != 0.0
    case Some(JString(s)) => s != []
    case Some(JComposite) => true
  }

  /** Truthiness of a text field that is a string or absent/null. */
  predicate Present(s: Option<string>) {
    s.Some? && s.value != []
  }

  /** A text field as the JSON value it arrives as. */
  function StringField(s: Option<string>): Option<Json> {
    match s
    case None => None
    case Some(t) => Some(JString(t))
  }

  /** The falsy values of JavaScript that JSON can carry: `undefined`, `null`,
      `false`, `0` and `""` (NaN cannot occur); everything else is truthy. */
  lemma FalsyValues(v: Option<Json>)
    ensures !Truthy(v) <==> v in {None, Some(JNull), Some(JBool(false)), Some(JNumber(0.0)), Some(JString([]))}
  {
  }

  /** On text fields, truthiness and `Present` agree. */
  lemma TruthyStringIsPresent(s: Option<string>)
    ensures Truthy(StringField(s)) <==> Present(s)
  {
  }

  /** `s || null`: an empty or missing string becomes null. */
  function OrNull(s: Option<string>): (r: Option<string>)
    ensures r.Some? <==> Present(s)
    ensures r.Some? ==> r == s
  {
    if Present(s) then s else None
  }

  /** `s || fallback` for a text field. */
  function OrElse(s: Option<string>, fallback: string): (r: string)
    ensures Present(s) ==> r == s.value
    ensures !Present(s) ==> r == fallback
  {
    if Present(s) then s.value else fallback
  }

  /** What a route handler answers: the JSON body with its HTTP status. */
  datatype Response<T> =
    | Ok(body: T)
    | Created(body: T)
    | BadRequest(message: string)
    | Unauthorized
    | ServerError(message: string)
  {
    function Status(): int {
      match this
      case Ok(_) => 200
      case Created(_) => 201
      case BadRequest(_) => 400
      case Unauthorized => 401
      case ServerError(_) => 500
    }
  }

  /** The 400 message of every POST whose required fields are not all truthy. */
  const MissingFields := "Missing required fields"

  /** The reply of one store call: the rows it returned, or its error. */
  datatype Fetch<T> = Fetched(data: T) | FetchError(message: string)

  /** The authenticated user as the identity provider reports it; a request
      without a valid session has no user at all. */
  datatype User = User(id: string, email: Option<string>, metadataName: Option<string>)

  /** `s.split(c)[0]`: the text before the first `c`, or all of `s`. */
  function BeforeFirst(s: string, c: char): (r: string)
    ensures r <= s
    ensures c !in r
    ensures |r| < |s| ==> s[|r|] == c
  {
    if s == [] then []
    else if s[0] == c then []
    else [s[0]] + BeforeFirst(s[1..], c)
  }

  /** The display name stored with a song or vote:
      `user_metadata.name || email.split('@')[0] || 'Unknown'`. */
  function UserName(u: User): (r: string)
    ensures r != []
    ensures Present(u.metadataName) ==> r == u.metadataName.value
    ensures !Present(u.metadataName) ==>
      (if u.email.Some? && BeforeFirst(u.email.value, '@') != []
       then r == BeforeFirst(u.email.value, '@')
       else r == "Unknown")
  {
    if Present(u.metadataName) then u.metadataName.value
    else if u.email.Some? && BeforeFirst(u.email.value, '@') != [] then BeforeFirst(u.email.value, '@')
    else "Unknown"
  }

  /** The local part derived from an e-mail address never contains '@' and is
      a prefix of the address, so it is exactly what precedes the first '@'. */
  lemma {:induction false} BeforeFirstIsLocalPart(s: string, local: string, rest: string)
    requires '@' !in local
    requires s == local + "@" + rest
    ensures BeforeFirst(s, '@') == local
  {
    if local == [] {
      assert s[0] == '@';
    } else {
      assert s[0] == local[0];
      assert s[1..] == local[1..] + "@" + rest;
      BeforeFirstIsLocalPart(s[1..], local[1..], rest);
    }
  }

  /** JavaScript's `Math.round`: the nearest integer, halves rounded up. */
  function MathRound(x: real): (r: int)
    ensures r as real - 0.5 <= x < r as real + 0.5
  {
    (x + 0.5).Floor
  }

  /** `MathRound` is the unique integer within half a unit (ties up). */
  lemma MathRoundUnique(x: real, k: int)
    requires k as real - 0.5 <= x < k as real + 0.5
    ensures MathRound(x) == k
  {
  }
}
