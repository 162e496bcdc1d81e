/**
 * The EVE single sign-on helpers: the random `state` string sent with a
 * login, the login URL, the callback's state check and character id, and
 * the access-token cache rule.
 *
 * `Math.random()` is an oracle: a sequence of draws, each in [0, 1).  The
 * token endpoint, the JWT decoding and Redis are parameters: the reply the
 * endpoint gave, the claims the token decodes to, and what the cache held.
 */
module EveSso {
  import opened Common
  import opened JsValue

  // ---------------------------------------------------------------------
  // `createState`
  // ---------------------------------------------------------------------

  const Alphabet: string := "0123456789abcdefghijklmnopqrstuvwxyzABCDEFGHIJKLMNOPQRSTUVWXYZ"
  const StateLength: nat := 128

  /** `s.charAt(i)`: one character, or the empty string outside the string. */
  function CharAt(s: string, i: int): (r: string)
    ensures |r| <= 1
    ensures 0 <= i < |s| <==> r != ""
  {
    if 0 <= i < |s| then [s[i]] else ""
  }

  /** What the loop body appends for the draws `rs`, in order; each draw is scaled by 128. */
  function Picked(rs: seq<real>): string {
    if rs == [] then "" else Picked(rs[..|rs| - 1]) + CharAt(Alphabet, Scaled(rs[|rs| - 1], StateLength))
  }

  /**
   * Each draw appends at most one character: one from the alphabet when it
   * scales below 62, nothing when it scales to 62..127.
   */
  lemma {:induction false} PickedSpec(rs: seq<real>)
    requires forall i :: 0 <= i < |rs| ==> IsDraw(rs[i])
    ensures |Picked(rs)| <= |rs|
    ensures forall i :: 0 <= i < |Picked(rs)| ==> Picked(rs)[i] in Alphabet
    ensures rs != [] ==>
      |Picked(rs)| == |Picked(rs[..|rs| - 1])| + (if Scaled(rs[|rs| - 1], StateLength) < |Alphabet| then 1 else 0)
  {
    if rs != [] {
      PickedSpec(rs[..|rs| - 1]);
      ScaledRange(rs[|rs| - 1], StateLength);
    }
  }

  /**
   * `createState()`, given the draws `Math.random()` will return.  The loop
   * stops at the first prefix of draws that has picked 128 characters; the
   * draws must contain enough hits for it to stop.
   */
  method CreateState(rs: seq<real>) returns (state: string, used: nat)
    requires forall i :: 0 <= i < |rs| ==> IsDraw(rs[i])
    requires |Picked(rs)| >= StateLength
    ensures used <= |rs| && state == Picked(rs[..used])
    ensures |state| == StateLength
    ensures forall k :: 0 <= k < used ==> |Picked(rs[..k])| < StateLength
    ensures forall i :: 0 <= i < |state| ==> state[i] in Alphabet
  {
    state, used := "", 0;
    assert rs[..|rs|] == rs;
    while |state| < StateLength
      invariant used <= |rs| && state == Picked(rs[..used])
      invariant |state| <= StateLength
      invariant |state| < StateLength ==> used < |rs|
      invariant forall k :: 0 <= k < used ==> |Picked(rs[..k])| < StateLength
      decreases |rs| - used
    {
      state := state + CharAt(Alphabet, Scaled(rs[used], StateLength));
      used := used + 1;
      assert rs[..used][..used - 1] == rs[..used - 1];
      assert used == |rs| ==> rs[..used] == rs;
    }
    PickedSpec(rs[..used]);
  }

  // ---------------------------------------------------------------------
  // `getLoginURL`
  // ---------------------------------------------------------------------

  /** The environment the helpers read: client id, callback URL and login URL prefix. */
  datatype Config = Config(clientId: string, callbackUrl: string, loginUrl: string)

  function LoginFields(cfg: Config, state: string, scopes: seq<string>): seq<string> {
    ["response_type=code", "client_id=" + cfg.clientId, "redirect_uri=" + cfg.callbackUrl,
     "scope=" + Join(scopes, ' '), "state=" + state]
  }

  /** `getLoginURL(state, scopes)` */
  function LoginUrl(cfg: Config, state: string, scopes: seq<string>): string {
    cfg.loginUrl + Join(LoginFields(cfg, state, scopes), '&')
  }

  lemma {:induction false} JoinAvoids(xs: seq<string>, sep: char, c: char)
    requires c != sep && forall i :: 0 <= i < |xs| ==> c !in xs[i]
    ensures c !in Join(xs, sep)
    decreases |xs|
  {
    if |xs| > 1 {
      JoinAvoids(xs[1..], sep, c);
    }
  }

  /**
   * The URL is the login prefix followed by exactly five `&`-separated
   * fields, in the order response type, client id, redirect URI, scope,
   * state, provided no configured value, scope or state contains `&`.
   */
  lemma LoginUrlFields(cfg: Config, state: string, scopes: seq<string>)
    requires '&' !in cfg.clientId && '&' !in cfg.callbackUrl && '&' !in state
    requires forall i :: 0 <= i < |scopes| ==> '&' !in scopes[i]
    ensures LoginUrl(cfg, state, scopes)[..|cfg.loginUrl|] == cfg.loginUrl
    ensures Split(LoginUrl(cfg, state, scopes)[|cfg.loginUrl|..], '&') == LoginFields(cfg, state, scopes)
  {
    var fields := LoginFields(cfg, state, scopes);
    JoinAvoids(scopes, ' ', '&');
    forall i | 0 <= i < |fields|
      ensures '&' !in fields[i]
    {
    }
    SplitJoin(fields, '&');
    assert LoginUrl(cfg, state, scopes)[|cfg.loginUrl|..] == Join(fields, '&');
  }

  /**
   * The scope field is the scopes separated by single spaces: `scope=` for
   * none, and they split back out when no scope contains a space.
   */
  lemma ScopeField(scopes: seq<string>)
    requires forall i :: 0 <= i < |scopes| ==> ' ' !in scopes[i]
    ensures scopes == [] ==> "scope=" + Join(scopes, ' ') == "scope="
    ensures scopes != [] ==> Split(Join(scopes, ' '), ' ') == scopes
  {
    if scopes != [] {
      SplitJoin(scopes, ' ');
    }
  }

  // ---------------------------------------------------------------------
  // `doHandleCallback`: the state check and the character id
  // ---------------------------------------------------------------------

  /**
   * `Number(s)` for a string: surrounding white space is ignored, an empty
   * string is 0, and an optionally signed run of decimal digits is its
   * value; `None` stands for `NaN`.
   */
  function NumberOf(s: string): (r: Option<int>)
    ensures Blank(s) ==> r == Some(0)
  {
    var t := Trim(s);
    if t == "" then Some(0)
    else if t[0] == '-' then
      match ParseDigits(t[1..]) case Some(n) => Some(0 - n) case None => None
    else
      var u := if t[0] == '+' then t[1..] else t;
      match ParseDigits(u) case Some(n) => Some(n) case None => None
  }

  /** `Number(sub.split(':')[2])`; a missing third field is `undefined`, which is `NaN`. */
  function CharacterId(sub: string): Option<int> {
    var parts := Split(sub, ':');
    if |parts| > 2 then NumberOf(parts[2]) else None
  }

  /** `Number` reads back a printed natural number. */
  lemma NumberOfPrinted(n: nat)
    ensures NumberOf(NatToString(n)) == Some(n)
  {
    var digits := NatToString(n);
    assert IsDigit(digits[0]) && IsDigit(digits[|digits| - 1]);
    assert Trim(digits) == digits;
    ParsePrinted(n);
  }

  /** An SSO subject `CHARACTER:EVE:<id>` gives back the id. */
  lemma CharacterIdOfSubject(n: nat)
    ensures CharacterId("CHARACTER:EVE:" + NatToString(n)) == Some(n)
  {
    var digits := NatToString(n);
    assert ':' !in digits by {
      forall i | 0 <= i < |digits| ensures digits[i] != ':' {
        assert IsDigit(digits[i]);
      }
    }
    assert "CHARACTER:EVE:" + digits == "CHARACTER" + [':'] + ("EVE" + [':'] + digits);
    SplitAppend("CHARACTER", ':', "EVE" + [':'] + digits);
    SplitAppend("EVE", ':', digits);
    SplitNoSep(digits, ':');
    assert Split("CHARACTER:EVE:" + digits, ':')[2] == digits;
    NumberOfPrinted(n);
  }

  /** What the token endpoint answered: status, parsed body, and the claims its JWT decodes to (`null` on failure). */
  datatype TokenAnswer = TokenAnswer(status: int, body: Option<Js>, claims: Js)

  datatype Login = Login(characterId: Option<int>, characterName: Js, scopes: Js)

  datatype Callback =
    | InvalidState
    | HttpCode(status: int)
    | Malformed
    | LoggedIn(login: Login)

  /** The outcome, and how many token requests were made on the way. */
  datatype Handled = Handled(requests: nat, outcome: Callback)

  /**
   * `doHandleCallback(app, code, state, expectedState)`.  A missing state
   * is `None`; `!=` is loose, so two missing states are equal.  `Malformed`
   * is a body `JSON.parse` rejects or that parses to `null`, or claims
   * without a string `sub` (reading `.sub` or `.split` throws).
   */
  function HandleCallback(state: Option<string>, expected: Option<string>, answer: TokenAnswer): Handled {
    if state != expected then Handled(0, InvalidState)
    else if answer.status != 200 then Handled(1, HttpCode(answer.status))
    else if answer.body.None? || IsNullish(answer.body.value) then Handled(1, Malformed)
    else
      var sub := Get(answer.claims, "sub");
      if !sub.Str? then Handled(1, Malformed)
      else Handled(1, LoggedIn(Login(CharacterId(sub.s), Get(answer.claims, "name"), Get(answer.claims, "scp"))))
  }

  /** A state that differs from the expected one fails before any token request. */
  lemma StateChecked(state: Option<string>, expected: Option<string>, answer: TokenAnswer)
    ensures HandleCallback(state, expected, answer).outcome == InvalidState <==> state != expected
    ensures state != expected ==> HandleCallback(state, expected, answer).requests == 0
    ensures state == expected ==> HandleCallback(state, expected, answer).requests == 1
  {
  }

  /** A login carries the character id read from the `sub` claim, and the claimed name and scopes. */
  lemma LoginFromClaims(state: Option<string>, answer: TokenAnswer, sub: string)
    requires answer.status == 200 && answer.body.Some? && !IsNullish(answer.body.value)
    requires Get(answer.claims, "sub") == Str(sub)
    ensures HandleCallback(state, state, answer)
      == Handled(1, LoggedIn(Login(CharacterId(sub), Get(answer.claims, "name"), Get(answer.claims, "scp"))))
  {
  }

  // ---------------------------------------------------------------------
  // `getAccessToken`: the cache rule
  // ---------------------------------------------------------------------

  /** The Redis key a refresh token's access token is cached under. */
  function CacheKey(refreshToken: string): string {
    "evesso:access_token:" + refreshToken
  }

  /** The refresh grant's answer: status, parsed body (`None` when it does not parse). */
  datatype RefreshAnswer = RefreshAnswer(status: int, body: Option<Js>)

  /** A `setex(key, ttl, value)` the call makes. */
  datatype CacheWrite = CacheWrite(key: string, ttl: int, value: Js)

  datatype Access =
    | Token(value: Js)
    | Failed(status: int)
    | Unparsable

  /** The outcome, the token requests made, and what was written to the cache. */
  datatype Fetched = Fetched(outcome: Access, requests: nat, writes: seq<CacheWrite>)

  /**
   * `getAccessToken(app, refreshToken)`, given what `redis.get` returned.
   * `expires_in - 1` is written out for a numeric `expires_in` only.
   */
  function GetAccessToken(cached: Js, refreshToken: string, answer: RefreshAnswer): Fetched {
    if Truthy(cached) then Fetched(Token(cached), 0, [])
    else if answer.status != 200 then Fetched(Failed(answer.status), 1, [])
    else if answer.body.None? || IsNullish(answer.body.value) then Fetched(Unparsable, 1, [])
    else
      var token := Get(answer.body.value, "access_token");
      var expires := Get(answer.body.value, "expires_in");
      if expires.Num? then Fetched(Token(token), 1, [CacheWrite(CacheKey(refreshToken), expires.n - 1, token)])
      else Fetched(Unparsable, 1, [])
  }

  /**
   * A cached token is returned as it is, with no request and no write; a
   * fresh token is cached under its refresh token's key for one second less
   * than it lives.
   */
  lemma CacheRule(cached: Js, refreshToken: string, answer: RefreshAnswer)
    ensures Truthy(cached) ==> GetAccessToken(cached, refreshToken, answer) == Fetched(Token(cached), 0, [])
    ensures !Truthy(cached) ==> GetAccessToken(cached, refreshToken, answer).requests == 1
    ensures !Truthy(cached) && answer.status != 200 ==>
      GetAccessToken(cached, refreshToken, answer) == Fetched(Failed(answer.status), 1, [])
    ensures GetAccessToken(cached, refreshToken, answer).writes != [] ==>
      GetAccessToken(cached, refreshToken, answer).outcome.Token?
    ensures var f := GetAccessToken(cached, refreshToken, answer);
      !Truthy(cached) && f.outcome.Token? ==>
        answer.status == 200 && answer.body.Some?
        && f.outcome.value == Get(answer.body.value, "access_token")
        && f.writes == [CacheWrite(CacheKey(refreshToken), Get(answer.body.value, "expires_in").n - 1, f.outcome.value)]
  {
  }
}
