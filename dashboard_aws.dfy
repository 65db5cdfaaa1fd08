/**
 * dashboard/awsServices.js: the dashboard's listing page sizes, the table
 * cells it derives from S3 keys, and its sign-in flow, the implicit grant
 * of section 4.2.1 of RFC 6749 with a `state` value against cross-site
 * request forgery (section 10.12). Cognito, the random source and base64
 * encoding are parameters.
 */
module DashboardAws {
  import opened Wrappers
  import opened Strings
  import opened Seqs
  import opened DashboardFunctions
  import opened AuthConstants

  const StateCookieName: string := "emmaaStateCookie="
  const AccessTokenCookieName: string := "emmaaAccessCookie="
  const IdTokenCookieName: string := "emmaaIdCookie="
  const DefaultMaxKeys: int := 1000

  const StateMismatchNotice: string := "State Value does not match"
  const SessionExpiredNotice: string := "Unable to retreive session/session expired. Please log in again."
  const VerifyFailedNotice: string := "Could not verify user"

  // ---------------------------------------------------------------------
  // Page sizes
  // ---------------------------------------------------------------------

  /** A JavaScript argument as the listing functions receive it. */
  datatype JsValue = JsUndefined | JsNumber(n: int) | JsString(s: string)

  /**
   * `Number(v)` for the arguments modelled: `None` is `NaN`. A string
   * converts when it is empty or all decimal digits; signs, spaces,
   * fractions and exponents are not modelled.
   */
  function ToNumber(v: JsValue): Option<int>
  {
    match v
    case JsUndefined => None
    case JsNumber(n) => Some(n)
    case JsString(s) =>
      if forall i :: 0 <= i < |s| ==> IsDigit(s[i]) then Some(DigitsValue(s)) else None
  }

  predicate JsTruthy(v: JsValue)
  {
    match v
    case JsUndefined => false
    case JsNumber(n) => n != 0
    case JsString(s) => s != ""
  }

  /**
   * The page size of `listObjectsInBucketUnAuthenticated`. The guard
   * `maxKeys & maxKeys < 1000` parses as `maxKeys & (maxKeys < 1000)`: the
   * comparison becomes 0 or 1, so only the lowest bit of `maxKeys` (its
   * parity, `NaN` counting as 0) can make it non-zero.
   */
  function UnauthenticatedPageSize(maxKeys: JsValue): (size: JsValue)
    ensures var n := ToNumber(maxKeys); n.Some? && n.value < DefaultMaxKeys && n.value % 2 == 1 ==> size == maxKeys
    ensures var n := ToNumber(maxKeys); !(n.Some? && n.value < DefaultMaxKeys && n.value % 2 == 1) ==> size == JsNumber(DefaultMaxKeys)
  {
    var n := ToNumber(maxKeys);
    var below := if n.Some? && n.value < DefaultMaxKeys then 1 else 0;
    var lowBit := if n.Some? then n.value % 2 else 0;
    if lowBit * below != 0 then maxKeys else JsNumber(DefaultMaxKeys)
  }

  /**
   * `checkLatestModelsUpdate` passes its arguments shifted by one, so the
   * page size it asks for is the string `'.pkl'`, which is ignored.
   */
  lemma ModelsUpdatePageSize()
    ensures UnauthenticatedPageSize(JsString(".pkl")) == JsNumber(DefaultMaxKeys)
  {
    assert !IsDigit(".pkl"[0]);
  }

  /** Even page sizes below the cap, like the 100 intended there, are not honoured either. */
  lemma EvenPageSizeIgnored(n: int)
    requires n % 2 == 0
    ensures UnauthenticatedPageSize(JsNumber(n)) == JsNumber(DefaultMaxKeys)
  {
  }

  /** `listObjectsInBucket`: any truthy `maxKeys`, uncapped, else 1000. */
  function AuthenticatedPageSize(maxKeys: JsValue): (size: JsValue)
    ensures JsTruthy(maxKeys) ==> size == maxKeys
    ensures !JsTruthy(maxKeys) ==> size == JsNumber(DefaultMaxKeys)
  {
    if JsTruthy(maxKeys) then maxKeys else JsNumber(DefaultMaxKeys)
  }

  // ---------------------------------------------------------------------
  // Table rows from keys
  // ---------------------------------------------------------------------

  /** The model cell and the test cell of one table row. */
  datatype Row = Row(model: string, test: string)

  /**
   * The row of a key: `key.split('/')[1]` (an `undefined` text content
   * shows as empty) and `key.split('/')[2].split('.')[0]`, which raises
   * `TypeError` for a key with fewer than two `/`.
   */
  function RowOf(key: string): (r: Result<Row>)
    ensures r.Ok? <==> |Split(key, '/')| >= 3
  {
    var segments := Split(key, '/');
    if |segments| < 3 then Err(TypeError)
    else Ok(Row(segments[1], Split(segments[2], '.')[0]))
  }

  /**
   * The rows the listing callback appends, in key order, for keys ending
   * with `endsWith`, and whether it stopped on a key it could not split.
   * Every row comes from such a key; when the loop did not stop, every
   * such key has its row, in order.
   */
  function Rows(keys: seq<string>, endsWith: string): (r: (seq<Row>, bool))
    ensures |r.0| <= |keys|
    ensures RowsFromMatchingKeys(r.0, keys, endsWith)
    ensures !r.1 ==> r.0 == RowsOfMatching(keys, endsWith)
  {
    if |keys| == 0 then ([], false)
    else if !EndsWith(keys[0], endsWith) then Rows(keys[1..], endsWith)
    else
      var row := RowOf(keys[0]);
      if row.Err? then ([], true)
      else
        var rest := Rows(keys[1..], endsWith);
        ([row.value] + rest.0, rest.1)
  }

  /** Every row is the row of a key that ends with `endsWith`. */
  predicate RowsFromMatchingKeys(rows: seq<Row>, keys: seq<string>, endsWith: string)
  {
    forall row :: row in rows ==> exists k :: k in keys && EndsWith(k, endsWith) && RowOf(k) == Ok(row)
  }

  /** The loop over `data.Contents` in the default mode of both listing functions. */
  method KeyRows(keys: seq<string>, endsWith: string) returns (rows: seq<Row>, failed: bool)
    ensures rows == Rows(keys, endsWith).0 && failed == Rows(keys, endsWith).1
  {
    rows := [];
    for i := 0 to |keys|
      invariant rows + Rows(keys[i..], endsWith).0 == Rows(keys, endsWith).0
      invariant Rows(keys[i..], endsWith).1 == Rows(keys, endsWith).1
    {
      assert keys[i..][1..] == keys[i + 1..];
      if EndsWith(keys[i], endsWith) {
        var row := RowOf(keys[i]);
        if row.Err? {
          assert Rows(keys[i..], endsWith) == ([], true);
          return rows, true;
        }
        rows := rows + [row.value];
      }
    }
    assert Rows(keys[|keys|..], endsWith) == ([], false);
    return rows, false;
  }

  /** The rows of all keys ending with `endsWith`, each of which splits. */
  function RowsOfMatching(keys: seq<string>, endsWith: string): seq<Row>
  {
    if |keys| == 0 then []
    else if EndsWith(keys[0], endsWith) && RowOf(keys[0]).Ok? then [RowOf(keys[0]).value] + RowsOfMatching(keys[1..], endsWith)
    else RowsOfMatching(keys[1..], endsWith)
  }

  // ---------------------------------------------------------------------
  // getPublicJson
  // ---------------------------------------------------------------------

  /** `s.replace(/\/\//g, '/')`: each `//`, scanning left to right without overlap, becomes `/`. */
  function CollapseDoubleSlashes(s: string): (r: string)
    ensures |r| <= |s|
  {
    if |s| >= 2 && s[0] == '/' && s[1] == '/' then "/" + CollapseDoubleSlashes(s[2..])
    else if |s| == 0 then ""
    else [s[0]] + CollapseDoubleSlashes(s[1..])
  }

  predicate NoDoubleSlash(s: string)
  {
    forall i :: 0 <= i < |s| - 1 ==> !(s[i] == '/' && s[i + 1] == '/')
  }

  /** Only slashes are removed: the other characters stay, in order. */
  lemma {:induction false} CollapseKeepsText(s: string)
    ensures RemoveChar(CollapseDoubleSlashes(s), '/') == RemoveChar(s, '/')
  {
    if |s| >= 2 && s[0] == '/' && s[1] == '/' {
      CollapseKeepsText(s[2..]);
      assert ("/" + CollapseDoubleSlashes(s[2..]))[1..] == CollapseDoubleSlashes(s[2..]);
      assert s[1..][1..] == s[2..];
    } else if |s| > 0 {
      CollapseKeepsText(s[1..]);
      assert ([s[0]] + CollapseDoubleSlashes(s[1..]))[1..] == CollapseDoubleSlashes(s[1..]);
    }
  }

  /** A path without `//` is left as it is. */
  lemma {:induction false} CollapseIdentity(s: string)
    requires NoDoubleSlash(s)
    ensures CollapseDoubleSlashes(s) == s
  {
    if |s| > 0 {
      assert NoDoubleSlash(s[1..]) by {
        forall i | 0 <= i < |s[1..]| - 1 ensures !(s[1..][i] == '/' && s[1..][i + 1] == '/') {
          assert s[1..][i] == s[i + 1] && s[1..][i + 1] == s[i + 2];
        }
      }
      CollapseIdentity(s[1..]);
    }
  }

  /** `getPublicJson`'s URL. */
  function PublicJsonUrl(bucket: string, key: string): string
  {
    "https://s3.amazonaws.com" + CollapseDoubleSlashes("/" + bucket + "/" + key)
  }

  /** For a plain bucket name and a key without `//` or a leading `/`, the URL is the plain path. */
  lemma PublicJsonUrlPlain(bucket: string, key: string)
    requires bucket != "" && '/' !in bucket
    requires NoDoubleSlash(key) && (key == "" || key[0] != '/')
    ensures PublicJsonUrl(bucket, key) == "https://s3.amazonaws.com/" + bucket + "/" + key
  {
    var p := "/" + bucket + "/" + key;
    forall i | 0 <= i < |p| - 1 ensures !(p[i] == '/' && p[i + 1] == '/') {
      if i == 0 {
        assert p[1] == bucket[0];
      } else if i < |bucket| {
        assert p[i] == bucket[i - 1];
      } else if i == |bucket| {
        assert p[i] == bucket[i - 1];
      } else if i == |bucket| + 1 {
        assert p[i + 1] == key[0];
      } else {
        assert p[i] == key[i - |bucket| - 2] && p[i + 1] == key[i - |bucket| - 1];
      }
    }
    CollapseIdentity(p);
  }

  // ---------------------------------------------------------------------
  // The state value and the authorize URL
  // ---------------------------------------------------------------------

  /** The state made of the random words: each word's base64 text without `=`. */
  function NewState(randomWords: seq<int>, btoa: int -> string): (state: string)
    ensures '=' !in state
  {
    if |randomWords| == 0 then ""
    else
      var init := NewState(randomWords[..|randomWords| - 1], btoa);
      var piece := RemoveChar(btoa(randomWords[|randomWords| - 1]), '=');
      assert forall i :: 0 <= i < |init + piece| ==> (init + piece)[i] in init || (init + piece)[i] in piece;
      init + piece
  }

  /**
   * `_getNewStateValue`: the words come from `crypto.getRandomValues` (four
   * of them) and `window.btoa` encodes each; both are parameters.
   */
  method NewStateValue(randomWords: seq<int>, btoa: int -> string) returns (state: string)
    ensures state == NewState(randomWords, btoa)
    ensures '=' !in state
  {
    state := "";
    for i := 0 to |randomWords|
      invariant state == NewState(randomWords[..i], btoa)
    {
      assert randomWords[..i + 1][..i] == randomWords[..i];
      state := state + RemoveChar(btoa(randomWords[i]), '=');
    }
    assert randomWords[..|randomWords|] == randomWords;
  }

  /** The `&`-separated parameters of the authorize request; `redirect_uri` is not encoded. */
  function AuthorizeParameters(currentUrl: string, state: string): seq<string>
  {
    [Param("response_type", "token"), Param("client_id", AppClientId), Param("redirect_uri", currentUrl),
     Param("state", state), Param("scope", ScopeValue)]
  }

  /** The URL `getTokenFromAuthEndpoint` redirects to: the base URL, then the parameters joined by `&`. */
  function AuthorizeUrl(currentUrl: string, state: string): string
  {
    AuthEndpointBaseUrl + Join(AuthorizeParameters(currentUrl, state), '&')
  }

  lemma PartEntryOf(k: string, v: string, decodeEscapes: string -> Result<string>)
    requires '=' !in k && '=' !in v && '%' !in v
    ensures Split(Param(k, v), '=') == [k, v]
    ensures PartEntry(Param(k, v), decodeEscapes) == Ok((k, v))
  {
    assert k + "=" + v == k + ['='] + v;
    SplitCons(k, v, '=');
    SplitNoSep(v, '=');
  }

  lemma {:induction false} QueryDictOk(parts: seq<string>, decodeEscapes: string -> Result<string>)
    requires forall i :: 0 <= i < |parts| ==> PartEntry(parts[i], decodeEscapes).Ok?
    ensures QueryDict(parts, decodeEscapes).Ok?
  {
    if |parts| > 0 {
      QueryDictOk(parts[..|parts| - 1], decodeEscapes);
    }
  }

  lemma {:induction false} JoinFree(parts: seq<string>, sep: char, c: char)
    requires c != sep && forall i :: 0 <= i < |parts| ==> c !in parts[i]
    ensures c !in Join(parts, sep)
  {
    if |parts| > 1 {
      JoinFree(parts[1..], sep, c);
    }
  }

  lemma QueryOfSearch(base: string, query: string)
    requires '#' !in base && '?' !in base && '#' !in query && '?' !in query && query != ""
    ensures QueryOf(Some(base + ['?'] + query)) == Some(query)
  {
    var url := base + ['?'] + query;
    SplitNoSep(url, '#');
    SplitCons(base, query, '?');
    SplitNoSep(query, '?');
  }

  /** The query the callback page finds in the authorize URL is the parameter list, joined. */
  lemma AuthorizeUrlQuery(currentUrl: string, state: string)
    requires Plain(currentUrl) && Plain(state)
    ensures QueryOf(Some(AuthorizeUrl(currentUrl, state))) == Some(Join(AuthorizeParameters(currentUrl, state), '&'))
  {
    AuthorizeConstantsPlain();
    var ps := AuthorizeParameters(currentUrl, state);
    forall i | 0 <= i < |ps| ensures '#' !in ps[i] && '?' !in ps[i] {
    }
    var query := Join(ps, '&');
    JoinFree(ps, '&', '#');
    JoinFree(ps, '&', '?');
    assert |query| > 0 by {
      assert query == ps[0] + ['&'] + Join(ps[1..], '&');
    }
    QueryOfSearch(AuthorizeEndpoint, query);
    assert AuthorizeUrl(currentUrl, state) == AuthorizeEndpoint + ['?'] + query;
  }

  /** Each parameter of the authorize request is a plain `key=value` pair. */
  lemma AuthorizePartEntries(currentUrl: string, state: string, decodeEscapes: string -> Result<string>)
    requires Plain(currentUrl) && Plain(state)
    ensures forall i :: 0 <= i < 5 ==> PartEntry(AuthorizeParameters(currentUrl, state)[i], decodeEscapes).Ok?
    ensures forall i :: 0 <= i < 5 ==> (Split(AuthorizeParameters(currentUrl, state)[i], '=')[0]
      == ["response_type", "client_id", "redirect_uri", "state", "scope"][i])
    ensures PartEntry(AuthorizeParameters(currentUrl, state)[2], decodeEscapes).value.1 == currentUrl
    ensures PartEntry(AuthorizeParameters(currentUrl, state)[3], decodeEscapes).value.1 == state
  {
    AuthorizeConstantsPlain();
    var ps := AuthorizeParameters(currentUrl, state);
    var keys := ["response_type", "client_id", "redirect_uri", "state", "scope"];
    var values := ["token", AppClientId, currentUrl, state, ScopeValue];
    forall i | 0 <= i < 5
      ensures PartEntry(ps[i], decodeEscapes) == Ok((keys[i], values[i])) && Split(ps[i], '=')[0] == keys[i]
    {
      assert ps[i] == Param(keys[i], values[i]);
      PartEntryOf(keys[i], values[i], decodeEscapes);
    }
    assert values[2] == currentUrl && values[3] == state;
  }

  /** The parameters parse into a dictionary holding the state and the redirect URI. */
  lemma AuthorizeParametersDict(currentUrl: string, state: string, decodeEscapes: string -> Result<string>)
    requires Plain(currentUrl) && Plain(state)
    ensures QueryDict(AuthorizeParameters(currentUrl, state), decodeEscapes).Ok?
    ensures "state" in QueryDict(AuthorizeParameters(currentUrl, state), decodeEscapes).value
    ensures QueryDict(AuthorizeParameters(currentUrl, state), decodeEscapes).value["state"] == state
    ensures "redirect_uri" in QueryDict(AuthorizeParameters(currentUrl, state), decodeEscapes).value
    ensures QueryDict(AuthorizeParameters(currentUrl, state), decodeEscapes).value["redirect_uri"] == currentUrl
  {
    var ps := AuthorizeParameters(currentUrl, state);
    AuthorizePartEntries(currentUrl, state, decodeEscapes);
    QueryDictOk(ps, decodeEscapes);
    QueryDictLast(ps, decodeEscapes, 3);
    QueryDictLast(ps, decodeEscapes, 2);
  }

  /**
   * Parsed back as `getDictFromUrl` parses it, the authorize URL carries
   * the state and the redirect URI unchanged, provided neither holds a
   * character the parse splits on or decodes.
   */
  lemma AuthorizeUrlCarriesState(currentUrl: string, state: string, decodeEscapes: string -> Result<string>)
    requires Plain(currentUrl) && Plain(state)
    ensures QueryOf(Some(AuthorizeUrl(currentUrl, state))).Some?
    ensures var q := QueryOf(Some(AuthorizeUrl(currentUrl, state))).value;
      QueryDict(Split(q, '&'), decodeEscapes).Ok? && "state" in QueryDict(Split(q, '&'), decodeEscapes).value
      && QueryDict(Split(q, '&'), decodeEscapes).value["state"] == state
  {
    AuthorizeUrlQuery(currentUrl, state);
    AuthorizeConstantsPlain();
    var ps := AuthorizeParameters(currentUrl, state);
    JoinSplit(ps, '&');
    AuthorizeParametersDict(currentUrl, state, decodeEscapes);
  }

  // ---------------------------------------------------------------------
  // The page's session state
  // ---------------------------------------------------------------------

  /**
   * The module globals of the page and the browser state they touch: the
   * cookie jar, the notices shown to the user and the page the browser was
   * sent to. `stateValue` is `None` when `_readCookie` left it `undefined`.
   */
  class Dashboard {
    var cookieJar: seq<(string, string)>
    var stateValue: Option<string>
    var accessTokenString: string
    var idTokenString: string
    var userSignedIn: bool
    var identityId: Option<string>
    var notices: seq<string>
    var location: Option<string>

    predicate Valid()
      reads this
    {
      ValidJar(cookieJar)
    }

    /** A page load: the globals at their initial values over the browser's cookies. */
    constructor(cookieJar: seq<(string, string)>)
      requires ValidJar(cookieJar)
      ensures Valid()
      ensures this.cookieJar == cookieJar && stateValue == Some("") && accessTokenString == "" && idTokenString == ""
      ensures !userSignedIn && identityId == Some("") && notices == [] && location == None
    {
      this.cookieJar := cookieJar;
      stateValue := Some("");
      accessTokenString := "";
      idTokenString := "";
      userSignedIn := false;
      identityId := Some("");
      notices := [];
      location := None;
    }

    /** `_writeCookie(cookieName, value, hours)`. */
    method WriteCookie(cookieName: string, value: string, hours: int, nowMs: int, gmtString: int -> string)
      requires Valid()
      modifies this`cookieJar
      ensures Valid()
      ensures cookieJar == StoreCookie(old(cookieJar), CookieString(cookieName, value, hours, nowMs, gmtString))
    {
      StoreCookieValid(cookieJar, CookieString(cookieName, value, hours, nowMs, gmtString));
      cookieJar := StoreCookie(cookieJar, CookieString(cookieName, value, hours, nowMs, gmtString));
    }

    /**
     * `getTokenFromAuthEndpoint(currentUrl)`: a fresh state goes into
     * `STATE_VALUE` and into the state cookie for one hour, then the page
     * is sent to the authorize endpoint with that state.
     */
    method GetTokenFromAuthEndpoint(currentUrl: string, randomWords: seq<int>, btoa: int -> string, nowMs: int, gmtString: int -> string)
      requires Valid()
      modifies this`stateValue, this`cookieJar, this`location
      ensures Valid()
      ensures stateValue == Some(NewState(randomWords, btoa))
      ensures cookieJar == StoreCookie(old(cookieJar), CookieString(StateCookieName, NewState(randomWords, btoa), 1, nowMs, gmtString))
      ensures location == Some(AuthorizeUrl(currentUrl, NewState(randomWords, btoa)))
    {
      var state := NewStateValue(randomWords, btoa);
      stateValue := Some(state);
      WriteCookie(StateCookieName, state, 1, nowMs, gmtString);
      location := Some(AuthorizeUrl(currentUrl, state));
    }

    /**
     * `verifyUser(accessTokenString, idTokenString)` once Cognito's
     * `getUser` (a parameter giving the user name or an error) answers: on
     * success both tokens go into the globals and into one-hour cookies,
     * the user is signed in and federated; on error only a notice is shown.
     */
    method VerifyUser(accessToken: string, idToken: string, getUser: string -> Result<string>,
                      identityOf: string -> Option<string>, nowMs: int, gmtString: int -> string)
      requires Valid()
      modifies this`cookieJar, this`accessTokenString, this`idTokenString, this`userSignedIn, this`identityId, this`notices
      ensures Valid()
      ensures getUser(accessToken).Err? ==> notices == old(notices) + [VerifyFailedNotice]
      ensures getUser(accessToken).Err? ==> (cookieJar == old(cookieJar) && accessTokenString == old(accessTokenString)
        && idTokenString == old(idTokenString) && userSignedIn == old(userSignedIn) && identityId == old(identityId))
      ensures getUser(accessToken).Ok? ==> notices == old(notices) + ["Hello " + getUser(accessToken).value]
      ensures getUser(accessToken).Ok? ==> (accessTokenString == accessToken && idTokenString == idToken && userSignedIn
        && identityId == identityOf(idToken))
      ensures getUser(accessToken).Ok? ==> cookieJar == StoreCookie(StoreCookie(old(cookieJar),
        CookieString(AccessTokenCookieName, accessToken, 1, nowMs, gmtString)), CookieString(IdTokenCookieName, idToken, 1, nowMs, gmtString))
    {
      var user := getUser(accessToken);
      if user.Err? {
        notices := notices + [VerifyFailedNotice];
        return;
      }
      notices := notices + ["Hello " + user.value];
      accessTokenString := accessToken;
      WriteCookie(AccessTokenCookieName, accessTokenString, 1, nowMs, gmtString);
      idTokenString := idToken;
      WriteCookie(IdTokenCookieName, idTokenString, 1, nowMs, gmtString);
      userSignedIn := true;
      identityId := identityOf(idTokenString);
    }

    /**
     * `checkSignIn()` on the page at `href`. `STATE_VALUE` is first reloaded
     * from the state cookie. The parsed dictionary is then indexed with
     * `[0]`: without a query that raises `TypeError`, and otherwise
     * `url_dict` is the value of a parameter named `0`, if any. Being a
     * string, it has no `state` and no `access_token` property, so the
     * tokens are never verified: the user sees a mismatch notice when a
     * state cookie exists, and the session-expired notice otherwise.
     */
    method CheckSignIn(href: string, decodeEscapes: string -> Result<string>) returns (r: Result<()>)
      requires Valid()
      modifies this`stateValue, this`notices
      ensures Valid()
      ensures stateValue == FirstMatch(Split(CookieHeader(cookieJar), ';'), StateCookieName)
      ensures QueryOf(Some(href)).None? ==> r == Err(TypeError) && notices == old(notices)
      ensures QueryOf(Some(href)).Some? && QueryDict(Split(QueryOf(Some(href)).value, '&'), decodeEscapes).Err? ==>
        r == Err(QueryDict(Split(QueryOf(Some(href)).value, '&'), decodeEscapes).error) && notices == old(notices)
      ensures QueryOf(Some(href)).Some? && QueryDict(Split(QueryOf(Some(href)).value, '&'), decodeEscapes).Ok? ==>
        var d := QueryDict(Split(QueryOf(Some(href)).value, '&'), decodeEscapes).value;
        r == Ok(()) &&
        (("0" !in d || d["0"] == "") ==> notices == old(notices)) &&
        ("0" in d && d["0"] != "" ==> notices == old(notices) + [if stateValue.Some? then StateMismatchNotice else SessionExpiredNotice])
    {
      stateValue := DashboardFunctions.ReadCookie(CookieHeader(cookieJar), StateCookieName);
      var dict := GetDictFromUrl(Some(href), decodeEscapes);
      if dict.Err? {
        return Err(dict.error);
      }
      if dict.value.None? {
        return Err(TypeError);
      }
      var d := dict.value.value;
      if "0" !in d || d["0"] == "" {
        return Ok(());
      }
      // `url_dict` is the string d["0"]: `url_dict['state']` is undefined,
      // which differs from STATE_VALUE unless that is undefined too.
      if stateValue.Some? {
        notices := notices + [StateMismatchNotice];
      } else {
        // `url_dict['access_token']` is undefined as well.
        notices := notices + [SessionExpiredNotice];
      }
      return Ok(());
    }
  }

  /**
   * After `getTokenFromAuthEndpoint`, the state cookie reads back as the
   * state it stored (a base64 text holds no `;`); nothing ever clears it.
   */
  lemma StateCookieRoundTrip(jar: seq<(string, string)>, state: string, nowMs: int, gmtString: int -> string)
    requires ValidJar(jar) && ';' !in state
    ensures FirstMatch(Split(CookieHeader(StoreCookie(jar, CookieString(StateCookieName, state, 1, nowMs, gmtString))), ';'), StateCookieName)
      == Some(state)
  {
    StateCookieNameParts();
    ReadAfterWrite(jar, "emmaaStateCookie", state, 1, nowMs, gmtString);
  }

  lemma StateCookieNameParts()
    ensures StateCookieName == "emmaaStateCookie" + "=" && ValidName("emmaaStateCookie")
  {
  }
}
