/**
 * dashboard/emmaaFunctions.js: reading and writing the dashboard's cookies
 * and parsing the parameters of a callback URL. The browser's side of
 * `document.cookie` follows RFC 6265: section 5.2 for parsing what a page
 * writes, section 5.3 for storing it and section 5.4 for what a page reads.
 */
module DashboardFunctions {
  import opened Wrappers
  import opened Strings
  import opened Seqs

  // ---------------------------------------------------------------------
  // _readCookie
  // ---------------------------------------------------------------------

  /** `while (c.charAt(0) == ' ') c = c.substring(1, c.length)`. */
  function StripLeadingSpaces(c: string): (r: string)
    ensures |r| == 0 || r[0] != ' '
    ensures |r| <= |c| && r == c[|c| - |r|..]
    ensures forall j :: 0 <= j < |c| - |r| ==> c[j] == ' '
  {
    if |c| > 0 && c[0] == ' ' then StripLeadingSpaces(c[1..]) else c
  }

  /** `_readCookie` accepts an entry that, without its leading spaces, starts with `nameEQ`. */
  predicate Accepts(entry: string, nameEQ: string)
  {
    StartsWith(StripLeadingSpaces(entry), nameEQ)
  }

  /**
   * What `_readCookie(nameEQ)` finds among the entries of
   * `document.cookie.split(';')`: the text after `nameEQ` in the first
   * accepted entry; `None` (JavaScript `undefined`) when none is accepted.
   */
  function FirstMatch(entries: seq<string>, nameEQ: string): Option<string>
  {
    if |entries| == 0 then None
    else if Accepts(entries[0], nameEQ) then Some(StripLeadingSpaces(entries[0])[|nameEQ|..])
    else FirstMatch(entries[1..], nameEQ)
  }

  /** The index of the first accepted entry, `|entries|` when there is none. */
  function MatchIndex(entries: seq<string>, nameEQ: string): (k: nat)
    ensures k <= |entries|
  {
    if |entries| == 0 then 0
    else if Accepts(entries[0], nameEQ) then 0
    else 1 + MatchIndex(entries[1..], nameEQ)
  }

  /**
   * `FirstMatch` finds the rest of the first accepted entry, every entry
   * before it being rejected, and finds nothing exactly when every entry
   * is rejected.
   */
  lemma {:induction false} FirstMatchIndex(entries: seq<string>, nameEQ: string)
    ensures forall j :: 0 <= j < MatchIndex(entries, nameEQ) ==> !Accepts(entries[j], nameEQ)
    ensures MatchIndex(entries, nameEQ) < |entries| ==> Accepts(entries[MatchIndex(entries, nameEQ)], nameEQ)
    ensures MatchIndex(entries, nameEQ) < |entries| ==>
      FirstMatch(entries, nameEQ) == Some(StripLeadingSpaces(entries[MatchIndex(entries, nameEQ)])[|nameEQ|..])
    ensures MatchIndex(entries, nameEQ) == |entries| <==> FirstMatch(entries, nameEQ) == None
  {
    if |entries| > 0 && !Accepts(entries[0], nameEQ) {
      var rest := entries[1..];
      FirstMatchIndex(rest, nameEQ);
      forall j | 1 <= j < |entries| ensures entries[j] == rest[j - 1] {
      }
    }
  }

  /** `_readCookie(cookieName)` over the text of `document.cookie`. */
  method ReadCookie(documentCookie: string, cookieName: string) returns (v: Option<string>)
    ensures v == FirstMatch(Split(documentCookie, ';'), cookieName)
  {
    var ca := Split(documentCookie, ';');
    var i := 0;
    while i < |ca|
      invariant 0 <= i <= |ca|
      invariant FirstMatch(ca[i..], cookieName) == FirstMatch(ca, cookieName)
    {
      var c := ca[i];
      while |c| > 0 && c[0] == ' '
        invariant StripLeadingSpaces(c) == StripLeadingSpaces(ca[i])
      {
        c := c[1..];
      }
      if StartsWith(c, cookieName) {
        return Some(c[|cookieName|..]);
      }
      assert ca[i..][1..] == ca[i + 1..];
      i := i + 1;
    }
    return None;
  }

  // ---------------------------------------------------------------------
  // _writeCookie
  // ---------------------------------------------------------------------

  const MaxHours: int := 12

  /**
   * The lifetime `_writeCookie` gives a cookie: none for falsy `hours`
   * (here 0), otherwise `hours` capped at twelve.
   */
  function LifetimeHours(hours: int): (h: Option<int>)
    ensures h.None? <==> hours == 0
    ensures h.Some? ==> h.value <= MaxHours
    ensures h.Some? && hours <= MaxHours ==> h.value == hours
    ensures h.Some? && hours > MaxHours ==> h.value == MaxHours
  {
    if hours == 0 then None
    else if hours > MaxHours then Some(MaxHours)
    else Some(hours)
  }

  /**
   * The `expires` attribute: the current time in milliseconds plus the
   * lifetime, formatted by `Date.prototype.toGMTString` (a parameter).
   */
  function ExpiresAttribute(hours: int, nowMs: int, gmtString: int -> string): (e: string)
    ensures hours == 0 <==> e == ""
    ensures hours != 0 ==> e == "; expires=" + gmtString(nowMs + LifetimeHours(hours).value * 3600000)
  {
    var h := LifetimeHours(hours);
    if h.None? then "" else "; expires=" + gmtString(nowMs + h.value * 3600000)
  }

  /** The string `_writeCookie` assigns to `document.cookie`. */
  function CookieString(cookieName: string, value: string, hours: int, nowMs: int, gmtString: int -> string): string
  {
    cookieName + value + ExpiresAttribute(hours, nowMs, gmtString) + "; path=/"
  }

  // ---------------------------------------------------------------------
  // The browser's cookie jar (RFC 6265)
  // ---------------------------------------------------------------------

  /** A cookie name as the jar holds it. */
  predicate ValidName(n: string)
  {
    n != "" && n[0] != ' ' && '=' !in n && ';' !in n
  }

  /**
   * Section 5.2 of RFC 6265: the name-value-pair is the text before the
   * first `;`; the name is the text before its first `=` (leading spaces
   * removed) and the value the text after it. A pair without `=` or with
   * an empty name is ignored. Other whitespace trimming is not modelled.
   */
  function ParseNameValue(setCookie: string): (r: Option<(string, string)>)
    ensures r.Some? ==> ValidName(r.value.0) && ';' !in r.value.1
  {
    var pair := if ';' in setCookie then setCookie[..FirstIndex(setCookie, ';')] else setCookie;
    assert ';' !in pair;
    if '=' !in pair then None
    else
      var eq := FirstIndex(pair, '=');
      var name := StripLeadingSpaces(pair[..eq]);
      if name == "" then None
      else
        assert forall j :: 0 <= j < |name| ==> name[j] == pair[eq - |name| + j];
        Some((name, pair[eq + 1..]))
  }

  /**
   * Section 5.3 of RFC 6265, steps 11 and 12: a cookie with the name of a
   * stored one takes its place (and keeps its creation time, hence its
   * position); any other is added last.
   */
  function Store(jar: seq<(string, string)>, name: string, value: string): (r: seq<(string, string)>)
    ensures |r| == |jar| || |r| == |jar| + 1
    ensures (name, value) in r
    ensures forall c :: c in r ==> c == (name, value) || c in jar
    ensures forall c :: c in jar && c.0 != name ==> c in r
  {
    if |jar| == 0 then [(name, value)]
    else if jar[0].0 == name then [(name, value)] + jar[1..]
    else [jar[0]] + Store(jar[1..], name, value)
  }

  /** `document.cookie = setCookie`. */
  function StoreCookie(jar: seq<(string, string)>, setCookie: string): seq<(string, string)>
  {
    var nv := ParseNameValue(setCookie);
    if nv.None? then jar else Store(jar, nv.value.0, nv.value.1)
  }

  /** Stored names are distinct and well formed; values hold no `;`. */
  predicate ValidJar(jar: seq<(string, string)>)
  {
    (forall i :: 0 <= i < |jar| ==> ValidName(jar[i].0) && ';' !in jar[i].1)
    && (forall i, j :: 0 <= i < j < |jar| ==> jar[i].0 != jar[j].0)
  }

  lemma {:induction false} StoreValid(jar: seq<(string, string)>, name: string, value: string)
    requires ValidJar(jar) && ValidName(name) && ';' !in value
    ensures ValidJar(Store(jar, name, value))
  {
    if |jar| > 0 && jar[0].0 != name {
      assert ValidJar(jar[1..]) by {
        forall i, j | 0 <= i < j < |jar[1..]| ensures jar[1..][i].0 != jar[1..][j].0 {
          assert jar[1..][i] == jar[i + 1] && jar[1..][j] == jar[j + 1];
        }
      }
      StoreValid(jar[1..], name, value);
      var rest := Store(jar[1..], name, value);
      forall j | 0 <= j < |rest| ensures jar[0].0 != rest[j].0 {
        assert rest[j] in rest;
        if rest[j] != (name, value) {
          assert rest[j] in jar[1..];
        }
      }
    }
  }

  /** Storing keeps the jar well formed. */
  lemma StoreCookieValid(jar: seq<(string, string)>, setCookie: string)
    requires ValidJar(jar)
    ensures ValidJar(StoreCookie(jar, setCookie))
  {
    var nv := ParseNameValue(setCookie);
    if nv.Some? {
      StoreValid(jar, nv.value.0, nv.value.1);
    }
  }

  /** The entries of `document.cookie`: `name=value`, each after the first preceded by a space. */
  function HeaderEntries(jar: seq<(string, string)>): (es: seq<string>)
    ensures |es| == |jar|
    ensures forall i :: 0 <= i < |jar| ==> es[i] == (if i == 0 then "" else " ") + jar[i].0 + "=" + jar[i].1
  {
    seq(|jar|, i requires 0 <= i < |jar| => (if i == 0 then "" else " ") + jar[i].0 + "=" + jar[i].1)
  }

  /** Section 5.4 of RFC 6265: what a page reads from `document.cookie`, the pairs joined by `; `. */
  function CookieHeader(jar: seq<(string, string)>): string
  {
    Join(HeaderEntries(jar), ';')
  }

  lemma FirstIndexAt<T>(xs: seq<T>, x: T, p: nat)
    requires p < |xs| && xs[p] == x && x !in xs[..p]
    ensures FirstIndex(xs, x) == p
  {
    var i := FirstIndex(xs, x);
    assert forall j :: 0 <= j < i ==> xs[j] != x by {
      forall j | 0 <= j < i ensures xs[j] != x { assert xs[..i][j] == xs[j]; }
    }
    assert forall j :: 0 <= j < p ==> xs[j] != x by {
      forall j | 0 <= j < p ensures xs[j] != x { assert xs[..p][j] == xs[j]; }
    }
  }

  /** The text before the first `;` of `prefix + rest`, when `rest` starts with `;`. */
  lemma PairBeforeSemicolon(prefix: string, rest: string)
    requires ';' !in prefix && |rest| > 0 && rest[0] == ';'
    ensures ';' in prefix + rest && (prefix + rest)[..FirstIndex(prefix + rest, ';')] == prefix
  {
    var s := prefix + rest;
    assert s[|prefix|] == ';' && s[..|prefix|] == prefix;
    FirstIndexAt(s, ';', |prefix|);
  }

  /** A name-value-pair followed by attributes parses back to that name and value. */
  lemma ParsePair(name: string, value: string, rest: string)
    requires ValidName(name) && ';' !in value && |rest| > 0 && rest[0] == ';'
    ensures ParseNameValue(name + "=" + value + rest) == Some((name, value))
  {
    var pair := name + "=" + value;
    assert name + "=" + value + rest == pair + rest;
    assert ';' !in pair by {
      forall j | 0 <= j < |pair| ensures pair[j] != ';' {
        if j < |name| { assert pair[j] == name[j]; } else if j > |name| { assert pair[j] == value[j - |name| - 1]; }
      }
    }
    PairBeforeSemicolon(pair, rest);
    assert pair[|name|] == '=' && pair[..|name|] == name;
    FirstIndexAt(pair, '=', |name|);
    assert pair[|name| + 1..] == value;
  }

  /** What `_writeCookie` writes is read back by the browser as that name and value. */
  lemma WrittenPair(name: string, value: string, hours: int, nowMs: int, gmtString: int -> string)
    requires ValidName(name) && ';' !in value
    ensures ParseNameValue(CookieString(name + "=", value, hours, nowMs, gmtString)) == Some((name, value))
  {
    var rest := ExpiresAttribute(hours, nowMs, gmtString) + "; path=/";
    assert CookieString(name + "=", value, hours, nowMs, gmtString) == name + "=" + value + rest;
    assert rest[0] == ';';
    ParsePair(name, value, rest);
  }

  /** `name=` starts the entry of a cookie exactly when that cookie has the name. */
  lemma EntryMatches(name: string, n: string, v: string, lead: string)
    requires ValidName(name) && ValidName(n) && (lead == "" || lead == " ")
    ensures StripLeadingSpaces(lead + n + "=" + v) == n + "=" + v
    ensures StartsWith(n + "=" + v, name + "=") <==> n == name
  {
    if lead == " " {
      assert (lead + n + "=" + v)[1..] == n + "=" + v;
    } else {
      assert lead + n + "=" + v == n + "=" + v;
    }
    var e := n + "=" + v;
    var p := name + "=";
    if StartsWith(e, p) {
      assert forall j :: 0 <= j < |n| ==> e[j] == n[j] && n[j] != '=';
      assert forall j :: 0 <= j < |name| ==> p[j] == name[j] && name[j] != '=';
      assert e[|n|] == '=' && p[|name|] == '=';
      assert forall j :: 0 <= j < |p| ==> e[j] == p[j];
      assert |name| == |n|;
      assert n == name by {
        forall j | 0 <= j < |n| ensures n[j] == name[j] { assert e[j] == p[j]; }
      }
    }
  }

  /** A well-formed, non-empty jar reads back as its entries. */
  lemma HeaderSplit(jar: seq<(string, string)>)
    requires ValidJar(jar) && |jar| > 0
    ensures Split(CookieHeader(jar), ';') == HeaderEntries(jar)
  {
    var es := HeaderEntries(jar);
    forall i | 0 <= i < |es| ensures ';' !in es[i] {
      var e := es[i];
      var lead := if i == 0 then "" else " ";
      assert e == lead + jar[i].0 + "=" + jar[i].1;
      forall j | 0 <= j < |e| ensures e[j] != ';' {
        if j < |lead| {
        } else if j < |lead| + |jar[i].0| {
          assert e[j] == jar[i].0[j - |lead|];
        } else if j > |lead| + |jar[i].0| {
          assert e[j] == jar[i].1[j - |lead| - |jar[i].0| - 1];
        }
      }
    }
    JoinSplit(es, ';');
  }

  /** In a well-formed jar, the entry of the cookie named `name` is the first entry `_readCookie` accepts. */
  lemma FirstMatchInJar(jar: seq<(string, string)>, name: string, k: nat)
    requires ValidJar(jar) && ValidName(name) && k < |jar| && jar[k].0 == name
    ensures FirstMatch(HeaderEntries(jar), name + "=") == Some(jar[k].1)
  {
    var es := HeaderEntries(jar);
    forall i | 0 <= i < |es|
      ensures StripLeadingSpaces(es[i]) == jar[i].0 + "=" + jar[i].1
      ensures Accepts(es[i], name + "=") <==> i == k
    {
      EntryMatches(name, jar[i].0, jar[i].1, if i == 0 then "" else " ");
    }
    assert (name + "=" + jar[k].1)[|name + "="|..] == jar[k].1;
    FirstMatchOnly(es, name + "=", k);
  }

  /** When exactly one entry is accepted, `_readCookie` returns its rest. */
  lemma FirstMatchOnly(entries: seq<string>, nameEQ: string, k: nat)
    requires k < |entries| && Accepts(entries[k], nameEQ)
    requires forall i :: 0 <= i < |entries| && i != k ==> !Accepts(entries[i], nameEQ)
    ensures FirstMatch(entries, nameEQ) == Some(StripLeadingSpaces(entries[k])[|nameEQ|..])
  {
    FirstMatchIndex(entries, nameEQ);
  }

  /** Reading a cookie just written gives back the value written. */
  lemma ReadAfterWrite(jar: seq<(string, string)>, name: string, value: string, hours: int, nowMs: int, gmtString: int -> string)
    requires ValidJar(jar) && ValidName(name) && ';' !in value
    ensures FirstMatch(Split(CookieHeader(StoreCookie(jar, CookieString(name + "=", value, hours, nowMs, gmtString))), ';'), name + "=") == Some(value)
  {
    WrittenPair(name, value, hours, nowMs, gmtString);
    var jar' := Store(jar, name, value);
    assert StoreCookie(jar, CookieString(name + "=", value, hours, nowMs, gmtString)) == jar';
    StoreValid(jar, name, value);
    HeaderSplit(jar');
    var k :| 0 <= k < |jar'| && jar'[k] == (name, value);
    FirstMatchInJar(jar', name, k);
  }

  // ---------------------------------------------------------------------
  // getDictFromUrl
  // ---------------------------------------------------------------------

  /** `url.split(c)[1]`, when it exists and is not empty. */
  function SecondPiece(url: string, c: char): (p: Option<string>)
    ensures p.Some? ==> p.value != "" && c !in p.value
  {
    var pieces := Split(url, c);
    if |pieces| > 1 && pieces[1] != "" then Some(pieces[1]) else None
  }

  /**
   * The query `getDictFromUrl` parses: the fragment piece if non-empty,
   * else the search piece if non-empty; none for a falsy URL.
   */
  function QueryOf(url: Option<string>): (q: Option<string>)
    ensures url.None? || url == Some("") ==> q.None?
    ensures url.Some? && SecondPiece(url.value, '#').Some? ==> q == SecondPiece(url.value, '#')
  {
    if url.None? || url.value == "" then None
    else if SecondPiece(url.value, '#').Some? then SecondPiece(url.value, '#')
    else SecondPiece(url.value, '?')
  }

  /**
   * `decodeURIComponent(s)`: text without `%` is returned unchanged; the
   * decoding of escape sequences, which may raise `URIError`, is a parameter.
   */
  function DecodeUriComponent(s: string, decodeEscapes: string -> Result<string>): (r: Result<string>)
    ensures '%' !in s ==> r == Ok(s)
  {
    if '%' !in s then Ok(s) else decodeEscapes(s)
  }

  /** `item[1]` converted to a string: `"undefined"` when the part has no `=`. */
  function ItemValue(item: seq<string>): string
  {
    if |item| > 1 then item[1] else "undefined"
  }

  /** The key and the decoded value one `&`-separated part contributes. */
  function PartEntry(part: string, decodeEscapes: string -> Result<string>): Result<(string, string)>
  {
    var item := Split(part, '=');
    var v := DecodeUriComponent(ItemValue(item), decodeEscapes);
    if v.Err? then Err(v.error) else Ok((item[0], v.value))
  }

  /**
   * The one key an assignment on a plain `{}` does not store: it reaches the
   * inherited `__proto__` setter, which ignores a string.
   */
  const ProtoKey := "__proto__"

  /**
   * The object filled by `forEach` over the parts: a later part overwrites an
   * earlier key, and a `__proto__` part is decoded but stores nothing.
   */
  function QueryDict(parts: seq<string>, decodeEscapes: string -> Result<string>): Result<map<string, string>>
  {
    if |parts| == 0 then Ok(map[])
    else
      var init := QueryDict(parts[..|parts| - 1], decodeEscapes);
      var e := PartEntry(parts[|parts| - 1], decodeEscapes);
      if init.Err? then init
      else if e.Err? then Err(e.error)
      else if e.value.0 == ProtoKey then init
      else Ok(init.value[e.value.0 := e.value.1])
  }

  /** `getDictFromUrl(url)`; `None` is the `undefined` it returns without a query. */
  method GetDictFromUrl(url: Option<string>, decodeEscapes: string -> Result<string>) returns (r: Result<Option<map<string, string>>>)
    ensures QueryOf(url).None? ==> r == Ok(None)
    ensures QueryOf(url).Some? && QueryDict(Split(QueryOf(url).value, '&'), decodeEscapes).Err? ==>
      r == Err(QueryDict(Split(QueryOf(url).value, '&'), decodeEscapes).error)
    ensures QueryOf(url).Some? && QueryDict(Split(QueryOf(url).value, '&'), decodeEscapes).Ok? ==>
      r == Ok(Some(QueryDict(Split(QueryOf(url).value, '&'), decodeEscapes).value))
  {
    var query := QueryOf(url);
    if query.None? {
      return Ok(None);
    }
    var parts := Split(query.value, '&');
    var result: map<string, string> := map[];
    for i := 0 to |parts|
      invariant QueryDict(parts[..i], decodeEscapes) == Ok(result)
    {
      assert parts[..i + 1][..i] == parts[..i];
      var item := Split(parts[i], '=');
      var v := DecodeUriComponent(ItemValue(item), decodeEscapes);
      if v.Err? {
        QueryDictErrPrefix(parts, decodeEscapes, i + 1);
        return Err(v.error);
      }
      if item[0] != ProtoKey {
        result := result[item[0] := v.value];
      }
    }
    assert parts[..|parts|] == parts;
    return Ok(Some(result));
  }

  lemma {:induction false} QueryDictErrPrefix(parts: seq<string>, decodeEscapes: string -> Result<string>, i: nat)
    requires i <= |parts| && QueryDict(parts[..i], decodeEscapes).Err?
    ensures QueryDict(parts, decodeEscapes) == QueryDict(parts[..i], decodeEscapes)
    decreases |parts| - i
  {
    if i < |parts| {
      assert parts[..i + 1][..i] == parts[..i];
      QueryDictErrPrefix(parts, decodeEscapes, i + 1);
    } else {
      assert parts[..i] == parts;
    }
  }

  /** A parse that succeeds decoded every part. */
  lemma {:induction false} QueryDictDecodesAll(parts: seq<string>, decodeEscapes: string -> Result<string>)
    requires QueryDict(parts, decodeEscapes).Ok?
    ensures forall i :: 0 <= i < |parts| ==> PartEntry(parts[i], decodeEscapes).Ok?
  {
    if |parts| > 0 {
      var init := parts[..|parts| - 1];
      QueryDictDecodesAll(init, decodeEscapes);
      assert forall i :: 0 <= i < |init| ==> init[i] == parts[i];
    }
  }

  /** The keys are the parts' texts before their first `=`, except `__proto__`. */
  lemma {:induction false} QueryDictKeys(parts: seq<string>, decodeEscapes: string -> Result<string>)
    requires QueryDict(parts, decodeEscapes).Ok?
    ensures forall i :: 0 <= i < |parts| ==> PartEntry(parts[i], decodeEscapes).Ok?
    ensures forall k :: k in QueryDict(parts, decodeEscapes).value <==> k != ProtoKey && exists i :: 0 <= i < |parts| && Split(parts[i], '=')[0] == k
  {
    if |parts| > 0 {
      var init := parts[..|parts| - 1];
      var last := parts[|parts| - 1];
      QueryDictDecodesAll(parts, decodeEscapes);
      QueryDictKeys(init, decodeEscapes);
      assert forall i :: 0 <= i < |init| ==> init[i] == parts[i];
      var e := PartEntry(last, decodeEscapes);
      assert e.Ok? && e.value.0 == Split(last, '=')[0];
      var before := QueryDict(init, decodeEscapes).value;
      var d := QueryDict(parts, decodeEscapes).value;
      assert d == if e.value.0 == ProtoKey then before else before[e.value.0 := e.value.1];
      forall k
        ensures k in d <==> k != ProtoKey && exists i :: 0 <= i < |parts| && Split(parts[i], '=')[0] == k
      {
        if k in before {
          var i :| 0 <= i < |init| && Split(init[i], '=')[0] == k;
          assert Split(parts[i], '=')[0] == k;
        } else if k != ProtoKey && exists i :: 0 <= i < |parts| && Split(parts[i], '=')[0] == k {
          var i :| 0 <= i < |parts| && Split(parts[i], '=')[0] == k;
          assert i == |parts| - 1;
        }
      }
    }
  }

  /** Each key but `__proto__` holds the decoded value of the last part with that key; `__proto__` is never stored. */
  lemma {:induction false} QueryDictLast(parts: seq<string>, decodeEscapes: string -> Result<string>, i: nat)
    requires QueryDict(parts, decodeEscapes).Ok? && i < |parts|
    requires forall j :: i < j < |parts| ==> Split(parts[j], '=')[0] != Split(parts[i], '=')[0]
    ensures PartEntry(parts[i], decodeEscapes).Ok?
    ensures Split(parts[i], '=')[0] == ProtoKey ==> ProtoKey !in QueryDict(parts, decodeEscapes).value
    ensures Split(parts[i], '=')[0] != ProtoKey ==> Split(parts[i], '=')[0] in QueryDict(parts, decodeEscapes).value
    ensures Split(parts[i], '=')[0] != ProtoKey ==>
      QueryDict(parts, decodeEscapes).value[Split(parts[i], '=')[0]] == PartEntry(parts[i], decodeEscapes).value.1
  {
    var init := parts[..|parts| - 1];
    var last := parts[|parts| - 1];
    var e := PartEntry(last, decodeEscapes);
    assert e.Ok? && e.value.0 == Split(last, '=')[0];
    QueryDictKeys(parts, decodeEscapes);
    if i < |init| {
      assert init[i] == parts[i];
      assert forall j :: i < j < |init| ==> init[j] == parts[j];
      QueryDictLast(init, decodeEscapes, i);
    }
  }
}
