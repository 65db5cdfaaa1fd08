/**
 * emmaa/util/__init__.py: choosing the latest of a listing of S3 keys by the
 * date token in their file names, and wrapping INDRA statements as EMMAA
 * statements.
 */
module EmmaaUtil {
  import opened Wrappers
  import opened Strings
  import opened DateStamps
  import opened Indra
  import opened SearchTerms
  import opened EmmaaStatements

  // ---------------------------------------------------------------------
  // Path handling (os.path on POSIX)
  // ---------------------------------------------------------------------

  /** `os.path.basename(path)`: the text after the last `/`. */
  function Basename(path: string): (r: string)
    ensures '/' !in r
    ensures '/' !in path ==> r == path
  {
    path[LastIndexOf(path, '/') + 1..]
  }

  /**
   * `os.path.splitext(name)[0]` for a name without `/`: the text before the
   * last `.`, unless every character before that dot is itself a dot.
   */
  function SplitExtRoot(name: string): string
  {
    var dot := LastIndexOf(name, '.');
    if dot >= 0 && exists i | 0 <= i < dot :: name[i] != '.' then name[..dot] else name
  }

  /** The second `_`-separated piece of the basename without its extension. */
  function DateToken(key: string): Result<string>
  {
    var parts := Split(SplitExtRoot(Basename(key)), '_');
    if |parts| < 2 then Err(IndexError) else Ok(parts[1])
  }

  /** `process_key`: the date a key's token denotes; `ValueError` when it is not a stamp. */
  function ProcessKey(key: string): Result<DateTime>
  {
    var token := DateToken(key);
    if token.Err? then Err(token.error)
    else
      var d := ParseStamp(token.value);
      if d.None? then Err(ValueError) else Ok(d.value)
  }

  /** The dates of all keys, computed in listing order; the first failure is raised. */
  function ProcessKeys(keys: seq<string>): Result<seq<DateTime>>
  {
    MapAll(keys, ProcessKey)
  }

  /**
   * The index `sorted(..., reverse=True)[0]` lands on: a latest date, and
   * the first of several equal latest dates, because the sort is stable.
   */
  function LatestIndex(dates: seq<DateTime>): (k: nat)
    requires |dates| > 0
    ensures k < |dates|
    ensures forall j :: 0 <= j < |dates| ==> !Before(dates[k], dates[j])
    ensures forall j :: 0 <= j < k ==> Before(dates[j], dates[k])
  {
    if |dates| == 1 then BeforeOrder(); 0
    else
      var k := 1 + LatestIndex(dates[1..]);
      assert forall j :: 1 <= j < |dates| ==> dates[j] == dates[1..][j - 1];
      BeforeOrder();
      if Before(dates[0], dates[k]) then k else 0
  }

  /** Index `k` holds a key whose date is latest, and no earlier key has that date. */
  predicate IsLatestKey(listing: seq<string>, k: int)
  {
    0 <= k < |listing| && ProcessKey(listing[k]).Ok?
    && (forall j :: 0 <= j < |listing| ==> ProcessKey(listing[j]).Ok? && !Before(ProcessKey(listing[k]).value, ProcessKey(listing[j]).value))
    && (forall j :: 0 <= j < k ==> Before(ProcessKey(listing[j]).value, ProcessKey(listing[k]).value))
  }

  /**
   * `find_latest_s3_file(bucket, prefix)` over the listed keys: the key of
   * the latest date, the first such key on ties. Every key's date is computed
   * before anything is chosen, so one malformed key fails the call; an empty
   * listing raises `IndexError`.
   */
  function FindLatestS3File(listing: seq<string>): (r: Result<string>)
    ensures |listing| == 0 ==> r == Err(IndexError)
    ensures r.Ok? <==> |listing| > 0 && forall i :: 0 <= i < |listing| ==> ProcessKey(listing[i]).Ok?
    ensures r.Ok? ==> exists k :: IsLatestKey(listing, k) && r.value == listing[k]
    ensures r.Err? && |listing| > 0 ==> exists i :: 0 <= i < |listing| && ProcessKey(listing[i]) == Err(r.error)
  {
    var dates := ProcessKeys(listing);
    if dates.Err? then Err(dates.error)
    else if |dates.value| == 0 then Err(IndexError)
    else
      var k := LatestIndex(dates.value);
      assert IsLatestKey(listing, k);
      Ok(listing[k])
  }

  // ---------------------------------------------------------------------
  // Properties of the key format
  // ---------------------------------------------------------------------

  lemma LastIndexOfAt(s: string, c: char, p: nat)
    requires p < |s| && s[p] == c
    requires forall j :: p < j < |s| ==> s[j] != c
    ensures LastIndexOf(s, c) == p
  {
  }

  lemma BasenameOfPath(dir: string, base: string)
    requires '/' !in base
    ensures Basename(dir + "/" + base) == base
  {
    var key := dir + "/" + base;
    assert key[|dir|] == '/';
    forall j | |dir| < j < |key| ensures key[j] != '/' {
      assert key[j] == base[j - |dir| - 1];
    }
    LastIndexOfAt(key, '/', |dir|);
    assert key[|dir| + 1..] == base;
  }

  lemma SplitExtRootOfName(root: string, ext: string)
    requires exists i | 0 <= i < |root| :: root[i] != '.'
    requires |ext| >= 1 && ext[0] == '.' && '.' !in ext[1..]
    ensures SplitExtRoot(root + ext) == root
  {
    var name := root + ext;
    var dot := |root|;
    assert name[dot] == '.';
    forall j | dot < j < |name| ensures name[j] != '.' {
      assert name[j] == ext[1..][j - dot - 1];
    }
    LastIndexOfAt(name, '.', dot);
    var i :| 0 <= i < |root| && root[i] != '.';
    assert name[i] == root[i];
    assert name[..dot] == root;
  }

  /**
   * The date token of `dir/stem_token.ext` is `token`: the directory and the
   * extension are stripped and the basename is split on `_`.
   */
  lemma DateTokenOfKey(dir: string, stem: string, token: string, ext: string)
    requires '/' !in stem && '/' !in token && '/' !in ext
    requires '_' !in stem && '_' !in token && '.' !in token
    requires |ext| >= 1 && ext[0] == '.' && '.' !in ext[1..]
    ensures DateToken(dir + "/" + stem + "_" + token + ext) == Ok(token)
  {
    var root := stem + "_" + token;
    assert dir + "/" + stem + "_" + token + ext == dir + "/" + (root + ext);
    BasenameOfPath(dir, root + ext);
    assert root[|stem|] == '_';
    SplitExtRootOfName(root, ext);
    assert root == stem + ['_'] + token;
    SplitCons(stem, token, '_');
    SplitNoSep(token, '_');
  }

  /** A key whose basename has no `_` cannot be dated, so the whole listing fails. */
  lemma KeyWithoutUnderscoreFails(listing: seq<string>, i: nat)
    requires i < |listing| && '_' !in SplitExtRoot(Basename(listing[i]))
    ensures FindLatestS3File(listing).Err?
  {
    SplitNoSep(SplitExtRoot(Basename(listing[i])), '_');
  }

  /** With a single key, that key is returned whenever its date parses. */
  lemma SingleKeyIsLatest(key: string)
    requires ProcessKey(key).Ok?
    ensures FindLatestS3File([key]) == Ok(key)
  {
  }

  // ---------------------------------------------------------------------
  // to_emmaa_stmts
  // ---------------------------------------------------------------------

  /**
   * `to_emmaa_stmts(stmt_list, date, search_terms)`: one wrapper per
   * statement, in order, each carrying the same date and search terms.
   */
  method ToEmmaaStmts(stmtList: seq<Statement>, date: DateTime, searchTerms: seq<SearchTerm>)
    returns (r: seq<EmmaaStatement>)
    ensures |r| == |stmtList|
    ensures forall i :: 0 <= i < |r| ==> r[i].stmt == stmtList[i]
    ensures forall i :: 0 <= i < |r| ==> r[i].date == date && r[i].searchTerms == searchTerms && r[i].metadata == map[]
  {
    r := [];
    for i := 0 to |stmtList|
      invariant |r| == i
      invariant forall j :: 0 <= j < i ==> r[j] == EmmaaStatement(stmtList[j], date, searchTerms, map[])
    {
      r := r + [EmmaaStatement(stmtList[i], date, searchTerms, map[])];
    }
  }
}
