/**
 * emmaa/subscription/notifications.py and its older copy
 * emmaa/notifications.py: the per-user text and HTML reports of query
 * deltas, the model deltas read from the stored statistics, and the list of
 * update messages built from them.
 *
 * The database, the statistics files, the Jinja template, `_make_delta_msg`,
 * the Twitter credentials and the clock are parameters.
 */
module Notifications {
  import opened Wrappers
  import opened Strings
  import opened Seqs
  import opened JsonValues
  import opened EmailUtil

  // ---------------------------------------------------------------------
  // Text report
  // ---------------------------------------------------------------------

  const StaticHeader: string := "Updates " + "to your " + "static" + " queries:" + "\n"
  const OpenHeader: string := "Updates " + "to your " + "open" + " queries:" + "\n"
  const DynamicHeader: string := "Updates " + "to your " + "dynamic" + " queries:" + "\n"

  /**
   * One entry of a query delta, the fields of the Python tuple in order:
   * `(english_query, link, model, mc_type)` for static and open queries,
   * `(english_query, model, mc_type)` for dynamic ones.
   */
  type DeltaEntry = seq<string>

  /** The number of fields the report's loop unpacks from an entry. */
  function Arity(withLink: bool): nat
  {
    if withLink then 4 else 3
  }

  /** All entries have the number of fields the loop unpacks. */
  predicate Shaped(entries: seq<DeltaEntry>, withLink: bool)
  {
    forall i :: 0 <= i < |entries| ==> |entries[i]| == Arity(withLink)
  }

  /** `f'{english_query} in {model} using the {mc_type}.\n'`. */
  function EntryLine(englishQuery: string, model: string, mcType: string): string
  {
    englishQuery + " in " + model + " using the " + mcType + "." + "\n"
  }

  /** The line of one entry; unpacking a tuple of another length raises `ValueError`. */
  function LineOf(entry: DeltaEntry, withLink: bool): (r: Result<string>)
    ensures r.Ok? <==> |entry| == Arity(withLink)
    ensures r.Err? ==> r.error == ValueError
  {
    if |entry| != Arity(withLink) then Err(ValueError)
    else if withLink then Ok(EntryLine(entry[0], entry[2], entry[3]))
    else Ok(EntryLine(entry[0], entry[1], entry[2]))
  }

  function LineFn(withLink: bool): DeltaEntry -> Result<string>
  {
    e => LineOf(e, withLink)
  }

  /** The text one `if delta: ...` block adds: nothing for an empty delta, else the header and one line per entry. */
  function SectionText(header: string, entries: seq<DeltaEntry>, withLink: bool): Result<string>
  {
    if |entries| == 0 then Ok("")
    else
      var lines := MapAll(entries, LineFn(withLink));
      if lines.Err? then Err(lines.error) else Ok(header + Concat(lines.value))
  }

  /** What `make_str_report_per_user` returns or raises. */
  function StrReport(staticDelta: seq<DeltaEntry>, openDelta: seq<DeltaEntry>, dynamicDelta: seq<DeltaEntry>): Result<Option<string>>
  {
    if |staticDelta| == 0 && |openDelta| == 0 && |dynamicDelta| == 0 then Ok(None)
    else
      var a := SectionText(StaticHeader, staticDelta, true);
      var b := SectionText(OpenHeader, openDelta, true);
      var c := SectionText(DynamicHeader, dynamicDelta, false);
      if a.Err? then Err(a.error)
      else if b.Err? then Err(b.error)
      else if c.Err? then Err(c.error)
      else Ok(Some(a.value + b.value + c.value))
  }

  /** One `if delta:` block of the report: the header, then a line per entry, appended to `msg`. */
  method AppendSection(msg: string, header: string, entries: seq<DeltaEntry>, withLink: bool) returns (r: Result<string>)
    ensures r == (var t := SectionText(header, entries, withLink); if t.Err? then Err(t.error) else Ok(msg + t.value))
  {
    if |entries| == 0 {
      assert msg + "" == msg;
      return Ok(msg);
    }
    var out := msg + header;
    ghost var lines: seq<string> := [];
    var i := 0;
    while i < |entries|
      invariant 0 <= i <= |entries|
      invariant LinesSoFar(entries, i, withLink, lines)
      invariant out == msg + header + Concat(lines)
    {
      var line := LineOf(entries[i], withLink);
      if line.Err? {
        SectionFails(header, entries, i, withLink, lines);
        return Err(line.error);
      }
      SectionStep(entries, i, withLink, lines);
      ReportGrows(msg + header, lines, line.value);
      out := out + line.value;
      lines := lines + [line.value];
      i := i + 1;
    }
    SectionDone(header, entries, withLink, lines);
    assert out == msg + (header + Concat(lines));
    return Ok(out);
  }

  /** The first `i` entries have produced `lines`. */
  predicate LinesSoFar(entries: seq<DeltaEntry>, i: nat, withLink: bool, lines: seq<string>)
    requires i <= |entries|
  {
    MapAll(entries[..i], LineFn(withLink)) == Ok(lines) && Shaped(entries[..i], withLink)
  }

  lemma SectionStep(entries: seq<DeltaEntry>, i: nat, withLink: bool, lines: seq<string>)
    requires i < |entries| && LinesSoFar(entries, i, withLink, lines)
    requires LineOf(entries[i], withLink).Ok?
    ensures LinesSoFar(entries, i + 1, withLink, lines + [LineOf(entries[i], withLink).value])
  {
    assert entries[..i + 1] == entries[..i] + [entries[i]];
    MapAllSnoc(entries[..i], entries[i], LineFn(withLink));
  }

  lemma SectionFails(header: string, entries: seq<DeltaEntry>, i: nat, withLink: bool, lines: seq<string>)
    requires i < |entries| && LinesSoFar(entries, i, withLink, lines)
    requires LineOf(entries[i], withLink).Err?
    ensures SectionText(header, entries, withLink) == Err(LineOf(entries[i], withLink).error)
  {
    assert forall j :: 0 <= j < i ==> entries[..i][j] == entries[j];
    assert forall j :: 0 <= j < i ==> LineFn(withLink)(entries[j]).Ok?;
    MapAllFails(entries, i, LineFn(withLink));
  }

  /** Appending one more line to the report text extends the concatenation. */
  lemma ReportGrows(prefix: string, lines: seq<string>, line: string)
    ensures prefix + Concat(lines) + line == prefix + Concat(lines + [line])
  {
    ConcatAppend(lines, line);
  }

  lemma SectionDone(header: string, entries: seq<DeltaEntry>, withLink: bool, lines: seq<string>)
    requires |entries| > 0 && LinesSoFar(entries, |entries|, withLink, lines)
    ensures SectionText(header, entries, withLink) == Ok(header + Concat(lines))
  {
    assert entries[..|entries|] == entries;
  }

  /**
   * `make_str_report_per_user`: `None` when all three deltas are empty,
   * otherwise the static, open and dynamic sections in that order.
   */
  method MakeStrReportPerUser(staticDelta: seq<DeltaEntry>, openDelta: seq<DeltaEntry>, dynamicDelta: seq<DeltaEntry>)
    returns (r: Result<Option<string>>)
    ensures r == StrReport(staticDelta, openDelta, dynamicDelta)
  {
    if |staticDelta| == 0 && |openDelta| == 0 && |dynamicDelta| == 0 {
      return Ok(None);
    }
    var msg := "";
    var a := AppendSection(msg, StaticHeader, staticDelta, true);
    assert a.Ok? ==> a.value == SectionText(StaticHeader, staticDelta, true).value;
    if a.Err? {
      return Err(a.error);
    }
    var b := AppendSection(a.value, OpenHeader, openDelta, true);
    if b.Err? {
      return Err(b.error);
    }
    var c := AppendSection(b.value, DynamicHeader, dynamicDelta, false);
    if c.Err? {
      return Err(c.error);
    }
    assert c.value == a.value + SectionText(OpenHeader, openDelta, true).value
                      + SectionText(DynamicHeader, dynamicDelta, false).value;
    return Ok(Some(c.value));
  }

  /**
   * The report is `None` exactly when all three deltas are empty, and it
   * raises `ValueError` exactly when some entry has a field count the loop
   * does not unpack: four for static and open entries, three for dynamic
   * ones.
   */
  lemma StrReportOutcome(staticDelta: seq<DeltaEntry>, openDelta: seq<DeltaEntry>, dynamicDelta: seq<DeltaEntry>)
    ensures StrReport(staticDelta, openDelta, dynamicDelta) == Ok(None) <==> |staticDelta| == 0 && |openDelta| == 0 && |dynamicDelta| == 0
    ensures StrReport(staticDelta, openDelta, dynamicDelta).Err? <==> !(Shaped(staticDelta, true) && Shaped(openDelta, true) && Shaped(dynamicDelta, false))
    ensures StrReport(staticDelta, openDelta, dynamicDelta).Err? ==> StrReport(staticDelta, openDelta, dynamicDelta).error == ValueError
  {
    SectionOutcome(StaticHeader, staticDelta, true);
    SectionOutcome(OpenHeader, openDelta, true);
    SectionOutcome(DynamicHeader, dynamicDelta, false);
  }

  lemma SectionOutcome(header: string, entries: seq<DeltaEntry>, withLink: bool)
    ensures SectionText(header, entries, withLink).Err? <==> !Shaped(entries, withLink)
    ensures SectionText(header, entries, withLink).Err? ==> SectionText(header, entries, withLink).error == ValueError
  {
    if |entries| > 0 {
      var lines := MapAll(entries, LineFn(withLink));
      assert forall i :: 0 <= i < |entries| ==> (LineFn(withLink)(entries[i]).Ok? <==> |entries[i]| == Arity(withLink));
    }
  }

  /** The lines of one section, as a reference: the header, then one line per entry. */
  function SectionLines(header: string, entries: seq<DeltaEntry>, withLink: bool): seq<string>
    requires Shaped(entries, withLink)
  {
    if |entries| == 0 then []
    else [header] + seq(|entries|, i requires 0 <= i < |entries| => LineOf(entries[i], withLink).value)
  }

  /** The lines of the whole report, section by section. */
  function ReportLines(staticDelta: seq<DeltaEntry>, openDelta: seq<DeltaEntry>, dynamicDelta: seq<DeltaEntry>): seq<string>
    requires Shaped(staticDelta, true) && Shaped(openDelta, true) && Shaped(dynamicDelta, false)
  {
    SectionLines(StaticHeader, staticDelta, true) + SectionLines(OpenHeader, openDelta, true)
    + SectionLines(DynamicHeader, dynamicDelta, false)
  }

  /** 1 when the delta is non-empty (its section has a header), else 0. */
  function HeaderCount(entries: seq<DeltaEntry>): nat
  {
    if |entries| == 0 then 0 else 1
  }

  lemma SectionTextLines(header: string, entries: seq<DeltaEntry>, withLink: bool)
    requires Shaped(entries, withLink)
    ensures SectionText(header, entries, withLink) == Ok(Concat(SectionLines(header, entries, withLink)))
    ensures |SectionLines(header, entries, withLink)| == HeaderCount(entries) + |entries|
  {
    if |entries| == 0 {
      assert SectionLines(header, entries, withLink) == [];
    } else {
      var lines := MapAll(entries, LineFn(withLink));
      var body := seq(|entries|, i requires 0 <= i < |entries| => LineOf(entries[i], withLink).value);
      assert lines.Ok?;
      assert lines.value == body;
      ConcatPrepend(header, body);
    }
  }

  /**
   * A report over well-formed entries, when some delta is non-empty, is the
   * concatenation of its lines: a header for each non-empty delta, in the
   * order static, open, dynamic, each followed by one line per entry.
   */
  lemma StrReportLayout(staticDelta: seq<DeltaEntry>, openDelta: seq<DeltaEntry>, dynamicDelta: seq<DeltaEntry>)
    requires Shaped(staticDelta, true) && Shaped(openDelta, true) && Shaped(dynamicDelta, false)
    requires |staticDelta| + |openDelta| + |dynamicDelta| > 0
    ensures StrReport(staticDelta, openDelta, dynamicDelta) == Ok(Some(Concat(ReportLines(staticDelta, openDelta, dynamicDelta))))
    ensures |ReportLines(staticDelta, openDelta, dynamicDelta)|
            == HeaderCount(staticDelta) + |staticDelta| + HeaderCount(openDelta) + |openDelta| + HeaderCount(dynamicDelta) + |dynamicDelta|
  {
    var sa := SectionLines(StaticHeader, staticDelta, true);
    var sb := SectionLines(OpenHeader, openDelta, true);
    var sc := SectionLines(DynamicHeader, dynamicDelta, false);
    SectionTextLines(StaticHeader, staticDelta, true);
    SectionTextLines(OpenHeader, openDelta, true);
    SectionTextLines(DynamicHeader, dynamicDelta, false);
    ConcatJoin(sa, sb);
    ConcatJoin(sa + sb, sc);
  }

  /** No field of any entry holds a line break. */
  predicate SingleLineFields(entries: seq<DeltaEntry>)
  {
    forall i, j :: 0 <= i < |entries| && 0 <= j < |entries[i]| ==> '\n' !in entries[i][j]
  }

  lemma NoBreak(s: string)
    requires '\n' !in s
    ensures Count(s, '\n') == 0
  {
  }

  lemma HeadersSingleLine()
    ensures Count(StaticHeader, '\n') == 1 && Count(OpenHeader, '\n') == 1 && Count(DynamicHeader, '\n') == 1
  {
    var lead := "Updates " + "to your ";
    assert '\n' !in "Updates " && '\n' !in "to your ";
    assert '\n' !in lead;
    assert '\n' !in " queries:";
    forall kind | kind in {"static", "open", "dynamic"}
      ensures Count(lead + kind + " queries:" + "\n", '\n') == 1
    {
      assert '\n' !in lead + kind + " queries:";
      NoBreak(lead + kind + " queries:");
      CountConcat(lead + kind + " queries:", "\n", '\n');
    }
  }

  lemma EntryLineSingleLine(q: string, model: string, mc: string)
    requires '\n' !in q && '\n' !in model && '\n' !in mc
    ensures Count(EntryLine(q, model, mc), '\n') == 1
  {
    var text := q + " in " + model + " using the " + mc + ".";
    assert '\n' !in " in " && '\n' !in " using the " && '\n' !in ".";
    assert '\n' !in text;
    NoBreak(text);
    CountConcat(text, "\n", '\n');
  }

  lemma SectionSingleLines(header: string, entries: seq<DeltaEntry>, withLink: bool)
    requires Shaped(entries, withLink) && SingleLineFields(entries)
    requires Count(header, '\n') == 1
    ensures forall k :: 0 <= k < |SectionLines(header, entries, withLink)| ==> Count(SectionLines(header, entries, withLink)[k], '\n') == 1
  {
    var ls := SectionLines(header, entries, withLink);
    forall k | 0 <= k < |ls| ensures Count(ls[k], '\n') == 1 {
      if k > 0 {
        var e := entries[k - 1];
        assert '\n' !in e[0] && '\n' !in e[1] && '\n' !in e[2];
        if withLink {
          assert '\n' !in e[3];
          EntryLineSingleLine(e[0], e[2], e[3]);
        } else {
          EntryLineSingleLine(e[0], e[1], e[2]);
        }
      }
    }
  }

  /**
   * When no field holds a line break, the report has exactly one line per
   * entry plus one header line per non-empty delta.
   */
  lemma StrReportLineCount(staticDelta: seq<DeltaEntry>, openDelta: seq<DeltaEntry>, dynamicDelta: seq<DeltaEntry>)
    requires Shaped(staticDelta, true) && Shaped(openDelta, true) && Shaped(dynamicDelta, false)
    requires SingleLineFields(staticDelta) && SingleLineFields(openDelta) && SingleLineFields(dynamicDelta)
    requires |staticDelta| + |openDelta| + |dynamicDelta| > 0
    ensures StrReport(staticDelta, openDelta, dynamicDelta).Ok? && StrReport(staticDelta, openDelta, dynamicDelta).value.Some?
    ensures Count(StrReport(staticDelta, openDelta, dynamicDelta).value.value, '\n')
            == HeaderCount(staticDelta) + |staticDelta| + HeaderCount(openDelta) + |openDelta| + HeaderCount(dynamicDelta) + |dynamicDelta|
  {
    StrReportLayout(staticDelta, openDelta, dynamicDelta);
    HeadersSingleLine();
    SectionSingleLines(StaticHeader, staticDelta, true);
    SectionSingleLines(OpenHeader, openDelta, true);
    SectionSingleLines(DynamicHeader, dynamicDelta, false);
    var ls := ReportLines(staticDelta, openDelta, dynamicDelta);
    var sa := SectionLines(StaticHeader, staticDelta, true);
    var sb := SectionLines(OpenHeader, openDelta, true);
    forall k | 0 <= k < |ls| ensures Count(ls[k], '\n') == 1 {
      if k >= |sa| + |sb| {
        assert ls[k] == SectionLines(DynamicHeader, dynamicDelta, false)[k - |sa| - |sb|];
      } else if k >= |sa| {
        assert ls[k] == sb[k - |sa|];
      } else {
        assert ls[k] == sa[k];
      }
    }
    CountConcatOnce(ls, '\n');
  }

  /** Two staticDelta or openDelta deltas that differ only in their links. */
  predicate SameButLinks(a: seq<DeltaEntry>, b: seq<DeltaEntry>)
    requires Shaped(a, true) && Shaped(b, true)
  {
    |a| == |b| && forall i :: 0 <= i < |a| ==> a[i][0] == b[i][0] && a[i][2] == b[i][2] && a[i][3] == b[i][3]
  }

  /** The link field of staticDelta and openDelta entries does not reach the text report. */
  lemma StrReportIgnoresLinks(staticDelta: seq<DeltaEntry>, staticDelta': seq<DeltaEntry>, openDelta: seq<DeltaEntry>,
                              openDelta': seq<DeltaEntry>, dynamicDelta: seq<DeltaEntry>)
    requires Shaped(staticDelta, true) && Shaped(staticDelta', true) && Shaped(openDelta, true) && Shaped(openDelta', true)
    requires SameButLinks(staticDelta, staticDelta') && SameButLinks(openDelta, openDelta')
    ensures StrReport(staticDelta, openDelta, dynamicDelta) == StrReport(staticDelta', openDelta', dynamicDelta)
  {
    assert SectionLines(StaticHeader, staticDelta, true) == SectionLines(StaticHeader, staticDelta', true);
    assert SectionLines(OpenHeader, openDelta, true) == SectionLines(OpenHeader, openDelta', true);
    SectionTextLines(StaticHeader, staticDelta, true);
    SectionTextLines(StaticHeader, staticDelta', true);
    SectionTextLines(OpenHeader, openDelta, true);
    SectionTextLines(OpenHeader, openDelta', true);
  }

  // ---------------------------------------------------------------------
  // HTML report
  // ---------------------------------------------------------------------

  const DefaultDomain: string := "emmaa.indra.bio"

  /** `f'https://{domain}/query?tab={tab}'`. */
  function TabLink(domain: string, tab: string): string
  {
    "https://" + domain + "/query?tab=" + tab
  }

  /** An `EmailHtmlBody`: the domain and the three tab links set by `__init__`. */
  datatype EmailHtmlBody = EmailHtmlBody(domain: string, staticTabLink: string, dynamicTabLink: string, openTabLink: string)

  function NewEmailHtmlBody(domain: string): EmailHtmlBody
  {
    EmailHtmlBody(domain, TabLink(domain, "static"), TabLink(domain, "dynamic"), TabLink(domain, "open"))
  }

  /** The keyword arguments `render` hands to the template. */
  datatype HtmlArgs = HtmlArgs(staticTabLink: string, staticQueryDeltas: seq<DeltaEntry>, openTabLink: string,
                               openQueryDeltas: seq<DeltaEntry>, dynamicTabLink: string,
                               dynamicQueryDeltas: seq<DeltaEntry>, unsubLink: string)

  /**
   * `EmailHtmlBody.render`: `ValueError` when all deltas are empty,
   * otherwise the rendered template with every line break removed.
   */
  function Render(body: EmailHtmlBody, staticDelta: seq<DeltaEntry>, openDelta: seq<DeltaEntry>, dynamicDelta: seq<DeltaEntry>,
                  unsubLink: string, template: HtmlArgs -> string): (r: Result<string>)
    ensures r.Err? <==> |staticDelta| == 0 && |openDelta| == 0 && |dynamicDelta| == 0
    ensures r.Err? ==> r.error == ValueError
    ensures r.Ok? ==> '\n' !in r.value
  {
    if |staticDelta| == 0 && |openDelta| == 0 && |dynamicDelta| == 0 then Err(ValueError)
    else
      Ok(RemoveChar(template(HtmlArgs(body.staticTabLink, staticDelta, body.openTabLink, openDelta, body.dynamicTabLink,
                                      dynamicDelta, unsubLink)), '\n'))
  }

  /**
   * `make_html_report_per_user`: the unsubscribe link is made first (so a
   * missing signing key raises even for empty deltas), the body object is
   * made with its default domain, and `''` is returned when all deltas are
   * empty. The expiration of the link is a parameter.
   */
  function MakeHtmlReportPerUser(staticDelta: seq<DeltaEntry>, openDelta: seq<DeltaEntry>, dynamicDelta: seq<DeltaEntry>,
                                 email: string, domain: string, expiration: string, key: Option<string>,
                                 hmac: (string, string) -> string, quotePlus: string -> string,
                                 template: HtmlArgs -> string): (r: Result<string>)
    ensures !KeySet(key) ==> r == Err(ValueError)
    ensures KeySet(key) && |staticDelta| == 0 && |openDelta| == 0 && |dynamicDelta| == 0 ==> r == Ok("")
    ensures KeySet(key) ==> r.Ok?
    ensures r.Ok? ==> '\n' !in r.value
  {
    var link := GenerateUnsubscribeLink(email, expiration, domain, key, hmac, quotePlus);
    if link.Err? then Err(link.error)
    else
      var emailHtml := NewEmailHtmlBody(DefaultDomain);
      if |staticDelta| > 0 || |openDelta| > 0 || |dynamicDelta| > 0 then Render(emailHtml, staticDelta, openDelta, dynamicDelta, link.value, template)
      else Ok("")
  }

  /**
   * With some delta non-empty, the template receives the deltas, the
   * unsubscribe link for the caller's domain, and tab links on the default
   * domain whatever domain the caller passed.
   */
  lemma HtmlReportArguments(staticDelta: seq<DeltaEntry>, openDelta: seq<DeltaEntry>, dynamicDelta: seq<DeltaEntry>,
                            email: string, domain: string, expiration: string, key: Option<string>,
                            hmac: (string, string) -> string, quotePlus: string -> string,
                            template: HtmlArgs -> string)
    requires KeySet(key)
    requires |staticDelta| + |openDelta| + |dynamicDelta| > 0
    ensures var link := GenerateUnsubscribeLink(email, expiration, domain, key, hmac, quotePlus);
            && link.Ok? && "https://" + domain + UnsubscribePath <= link.value
            && MakeHtmlReportPerUser(staticDelta, openDelta, dynamicDelta, email, domain, expiration, key, hmac, quotePlus, template)
               == Ok(RemoveChar(template(HtmlArgs(TabLink(DefaultDomain, "static"), staticDelta,
                                                  TabLink(DefaultDomain, "open"), openDelta,
                                                  TabLink(DefaultDomain, "dynamic"), dynamicDelta, link.value)), '\n'))
  {
  }

  /**
   * `get_user_query_delta` (and `get_user_delta` in the older copy) for the
   * deltas the user's latest results yield: a missing text report becomes
   * `''` and an empty HTML report becomes `None`.
   */
  function GetUserQueryDelta(staticDelta: seq<DeltaEntry>, openDelta: seq<DeltaEntry>, dynamicDelta: seq<DeltaEntry>,
                             email: string, domain: string, expiration: string, key: Option<string>,
                             hmac: (string, string) -> string, quotePlus: string -> string,
                             template: HtmlArgs -> string): (r: Result<(string, Option<string>)>)
    ensures r.Ok? ==> r.value.1 != Some("")
    ensures r.Ok? ==> (r.value.0 == "" <==> |staticDelta| == 0 && |openDelta| == 0 && |dynamicDelta| == 0)
  {
    var strReport := StrReport(staticDelta, openDelta, dynamicDelta);
    if strReport.Err? then Err(strReport.error)
    else
      var text := if strReport.value.Some? then strReport.value.value else "";
      assert strReport.value.Some? ==> text != "" by {
        if strReport.value.Some? {
          StrReportNonEmpty(staticDelta, openDelta, dynamicDelta);
        }
      }
      var htmlReport := MakeHtmlReportPerUser(staticDelta, openDelta, dynamicDelta, email, domain, expiration, key, hmac, quotePlus, template);
      if htmlReport.Err? then Err(htmlReport.error)
      else Ok((text, if htmlReport.value != "" then Some(htmlReport.value) else None))
  }

  lemma StrReportNonEmpty(staticDelta: seq<DeltaEntry>, openDelta: seq<DeltaEntry>, dynamicDelta: seq<DeltaEntry>)
    requires StrReport(staticDelta, openDelta, dynamicDelta).Ok? && StrReport(staticDelta, openDelta, dynamicDelta).value.Some?
    ensures StrReport(staticDelta, openDelta, dynamicDelta).value.value != ""
  {
    var a := SectionText(StaticHeader, staticDelta, true);
    var b := SectionText(OpenHeader, openDelta, true);
    var c := SectionText(DynamicHeader, dynamicDelta, false);
    var r := a.value + b.value + c.value;
    if |staticDelta| > 0 {
      assert |a.value| >= |StaticHeader|;
    } else if |openDelta| > 0 {
      assert |b.value| >= |OpenHeader|;
    } else {
      assert |c.value| >= |DynamicHeader|;
    }
  }

  /**
   * A user gets both reports or neither: with the key set, well-formed
   * entries and a template that renders more than line breaks, the text
   * report is empty exactly when the HTML report is `None`.
   */
  lemma UserDeltaBothOrNeither(staticDelta: seq<DeltaEntry>, openDelta: seq<DeltaEntry>, dynamicDelta: seq<DeltaEntry>,
                               email: string, domain: string, expiration: string, key: Option<string>,
                               hmac: (string, string) -> string, quotePlus: string -> string,
                               template: HtmlArgs -> string)
    requires KeySet(key)
    requires Shaped(staticDelta, true) && Shaped(openDelta, true) && Shaped(dynamicDelta, false)
    requires forall args: HtmlArgs :: RemoveChar(template(args), '\n') != ""
    ensures GetUserQueryDelta(staticDelta, openDelta, dynamicDelta, email, domain, expiration, key, hmac, quotePlus, template).Ok?
    ensures var r := GetUserQueryDelta(staticDelta, openDelta, dynamicDelta, email, domain, expiration, key, hmac, quotePlus, template).value;
            r.0 == "" <==> r.1.None?
  {
    StrReportOutcome(staticDelta, openDelta, dynamicDelta);
  }

  // ---------------------------------------------------------------------
  // Model deltas
  // ---------------------------------------------------------------------

  const AppliedKey: string := "applied_hashes_delta"
  const PassedKey: string := "passed_hashes_delta"

  /** `len(x)`: the length of a list, string or dictionary; `TypeError` otherwise. */
  function Len(x: Json): (r: Result<nat>)
    ensures r.Ok? <==> x.JArr? || x.JStr? || x.JObj?
  {
    match x
    case JArr(items) => Ok(|items|)
    case JStr(s) => Ok(|s|)
    case JObj(fields) => Ok(|fields|)
    case _ => Err(TypeError)
  }

  /** `x[k]` applied to a value that may already have raised. */
  function Then(x: Result<Json>, k: string): Result<Json>
  {
    if x.Err? then x else Subscript(x.value, k)
  }

  /** `model_stats['model_delta']['statements_hashes_delta']`. */
  function StmtsDelta(modelStats: Json): Result<Json>
  {
    Then(Subscript(modelStats, "model_delta"), "statements_hashes_delta")
  }

  /** `len(model_stats['paper_delta']['raw_paper_ids_delta']['added'])`. */
  function NewPapers(modelStats: Json): Result<nat>
  {
    var added := Then(Then(Subscript(modelStats, "paper_delta"), "raw_paper_ids_delta"), "added");
    if added.Err? then Err(added.error) else Len(added.value)
  }

  /**
   * The test name of one corpus: `test_stats['test_round_summary']` must be
   * a dictionary (`.get` on anything else raises `AttributeError`); its
   * `test_data`, when truthy, must be one too, and gives its `name`.
   */
  function TestName(testStats: Json): (r: Result<Json>)
    ensures testStats.JNull? ==> r == Err(TypeError)
  {
    var summary := Subscript(testStats, "test_round_summary");
    if summary.Err? then Err(summary.error)
    else if !summary.value.JObj? then Err(AttributeError)
    else
      var testData := Get(summary.value.fields, "test_data");
      if !Truthy(testData) then Ok(JNull)
      else if !testData.JObj? then Err(AttributeError)
      else Ok(Get(testData.fields, "name"))
  }

  /** `test_stats['tests_delta'].items()`: the delta must be a dictionary. */
  function TestsDelta(testStats: Json): Result<map<string, Json>>
  {
    var delta := Subscript(testStats, "tests_delta");
    if delta.Err? then Err(delta.error)
    else if !delta.value.JObj? then Err(AttributeError)
    else Ok(delta.value.fields)
  }

  /** Every entry other than the applied one has a `passed_hashes_delta`. */
  predicate PassedOk(fields: map<string, Json>)
  {
    forall k :: k in fields && k != AppliedKey ==> Subscript(fields[k], PassedKey).Ok?
  }

  /** `test_deltas['applied_tests']` after the loop, read with `.get`. */
  function AppliedOf(fields: map<string, Json>): Option<Json>
  {
    if AppliedKey in fields then Some(fields[AppliedKey]) else None
  }

  /**
   * `passed` lists, once each, every model type of the delta with its
   * `passed_hashes_delta`.
   */
  predicate IsPassedOf(passed: seq<(string, Json)>, fields: map<string, Json>)
  {
    && (forall i, j :: 0 <= i < j < |passed| ==> passed[i].0 != passed[j].0)
    && (forall i :: 0 <= i < |passed| ==>
          passed[i].0 in fields && passed[i].0 != AppliedKey && Subscript(fields[passed[i].0], PassedKey) == Ok(passed[i].1))
    && (forall k :: k in fields && k != AppliedKey ==> exists i :: 0 <= i < |passed| && passed[i].0 == k)
  }

  /**
   * The inner loop of `get_model_deltas` over `tests_delta.items()`: the
   * applied entry is kept aside, every other entry gives its
   * `passed_hashes_delta` under its model type. The order of the entries is
   * the file's, which the model does not know; it picks them in any order.
   */
  method PassedDeltas(fields: map<string, Json>) returns (r: Result<(seq<(string, Json)>, Option<Json>)>)
    ensures r.Ok? <==> PassedOk(fields)
    ensures r.Ok? ==> IsPassedOf(r.value.0, fields) && r.value.1 == AppliedOf(fields)
    ensures r.Err? ==> exists k :: k in fields && k != AppliedKey && Subscript(fields[k], PassedKey) == Err(r.error)
  {
    var passed: seq<(string, Json)> := [];
    var applied: Option<Json> := None;
    var remaining := fields.Keys;
    while remaining != {}
      invariant remaining <= fields.Keys
      invariant applied == (if AppliedKey in fields && AppliedKey !in remaining then Some(fields[AppliedKey]) else None)
      invariant forall i, j :: 0 <= i < j < |passed| ==> passed[i].0 != passed[j].0
      invariant forall i :: 0 <= i < |passed| ==>
                  passed[i].0 in fields && passed[i].0 !in remaining && passed[i].0 != AppliedKey
                  && Subscript(fields[passed[i].0], PassedKey) == Ok(passed[i].1)
      invariant forall k :: k in fields && k !in remaining && k != AppliedKey ==>
                  Subscript(fields[k], PassedKey).Ok? && exists i :: 0 <= i < |passed| && passed[i].0 == k
      decreases remaining
    {
      var k :| k in remaining;
      if k == AppliedKey {
        applied := Some(fields[k]);
      } else {
        var v := Subscript(fields[k], PassedKey);
        if v.Err? {
          return Err(v.error);
        }
        ghost var before := passed;
        passed := passed + [(k, v.value)];
        assert forall i :: 0 <= i < |before| ==> passed[i] == before[i];
        assert passed[|passed| - 1].0 == k;
      }
      remaining := remaining - {k};
    }
    return Ok((passed, applied));
  }

  /** `deltas['tests'][corpus]`: the test name, the passed deltas per model type, and the applied delta if any. */
  datatype TestDelta = TestDelta(name: Json, passed: seq<(string, Json)>, appliedTests: Option<Json>)

  /** The statistics of one corpus yield a delta without raising. */
  predicate CorpusOk(testStats: Json)
  {
    TestName(testStats).Ok? && TestsDelta(testStats).Ok? && PassedOk(TestsDelta(testStats).value)
  }

  /** `delta` is what the loop body builds from `testStats`. */
  predicate IsTestDeltaOf(delta: TestDelta, testStats: Json)
  {
    && CorpusOk(testStats)
    && delta.name == TestName(testStats).value
    && IsPassedOf(delta.passed, TestsDelta(testStats).value)
    && delta.appliedTests == AppliedOf(TestsDelta(testStats).value)
  }

  /** The body of the loop over `test_stats_by_corpus.items()`, for one corpus. */
  method CorpusDelta(testStats: Json) returns (r: Result<TestDelta>)
    ensures r.Ok? <==> CorpusOk(testStats)
    ensures r.Ok? ==> IsTestDeltaOf(r.value, testStats)
    ensures TestName(testStats).Err? ==> r == Err(TestName(testStats).error)
  {
    var name := TestName(testStats);
    if name.Err? {
      return Err(name.error);
    }
    var fields := TestsDelta(testStats);
    if fields.Err? {
      return Err(fields.error);
    }
    var p := PassedDeltas(fields.value);
    if p.Err? {
      return Err(p.error);
    }
    return Ok(TestDelta(name.value, p.value.0, p.value.1));
  }

  /** A non-empty `deltas` dictionary. */
  datatype ModelDeltas = ModelDeltas(modelName: string, date: string, stmtsDelta: Json, newPapers: nat,
                                     tests: seq<(string, TestDelta)>)

  /**
   * `d` holds the given name and date, the model's statement and paper
   * deltas, and one test delta per distinct corpus, in order of first
   * mention.
   */
  predicate DeltasOf(d: ModelDeltas, modelName: string, date: string, modelStats: Json, testCorpora: seq<string>,
                     testStats: string -> Json)
  {
    && StmtsDelta(modelStats).Ok? && NewPapers(modelStats).Ok?
    && d.modelName == modelName && d.date == date
    && d.stmtsDelta == StmtsDelta(modelStats).value && d.newPapers == NewPapers(modelStats).value
    && |d.tests| == |Distinct(testCorpora)|
    && forall i :: 0 <= i < |d.tests| ==>
         d.tests[i].0 == Distinct(testCorpora)[i] && IsTestDeltaOf(d.tests[i].1, testStats(Distinct(testCorpora)[i]))
  }

  /**
   * What `get_model_deltas` may return: the empty dictionary (`Ok(None)`)
   * exactly when the model statistics are missing or no corpus is given;
   * success exactly then or when the statement and paper deltas and every
   * corpus's statistics are well formed, with the deltas of `DeltasOf`; and
   * `TypeError` when the first corpus has no statistics.
   */
  predicate ModelDeltasRead(r: Result<Option<ModelDeltas>>, modelName: string, testCorpora: seq<string>, date: string,
                            modelStats: Json, testStats: string -> Json)
  {
    && (r == Ok(None) <==> !Truthy(modelStats) || |testCorpora| == 0)
    && (r.Ok? <==> (!Truthy(modelStats) || |testCorpora| == 0
                    || (StmtsDelta(modelStats).Ok? && NewPapers(modelStats).Ok?
                        && forall i :: 0 <= i < |testCorpora| ==> CorpusOk(testStats(testCorpora[i])))))
    && (r.Ok? && r.value.Some? ==> DeltasOf(r.value.value, modelName, date, modelStats, testCorpora, testStats))
    && ((Truthy(modelStats) && StmtsDelta(modelStats).Ok? && NewPapers(modelStats).Ok?
         && |testCorpora| > 0 && testStats(testCorpora[0]).JNull?) ==> r == Err(TypeError))
  }

  /**
   * `get_model_deltas(model_name, test_corpora, date)`. The statistics
   * files are `modelStats` and `testStats(corpus)`, `JNull` for a missing
   * file. `Ok(None)` is the empty dictionary returned when the model
   * statistics are missing or no corpus is given. A corpus without
   * statistics does not take that exit: its `None` is stored and
   * subscripting it raises `TypeError`.
   */
  method GetModelDeltas(modelName: string, testCorpora: seq<string>, date: string, modelStats: Json,
                        testStats: string -> Json) returns (r: Result<Option<ModelDeltas>>)
    ensures ModelDeltasRead(r, modelName, testCorpora, date, modelStats, testStats)
  {
    var corpora, byCorpus := TestStatsByCorpus(testCorpora, testStats);
    if !Truthy(modelStats) || |byCorpus| == 0 {
      if |testCorpora| > 0 {
        assert testCorpora[0] in byCorpus;
      }
      return Ok(None);
    }
    var stmtsDelta := StmtsDelta(modelStats);
    if stmtsDelta.Err? {
      return Err(stmtsDelta.error);
    }
    var newPapers := NewPapers(modelStats);
    if newPapers.Err? {
      return Err(newPapers.error);
    }
    var tests := TestDeltas(corpora, byCorpus, testStats);
    if tests.Err? {
      FirstOfDistinct(testCorpora);
      return Err(tests.error);
    }
    forall i | 0 <= i < |testCorpora| ensures CorpusOk(testStats(testCorpora[i])) {
      assert testCorpora[i] in corpora;
    }
    return Ok(Some(ModelDeltas(modelName, date, stmtsDelta.value, newPapers.value, tests.value)));
  }

  /**
   * The first loop of `get_model_deltas`: `test_stats_by_corpus`, its keys
   * in insertion order and its values; a corpus named twice keeps its first
   * place.
   */
  method TestStatsByCorpus(testCorpora: seq<string>, testStats: string -> Json)
    returns (corpora: seq<string>, byCorpus: map<string, Json>)
    ensures corpora == Distinct(testCorpora)
    ensures byCorpus.Keys == set c | c in testCorpora
    ensures forall c :: c in byCorpus ==> byCorpus[c] == testStats(c)
  {
    corpora := [];
    byCorpus := map[];
    for i := 0 to |testCorpora|
      invariant corpora == Distinct(testCorpora[..i])
      invariant byCorpus.Keys == set c | c in corpora
      invariant forall c :: c in byCorpus ==> byCorpus[c] == testStats(c)
    {
      var c := testCorpora[i];
      assert testCorpora[..i + 1] == testCorpora[..i] + [c];
      if c !in byCorpus {
        corpora := corpora + [c];
      }
      byCorpus := byCorpus[c := testStats(c)];
    }
    assert testCorpora[..|testCorpora|] == testCorpora;
  }

  /**
   * The second loop of `get_model_deltas`, over the corpora in order: one
   * test delta per corpus, or the error of the first corpus that raises.
   */
  method TestDeltas(corpora: seq<string>, byCorpus: map<string, Json>, testStats: string -> Json)
    returns (r: Result<seq<(string, TestDelta)>>)
    requires forall c :: c in corpora ==> c in byCorpus && byCorpus[c] == testStats(c)
    ensures r.Ok? <==> forall i :: 0 <= i < |corpora| ==> CorpusOk(testStats(corpora[i]))
    ensures r.Ok? ==> |r.value| == |corpora|
                      && forall j :: 0 <= j < |corpora| ==>
                           r.value[j].0 == corpora[j] && IsTestDeltaOf(r.value[j].1, testStats(corpora[j]))
    ensures |corpora| > 0 && testStats(corpora[0]).JNull? ==> r == Err(TypeError)
  {
    var tests: seq<(string, TestDelta)> := [];
    for i := 0 to |corpora|
      invariant |tests| == i
      invariant forall j :: 0 <= j < i ==> tests[j].0 == corpora[j] && IsTestDeltaOf(tests[j].1, testStats(corpora[j]))
    {
      var delta := CorpusDelta(byCorpus[corpora[i]]);
      if delta.Err? {
        return Err(delta.error);
      }
      tests := tests + [(corpora[i], delta.value)];
    }
    return Ok(tests);
  }

  lemma FirstOfDistinct(xs: seq<string>)
    requires |xs| > 0
    ensures |Distinct(xs)| > 0 && Distinct(xs)[0] == xs[0]
    decreases |xs|
  {
    if |xs| > 1 {
      var init := xs[..|xs| - 1];
      FirstOfDistinct(init);
      assert init[0] == xs[0];
    }
  }

  // ---------------------------------------------------------------------
  // Update messages
  // ---------------------------------------------------------------------

  /**
   * The arguments of one `_make_delta_msg` call: model name, delta type
   * (`'stmts'`, `'applied_tests'` or `'passed_tests'`), delta, date, model
   * type, test corpus, test name, number of new papers, and whether the
   * message is for Twitter.
   */
  datatype DeltaMsgRequest = DeltaMsgRequest(modelName: string, deltaType: string, delta: Json, date: string,
                                             mcType: Option<string>, testCorpus: Option<string>, testName: Json,
                                             newPapers: Option<nat>, isTweet: bool)

  function StmtsRequest(d: ModelDeltas, isTweet: bool): DeltaMsgRequest
  {
    DeltaMsgRequest(d.modelName, "stmts", d.stmtsDelta, d.date, None, None, JNull, Some(d.newPapers), isTweet)
  }

  /** `test_delta.get('applied_tests')` is `None` when the corpus had no applied delta. */
  function AppliedRequest(d: ModelDeltas, corpus: string, t: TestDelta, isTweet: bool): DeltaMsgRequest
  {
    var applied := if t.appliedTests.Some? then t.appliedTests.value else JNull;
    DeltaMsgRequest(d.modelName, "applied_tests", applied, d.date, None, Some(corpus), t.name, None, isTweet)
  }

  function PassedRequest(d: ModelDeltas, corpus: string, t: TestDelta, mcType: string, delta: Json, isTweet: bool): DeltaMsgRequest
  {
    DeltaMsgRequest(d.modelName, "passed_tests", delta, d.date, Some(mcType), Some(corpus), t.name, None, isTweet)
  }

  /** The passed requests of one corpus, one per model type in order. */
  function PassedRequests(d: ModelDeltas, corpus: string, t: TestDelta, passed: seq<(string, Json)>, isTweet: bool): seq<DeltaMsgRequest>
  {
    if |passed| == 0 then []
    else
      var last := passed[|passed| - 1];
      PassedRequests(d, corpus, t, passed[..|passed| - 1], isTweet) + [PassedRequest(d, corpus, t, last.0, last.1, isTweet)]
  }

  /** For each corpus in order, its applied request followed by its passed requests. */
  function TestRequests(d: ModelDeltas, tests: seq<(string, TestDelta)>, isTweet: bool): seq<DeltaMsgRequest>
  {
    if |tests| == 0 then []
    else
      var last := tests[|tests| - 1];
      TestRequests(d, tests[..|tests| - 1], isTweet) + [AppliedRequest(d, last.0, last.1, isTweet)]
      + PassedRequests(d, last.0, last.1, last.1.passed, isTweet)
  }

  /** Every `_make_delta_msg` call `get_all_update_messages` makes, in order. */
  function Requests(d: ModelDeltas, isTweet: bool): seq<DeltaMsgRequest>
  {
    [StmtsRequest(d, isTweet)] + TestRequests(d, d.tests, isTweet)
  }

  /**
   * The messages kept from a list of calls: `deltaMsg` gives the message of
   * a truthy result and `None` for a falsy one, which is dropped.
   */
  function Kept(requests: seq<DeltaMsgRequest>, deltaMsg: DeltaMsgRequest -> Option<string>): seq<string>
  {
    if |requests| == 0 then []
    else
      var m := deltaMsg(requests[|requests| - 1]);
      Kept(requests[..|requests| - 1], deltaMsg) + (if m.Some? then [m.value] else [])
  }

  lemma {:induction false} KeptAppend(a: seq<DeltaMsgRequest>, b: seq<DeltaMsgRequest>, deltaMsg: DeltaMsgRequest -> Option<string>)
    ensures Kept(a + b, deltaMsg) == Kept(a, deltaMsg) + Kept(b, deltaMsg)
    decreases |b|
  {
    if |b| == 0 {
      assert a + b == a;
    } else {
      var b' := b[..|b| - 1];
      assert (a + b)[..|a + b| - 1] == a + b';
      KeptAppend(a, b', deltaMsg);
    }
  }

  lemma KeptOne(x: DeltaMsgRequest, deltaMsg: DeltaMsgRequest -> Option<string>)
    ensures Kept([x], deltaMsg) == if deltaMsg(x).Some? then [deltaMsg(x).value] else []
  {
    assert [x][..0] == [];
  }

  /** Kept messages of one more call. */
  lemma KeptSnoc(a: seq<DeltaMsgRequest>, x: DeltaMsgRequest, deltaMsg: DeltaMsgRequest -> Option<string>)
    ensures Kept(a + [x], deltaMsg) == Kept(a, deltaMsg) + (if deltaMsg(x).Some? then [deltaMsg(x).value] else [])
  {
    assert (a + [x])[..|a|] == a;
  }

  /** The inner loop over the model types of one corpus, appending to `msgs`. */
  method AppendPassedMessages(msgs: seq<string>, d: ModelDeltas, corpus: string, t: TestDelta, isTweet: bool,
                              deltaMsg: DeltaMsgRequest -> Option<string>) returns (out: seq<string>)
    ensures out == msgs + Kept(PassedRequests(d, corpus, t, t.passed, isTweet), deltaMsg)
  {
    out := msgs;
    for j := 0 to |t.passed|
      invariant out == msgs + Kept(PassedRequests(d, corpus, t, t.passed[..j], isTweet), deltaMsg)
    {
      var passedMsg := deltaMsg(PassedRequest(d, corpus, t, t.passed[j].0, t.passed[j].1, isTweet));
      ghost var added := if passedMsg.Some? then [passedMsg.value] else [];
      ghost var kept := Kept(PassedRequests(d, corpus, t, t.passed[..j], isTweet), deltaMsg);
      KeptPassedStep(d, corpus, t, j, isTweet, deltaMsg);
      if passedMsg.Some? {
        out := out + [passedMsg.value];
      }
      assert out == msgs + kept + added;
    }
    assert t.passed[..|t.passed|] == t.passed;
  }

  /** The kept messages of the first `j + 1` model types: those of the first `j`, then type `j`'s. */
  lemma KeptPassedStep(d: ModelDeltas, corpus: string, t: TestDelta, j: nat, isTweet: bool,
                       deltaMsg: DeltaMsgRequest -> Option<string>)
    requires j < |t.passed|
    ensures var m := deltaMsg(PassedRequest(d, corpus, t, t.passed[j].0, t.passed[j].1, isTweet));
            Kept(PassedRequests(d, corpus, t, t.passed[..j + 1], isTweet), deltaMsg)
            == Kept(PassedRequests(d, corpus, t, t.passed[..j], isTweet), deltaMsg) + (if m.Some? then [m.value] else [])
  {
    assert t.passed[..j + 1][..j] == t.passed[..j];
    KeptSnoc(PassedRequests(d, corpus, t, t.passed[..j], isTweet), PassedRequest(d, corpus, t, t.passed[j].0, t.passed[j].1, isTweet), deltaMsg);
  }

  lemma AppendAssoc(a: seq<string>, b: seq<string>, c: seq<string>, e: seq<string>)
    ensures a + b + c + e == a + (b + c + e)
  {
  }

  /** The requests of the first `i + 1` corpora: those of the first `i`, then corpus `i`'s. */
  lemma TestRequestsSnoc(d: ModelDeltas, tests: seq<(string, TestDelta)>, i: nat, isTweet: bool)
    requires i < |tests|
    ensures TestRequests(d, tests[..i + 1], isTweet)
            == TestRequests(d, tests[..i], isTweet) + [AppliedRequest(d, tests[i].0, tests[i].1, isTweet)]
               + PassedRequests(d, tests[i].0, tests[i].1, tests[i].1.passed, isTweet)
  {
    assert tests[..i + 1][..i] == tests[..i];
  }

  /** The kept messages of the first `i + 1` corpora: those of the first `i`, then corpus `i`'s. */
  lemma KeptTestStep(d: ModelDeltas, tests: seq<(string, TestDelta)>, i: nat, isTweet: bool,
                     deltaMsg: DeltaMsgRequest -> Option<string>)
    requires i < |tests|
    ensures var applied := AppliedRequest(d, tests[i].0, tests[i].1, isTweet);
            Kept(TestRequests(d, tests[..i + 1], isTweet), deltaMsg)
            == Kept(TestRequests(d, tests[..i], isTweet), deltaMsg)
               + (if deltaMsg(applied).Some? then [deltaMsg(applied).value] else [])
               + Kept(PassedRequests(d, tests[i].0, tests[i].1, tests[i].1.passed, isTweet), deltaMsg)
  {
    var done := TestRequests(d, tests[..i], isTweet);
    var applied := AppliedRequest(d, tests[i].0, tests[i].1, isTweet);
    var passed := PassedRequests(d, tests[i].0, tests[i].1, tests[i].1.passed, isTweet);
    TestRequestsSnoc(d, tests, i, isTweet);
    KeptAppend(done + [applied], passed, deltaMsg);
    KeptSnoc(done, applied, deltaMsg);
  }

  /**
   * `get_all_update_messages(deltas, is_tweet)`: the messages of the
   * statements delta, then for each corpus of its applied-tests delta and
   * of its passed-tests delta per model type, dropping falsy results. The
   * empty dictionary raises `KeyError` at `deltas['model_name']`.
   */
  method GetAllUpdateMessages(deltas: Option<ModelDeltas>, isTweet: bool, deltaMsg: DeltaMsgRequest -> Option<string>)
    returns (r: Result<seq<string>>)
    ensures deltas.None? ==> r == Err(KeyError)
    ensures deltas.Some? ==> r == Ok(Kept(Requests(deltas.value, isTweet), deltaMsg))
  {
    if deltas.None? {
      return Err(KeyError);
    }
    var d := deltas.value;
    var msgs: seq<string> := [];
    var stmtsMsg := deltaMsg(StmtsRequest(d, isTweet));
    if stmtsMsg.Some? {
      msgs := msgs + [stmtsMsg.value];
    }
    KeptSnoc([], StmtsRequest(d, isTweet), deltaMsg);
    ghost var head := msgs;
    for i := 0 to |d.tests|
      invariant msgs == head + Kept(TestRequests(d, d.tests[..i], isTweet), deltaMsg)
    {
      var corpus := d.tests[i].0;
      var t := d.tests[i].1;
      ghost var before := msgs;
      var appliedMsg := deltaMsg(AppliedRequest(d, corpus, t, isTweet));
      ghost var applied: seq<string> := if appliedMsg.Some? then [appliedMsg.value] else [];
      if appliedMsg.Some? {
        msgs := msgs + [appliedMsg.value];
      }
      assert msgs == before + applied;
      msgs := AppendPassedMessages(msgs, d, corpus, t, isTweet, deltaMsg);
      ghost var passed := Kept(PassedRequests(d, corpus, t, t.passed, isTweet), deltaMsg);
      KeptTestStep(d, d.tests, i, isTweet, deltaMsg);
      AppendAssoc(head, Kept(TestRequests(d, d.tests[..i], isTweet), deltaMsg), applied, passed);
    }
    assert d.tests[..|d.tests|] == d.tests;
    KeptAppend([StmtsRequest(d, isTweet)], TestRequests(d, d.tests, isTweet), deltaMsg);
    return Ok(msgs);
  }

  /** The passed requests of a corpus are one per model type, in the order of its passed deltas. */
  lemma {:induction false} PassedRequestsAt(d: ModelDeltas, corpus: string, t: TestDelta, passed: seq<(string, Json)>,
                                            isTweet: bool)
    ensures |PassedRequests(d, corpus, t, passed, isTweet)| == |passed|
    ensures forall j :: 0 <= j < |passed| ==>
              PassedRequests(d, corpus, t, passed, isTweet)[j] == PassedRequest(d, corpus, t, passed[j].0, passed[j].1, isTweet)
    decreases |passed|
  {
    if |passed| > 0 {
      PassedRequestsAt(d, corpus, t, passed[..|passed| - 1], isTweet);
    }
  }

  /** The requests of the first `i` corpora come first among those of all corpora. */
  lemma {:induction false} TestRequestsPrefix(d: ModelDeltas, tests: seq<(string, TestDelta)>, i: nat, isTweet: bool)
    requires i <= |tests|
    ensures TestRequests(d, tests[..i], isTweet) <= TestRequests(d, tests, isTweet)
    decreases |tests|
  {
    if i == |tests| {
      assert tests[..i] == tests;
    } else {
      var init := tests[..|tests| - 1];
      TestRequestsPrefix(d, init, i, isTweet);
      assert init[..i] == tests[..i];
    }
  }

  /**
   * The order of `get_all_update_messages`' calls: the statements request
   * first, then, for corpus `i` after all requests of the corpora before it,
   * its applied request followed by one passed request per model type.
   */
  lemma RequestsOrder(d: ModelDeltas, i: nat, isTweet: bool)
    requires i < |d.tests|
    ensures Requests(d, isTweet)[0] == StmtsRequest(d, isTweet)
    ensures var start := 1 + |TestRequests(d, d.tests[..i], isTweet)|;
            var t := d.tests[i].1;
            && start + 1 + |t.passed| <= |Requests(d, isTweet)|
            && Requests(d, isTweet)[start] == AppliedRequest(d, d.tests[i].0, t, isTweet)
  {
    var corpus := d.tests[i].0;
    var t := d.tests[i].1;
    TestRequestsPrefix(d, d.tests, i + 1, isTweet);
    TestRequestsSnoc(d, d.tests, i, isTweet);
    SpliceAt(StmtsRequest(d, isTweet), TestRequests(d, d.tests[..i], isTweet), AppliedRequest(d, corpus, t, isTweet),
             PassedRequests(d, corpus, t, t.passed, isTweet), TestRequests(d, d.tests[..i + 1], isTweet), Requests(d, isTweet));
    PassedRequestsAt(d, corpus, t, t.passed, isTweet);
  }

  /** The `j`-th passed request of corpus `i` comes `j + 1` places after that corpus's applied request. */
  lemma PassedRequestOrder(d: ModelDeltas, i: nat, j: nat, isTweet: bool)
    requires i < |d.tests| && j < |d.tests[i].1.passed|
    ensures var start := 1 + |TestRequests(d, d.tests[..i], isTweet)|;
            var t := d.tests[i].1;
            && start + 1 + j < |Requests(d, isTweet)|
            && Requests(d, isTweet)[start + 1 + j] == PassedRequest(d, d.tests[i].0, t, t.passed[j].0, t.passed[j].1, isTweet)
  {
    var corpus := d.tests[i].0;
    var t := d.tests[i].1;
    var passed := PassedRequests(d, corpus, t, t.passed, isTweet);
    TestRequestsPrefix(d, d.tests, i + 1, isTweet);
    TestRequestsSnoc(d, d.tests, i, isTweet);
    SpliceAt(StmtsRequest(d, isTweet), TestRequests(d, d.tests[..i], isTweet), AppliedRequest(d, corpus, t, isTweet),
             passed, TestRequests(d, d.tests[..i + 1], isTweet), Requests(d, isTweet));
    PassedRequestsAt(d, corpus, t, t.passed, isTweet);
    assert passed[j] == PassedRequest(d, corpus, t, t.passed[j].0, t.passed[j].1, isTweet);
  }

  /** Where the parts of `[first] + done + [next] + rest` sit in a list that starts with it. */
  lemma SpliceAt<T>(first: T, done: seq<T>, next: T, rest: seq<T>, upTo: seq<T>, all: seq<T>)
    requires upTo == done + [next] + rest
    requires [first] + upTo <= all
    ensures all[0] == first
    ensures 1 + |done| + 1 + |rest| <= |all|
    ensures all[1 + |done|] == next
    ensures forall j :: 0 <= j < |rest| ==> all[1 + |done| + 1 + j] == rest[j]
  {
    assert ([first] + upTo)[0] == first;
    assert ([first] + upTo)[1 + |done|] == next;
    forall j | 0 <= j < |rest| ensures all[1 + |done| + 1 + j] == rest[j] {
      assert ([first] + upTo)[1 + |done| + 1 + j] == rest[j];
    }
  }

  /** The number of `_make_delta_msg` calls for the given corpora: one applied call and one per model type each. */
  function RequestCount(tests: seq<(string, TestDelta)>): nat
  {
    if |tests| == 0 then 0 else RequestCount(tests[..|tests| - 1]) + 1 + |tests[|tests| - 1].1.passed|
  }

  lemma {:induction false} TestRequestsLength(d: ModelDeltas, tests: seq<(string, TestDelta)>, isTweet: bool)
    ensures |TestRequests(d, tests, isTweet)| == RequestCount(tests)
    decreases |tests|
  {
    if |tests| > 0 {
      var last := tests[|tests| - 1];
      TestRequestsLength(d, tests[..|tests| - 1], isTweet);
      PassedRequestsAt(d, last.0, last.1, last.1.passed, isTweet);
    }
  }

  /**
   * At most one message per call; exactly one per call iff every call's
   * result is truthy, and then the messages are those results in call order.
   */
  lemma {:induction false} KeptLength(requests: seq<DeltaMsgRequest>, deltaMsg: DeltaMsgRequest -> Option<string>)
    ensures |Kept(requests, deltaMsg)| <= |requests|
    ensures |Kept(requests, deltaMsg)| == |requests| <==> forall i :: 0 <= i < |requests| ==> deltaMsg(requests[i]).Some?
    ensures (forall i :: 0 <= i < |requests| ==> deltaMsg(requests[i]).Some?) ==>
              forall i :: 0 <= i < |requests| ==> Kept(requests, deltaMsg)[i] == deltaMsg(requests[i]).value
    decreases |requests|
  {
    if |requests| > 0 {
      var init := requests[..|requests| - 1];
      KeptLength(init, deltaMsg);
      assert forall i :: 0 <= i < |init| ==> init[i] == requests[i];
    }
  }

  /**
   * One corpus with four model types, every message truthy, gives six
   * messages: the statements message, the applied message and four passed
   * messages.
   */
  lemma SixMessagesForOneCorpus(d: ModelDeltas, isTweet: bool, deltaMsg: DeltaMsgRequest -> Option<string>)
    requires |d.tests| == 1 && |d.tests[0].1.passed| == 4
    requires forall x :: deltaMsg(x).Some?
    ensures |Kept(Requests(d, isTweet), deltaMsg)| == 6
  {
    TestRequestsLength(d, d.tests, isTweet);
    assert d.tests[..0] == [];
    KeptLength(Requests(d, isTweet), deltaMsg);
  }

  /**
   * `model_update_notify`. `twitterCred` is whether a Twitter credential
   * was found for the model and `hasUsers` whether any user subscribed to
   * it. Without either, nothing happens. Otherwise the deltas are read;
   * with a credential, `tweet_deltas(deltas)` is called without its second
   * argument, which raises `TypeError`; with users, the email text (the
   * messages joined by line breaks) is built, and it is what
   * `Some` carries here. Empty deltas make `get_all_update_messages` raise
   * `KeyError`. `deltas` is what `get_model_deltas` returned, when it was
   * called.
   */
  method ModelUpdateNotify(modelName: string, testCorpora: seq<string>, date: string, twitterCred: bool, hasUsers: bool,
                           modelStats: Json, testStats: string -> Json, deltaMsg: DeltaMsgRequest -> Option<string>)
    returns (r: Result<Option<string>>, deltas: Option<Result<Option<ModelDeltas>>>)
    ensures !twitterCred && !hasUsers ==> r == Ok(None) && deltas.None?
    ensures twitterCred || hasUsers ==>
              deltas.Some? && ModelDeltasRead(deltas.value, modelName, testCorpora, date, modelStats, testStats)
    ensures deltas.Some? && deltas.value.Err? ==> r == Err(deltas.value.error)
    ensures twitterCred ==> r.Err?
    ensures twitterCred && deltas.Some? && deltas.value.Ok? ==> r == Err(TypeError)
    ensures hasUsers && !twitterCred && deltas == Some(Ok(None)) ==> r == Err(KeyError)
    ensures hasUsers && !twitterCred && (!Truthy(modelStats) || |testCorpora| == 0) ==> r == Err(KeyError)
    ensures hasUsers && !twitterCred && deltas.Some? && deltas.value.Ok? && deltas.value.value.Some? ==>
              r == Ok(Some(Join(Kept(Requests(deltas.value.value.value, false), deltaMsg), '\n')))
  {
    if !twitterCred && !hasUsers {
      return Ok(None), None;
    }
    var read := GetModelDeltas(modelName, testCorpora, date, modelStats, testStats);
    deltas := Some(read);
    if read.Err? {
      return Err(read.error), deltas;
    }
    if twitterCred {
      return Err(TypeError), deltas;
    }
    var msgs := GetAllUpdateMessages(read.value, false, deltaMsg);
    if msgs.Err? {
      return Err(msgs.error), deltas;
    }
    return Ok(Some(Join(msgs.value, '\n'))), deltas;
  }

  /** The email text splits back into the kept messages when no message holds a line break. */
  lemma EmailTextLines(d: ModelDeltas, deltaMsg: DeltaMsgRequest -> Option<string>)
    requires |Kept(Requests(d, false), deltaMsg)| > 0
    requires forall x :: deltaMsg(x).Some? ==> '\n' !in deltaMsg(x).value
    ensures Split(Join(Kept(Requests(d, false), deltaMsg), '\n'), '\n') == Kept(Requests(d, false), deltaMsg)
  {
    var msgs := Kept(Requests(d, false), deltaMsg);
    KeptFrom(Requests(d, false), deltaMsg);
    forall k | 0 <= k < |msgs| ensures '\n' !in msgs[k] {
      assert msgs[k] in msgs;
    }
    JoinSplit(Kept(Requests(d, false), deltaMsg), '\n');
  }

  /** Every kept message is the truthy result of one of the calls. */
  lemma {:induction false} KeptFrom(requests: seq<DeltaMsgRequest>, deltaMsg: DeltaMsgRequest -> Option<string>)
    ensures forall m :: m in Kept(requests, deltaMsg) ==>
              exists i :: 0 <= i < |requests| && deltaMsg(requests[i]) == Some(m)
    decreases |requests|
  {
    if |requests| > 0 {
      var init := requests[..|requests| - 1];
      KeptFrom(init, deltaMsg);
      forall m | m in Kept(requests, deltaMsg)
        ensures exists i :: 0 <= i < |requests| && deltaMsg(requests[i]) == Some(m)
      {
        if m in Kept(init, deltaMsg) {
          var i :| 0 <= i < |init| && deltaMsg(init[i]) == Some(m);
          assert requests[i] == init[i];
        } else {
          assert deltaMsg(requests[|requests| - 1]) == Some(m);
        }
      }
    }
  }
}
