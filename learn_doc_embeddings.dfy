/**
 * Collecting the text references behind a model's statements, one per
 * piece of evidence, by a priority list of reference namespaces; the
 * references are then looked up and embedded, which is not modelled.
 */
module DocEmbeddings {
  import opened Wrappers
  import opened Strings
  import opened Indra

  /** A text reference: its namespace and its id. */
  type TextRef = (string, int)

  /** `text_ref_priority`. */
  const TextRefPriority: seq<string> := ["TRID"]

  /**
   * `get_prioritized_text_ref(text_refs)` for a priority list: the first
   * namespace of the list that the references hold, with its id; `None`
   * (Python's `(None, None)`) when they hold none.
   */
  function PrioritizedTextRef(priority: seq<string>, textRefs: map<string, int>): Option<TextRef>
  {
    if |priority| == 0 then None
    else if priority[0] in textRefs then Some((priority[0], textRefs[priority[0]]))
    else PrioritizedTextRef(priority[1..], textRefs)
  }

  /**
   * The reference found comes from the first namespace of the list that
   * the references hold; none is found iff they hold none.
   */
  lemma {:induction false} PrioritizedTextRefMeaning(priority: seq<string>, textRefs: map<string, int>)
    ensures var r := PrioritizedTextRef(priority, textRefs);
            && (r.None? <==> forall i :: 0 <= i < |priority| ==> priority[i] !in textRefs)
            && (r.Some? ==> exists i :: 0 <= i < |priority| && priority[i] in textRefs && r.value == (priority[i], textRefs[priority[i]])
                                        && forall j :: 0 <= j < i ==> priority[j] !in textRefs)
  {
    if |priority| > 0 && priority[0] !in textRefs {
      var tail := priority[1..];
      PrioritizedTextRefMeaning(tail, textRefs);
      var r := PrioritizedTextRef(tail, textRefs);
      if r.Some? {
        var i :| 0 <= i < |tail| && tail[i] in textRefs && r.value == (tail[i], textRefs[tail[i]])
                 && forall j :: 0 <= j < i ==> tail[j] !in textRefs;
        assert priority[i + 1] == tail[i];
        forall j | 0 <= j < i + 1 ensures priority[j] !in textRefs {
          if j > 0 { assert priority[j] == tail[j - 1]; }
        }
      } else {
        forall i | 0 <= i < |priority| ensures priority[i] !in textRefs {
          if i > 0 { assert priority[i] == tail[i - 1]; }
        }
      }
    }
  }

  /** With the priority list in use, only a `TRID` counts. */
  lemma TridOnly(textRefs: map<string, int>)
    ensures "TRID" in textRefs ==> PrioritizedTextRef(TextRefPriority, textRefs) == Some(("TRID", textRefs["TRID"]))
    ensures "TRID" !in textRefs ==> PrioritizedTextRef(TextRefPriority, textRefs) == None
  {
    assert TextRefPriority[1..] == [];
  }

  // ---------------------------------------------------------------------
  // get_all_text_refs
  // ---------------------------------------------------------------------

  /** The prioritised references of a list of evidence. */
  function EvidenceRefs(evidence: seq<Evidence>): set<TextRef>
  {
    if |evidence| == 0 then {}
    else
      var ref := PrioritizedTextRef(TextRefPriority, evidence[|evidence| - 1].textRefs);
      EvidenceRefs(evidence[..|evidence| - 1]) + (if ref.Some? then {ref.value} else {})
  }

  /** The prioritised references of all the statements' evidence. */
  function AllTextRefs(statements: seq<Statement>): set<TextRef>
  {
    if |statements| == 0 then {}
    else AllTextRefs(statements[..|statements| - 1]) + EvidenceRefs(statements[|statements| - 1].evidence)
  }

  /** Python's order on `(namespace, id)` tuples: by namespace, then by id. */
  predicate RefLess(a: TextRef, b: TextRef)
  {
    LexLess(a.0, b.0) || (a.0 == b.0 && a.1 < b.1)
  }

  predicate StrictlySorted(refs: seq<TextRef>)
  {
    forall i, j :: 0 <= i < j < |refs| ==> RefLess(refs[i], refs[j])
  }

  /** The order on references is a strict total order. */
  lemma RefOrder(a: TextRef, b: TextRef, c: TextRef)
    ensures !RefLess(a, a)
    ensures a == b || RefLess(a, b) || RefLess(b, a)
    ensures !(RefLess(a, b) && RefLess(b, a))
    ensures RefLess(a, b) && RefLess(b, c) ==> RefLess(a, c)
  {
    LexLessIrreflexive(a.0);
    LexTrichotomy(a.0, b.0);
    LexTrichotomy(b.0, c.0);
    LexTrichotomy(a.0, c.0);
    if LexLess(a.0, b.0) && LexLess(b.0, c.0) {
      LexTransitive(a.0, b.0, c.0);
    }
    if a.0 == b.0 && a.1 == b.1 {
      assert a == b;
    }
  }

  /** A non-empty set of references has a least element. */
  lemma {:induction false} LeastExists(s: set<TextRef>)
    requires s != {}
    ensures exists m :: m in s && forall y :: y in s && y != m ==> RefLess(m, y)
    decreases |s|
  {
    var x :| x in s;
    if s - {x} == {} {
      assert s == {x};
      assert forall y :: y in s && y != x ==> RefLess(x, y);
    } else {
      LeastExists(s - {x});
      var m :| m in s - {x} && forall y :: y in s - {x} && y != m ==> RefLess(m, y);
      RefOrder(m, x, m);
      if RefLess(x, m) {
        forall y | y in s && y != x ensures RefLess(x, y) {
          if y != m { RefOrder(x, m, y); }
        }
        assert x in s && forall y :: y in s && y != x ==> RefLess(x, y);
      } else {
        forall y | y in s && y != m ensures RefLess(m, y) {
          if y != x { assert y in s - {x}; }
        }
        assert m in s && forall y :: y in s && y != m ==> RefLess(m, y);
      }
    }
  }

  /** The least element of a non-empty set of references. */
  function Least(s: set<TextRef>): (m: TextRef)
    requires s != {}
    ensures m in s && forall y :: y in s && y != m ==> RefLess(m, y)
  {
    LeastExists(s);
    var m :| m in s && forall y :: y in s && y != m ==> RefLess(m, y);
    forall m' | m' in s && (forall y :: y in s && y != m' ==> RefLess(m', y)) ensures m' == m {
      RefOrder(m, m', m);
    }
    m
  }

  /** `sorted(refs)` for a set of references. */
  function SortRefs(s: set<TextRef>): (r: seq<TextRef>)
    decreases |s|
  {
    if s == {} then [] else [Least(s)] + SortRefs(s - {Least(s)})
  }

  /** The sorted list holds exactly the set's references, in strictly increasing order. */
  lemma {:induction false} SortRefsMeaning(s: set<TextRef>)
    ensures StrictlySorted(SortRefs(s))
    ensures forall x :: x in SortRefs(s) <==> x in s
    ensures |SortRefs(s)| == |s|
    decreases |s|
  {
    if s != {} {
      var m := Least(s);
      var rest := SortRefs(s - {m});
      SortRefsMeaning(s - {m});
      var r := [m] + rest;
      forall i, j | 0 <= i < j < |r| ensures RefLess(r[i], r[j]) {
        if i == 0 {
          assert r[j] == rest[j - 1];
          assert rest[j - 1] in s - {m};
        } else {
          assert r[i] == rest[i - 1] && r[j] == rest[j - 1];
        }
      }
    }
  }

  /**
   * `get_all_text_refs(statements)`: the prioritised reference of every
   * piece of evidence, gathered in a set and returned sorted.
   */
  method GetAllTextRefs(statements: seq<Statement>) returns (r: seq<TextRef>)
    ensures r == SortRefs(AllTextRefs(statements))
  {
    var allTextRefs: set<TextRef> := {};
    for i := 0 to |statements|
      invariant allTextRefs == AllTextRefs(statements[..i])
    {
      assert statements[..i + 1][..i] == statements[..i];
      var evidence := statements[i].evidence;
      for j := 0 to |evidence|
        invariant allTextRefs == AllTextRefs(statements[..i]) + EvidenceRefs(evidence[..j])
      {
        assert evidence[..j + 1][..j] == evidence[..j];
        var ref := PrioritizedTextRef(TextRefPriority, evidence[j].textRefs);
        if ref.Some? {
          allTextRefs := allTextRefs + {ref.value};
        }
      }
      assert evidence[..|evidence|] == evidence;
    }
    assert statements[..|statements|] == statements;
    return SortRefs(allTextRefs);
  }

  /** A reference is gathered from some evidence iff that evidence's prioritised reference is it. */
  lemma {:induction false} EvidenceRefsMeaning(evidence: seq<Evidence>)
    ensures forall x :: x in EvidenceRefs(evidence) <==>
              exists j :: 0 <= j < |evidence| && PrioritizedTextRef(TextRefPriority, evidence[j].textRefs) == Some(x)
  {
    if |evidence| > 0 {
      var init := evidence[..|evidence| - 1];
      EvidenceRefsMeaning(init);
      forall j | 0 <= j < |init| ensures init[j] == evidence[j] { }
    }
  }

  lemma {:induction false} AllTextRefsMeaning(statements: seq<Statement>)
    ensures forall x :: x in AllTextRefs(statements) <==>
              exists i :: 0 <= i < |statements| && x in EvidenceRefs(statements[i].evidence)
  {
    if |statements| > 0 {
      var init := statements[..|statements| - 1];
      AllTextRefsMeaning(init);
      forall i | 0 <= i < |init| ensures init[i] == statements[i] { }
    }
  }

  /**
   * The references returned are distinct and in sorted order, and a
   * reference is returned iff it is the prioritised reference of some
   * piece of evidence of some statement.
   */
  lemma GetAllTextRefsMeaning(statements: seq<Statement>, x: TextRef)
    ensures StrictlySorted(SortRefs(AllTextRefs(statements)))
    ensures x in SortRefs(AllTextRefs(statements)) <==>
              exists i, j :: 0 <= i < |statements| && 0 <= j < |statements[i].evidence|
                             && PrioritizedTextRef(TextRefPriority, statements[i].evidence[j].textRefs) == Some(x)
  {
    SortRefsMeaning(AllTextRefs(statements));
    AllTextRefsMeaning(statements);
    forall i | 0 <= i < |statements| {
      EvidenceRefsMeaning(statements[i].evidence);
    }
  }

  /** Evidence without a prioritised reference contributes nothing. */
  lemma {:induction false} UnreferencedEvidenceIgnored(statements: seq<Statement>, e: Evidence)
    requires |statements| > 0 && PrioritizedTextRef(TextRefPriority, e.textRefs).None?
    ensures var last := statements[|statements| - 1];
            var more := statements[..|statements| - 1] + [Statement(last.stype, last.shallowHash, last.fullHash, last.agents, last.evidence + [e], last.belief)];
            AllTextRefs(more) == AllTextRefs(statements)
  {
    var last := statements[|statements| - 1];
    var ev := last.evidence + [e];
    assert ev[..|ev| - 1] == last.evidence;
    var more := statements[..|statements| - 1] + [Statement(last.stype, last.shallowHash, last.fullHash, last.agents, ev, last.belief)];
    assert more[..|more| - 1] == statements[..|statements| - 1];
  }
}
