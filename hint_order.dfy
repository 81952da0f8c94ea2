/** The comparator the diagnoser sorts findings with: severity rank
    descending, then component ascending, then evidence name ascending. */
module HintOrder {
  import opened Strings
  import opened Diagnostic

  /** The Go `severityRank` switch over severity strings. */
  function SeverityRank(s: string): (r: int)
    ensures 0 <= r <= 3
    ensures r == 3 <==> s == "Critical"
    ensures r == 2 <==> s == "Warning"
    ensures r == 1 <==> s == "Info"
  {
    if s == "Critical" then 3
    else if s == "Warning" then 2
    else if s == "Info" then 1
    else 0
  }

  /** The rank of a named severity; distinct severities have distinct ranks,
      so on the closed set ranks never tie. */
  function Rank(s: Severity): (r: int)
    ensures 1 <= r <= 3
    ensures forall t: Severity :: t != s ==> SeverityRank(t.Name()) != r
  {
    SeverityRank(s.Name())
  }

  /** The ranks the switch gives the three severities. */
  lemma RankValues()
    ensures Rank(Critical) == 3 && Rank(Warning) == 2 && Rank(Info) == 1
  {
  }

  /** The sort key of a finding: everything the comparator looks at. */
  datatype SortKey = SortKey(severity: Severity, component: string, evidenceName: string)

  function KeyOf(h: FailureHint): SortKey
  {
    SortKey(h.severity, h.component, h.evidence.name)
  }

  /** Severity decides first: a more severe finding always sorts before a
      less severe one, and never after it. Only findings of equal severity
      are ordered by component, then by evidence name. */
  lemma SeverityFirst(a: FailureHint, b: FailureHint)
    ensures Rank(a.severity) > Rank(b.severity) ==> Less(a, b)
    ensures Less(a, b) ==> Rank(a.severity) >= Rank(b.severity)
    ensures a.severity == b.severity && a.component != b.component ==> (Less(a, b) <==> LexLess(a.component, b.component))
    ensures a.severity == b.severity && a.component == b.component ==> (Less(a, b) <==> LexLess(a.evidence.name, b.evidence.name))
  {
  }

  /** The `less` function handed to `sort.SliceStable`. */
  predicate Less(a: FailureHint, b: FailureHint)
  {
    if a.severity != b.severity then Rank(a.severity) > Rank(b.severity)
    else if a.component != b.component then LexLess(a.component, b.component)
    else LexLess(a.evidence.name, b.evidence.name)
  }

  lemma LessIrreflexive(a: FailureHint)
    ensures !Less(a, a)
  {
    LexLessIrreflexive(a.evidence.name);
  }

  lemma LessAsymmetric(a: FailureHint, b: FailureHint)
    requires Less(a, b)
    ensures !Less(b, a)
  {
    if a.severity == b.severity {
      if a.component != b.component {
        if LexLess(b.component, a.component) {
          LexLessTransitive(a.component, b.component, a.component);
          LexLessIrreflexive(a.component);
        }
      } else if LexLess(b.evidence.name, a.evidence.name) {
        LexLessTransitive(a.evidence.name, b.evidence.name, a.evidence.name);
        LexLessIrreflexive(a.evidence.name);
      }
    }
  }

  lemma LessTransitive(a: FailureHint, b: FailureHint, c: FailureHint)
    requires Less(a, b) && Less(b, c)
    ensures Less(a, c)
  {
    if a.severity == b.severity && b.severity == c.severity {
      if a.component == b.component && b.component == c.component {
        LexLessTransitive(a.evidence.name, b.evidence.name, c.evidence.name);
      } else if a.component != b.component && b.component != c.component {
        LexLessTransitive(a.component, b.component, c.component);
        if a.component == c.component {
          LexLessIrreflexive(a.component);
        }
      }
    }
  }

  /** Over the closed severity set the comparator is total on keys: two
      findings it does not order have the same key. */
  lemma LessTotal(a: FailureHint, b: FailureHint)
    ensures Less(a, b) || Less(b, a) || KeyOf(a) == KeyOf(b)
  {
    LexLessTotal(a.component, b.component);
    LexLessTotal(a.evidence.name, b.evidence.name);
  }

  /** Strictly below something that is not below `c` means strictly below `c`. */
  lemma LessThenNotGreater(a: FailureHint, b: FailureHint, c: FailureHint)
    requires Less(a, b) && !Less(c, b)
    ensures Less(a, c)
  {
    LessTotal(b, c);
    if Less(b, c) {
      LessTransitive(a, b, c);
    }
  }
}
