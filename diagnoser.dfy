/** `Diagnose`: runs every registered rule over a graph, stable-sorts the
    findings and derives the health flag and the summary sentence. */
module Diagnoser {
  import opened Wrappers
  import opened Strings
  import opened Graph
  import opened Diagnostic
  import opened Rules
  import opened HintOrder
  import opened StableSort

  /** The graphs `Diagnose` can run on without dereferencing a nil Dataset. */
  predicate Diagnosable(g: ResourceGraph)
  {
    g.dataset.Some?
  }

  /** The findings among the rule outputs `os`, in order: nil outputs are skipped. */
  function Flatten(os: seq<Option<FailureHint>>): (hs: seq<FailureHint>)
    ensures |hs| <= |os|
  {
    if os == [] then []
    else Flatten(os[..|os| - 1]) + (if os[|os| - 1].Some? then [os[|os| - 1].value] else [])
  }

  /** Nothing is dropped or invented: a finding is in the flattened list
      exactly when some output was that finding. */
  lemma {:induction false} FlattenMembers(os: seq<Option<FailureHint>>, h: FailureHint)
    ensures h in Flatten(os) <==> exists i :: 0 <= i < |os| && os[i] == Some(h)
  {
    if os != [] {
      var init := os[..|os| - 1];
      FlattenMembers(init, h);
      if h in Flatten(init) {
        var i :| 0 <= i < |init| && init[i] == Some(h);
        assert os[i] == init[i];
      }
      if exists i :: 0 <= i < |os| && os[i] == Some(h) {
        var i :| 0 <= i < |os| && os[i] == Some(h);
        if i < |init| {
          assert init[i] == os[i];
        }
      }
    }
  }

  /** An output list with no findings flattens to nothing, and conversely. */
  lemma {:induction false} FlattenEmpty(os: seq<Option<FailureHint>>)
    ensures Flatten(os) == [] <==> forall i :: 0 <= i < |os| ==> os[i].None?
  {
    if os != [] {
      var init := os[..|os| - 1];
      FlattenEmpty(init);
      if forall i :: 0 <= i < |os| ==> os[i].None? {
        assert forall i :: 0 <= i < |init| ==> init[i] == os[i];
      }
    }
  }

  /** Flattening one more output appends its finding, if any. */
  lemma FlattenStep(os: seq<Option<FailureHint>>, k: nat)
    requires k < |os|
    ensures Flatten(os[..k + 1]) == Flatten(os[..k]) + Piece(os[k])
  {
    assert os[..k + 1][..k] == os[..k];
  }

  /** The outputs of `rules`, one per rule, in registration order. */
  function Outputs(rules: seq<Rule>, g: ResourceGraph): (os: seq<Option<FailureHint>>)
    requires Diagnosable(g)
    ensures |os| == |rules|
    ensures forall i :: 0 <= i < |rules| ==> os[i] == rules[i].Evaluate(g)
  {
    seq(|rules|, i requires 0 <= i < |rules| => rules[i].Evaluate(g))
  }

  /** The findings collected from the registry, before sorting. */
  function CollectHints(g: ResourceGraph): (hs: seq<FailureHint>)
    requires Diagnosable(g)
  {
    Flatten(Outputs(Registry, g))
  }

  /** The finding an output contributes: one or none. */
  function Piece(o: Option<FailureHint>): (hs: seq<FailureHint>)
    ensures o.None? <==> hs == []
  {
    if o.Some? then [o.value] else []
  }

  /** Six outputs flatten to their pieces, in order. */
  lemma FlattenSix(os: seq<Option<FailureHint>>)
    requires |os| == 6
    ensures Flatten(os) == Piece(os[0]) + Piece(os[1]) + Piece(os[2]) + Piece(os[3]) + Piece(os[4]) + Piece(os[5])
  {
    assert os[..0] == [];
    FlattenStep(os, 0);
    assert Flatten(os[..1]) == Piece(os[0]);
    FlattenStep(os, 1);
    FlattenStep(os, 2);
    FlattenStep(os, 3);
    FlattenStep(os, 4);
    FlattenStep(os, 5);
    assert os[..6] == os;
  }

  /** The collected findings, rule by rule in registration order. */
  lemma CollectHintsByRule(g: ResourceGraph)
    requires Diagnosable(g)
    ensures CollectHints(g) == Piece(EvaluateDatasetNotBound(g)) + Piece(EvaluateRuntimeMissing(g))
      + Piece(EvaluateMasterNotReady(g)) + Piece(EvaluateWorkerPartiallyReady(g))
      + Piece(EvaluateFuseMissing(g)) + Piece(EvaluatePVCNotBound(g))
  {
    var os := Outputs(Registry, g);
    FlattenSix(os);
    RegistryAt();
    assert os[0] == EvaluateDatasetNotBound(g) && os[1] == EvaluateRuntimeMissing(g);
    assert os[2] == EvaluateMasterNotReady(g) && os[3] == EvaluateWorkerPartiallyReady(g);
    assert os[4] == EvaluateFuseMissing(g) && os[5] == EvaluatePVCNotBound(g);
  }

  /** How many of `hints` have severity `sev`. */
  function CountSeverity(hints: seq<FailureHint>, sev: Severity): (n: nat)
    ensures n <= |hints|
  {
    if hints == [] then 0
    else CountSeverity(hints[..|hints| - 1], sev) + (if hints[|hints| - 1].severity == sev then 1 else 0)
  }

  /** Counting Critical and Warning findings never exceeds the total; the
      difference is the Info findings. */
  lemma {:induction false} CountsWithinTotal(hints: seq<FailureHint>)
    ensures CountSeverity(hints, Critical) + CountSeverity(hints, Warning) + CountSeverity(hints, Info) == |hints|
  {
    if hints != [] {
      CountsWithinTotal(hints[..|hints| - 1]);
    }
  }

  /** The fixed sentence of a healthy report. */
  const HealthySentence: string := "Dataset is healthy and all components are ready."

  /** "Found N issues: C critical, W warnings." */
  function IssuesSentence(total: nat, crit: nat, warn: nat): (s: string)
    ensures |s| > 16 && s[..6] == "Found " && s[|s| - 10..] == " warnings."
  {
    "Found " + (NatToString(total) + (" issues: " + (NatToString(crit) + (" critical, " + (NatToString(warn) + " warnings.")))))
  }

  /** The issues sentence determines the three counts it reports. */
  lemma IssuesSentenceInjective(total: nat, crit: nat, warn: nat, total': nat, crit': nat, warn': nat)
    requires IssuesSentence(total, crit, warn) == IssuesSentence(total', crit', warn')
    ensures total == total' && crit == crit' && warn == warn'
  {
    var a, b, c := NatToString(total), NatToString(crit), NatToString(warn);
    var a', b', c' := NatToString(total'), NatToString(crit'), NatToString(warn');
    var w, w' := " critical, " + (c + " warnings."), " critical, " + (c' + " warnings.");
    PeelField("Found ", a, " issues: " + (b + w), a', " issues: " + (b' + w'), ' ');
    PeelField(" issues: ", b, w, b', w', ' ');
    PeelField(" critical, ", c, " warnings.", c', " warnings.", ' ');
    NatToStringRoundTrip(total); NatToStringRoundTrip(total');
    NatToStringRoundTrip(crit); NatToStringRoundTrip(crit');
    NatToStringRoundTrip(warn); NatToStringRoundTrip(warn');
  }

  /** The summary sentence of `generateSummary`. */
  function SummaryOf(healthy: bool, hints: seq<FailureHint>): string
  {
    if healthy then HealthySentence
    else IssuesSentence(|hints|, CountSeverity(hints, Critical), CountSeverity(hints, Warning))
  }

  /** The unhealthy sentence can never be mistaken for the healthy one. */
  lemma SummaryDistinguishesHealth(healthy: bool, hints: seq<FailureHint>)
    ensures SummaryOf(healthy, hints) == HealthySentence <==> healthy
  {
    // The two sentences differ in their next-to-last character.
    var s := IssuesSentence(|hints|, CountSeverity(hints, Critical), CountSeverity(hints, Warning));
    assert s[|s| - 2] == s[|s| - 10..][8] == 's';
    assert HealthySentence[|HealthySentence| - 2] == 'y';
  }

  /** `generateSummary`, counting Critical and Warning findings in one pass. */
  method GenerateSummary(healthy: bool, hints: seq<FailureHint>) returns (s: string)
    ensures s == SummaryOf(healthy, hints)
  {
    if healthy {
      return HealthySentence;
    }
    var crit, warn := 0, 0;
    for i := 0 to |hints|
      invariant crit == CountSeverity(hints[..i], Critical)
      invariant warn == CountSeverity(hints[..i], Warning)
    {
      assert hints[..i + 1][..i] == hints[..i];
      if hints[i].severity == Critical {
        crit := crit + 1;
      } else if hints[i].severity == Warning {
        warn := warn + 1;
      }
    }
    assert hints[..|hints|] == hints;
    s := IssuesSentence(|hints|, crit, warn);
  }

  /** The findings of a diagnosis, in their final order. */
  function DiagnosisHints(g: ResourceGraph): seq<FailureHint>
    requires Diagnosable(g)
  {
    SortHints(CollectHints(g))
  }

  /** The result `Diagnose` returns: nothing for a nil graph. */
  function DiagnosisOf(graph: Option<ResourceGraph>, now: Timestamp): (r: Option<DiagnosticResult>)
    requires graph.Some? ==> Diagnosable(graph.value)
    ensures r.None? <==> graph.None?
  {
    match graph
    case None => None
    case Some(g) =>
      var healthy := CollectHints(g) == [];
      Some(DiagnosticResult(now, healthy, SummaryOf(healthy, DiagnosisHints(g)), DiagnosisHints(g), Some(g)))
  }

  /** The rule loop of `Diagnose`: every rule runs in registration order,
      each finding is appended, and any finding clears the healthy flag. */
  method RunRules(g: ResourceGraph) returns (allHints: seq<FailureHint>, healthy: bool)
    requires Diagnosable(g)
    ensures allHints == CollectHints(g)
    ensures healthy <==> allHints == []
  {
    healthy := true;
    allHints := [];
    ghost var outputs := Outputs(Registry, g);
    for i := 0 to |Registry|
      invariant allHints == Flatten(outputs[..i])
      invariant healthy <==> allHints == []
    {
      assert outputs[..i + 1][..i] == outputs[..i];
      var hint := Registry[i].Evaluate(g);
      assert outputs[i] == hint;
      if hint.Some? {
        allHints := allHints + [hint.value];
        healthy := false;
      }
    }
    assert outputs[..|Registry|] == outputs;
  }

  /** `Diagnose`: runs the rules, stable-sorts the findings in place and
      derives the summary; a nil graph yields a nil result. */
  method Diagnose(graph: Option<ResourceGraph>, now: Timestamp) returns (result: Option<DiagnosticResult>)
    requires graph.Some? ==> Diagnosable(graph.value)
    ensures result == DiagnosisOf(graph, now)
  {
    if graph.None? {
      return None;
    }
    var g := graph.value;
    var allHints, healthy := RunRules(g);
    var a := new FailureHint[|allHints|](k requires 0 <= k < |allHints| => allHints[k]);
    assert a[..] == allHints;
    SortInPlace(a);
    var sorted := a[..];
    var summary := GenerateSummary(healthy, sorted);
    result := Some(DiagnosticResult(now, healthy, summary, sorted, Some(g)));
  }

  /** The result is healthy exactly when it carries no findings, and then its
      summary is the fixed healthy sentence. */
  lemma HealthyIffNoHints(g: ResourceGraph, now: Timestamp)
    requires Diagnosable(g)
    ensures var r := DiagnosisOf(Some(g), now).value;
      && (r.isHealthy <==> r.failureHints == [])
      && (r.isHealthy <==> r.summary == HealthySentence)
  {
    var r := DiagnosisOf(Some(g), now).value;
    SummaryDistinguishesHealth(r.isHealthy, r.failureHints);
  }

  /** The findings are a permutation of what the rules emitted: at most one per
      rule, and a finding is reported exactly when some registered rule emitted it. */
  lemma HintsArePermutation(g: ResourceGraph, h: FailureHint)
    requires Diagnosable(g)
    ensures multiset(DiagnosisHints(g)) == multiset(CollectHints(g))
    ensures |DiagnosisHints(g)| <= 6
    ensures h in DiagnosisHints(g) <==> exists i :: 0 <= i < |Registry| && Registry[i].Evaluate(g) == Some(h)
  {
    SortHintsPermutes(CollectHints(g));
    FlattenMembers(Outputs(Registry, g), h);
    assert h in DiagnosisHints(g) <==> h in multiset(DiagnosisHints(g));
  }

  /** The findings are ordered by severity rank descending, then component,
      then evidence name. */
  lemma HintsSorted(g: ResourceGraph)
    requires Diagnosable(g)
    ensures Sorted(DiagnosisHints(g))
  {
    SortHintsSorted(CollectHints(g));
  }

  /** Findings with equal sort keys keep rule-registration order. */
  lemma HintsStable(g: ResourceGraph, k: SortKey)
    requires Diagnosable(g)
    ensures KeepKey(DiagnosisHints(g), k) == KeepKey(CollectHints(g), k)
  {
    SortHintsStable(CollectHints(g), k);
  }

  /** The healthy summary is the fixed sentence; otherwise the sentence reports
      the total and the Critical and Warning counts, which add up to at most
      the total. */
  lemma SummaryCounts(g: ResourceGraph, now: Timestamp)
    requires Diagnosable(g)
    ensures var r := DiagnosisOf(Some(g), now).value;
      var crit := CountSeverity(r.failureHints, Critical);
      var warn := CountSeverity(r.failureHints, Warning);
      && crit + warn <= |r.failureHints|
      && r.summary == if r.isHealthy then HealthySentence else IssuesSentence(|r.failureHints|, crit, warn)
  {
    CountsWithinTotal(DiagnosisHints(g));
  }

  /** The rule that fires on a graph is reported, whatever else fires. */
  lemma ReportedIffFires(g: ResourceGraph, i: nat)
    requires Diagnosable(g) && i < |Registry|
    ensures (exists h :: h in DiagnosisHints(g) && h.id == Registry[i].ID()) <==> Registry[i].Evaluate(g).Some?
  {
    RegistryIdsDistinct();
    if Registry[i].Evaluate(g).Some? {
      HintsArePermutation(g, Registry[i].Evaluate(g).value);
    }
    forall h | h in DiagnosisHints(g) && h.id == Registry[i].ID() ensures Registry[i].Evaluate(g).Some? {
      HintsArePermutation(g, h);
      var j :| 0 <= j < |Registry| && Registry[j].Evaluate(g) == Some(h);
      assert j == i;
    }
  }
}
