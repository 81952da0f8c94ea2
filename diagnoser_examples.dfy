/** The diagnoser's example graphs: minimal graphs with most names unset,
    and the findings each is expected to produce. */
module DiagnoserExamples {
  import opened Wrappers
  import opened Strings
  import opened Graph
  import opened Diagnostic
  import opened Rules
  import opened HintOrder
  import opened StableSort
  import opened Diagnoser

  /** A component with no name and no state, as the examples write them. */
  function Counts(ready: Int32, replicas: Int32): ComponentInfo
  {
    ComponentInfo("", replicas, ready, "")
  }

  /** A runtime with no name, type or phase. */
  function BareRuntime(master: Option<ComponentInfo>, worker: Option<ComponentInfo>, fuse: Option<ComponentInfo>): RuntimeInfo
  {
    RuntimeInfo("", "", "", master, worker, fuse)
  }

  const BoundDataset: DatasetInfo := DatasetInfo("", "", "Bound", "")

  /** Everything bound and every component ready. */
  const HealthyExample: ResourceGraph := ResourceGraph(
    Some(DatasetInfo("", "", "Bound", "Ready")),
    Some(BareRuntime(Some(Counts(1, 1)), Some(Counts(3, 3)), Some(Counts(5, 5)))),
    Some(InfrastructureInfo(Some(PVCInfo("", "Bound")), None)))

  /** A bound Dataset without a Runtime. */
  const RuntimeMissingExample: ResourceGraph := ResourceGraph(Some(BoundDataset), None, None)

  /** Only a Worker, two of three ready. */
  const WorkerPartialExample: ResourceGraph :=
    ResourceGraph(Some(BoundDataset), Some(BareRuntime(None, Some(Counts(2, 3)), None)), None)

  /** A Worker with nothing ready and a pending PVC. */
  const ComplexFailureExample: ResourceGraph := ResourceGraph(
    Some(BoundDataset),
    Some(BareRuntime(None, Some(Counts(0, 1)), None)),
    Some(InfrastructureInfo(Some(PVCInfo("", "Pending")), None)))

  /** The healthy example is healthy, has no findings and the healthy summary. */
  lemma HealthyExampleDiagnosis(now: Timestamp)
    ensures Diagnosable(HealthyExample)
    ensures var r := DiagnosisOf(Some(HealthyExample), now).value;
      r.isHealthy && r.failureHints == [] && r.summary == HealthySentence
  {
    var g := HealthyExample;
    EqualFoldReflexive("Bound");
    CollectHintsByRule(g);
    assert EvaluateDatasetNotBound(g).None? && EvaluateRuntimeMissing(g).None? && EvaluateMasterNotReady(g).None?;
    assert EvaluateWorkerPartiallyReady(g).None? && EvaluateFuseMissing(g).None? && EvaluatePVCNotBound(g).None?;
    HealthyIffNoHints(g, now);
  }

  /** A bound Dataset without a Runtime yields the single critical
      RUNTIME_MISSING finding. */
  lemma RuntimeMissingExampleDiagnosis(now: Timestamp)
    ensures Diagnosable(RuntimeMissingExample)
    ensures var r := DiagnosisOf(Some(RuntimeMissingExample), now).value;
      && !r.isHealthy
      && |r.failureHints| == 1
      && r.failureHints[0].id == RuntimeMissingRule.ID()
      && r.failureHints[0].severity == Critical
  {
    var g := RuntimeMissingExample;
    CollectHintsByRule(g);
    var h := EvaluateRuntimeMissing(g);
    assert EvaluateDatasetNotBound(g).None? && h.Some? && EvaluateMasterNotReady(g).None?;
    assert EvaluateWorkerPartiallyReady(g).None? && EvaluateFuseMissing(g).None? && EvaluatePVCNotBound(g).None?;
    assert CollectHints(g) == [h.value];
    SortSingle(h.value);
  }

  /** Two of three workers ready yields the Worker warning, whose detail
      reports the counts. */
  lemma WorkerPartialExampleDiagnosis(now: Timestamp)
    ensures Diagnosable(WorkerPartialExample)
    ensures var r := DiagnosisOf(Some(WorkerPartialExample), now).value;
      && !r.isHealthy
      && |r.failureHints| == 1
      && r.failureHints[0].id == WorkerPartiallyReadyRule.ID()
      && r.failureHints[0].severity == Warning
      && r.failureHints[0].evidence.detail == ReplicaDetail(Counts(2, 3))
  {
    var g := WorkerPartialExample;
    CollectHintsByRule(g);
    var h := EvaluateWorkerPartiallyReady(g);
    assert EvaluateDatasetNotBound(g).None? && EvaluateRuntimeMissing(g).None? && EvaluateMasterNotReady(g).None?;
    assert h.Some? && EvaluateFuseMissing(g).None? && EvaluatePVCNotBound(g).None?;
    assert CollectHints(g) == [h.value];
    SortSingle(h.value);
  }

  /** The detail of two ready out of three reads "Ready replicas: 2/3". */
  lemma WorkerPartialDetail()
    ensures ReplicaDetail(Counts(2, 3)) == "Ready replicas: 2/3"
  {
    assert IntToString(2) == "2" && IntToString(3) == "3";
  }

  /** On the complex example exactly the Worker and PVC rules fire, in that order. */
  lemma ComplexFailureFindings()
    ensures Diagnosable(ComplexFailureExample)
    ensures EvaluateWorkerPartiallyReady(ComplexFailureExample).Some? && EvaluatePVCNotBound(ComplexFailureExample).Some?
    ensures CollectHints(ComplexFailureExample)
      == [EvaluateWorkerPartiallyReady(ComplexFailureExample).value, EvaluatePVCNotBound(ComplexFailureExample).value]
  {
    var g := ComplexFailureExample;
    CollectHintsByRule(g);
    assert EvaluateDatasetNotBound(g).None? && EvaluateRuntimeMissing(g).None?;
    assert EvaluateMasterNotReady(g).None? && EvaluateFuseMissing(g).None?;
  }

  /** A pending PVC and a failing Worker: the critical PVC finding sorts
      before the Worker warning, although its rule runs later. */
  lemma ComplexFailureExampleDiagnosis(now: Timestamp)
    ensures Diagnosable(ComplexFailureExample)
    ensures var r := DiagnosisOf(Some(ComplexFailureExample), now).value;
      && |r.failureHints| == 2
      && r.failureHints[0].id == PVCNotBoundRule.ID() && r.failureHints[0].severity == Critical
      && r.failureHints[1].id == WorkerPartiallyReadyRule.ID() && r.failureHints[1].severity == Warning
  {
    ComplexFailureFindings();
    RankValues();
    SortPair(EvaluateWorkerPartiallyReady(ComplexFailureExample).value, EvaluatePVCNotBound(ComplexFailureExample).value);
  }
}
