/** The named fixture graphs used for demonstrations without a cluster, the
    lookup by name, and the diagnoses the fixtures are built to produce. */
module Scenarios {
  import opened Wrappers
  import opened Strings
  import opened Graph
  import opened Diagnostic
  import opened Rules
  import opened HintOrder
  import opened StableSort
  import opened Diagnoser

  /** A predefined graph with its name and a one-line description. */
  datatype Scenario = Scenario(name: string, description: string, graph: Option<ResourceGraph>)

  const DemoMaster: ComponentInfo := ComponentInfo("demo-data-master", 1, 1, "Ready")
  const DemoWorker: ComponentInfo := ComponentInfo("demo-data-worker", 3, 3, "Ready")
  const DemoFuse: ComponentInfo := ComponentInfo("demo-data-fuse", 5, 5, "Ready")
  const DemoPVC: PVCInfo := PVCInfo("demo-data", "Bound")

  /** Everything present and ready. */
  const HealthyGraph: ResourceGraph :=
    ResourceGraph(
      Some(DatasetInfo("demo-data", "", "Bound", "Ready")),
      Some(RuntimeInfo("demo-data", "AlluxioRuntime", "", Some(DemoMaster), Some(DemoWorker), Some(DemoFuse))),
      Some(InfrastructureInfo(Some(DemoPVC), Some(PVInfo("pv-demo-data", "Bound")))))

  const Healthy: Scenario := Scenario("healthy", "A fully functional Dataset with ready Runtime and Infrastructure.", Some(HealthyGraph))

  /** A Dataset with no Runtime and no Infrastructure. */
  const MissingRuntimeGraph: ResourceGraph :=
    ResourceGraph(Some(DatasetInfo("demo-data", "", "NotBound", "NotReady")), None, None)

  const MissingRuntime: Scenario := Scenario("missing-runtime", "Dataset created but no runtime associated (Runtime == nil).", Some(MissingRuntimeGraph))

  /** One of three workers not ready. */
  const PartialReadyGraph: ResourceGraph :=
    ResourceGraph(
      Some(DatasetInfo("demo-data", "", "Bound", "Processing")),
      Some(RuntimeInfo("demo-data", "AlluxioRuntime", "", Some(DemoMaster),
        Some(ComponentInfo("demo-data-worker", 3, 2, "PartialReady")), Some(DemoFuse))),
      Some(InfrastructureInfo(Some(DemoPVC), None)))

  const PartialReady: Scenario := Scenario("partial-ready", "One worker pod is failing (2/3 Ready).", Some(PartialReadyGraph))

  /** A Fuse DaemonSet with no ready pods; master and worker carry no state. */
  const MissingFuseGraph: ResourceGraph :=
    ResourceGraph(
      Some(DatasetInfo("demo-data", "", "Bound", "Bound")),
      Some(RuntimeInfo("demo-data", "AlluxioRuntime", "",
        Some(ComponentInfo("demo-data-master", 1, 1, "")),
        Some(ComponentInfo("demo-data-worker", 3, 3, "")),
        Some(ComponentInfo("demo-data-fuse", 5, 0, "NotReady")))),
      Some(InfrastructureInfo(Some(DemoPVC), None)))

  const MissingFuse: Scenario := Scenario("missing-fuse", "Fuse daemonset has 0 ready replicas.", Some(MissingFuseGraph))

  /** Master and Worker failing together while the Fuse is fine. */
  const FailedPodsGraph: ResourceGraph :=
    ResourceGraph(
      Some(DatasetInfo("demo-data", "", "Bound", "")),
      Some(RuntimeInfo("demo-data", "JindoRuntime", "",
        Some(ComponentInfo("demo-data-master", 1, 0, "")),
        Some(ComponentInfo("demo-data-worker", 3, 1, "")),
        Some(ComponentInfo("demo-data-fuse", 2, 2, "")))),
      Some(InfrastructureInfo(Some(DemoPVC), None)))

  const FailedPods: Scenario := Scenario("failed-pods", "Multiple components failing simultaneously.", Some(FailedPodsGraph))

  /** All scenarios, in their listing order. */
  const All: seq<Scenario> := [Healthy, MissingRuntime, PartialReady, MissingFuse, FailedPods]

  /** No two scenarios share a name, and each has a graph that can be diagnosed. */
  lemma AllWellFormed()
    ensures forall i, j :: 0 <= i < j < |All| ==> All[i].name != All[j].name
    ensures forall i :: 0 <= i < |All| ==> All[i].graph.Some? && Diagnosable(All[i].graph.value)
  {
  }

  /** `Get`: the first scenario with the given name, or nothing when no
      scenario has it. */
  method Get(name: string) returns (s: Option<Scenario>)
    ensures s.None? <==> forall i :: 0 <= i < |All| ==> All[i].name != name
    ensures s.Some? ==> s.value.name == name && s.value in All
  {
    var i := 0;
    while i < |All|
      invariant 0 <= i <= |All|
      invariant forall j :: 0 <= j < i ==> All[j].name != name
    {
      if All[i].name == name {
        return Some(All[i]);
      }
      i := i + 1;
    }
    return None;
  }

  /** The identifiers of `hs`, in order. */
  function Ids(hs: seq<FailureHint>): (ids: seq<string>)
    ensures |ids| == |hs| && forall i :: 0 <= i < |hs| ==> ids[i] == hs[i].id
  {
    seq(|hs|, i requires 0 <= i < |hs| => hs[i].id)
  }

  /** The healthy fixture diagnoses as healthy, with no findings and the
      fixed healthy summary. */
  lemma HealthyDiagnosis(now: Timestamp)
    ensures Diagnosable(HealthyGraph)
    ensures var r := DiagnosisOf(Some(HealthyGraph), now).value;
      r.isHealthy && r.failureHints == [] && r.summary == HealthySentence
  {
    var g := HealthyGraph;
    EqualFoldReflexive("Bound");
    CollectHintsByRule(g);
    assert EvaluateDatasetNotBound(g).None? && EvaluateRuntimeMissing(g).None? && EvaluateMasterNotReady(g).None?;
    assert EvaluateWorkerPartiallyReady(g).None? && EvaluateFuseMissing(g).None? && EvaluatePVCNotBound(g).None?;
    HealthyIffNoHints(g, now);
  }

  /** A Dataset without a Runtime fires both critical Dataset and Runtime
      rules, with the Dataset finding first. */
  lemma MissingRuntimeDiagnosis()
    ensures Diagnosable(MissingRuntimeGraph)
    ensures Ids(DiagnosisHints(MissingRuntimeGraph)) == [DatasetNotBoundRule.ID(), RuntimeMissingRule.ID()]
  {
    var g := MissingRuntimeGraph;
    CollectHintsByRule(g);
    var d, r := EvaluateDatasetNotBound(g), EvaluateRuntimeMissing(g);
    assert d.Some? && r.Some? && EvaluateMasterNotReady(g).None?;
    assert EvaluateWorkerPartiallyReady(g).None? && EvaluateFuseMissing(g).None? && EvaluatePVCNotBound(g).None?;
    assert CollectHints(g) == [d.value, r.value];
    SortPair(d.value, r.value);
  }

  /** On the partial-ready fixture only the Worker rule fires. */
  lemma PartialReadyFindings()
    ensures Diagnosable(PartialReadyGraph)
    ensures EvaluateWorkerPartiallyReady(PartialReadyGraph).Some?
    ensures CollectHints(PartialReadyGraph) == [EvaluateWorkerPartiallyReady(PartialReadyGraph).value]
  {
    var g := PartialReadyGraph;
    EqualFoldReflexive("Bound");
    CollectHintsByRule(g);
    assert EvaluateDatasetNotBound(g).None? && EvaluateRuntimeMissing(g).None? && EvaluateMasterNotReady(g).None?;
    assert EvaluateFuseMissing(g).None? && EvaluatePVCNotBound(g).None?;
  }

  /** Two of three workers ready yields exactly the Worker warning, whose
      detail reports the worker's counts. */
  lemma PartialReadyDiagnosis()
    ensures Diagnosable(PartialReadyGraph)
    ensures Ids(DiagnosisHints(PartialReadyGraph)) == [WorkerPartiallyReadyRule.ID()]
    ensures DiagnosisHints(PartialReadyGraph)[0].evidence.detail == ReplicaDetail(PartialReadyGraph.runtime.value.worker.value)
  {
    PartialReadyFindings();
    SortSingle(EvaluateWorkerPartiallyReady(PartialReadyGraph).value);
  }

  /** On the missing-fuse fixture only the Fuse rule fires; the unset master
      and worker states play no part. */
  lemma MissingFuseFindings()
    ensures Diagnosable(MissingFuseGraph)
    ensures EvaluateFuseMissing(MissingFuseGraph).Some?
    ensures CollectHints(MissingFuseGraph) == [EvaluateFuseMissing(MissingFuseGraph).value]
  {
    var g := MissingFuseGraph;
    EqualFoldReflexive("Bound");
    CollectHintsByRule(g);
    assert EvaluateDatasetNotBound(g).None? && EvaluateRuntimeMissing(g).None? && EvaluateMasterNotReady(g).None?;
    assert EvaluateWorkerPartiallyReady(g).None? && EvaluatePVCNotBound(g).None?;
  }

  /** A Fuse with no ready pods yields exactly the Fuse warning. */
  lemma MissingFuseDiagnosis()
    ensures Diagnosable(MissingFuseGraph)
    ensures Ids(DiagnosisHints(MissingFuseGraph)) == [FuseMissingRule.ID()]
  {
    MissingFuseFindings();
    SortSingle(EvaluateFuseMissing(MissingFuseGraph).value);
  }

  /** On the failed-pods fixture exactly the Master and Worker rules fire. */
  lemma FailedPodsFindings()
    ensures Diagnosable(FailedPodsGraph)
    ensures EvaluateMasterNotReady(FailedPodsGraph).Some? && EvaluateWorkerPartiallyReady(FailedPodsGraph).Some?
    ensures CollectHints(FailedPodsGraph)
      == [EvaluateMasterNotReady(FailedPodsGraph).value, EvaluateWorkerPartiallyReady(FailedPodsGraph).value]
  {
    var g := FailedPodsGraph;
    EqualFoldReflexive("Bound");
    CollectHintsByRule(g);
    assert EvaluateDatasetNotBound(g).None? && EvaluateRuntimeMissing(g).None?;
    assert EvaluateFuseMissing(g).None? && EvaluatePVCNotBound(g).None?;
  }

  /** Master and Worker failing yields the critical Master finding before
      the Worker warning. */
  lemma FailedPodsDiagnosis()
    ensures Diagnosable(FailedPodsGraph)
    ensures Ids(DiagnosisHints(FailedPodsGraph)) == [MasterNotReadyRule.ID(), WorkerPartiallyReadyRule.ID()]
  {
    FailedPodsFindings();
    RankValues();
    SortPair(EvaluateMasterNotReady(FailedPodsGraph).value, EvaluateWorkerPartiallyReady(FailedPodsGraph).value);
  }
}
