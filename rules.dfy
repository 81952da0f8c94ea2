/** The six diagnostic rules and their fixed registration order. Each rule is
    a side-effect-free check of the graph that yields one finding or nothing. */
module Rules {
  import opened Wrappers
  import opened Strings
  import opened Graph
  import opened Diagnostic

  // Fixed texts of the findings.
  const DatasetNotBoundSuggestion: string := "Check if a Runtime with the same name exists and is compatible."
  const RuntimeMissingDetail: string := "Runtime object is missing from graph."
  const RuntimeMissingSuggestion: string := "Create a Runtime CR (e.g., AlluxioRuntime, JindoRuntime) matching the Dataset."
  const MasterNotReadySuggestion: string := "Check Master pod logs for startup errors or scheduling issues."
  const WorkerPartiallyReadySuggestion: string := "Check individual Worker pods for OOMKilled or CrashLoopBackOff."
  const FuseMissingSuggestion: string := "Check DaemonSet node selectors and tolerations. Ensure nodes have capacity."
  const PVCNotBoundSuggestion: string := "Check PersistentVolume availability or StorageClass configuration."

  /** `fmt.Sprintf("Ready replicas: %d/%d", ready, replicas)`. */
  function ReplicaDetail(c: ComponentInfo): (d: string)
    ensures |d| > |ReplicaPrefix| && d[..|ReplicaPrefix|] == ReplicaPrefix
  {
    ReplicaPrefix + (IntToString(c.ready as int) + ("/" + IntToString(c.replicas as int)))
  }

  const ReplicaPrefix: string := "Ready replicas: "

  /** The detail determines both counts it reports. */
  lemma ReplicaDetailDeterminesCounts(c: ComponentInfo, e: ComponentInfo)
    requires ReplicaDetail(c) == ReplicaDetail(e)
    ensures c.ready == e.ready && c.replicas == e.replicas
  {
    IntToStringAvoids(c.ready as int, '/');
    IntToStringAvoids(e.ready as int, '/');
    PeelField(ReplicaPrefix, IntToString(c.ready as int), "/" + IntToString(c.replicas as int),
      IntToString(e.ready as int), "/" + IntToString(e.replicas as int), '/');
    IntToStringInjective(c.ready as int, e.ready as int);
    DropPrefix("/", IntToString(c.replicas as int), IntToString(e.replicas as int));
    IntToStringInjective(c.replicas as int, e.replicas as int);
  }

  // Components and evidence kinds the findings name.
  const DatasetComponent: string := "Dataset"
  const RuntimeComponent: string := "Runtime"
  const MasterComponent: string := "Runtime/Master"
  const WorkerComponent: string := "Runtime/Worker"
  const FuseComponent: string := "Runtime/Fuse"
  const PVCComponent: string := "Infrastructure/PVC"
  const DatasetEvidence: string := "Dataset"
  const RuntimeEvidence: string := "Runtime"
  const StatefulSetEvidence: string := "StatefulSet"
  const WorkerEvidence: string := "StatefulSet/DaemonSet"
  const DaemonSetEvidence: string := "DaemonSet"
  const PVCEvidence: string := "PersistentVolumeClaim"

  datatype Rule =
    | DatasetNotBoundRule
    | RuntimeMissingRule
    | MasterNotReadyRule
    | WorkerPartiallyReadyRule
    | FuseMissingRule
    | PVCNotBoundRule
  {
    /** The stable identifier every finding of this rule carries. */
    function ID(): string
    {
      match this
      case DatasetNotBoundRule => "DATASET_NOT_BOUND"
      case RuntimeMissingRule => "RUNTIME_MISSING"
      case MasterNotReadyRule => "MASTER_NOT_READY"
      case WorkerPartiallyReadyRule => "WORKER_PARTIALLY_READY"
      case FuseMissingRule => "FUSE_MISSING"
      case PVCNotBoundRule => "PVC_NOT_BOUND"
    }

    /** The rule does not dereference a nil Dataset: only the first rule
        always reads it, and the second reads it when the Runtime is absent. */
    predicate Evaluable(g: ResourceGraph)
    {
      match this
      case DatasetNotBoundRule => g.dataset.Some?
      case RuntimeMissingRule => g.runtime.Some? || g.dataset.Some?
      case _ => true
    }

    /** Runs the rule; whatever it emits carries the rule's own identifier. */
    function Evaluate(g: ResourceGraph): (r: Option<FailureHint>)
      requires Evaluable(g)
      ensures r.Some? ==> r.value.id == ID()
    {
      match this
      case DatasetNotBoundRule => EvaluateDatasetNotBound(g)
      case RuntimeMissingRule => EvaluateRuntimeMissing(g)
      case MasterNotReadyRule => EvaluateMasterNotReady(g)
      case WorkerPartiallyReadyRule => EvaluateWorkerPartiallyReady(g)
      case FuseMissingRule => EvaluateFuseMissing(g)
      case PVCNotBoundRule => EvaluatePVCNotBound(g)
    }
  }

  /** The registry, in its deterministic order. */
  const Registry: seq<Rule> := [
    DatasetNotBoundRule,
    RuntimeMissingRule,
    MasterNotReadyRule,
    WorkerPartiallyReadyRule,
    FuseMissingRule,
    PVCNotBoundRule
  ]

  /** Six rules with six distinct identifiers. */
  lemma RegistryIdsDistinct()
    ensures |Registry| == 6
    ensures forall i, j :: 0 <= i < j < |Registry| ==> Registry[i].ID() != Registry[j].ID()
  {
  }

  /** The registry, position by position. */
  lemma RegistryAt()
    ensures Registry == [DatasetNotBoundRule, RuntimeMissingRule, MasterNotReadyRule,
      WorkerPartiallyReadyRule, FuseMissingRule, PVCNotBoundRule]
    ensures Registry[0] == DatasetNotBoundRule && Registry[1] == RuntimeMissingRule
    ensures Registry[2] == MasterNotReadyRule && Registry[3] == WorkerPartiallyReadyRule
    ensures Registry[4] == FuseMissingRule && Registry[5] == PVCNotBoundRule
  {
  }

  /** Fires exactly when the derived status is not "Bound"; the comparison is
      case-sensitive. */
  function EvaluateDatasetNotBound(g: ResourceGraph): (r: Option<FailureHint>)
    requires g.dataset.Some?
    ensures r.Some? <==> g.dataset.value.status != "Bound"
    ensures r.Some? ==> (
      r.value.id == DatasetNotBoundRule.ID() && r.value.severity == Critical
      && r.value.component == DatasetComponent && r.value.evidence.kind == DatasetEvidence
      && r.value.evidence.name == g.dataset.value.name
      && r.value.evidence.detail == "Phase: " + g.dataset.value.phase + ", Status: " + g.dataset.value.status)
  {
    var ds := g.dataset.value;
    if ds.status != "Bound" then
      Some(FailureHint(
        DatasetNotBoundRule.ID(), Critical, DatasetComponent,
        Evidence(DatasetEvidence, ds.name, "Phase: " + ds.phase + ", Status: " + ds.status, []),
        DatasetNotBoundSuggestion, ""))
    else None
  }

  /** Fires exactly when the Runtime is absent; the evidence names the Dataset. */
  function EvaluateRuntimeMissing(g: ResourceGraph): (r: Option<FailureHint>)
    requires g.runtime.Some? || g.dataset.Some?
    ensures r.Some? <==> g.runtime.None?
    ensures r.Some? ==> (
      r.value.id == RuntimeMissingRule.ID() && r.value.severity == Critical
      && r.value.component == RuntimeComponent && r.value.evidence.kind == RuntimeEvidence
      && r.value.evidence.name == g.dataset.value.name && r.value.evidence.detail == RuntimeMissingDetail)
  {
    if g.runtime.None? then
      Some(FailureHint(
        RuntimeMissingRule.ID(), Critical, RuntimeComponent,
        Evidence(RuntimeEvidence, g.dataset.value.name, RuntimeMissingDetail, []),
        RuntimeMissingSuggestion, ""))
    else None
  }

  /** Fires exactly when a Master is present whose ready count differs from its
      replica count in either direction. */
  function EvaluateMasterNotReady(g: ResourceGraph): (r: Option<FailureHint>)
    ensures r.Some? <==> (
      g.runtime.Some? && g.runtime.value.master.Some?
      && g.runtime.value.master.value.ready != g.runtime.value.master.value.replicas)
    ensures r.Some? ==> (
      r.value.id == MasterNotReadyRule.ID() && r.value.severity == Critical
      && r.value.component == MasterComponent && r.value.evidence.kind == StatefulSetEvidence
      && r.value.evidence.name == g.runtime.value.master.value.name
      && r.value.evidence.detail == ReplicaDetail(g.runtime.value.master.value))
  {
    if g.runtime.Some? && g.runtime.value.master.Some? then
      var m := g.runtime.value.master.value;
      if m.ready != m.replicas then
        Some(FailureHint(
          MasterNotReadyRule.ID(), Critical, MasterComponent,
          Evidence(StatefulSetEvidence, m.name, ReplicaDetail(m), []),
          MasterNotReadySuggestion, ""))
      else None
    else None
  }

  /** Fires exactly when a Worker is present with fewer ready than desired replicas. */
  function EvaluateWorkerPartiallyReady(g: ResourceGraph): (r: Option<FailureHint>)
    ensures r.Some? <==> (
      g.runtime.Some? && g.runtime.value.worker.Some?
      && g.runtime.value.worker.value.ready < g.runtime.value.worker.value.replicas)
    ensures r.Some? ==> (
      r.value.id == WorkerPartiallyReadyRule.ID() && r.value.severity == Warning
      && r.value.component == WorkerComponent && r.value.evidence.kind == WorkerEvidence
      && r.value.evidence.name == g.runtime.value.worker.value.name
      && r.value.evidence.detail == ReplicaDetail(g.runtime.value.worker.value))
  {
    if g.runtime.Some? && g.runtime.value.worker.Some? then
      var w := g.runtime.value.worker.value;
      if w.ready < w.replicas then
        Some(FailureHint(
          WorkerPartiallyReadyRule.ID(), Warning, WorkerComponent,
          Evidence(WorkerEvidence, w.name, ReplicaDetail(w), []),
          WorkerPartiallyReadySuggestion, ""))
      else None
    else None
  }

  /** Fires exactly when a Fuse is present that wants replicas but has none
      ready; a Fuse scaled to zero never fires. */
  function EvaluateFuseMissing(g: ResourceGraph): (r: Option<FailureHint>)
    ensures r.Some? <==> (
      g.runtime.Some? && g.runtime.value.fuse.Some?
      && g.runtime.value.fuse.value.ready == 0 && g.runtime.value.fuse.value.replicas > 0)
    ensures r.Some? ==> (
      r.value.id == FuseMissingRule.ID() && r.value.severity == Warning
      && r.value.component == FuseComponent && r.value.evidence.kind == DaemonSetEvidence
      && r.value.evidence.name == g.runtime.value.fuse.value.name
      && r.value.evidence.detail == ReplicaDetail(g.runtime.value.fuse.value))
  {
    if g.runtime.Some? && g.runtime.value.fuse.Some? then
      var f := g.runtime.value.fuse.value;
      if f.ready == 0 && f.replicas > 0 then
        Some(FailureHint(
          FuseMissingRule.ID(), Warning, FuseComponent,
          Evidence(DaemonSetEvidence, f.name, ReplicaDetail(f), []),
          FuseMissingSuggestion, ""))
      else None
    else None
  }

  /** Fires exactly when a PVC is present whose status is not "Bound" up to case. */
  function EvaluatePVCNotBound(g: ResourceGraph): (r: Option<FailureHint>)
    ensures r.Some? <==> (
      g.infrastructure.Some? && g.infrastructure.value.pvc.Some?
      && !EqualFold(g.infrastructure.value.pvc.value.status, "Bound"))
    ensures r.Some? ==> (
      r.value.id == PVCNotBoundRule.ID() && r.value.severity == Critical
      && r.value.component == PVCComponent && r.value.evidence.kind == PVCEvidence
      && r.value.evidence.name == g.infrastructure.value.pvc.value.name
      && r.value.evidence.detail == "Status: " + g.infrastructure.value.pvc.value.status)
  {
    if g.infrastructure.Some? && g.infrastructure.value.pvc.Some? then
      var pvc := g.infrastructure.value.pvc.value;
      if !EqualFold(pvc.status, "Bound") then
        Some(FailureHint(
          PVCNotBoundRule.ID(), Critical, PVCComponent,
          Evidence(PVCEvidence, pvc.name, "Status: " + pvc.status, []),
          PVCNotBoundSuggestion, ""))
      else None
    else None
  }

  /** Rules that need a part of the graph stay silent, and do not fail, when
      that part is absent. */
  lemma AbsentPartsSilenceRules(g: ResourceGraph)
    ensures g.runtime.None? ==>
      EvaluateMasterNotReady(g).None? && EvaluateWorkerPartiallyReady(g).None? && EvaluateFuseMissing(g).None?
    ensures g.infrastructure.None? || g.infrastructure.value.pvc.None? ==> EvaluatePVCNotBound(g).None?
  {
  }

  /** The two "Bound" checks differ: the Dataset check is case-sensitive, the
      PVC check is not. A lower-case "bound" fires the first and not the second. */
  lemma BoundCheckCaseSensitivity(name: string)
    ensures var ds := DatasetInfo(name, "default", "bound", "bound");
      var g := ResourceGraph(Some(ds), None, Some(InfrastructureInfo(Some(PVCInfo(name, "bound")), None)));
      EvaluateDatasetNotBound(g).Some? && EvaluatePVCNotBound(g).None?
  {
  }
}
