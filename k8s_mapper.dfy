/** Discovery: reads the Dataset, probes for its Runtime, resolves the
    Runtime's workloads by naming convention and reads the PVC/PV, building
    the resource graph. An absent sub-resource becomes an absent slot; only
    the Dataset's absence and genuine read failures abort the mapping. */
module K8sMapper {
  import opened Wrappers
  import opened Strings
  import opened Graph
  import opened ObjectStore

  /** Why a mapping was abandoned. */
  datatype MapError =
    | DatasetNotFound(namespace: string, name: string)
    | DatasetReadFailed(reason: string)
    | RuntimeDiscoveryFailed(reason: string)
    | InfrastructureDiscoveryFailed(reason: string)
  {
    /** The fixed text in front of a wrapped cause; like every `%w` wrap of
        the mapper, it ends in ": ". */
    function WrapPrefix(): (p: string)
      requires !DatasetNotFound?
      ensures |p| >= 2 && p[|p| - 2..] == ": "
    {
      match this
      case DatasetReadFailed(_) => DatasetReadPrefix
      case RuntimeDiscoveryFailed(_) => RuntimePrefix
      case InfrastructureDiscoveryFailed(_) => InfrastructurePrefix
    }

    /** The error text the mapper returns; a wrapped cause is kept at its end. */
    function Message(): (s: string)
      ensures !DatasetNotFound? ==> |s| >= |reason| && s[|s| - |reason|..] == reason
      ensures DatasetNotFound? ==> |s| >= |NotFoundPrefix| && s[..|NotFoundPrefix|] == NotFoundPrefix
      ensures !DatasetNotFound? ==> |s| >= |WrapPrefix()| && s[..|WrapPrefix()|] == WrapPrefix()
    {
      match this
      case DatasetNotFound(ns, n) =>
        var s := NotFoundPrefix + (ns + ("/" + (n + " not found")));
        assert s[..|NotFoundPrefix|] == NotFoundPrefix;
        s
      case _ =>
        var s := WrapPrefix() + reason;
        assert s[..|WrapPrefix()|] == WrapPrefix();
        s
    }
  }

  const NotFoundPrefix: string := "dataset "
  const DatasetReadPrefix: string := "failed to get dataset: "
  const RuntimePrefix: string := "failed to discover runtime: "
  const InfrastructurePrefix: string := "failed to discover infrastructure: "

  /** The first character separates "dataset ..." from "failed ...". */
  lemma MessageStart(e: MapError)
    ensures |e.Message()| > 0 && (e.Message()[0] == 'd' <==> e.DatasetNotFound?)
  {
    assert NotFoundPrefix[0] == 'd';
    assert DatasetReadPrefix[0] == RuntimePrefix[0] == InfrastructurePrefix[0] == 'f';
    if !e.DatasetNotFound? {
      assert e.Message()[0] == e.WrapPrefix()[0];
    }
  }

  /** Two wrapped errors with the same text carry the same prefix: characters
      10 and 19 tell the three prefixes apart. */
  lemma SameMessageSamePrefix(a: MapError, b: MapError)
    requires !a.DatasetNotFound? && !b.DatasetNotFound?
    requires a.Message() == b.Message()
    ensures a.WrapPrefix() == b.WrapPrefix()
  {
    var s := a.Message();
    assert DatasetReadPrefix[10] == 'g' && RuntimePrefix[10] != 'g' && InfrastructurePrefix[10] != 'g';
    assert RuntimePrefix[19] == 'r' && InfrastructurePrefix[19] != 'r';
    assert a.WrapPrefix()[10] == s[10] == b.WrapPrefix()[10];
    assert a.WrapPrefix()[19] == s[19] == b.WrapPrefix()[19];
  }

  /** The message tells the kind of error, and a wrapped cause is recovered
      from it. */
  lemma MessageDeterminesError(a: MapError, b: MapError)
    requires a.Message() == b.Message()
    ensures a.DatasetNotFound? <==> b.DatasetNotFound?
    ensures !a.DatasetNotFound? ==> a == b
  {
    MessageStart(a);
    MessageStart(b);
    if !a.DatasetNotFound? && !b.DatasetNotFound? {
      SameMessageSamePrefix(a, b);
      DropPrefix(a.WrapPrefix(), a.reason, b.reason);
    }
  }

  const ScaledDownState: string := "ComponentsScaledDown"
  const ReadyState: string := "Ready"
  const PartialReadyState: string := "PartialReady"
  const NotReadyState: string := "NotReady"

  /** `determineComponentState`: scaled down when nothing is desired, else
      Ready when every desired replica is ready, else PartialReady while any
      is ready, else NotReady. */
  function DetermineComponentState(ready: Int32, desired: Int32): (s: string)
    ensures s == ScaledDownState <==> desired == 0
    ensures s == ReadyState <==> desired != 0 && ready == desired
    ensures s == PartialReadyState <==> desired != 0 && ready != desired && ready > 0
    ensures s == NotReadyState <==> desired != 0 && ready != desired && ready <= 0
  {
    if desired == 0 then ScaledDownState
    else if ready == desired then ReadyState
    else if ready > 0 then PartialReadyState
    else NotReadyState
  }

  /** The Dataset slot derived from the custom resource: an unset phase reads
      as "NotReady", and the status is "Bound" exactly when the phase is
      "Bound" up to case, "NotBound" otherwise. */
  function DatasetInfoOf(u: DatasetObject): (d: DatasetInfo)
    ensures d.name == u.name && d.namespace == u.namespace
    ensures u.phase == "" ==> d.phase == NotReadyState
    ensures u.phase != "" ==> d.phase == u.phase
    ensures d.status == "Bound" || d.status == "NotBound"
    ensures d.status == "Bound" <==> EqualFold(u.phase, "Bound")
  {
    var phase := if u.phase == "" then NotReadyState else u.phase;
    DatasetInfo(u.name, u.namespace, if EqualFold(phase, "Bound") then "Bound" else "NotBound", phase)
  }

  /** `mapDatasetCR`: the read's outcome, with a found object turned into the Dataset slot. */
  function MapDatasetCR(store: Store, name: string, namespace: string): (r: Read<DatasetInfo>)
    ensures var read := Get(store.datasets, ObjectKey(namespace, name));
      && (r.Found? <==> read.Found?)
      && (r.Found? ==> r.obj == DatasetInfoOf(read.obj))
      && (r.NotFound? <==> read.NotFound?)
      && (r.Failure? ==> read == Failure(r.reason))
  {
    match Get(store.datasets, ObjectKey(namespace, name))
    case Found(u) => Found(DatasetInfoOf(u))
    case NotFound => NotFound
    case Failure(e) => Failure(e)
  }

  /** A component read from a StatefulSet: (spec.replicas, readyReplicas). */
  function StatefulSetComponent(name: string, sts: StatefulSetObject): (c: ComponentInfo)
    ensures c.name == name && c.replicas == sts.specReplicas && c.ready == sts.readyReplicas
    ensures c.state == DetermineComponentState(c.ready, c.replicas)
  {
    ComponentInfo(name, sts.specReplicas, sts.readyReplicas,
      DetermineComponentState(sts.readyReplicas, sts.specReplicas))
  }

  /** A component read from a DaemonSet: (desiredNumberScheduled, numberReady). */
  function DaemonSetComponent(name: string, ds: DaemonSetObject): (c: ComponentInfo)
    ensures c.name == name && c.replicas == ds.desiredNumberScheduled && c.ready == ds.numberReady
    ensures c.state == DetermineComponentState(c.ready, c.replicas)
  {
    ComponentInfo(name, ds.desiredNumberScheduled, ds.numberReady,
      DetermineComponentState(ds.numberReady, ds.desiredNumberScheduled))
  }

  function MasterName(u: RuntimeObject): string { u.name + "-master" }
  function WorkerName(u: RuntimeObject): string { u.name + "-worker" }
  function FuseName(u: RuntimeObject): string { u.name + "-fuse" }

  /** The Master: the StatefulSet `<runtime>-master`, absent on any read error. */
  function MasterOf(store: Store, u: RuntimeObject): (c: Option<ComponentInfo>)
    ensures var read := Get(store.statefulSets, ObjectKey(u.namespace, MasterName(u)));
      && (c.Some? <==> read.Found?)
      && (c.Some? ==> c.value == StatefulSetComponent(MasterName(u), read.obj))
  {
    match Get(store.statefulSets, ObjectKey(u.namespace, MasterName(u)))
    case Found(sts) => Some(StatefulSetComponent(MasterName(u), sts))
    case _ => None
  }

  /** The Worker: the StatefulSet `<runtime>-worker`; on any error reading it,
      the DaemonSet of that name; absent when neither read succeeds. */
  function WorkerOf(store: Store, u: RuntimeObject): (c: Option<ComponentInfo>)
    ensures var key := ObjectKey(u.namespace, WorkerName(u));
      var sts := Get(store.statefulSets, key);
      var ds := Get(store.daemonSets, key);
      && (c.Some? <==> sts.Found? || ds.Found?)
      && (sts.Found? ==> c == Some(StatefulSetComponent(WorkerName(u), sts.obj)))
      && (!sts.Found? && ds.Found? ==> c == Some(DaemonSetComponent(WorkerName(u), ds.obj)))
  {
    var key := ObjectKey(u.namespace, WorkerName(u));
    match Get(store.statefulSets, key)
    case Found(sts) => Some(StatefulSetComponent(WorkerName(u), sts))
    case _ =>
      match Get(store.daemonSets, key)
      case Found(ds) => Some(DaemonSetComponent(WorkerName(u), ds))
      case _ => None
  }

  /** The Fuse: the DaemonSet `<runtime>-fuse`, absent on any read error. */
  function FuseOf(store: Store, u: RuntimeObject): (c: Option<ComponentInfo>)
    ensures var read := Get(store.daemonSets, ObjectKey(u.namespace, FuseName(u)));
      && (c.Some? <==> read.Found?)
      && (c.Some? ==> c.value == DaemonSetComponent(FuseName(u), read.obj))
  {
    match Get(store.daemonSets, ObjectKey(u.namespace, FuseName(u)))
    case Found(ds) => Some(DaemonSetComponent(FuseName(u), ds))
    case _ => None
  }

  /** The Runtime slot built by `mapRuntime` from a found runtime of kind `kind`. */
  function RuntimeInfoOf(store: Store, u: RuntimeObject, kind: RuntimeKind): RuntimeInfo
  {
    RuntimeInfo(u.name, kind.Name(), u.phase, MasterOf(store, u), WorkerOf(store, u), FuseOf(store, u))
  }

  /** A runtime whose components carry the conventional names and a state
      derived from their own counts. */
  predicate WellDerived(rt: RuntimeInfo)
  {
    && (rt.master.Some? ==> rt.master.value.name == rt.name + "-master")
    && (rt.worker.Some? ==> rt.worker.value.name == rt.name + "-worker")
    && (rt.fuse.Some? ==> rt.fuse.value.name == rt.name + "-fuse")
    && forall c :: c in Components(rt) ==> c.state == DetermineComponentState(c.ready, c.replicas)
  }

  /** `mapRuntime`: fills in the runtime's slots one read at a time; it never fails. */
  method MapRuntime(store: Store, u: RuntimeObject, kind: RuntimeKind) returns (info: RuntimeInfo)
    ensures info == RuntimeInfoOf(store, u, kind)
  {
    info := RuntimeInfo(u.name, kind.Name(), u.phase, None, None, None);
    var masterName := MasterName(u);
    match Get(store.statefulSets, ObjectKey(u.namespace, masterName)) {
      case Found(sts) =>
        info := info.(master := Some(StatefulSetComponent(masterName, sts)));
      case _ =>
    }
    assert info == RuntimeInfo(u.name, kind.Name(), u.phase, MasterOf(store, u), None, None);
    var workerName := WorkerName(u);
    match Get(store.statefulSets, ObjectKey(u.namespace, workerName)) {
      case Found(sts) =>
        info := info.(worker := Some(StatefulSetComponent(workerName, sts)));
      case _ =>
        match Get(store.daemonSets, ObjectKey(u.namespace, workerName)) {
          case Found(ds) =>
            info := info.(worker := Some(DaemonSetComponent(workerName, ds)));
          case _ =>
        }
    }
    assert info == RuntimeInfo(u.name, kind.Name(), u.phase, MasterOf(store, u), WorkerOf(store, u), None);
    var fuseName := FuseName(u);
    match Get(store.daemonSets, ObjectKey(u.namespace, fuseName)) {
      case Found(ds) =>
        info := info.(fuse := Some(DaemonSetComponent(fuseName, ds)));
      case _ =>
    }
  }

  /** The read of runtime kind `kind` under `key`. */
  function RuntimeRead(store: Store, kind: RuntimeKind, key: ObjectKey): Read<RuntimeObject>
  {
    Get(store.runtimes, (kind, key))
  }

  /** Every kind before position `i` was probed and not found. */
  predicate MissedBefore(store: Store, key: ObjectKey, kinds: seq<RuntimeKind>, i: nat)
    requires i <= |kinds|
  {
    forall j :: 0 <= j < i ==> RuntimeRead(store, kinds[j], key).NotFound?
  }

  /** `discoverRuntime` over the probe list `kinds`: the first kind found wins,
      not found moves on, any other error aborts, and none found is no error. */
  function ProbeRuntime(store: Store, key: ObjectKey, kinds: seq<RuntimeKind>): (r: Result<Option<RuntimeInfo>, string>)
    ensures r == Ok(None) <==> MissedBefore(store, key, kinds, |kinds|)
    ensures r.Ok? && r.value.Some? ==>
      (exists i :: 0 <= i < |kinds| && MissedBefore(store, key, kinds, i)
         && RuntimeRead(store, kinds[i], key).Found?
         && r.value.value == RuntimeInfoOf(store, RuntimeRead(store, kinds[i], key).obj, kinds[i]))
    ensures r.Err? ==>
      (exists i :: 0 <= i < |kinds| && MissedBefore(store, key, kinds, i)
         && RuntimeRead(store, kinds[i], key) == Failure(r.error))
  {
    if kinds == [] then Ok(None)
    else
      match RuntimeRead(store, kinds[0], key)
      case Found(u) => Ok(Some(RuntimeInfoOf(store, u, kinds[0])))
      case Failure(e) => Err(e)
      case NotFound =>
        var rest := ProbeRuntime(store, key, kinds[1..]);
        assert forall i :: 0 <= i < |kinds| - 1 ==> kinds[1..][i] == kinds[i + 1];
        rest
  }

  /** `discoverRuntime`: probes the known kinds in priority order. */
  method DiscoverRuntime(store: Store, name: string, namespace: string) returns (r: Result<Option<RuntimeInfo>, string>)
    ensures r == ProbeRuntime(store, ObjectKey(namespace, name), RuntimeKinds)
  {
    var key := ObjectKey(namespace, name);
    var i := 0;
    while i < |RuntimeKinds|
      invariant 0 <= i <= |RuntimeKinds|
      invariant ProbeRuntime(store, key, RuntimeKinds) == ProbeRuntime(store, key, RuntimeKinds[i..])
    {
      var kind := RuntimeKinds[i];
      match Get(store.runtimes, (kind, key)) {
        case Found(u) =>
          var info := MapRuntime(store, u, kind);
          return Ok(Some(info));
        case Failure(e) =>
          return Err(e);
        case NotFound =>
      }
      assert RuntimeKinds[i..][1..] == RuntimeKinds[i + 1..];
      i := i + 1;
    }
    return Ok(None);
  }

  /** The PV slot: read by the PVC's volume name, cluster-scoped, and absent
      on any read error. */
  function PVOf(store: Store, volumeName: string): (pv: Option<PVInfo>)
    ensures var read := Get(store.pvs, ObjectKey("", volumeName));
      && (pv.Some? <==> read.Found?)
      && (pv.Some? ==> pv.value == PVInfo(read.obj.name, read.obj.phase))
  {
    match Get(store.pvs, ObjectKey("", volumeName))
    case Found(v) => Some(PVInfo(v.name, v.phase))
    case _ => None
  }

  /** `discoverInfrastructure`: the PVC named after the dataset and, when it
      names a volume, that PV. */
  function InfrastructureOf(store: Store, key: ObjectKey): (r: Result<InfrastructureInfo, string>)
    ensures var read := Get(store.pvcs, key);
      && (r.Err? <==> read.Failure?)
      && (r.Err? ==> r.error == read.reason)
      && (read.NotFound? ==> r == Ok(InfrastructureInfo(None, None)))
      && (read.Found? ==> r.value.pvc == Some(PVCInfo(read.obj.name, read.obj.phase)))
      && (r.Ok? && r.value.pv.Some? ==> read.Found? && read.obj.volumeName != "")
      && (read.Found? && read.obj.volumeName != "" ==> r.Ok? && r.value.pv == PVOf(store, read.obj.volumeName))
      && (read.Found? && read.obj.volumeName == "" ==> r.Ok? && r.value.pv.None?)
  {
    match Get(store.pvcs, key)
    case Found(c) =>
      Ok(InfrastructureInfo(Some(PVCInfo(c.name, c.phase)), if c.volumeName != "" then PVOf(store, c.volumeName) else None))
    case NotFound => Ok(InfrastructureInfo(None, None))
    case Failure(e) => Err(e)
  }

  /** `discoverInfrastructure`, assigning the PVC then the PV slot. */
  method DiscoverInfrastructure(store: Store, name: string, namespace: string) returns (r: Result<InfrastructureInfo, string>)
    ensures r == InfrastructureOf(store, ObjectKey(namespace, name))
  {
    var infra := InfrastructureInfo(None, None);
    match Get(store.pvcs, ObjectKey(namespace, name)) {
      case Found(pvc) =>
        infra := infra.(pvc := Some(PVCInfo(pvc.name, pvc.phase)));
        if pvc.volumeName != "" {
          match Get(store.pvs, ObjectKey("", pvc.volumeName)) {
            case Found(pv) =>
              infra := infra.(pv := Some(PVInfo(pv.name, pv.phase)));
            case _ =>
          }
        }
      case Failure(e) =>
        return Err(e);
      case NotFound =>
    }
    return Ok(infra);
  }

  /** The outcome of `MapDataset` on a store. */
  function Discover(store: Store, name: string, namespace: string): (r: Result<ResourceGraph, MapError>)
    ensures var key := ObjectKey(namespace, name);
      var ds := Get(store.datasets, key);
      var probe := ProbeRuntime(store, key, RuntimeKinds);
      var infra := InfrastructureOf(store, key);
      && (ds.NotFound? ==> r == Err(DatasetNotFound(namespace, name)))
      && (ds.Failure? ==> r == Err(DatasetReadFailed(ds.reason)))
      && (ds.Found? && probe.Err? ==> r == Err(RuntimeDiscoveryFailed(probe.error)))
      && (ds.Found? && probe.Ok? && infra.Err? ==> r == Err(InfrastructureDiscoveryFailed(infra.error)))
      && (r.Ok? <==> ds.Found? && probe.Ok? && infra.Ok?)
      && (r.Ok? ==> r.value == ResourceGraph(Some(DatasetInfoOf(ds.obj)), probe.value, Some(infra.value)))
  {
    var key := ObjectKey(namespace, name);
    match MapDatasetCR(store, name, namespace)
    case NotFound => Err(DatasetNotFound(namespace, name))
    case Failure(e) => Err(DatasetReadFailed(e))
    case Found(ds) =>
      match ProbeRuntime(store, key, RuntimeKinds)
      case Err(e) => Err(RuntimeDiscoveryFailed(e))
      case Ok(rt) =>
        match InfrastructureOf(store, key)
        case Err(e) => Err(InfrastructureDiscoveryFailed(e))
        case Ok(infra) => Ok(ResourceGraph(Some(ds), rt, Some(infra)))
  }

  /** `MapDataset`: Dataset, then Runtime, then Infrastructure, each read's
      failure returned at once with no partial graph. */
  method MapDataset(store: Store, name: string, namespace: string) returns (r: Result<ResourceGraph, MapError>)
    ensures r == Discover(store, name, namespace)
  {
    var graph := ResourceGraph(None, None, None);
    var datasetInfo := MapDatasetCR(store, name, namespace);
    match datasetInfo {
      case NotFound =>
        return Err(DatasetNotFound(namespace, name));
      case Failure(e) =>
        return Err(DatasetReadFailed(e));
      case Found(ds) =>
        graph := graph.(dataset := Some(ds));
    }
    var runtimeInfo := DiscoverRuntime(store, name, namespace);
    if runtimeInfo.Err? {
      return Err(RuntimeDiscoveryFailed(runtimeInfo.error));
    }
    graph := graph.(runtime := runtimeInfo.value);
    var infraInfo := DiscoverInfrastructure(store, name, namespace);
    if infraInfo.Err? {
      return Err(InfrastructureDiscoveryFailed(infraInfo.error));
    }
    graph := graph.(infrastructure := Some(infraInfo.value));
    return Ok(graph);
  }
}
