/** The normalized resource graph of one Fluid Dataset: the Dataset, its
    Runtime with up to three workload components, and the PVC/PV storage
    beneath it. Every Go pointer is an `Option`, so "absent" and "present but
    zero" stay distinct. */
module Graph {
  import opened Wrappers

  /** Go's `int32`. */
  newtype Int32 = x: int | -0x8000_0000 <= x < 0x8000_0000

  /** The root snapshot. The Dataset slot always exists (a nil Dataset is not
      diagnosable); Runtime and Infrastructure are independently optional. */
  datatype ResourceGraph = ResourceGraph(
    dataset: Option<DatasetInfo>,
    runtime: Option<RuntimeInfo>,
    infrastructure: Option<InfrastructureInfo>)

  /** The Dataset custom resource: `status` is the derived "Bound"/"NotBound",
      `phase` the raw upstream phase. */
  datatype DatasetInfo = DatasetInfo(name: string, namespace: string, status: string, phase: string)

  /** The Runtime custom resource; `runtimeType` is the Go `Type` field, the
      kind under which the runtime was found (e.g. "AlluxioRuntime"). */
  datatype RuntimeInfo = RuntimeInfo(
    name: string,
    runtimeType: string,
    phase: string,
    master: Option<ComponentInfo>,
    worker: Option<ComponentInfo>,
    fuse: Option<ComponentInfo>)

  /** One workload component. `replicas` and `ready` are signed 32-bit
      counts; nothing forces `ready <= replicas` or either to be non-negative. */
  datatype ComponentInfo = ComponentInfo(name: string, replicas: Int32, ready: Int32, state: string)

  datatype InfrastructureInfo = InfrastructureInfo(pvc: Option<PVCInfo>, pv: Option<PVInfo>)

  datatype PVCInfo = PVCInfo(name: string, status: string)

  datatype PVInfo = PVInfo(name: string, status: string)

  /** The components a runtime actually has, in Master, Worker, Fuse order. */
  function Components(rt: RuntimeInfo): (cs: seq<ComponentInfo>)
    ensures |cs| <= 3
    ensures forall c :: c in cs <==> Some(c) in [rt.master, rt.worker, rt.fuse]
  {
    (if rt.master.Some? then [rt.master.value] else [])
    + (if rt.worker.Some? then [rt.worker.value] else [])
    + (if rt.fuse.Some? then [rt.fuse.value] else [])
  }
}
