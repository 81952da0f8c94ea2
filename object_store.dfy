/** The object store the mapper reads from, in place of the Kubernetes API
    client: one point-read table per kind of object, each read giving the
    object, "not found", or a failure. */
module ObjectStore {
  import opened Graph

  /** A namespaced name; cluster-scoped objects use the empty namespace. */
  datatype ObjectKey = ObjectKey(namespace: string, name: string)

  /** The outcome of one point read. */
  datatype Read<+T> = Found(obj: T) | NotFound | Failure(reason: string)

  /** The runtime kinds the mapper knows, listed in `RuntimeKinds` in probe order. */
  datatype RuntimeKind = AlluxioRuntime | JindoRuntime | JuiceFSRuntime | ThinRuntime {
    function Name(): string
    {
      match this
      case AlluxioRuntime => "AlluxioRuntime"
      case JindoRuntime => "JindoRuntime"
      case JuiceFSRuntime => "JuiceFSRuntime"
      case ThinRuntime => "ThinRuntime"
    }
  }

  const RuntimeKinds: seq<RuntimeKind> := [AlluxioRuntime, JindoRuntime, JuiceFSRuntime, ThinRuntime]

  /** A Dataset custom resource: its metadata and `status.phase` ("" when unset). */
  datatype DatasetObject = DatasetObject(name: string, namespace: string, phase: string)

  /** A Runtime custom resource of any kind: its metadata and `status.phase`. */
  datatype RuntimeObject = RuntimeObject(name: string, namespace: string, phase: string)

  /** A StatefulSet: `spec.replicas` and `status.readyReplicas`. */
  datatype StatefulSetObject = StatefulSetObject(specReplicas: Int32, readyReplicas: Int32)

  /** A DaemonSet: `status.desiredNumberScheduled` and `status.numberReady`. */
  datatype DaemonSetObject = DaemonSetObject(desiredNumberScheduled: Int32, numberReady: Int32)

  /** A PersistentVolumeClaim: name, `status.phase` and `spec.volumeName` ("" when unbound). */
  datatype PVCObject = PVCObject(name: string, phase: string, volumeName: string)

  /** A PersistentVolume: name and `status.phase`. */
  datatype PVObject = PVObject(name: string, phase: string)

  /** The cluster as the mapper sees it. A key a table does not hold reads as not found. */
  datatype Store = Store(
    datasets: map<ObjectKey, Read<DatasetObject>>,
    runtimes: map<(RuntimeKind, ObjectKey), Read<RuntimeObject>>,
    statefulSets: map<ObjectKey, Read<StatefulSetObject>>,
    daemonSets: map<ObjectKey, Read<DaemonSetObject>>,
    pvcs: map<ObjectKey, Read<PVCObject>>,
    pvs: map<ObjectKey, Read<PVObject>>)

  /** One point read from a table. */
  function Get<K, T>(table: map<K, Read<T>>, key: K): (r: Read<T>)
    ensures key !in table ==> r.NotFound?
    ensures key in table ==> r == table[key]
  {
    if key in table then table[key] else NotFound
  }

  /** No read of any object fails: every read either finds the object or reports it absent. */
  predicate NoReadFailures(store: Store)
  {
    && (forall k :: k in store.datasets ==> !store.datasets[k].Failure?)
    && (forall k :: k in store.runtimes ==> !store.runtimes[k].Failure?)
    && (forall k :: k in store.statefulSets ==> !store.statefulSets[k].Failure?)
    && (forall k :: k in store.daemonSets ==> !store.daemonSets[k].Failure?)
    && (forall k :: k in store.pvcs ==> !store.pvcs[k].Failure?)
    && (forall k :: k in store.pvs ==> !store.pvs[k].Failure?)
  }
}
