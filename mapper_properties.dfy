/** What discovery guarantees about the graphs it builds, and how the
    component states it derives line up with the rules that judge them. */
module MapperProperties {
  import opened Wrappers
  import opened Strings
  import opened Graph
  import opened Diagnostic
  import opened Rules
  import opened Diagnoser
  import opened ObjectStore
  import opened K8sMapper

  /** A kind found after only not-found probes is the one mapped. */
  lemma {:induction false} ProbeFirstFound(store: Store, key: ObjectKey, kinds: seq<RuntimeKind>, i: nat)
    requires i < |kinds| && MissedBefore(store, key, kinds, i)
    requires RuntimeRead(store, kinds[i], key).Found?
    ensures ProbeRuntime(store, key, kinds) == Ok(Some(RuntimeInfoOf(store, RuntimeRead(store, kinds[i], key).obj, kinds[i])))
    decreases i
  {
    if i > 0 {
      assert RuntimeRead(store, kinds[0], key).NotFound?;
      assert MissedBefore(store, key, kinds[1..], i - 1) by {
        forall j | 0 <= j < i - 1 ensures RuntimeRead(store, kinds[1..][j], key).NotFound? {
          assert kinds[1..][j] == kinds[j + 1];
        }
      }
      ProbeFirstFound(store, key, kinds[1..], i - 1);
    }
  }

  /** A read failure after only not-found probes aborts the probe with that failure. */
  lemma {:induction false} ProbeFirstFailure(store: Store, key: ObjectKey, kinds: seq<RuntimeKind>, i: nat)
    requires i < |kinds| && MissedBefore(store, key, kinds, i)
    requires RuntimeRead(store, kinds[i], key).Failure?
    ensures ProbeRuntime(store, key, kinds) == Err(RuntimeRead(store, kinds[i], key).reason)
    decreases i
  {
    if i > 0 {
      assert RuntimeRead(store, kinds[0], key).NotFound?;
      assert MissedBefore(store, key, kinds[1..], i - 1) by {
        forall j | 0 <= j < i - 1 ensures RuntimeRead(store, kinds[1..][j], key).NotFound? {
          assert kinds[1..][j] == kinds[j + 1];
        }
      }
      ProbeFirstFailure(store, key, kinds[1..], i - 1);
    }
  }

  /** The runtime kinds are probed in a fixed priority: an Alluxio runtime
      shadows a Jindo runtime of the same name. */
  lemma AlluxioShadowsJindo(store: Store, key: ObjectKey)
    requires RuntimeRead(store, AlluxioRuntime, key).Found?
    ensures ProbeRuntime(store, key, RuntimeKinds).Ok?
    ensures ProbeRuntime(store, key, RuntimeKinds).value.Some?
    ensures ProbeRuntime(store, key, RuntimeKinds).value.value.runtimeType == "AlluxioRuntime"
  {
    ProbeFirstFound(store, key, RuntimeKinds, 0);
  }

  /** Components built by `mapRuntime` carry the conventional names and the
      state derived from their own counts. */
  lemma RuntimeInfoWellDerived(store: Store, u: RuntimeObject, kind: RuntimeKind)
    ensures WellDerived(RuntimeInfoOf(store, u, kind))
    ensures RuntimeInfoOf(store, u, kind).runtimeType == kind.Name()
    ensures RuntimeInfoOf(store, u, kind).name == u.name
  {
  }

  /** A missing Dataset is reported as not found, and a failed read as
      a failure to get it, before anything else is read. */
  lemma DatasetErrors(store: Store, name: string, namespace: string)
    ensures Get(store.datasets, ObjectKey(namespace, name)).NotFound? ==>
      Discover(store, name, namespace) == Err(DatasetNotFound(namespace, name))
    ensures Get(store.datasets, ObjectKey(namespace, name)).Failure? ==>
      Discover(store, name, namespace) == Err(DatasetReadFailed(Get(store.datasets, ObjectKey(namespace, name)).reason))
  {
  }

  /** Absence is not failure: once the Dataset is found, a store whose reads
      never fail always yields a graph. */
  lemma AbsenceIsNotFailure(store: Store, name: string, namespace: string)
    requires NoReadFailures(store)
    requires Get(store.datasets, ObjectKey(namespace, name)).Found?
    ensures Discover(store, name, namespace).Ok?
  {
  }

  /** Every error comes from a missing Dataset or from a read that failed:
      a failed Runtime probe or a failed PVC read. */
  lemma ErrorsHaveCauses(store: Store, name: string, namespace: string)
    requires Discover(store, name, namespace).Err?
    ensures var key := ObjectKey(namespace, name);
      || !Get(store.datasets, key).Found?
      || (exists i :: 0 <= i < |RuntimeKinds| && RuntimeRead(store, RuntimeKinds[i], key).Failure?)
      || Get(store.pvcs, key).Failure?
  {
  }

  /** A runtime read that fails after only not-found probes aborts the whole
      mapping with that failure, whatever the PVC read would give. */
  lemma RuntimeFailureAborts(store: Store, name: string, namespace: string, i: nat)
    requires Get(store.datasets, ObjectKey(namespace, name)).Found?
    requires i < |RuntimeKinds| && MissedBefore(store, ObjectKey(namespace, name), RuntimeKinds, i)
    requires RuntimeRead(store, RuntimeKinds[i], ObjectKey(namespace, name)).Failure?
    ensures Discover(store, name, namespace)
      == Err(RuntimeDiscoveryFailed(RuntimeRead(store, RuntimeKinds[i], ObjectKey(namespace, name)).reason))
  {
    ProbeFirstFailure(store, ObjectKey(namespace, name), RuntimeKinds, i);
  }

  /** A failed PVC read aborts the mapping once the runtime probe has
      succeeded, with or without a runtime. */
  lemma PVCFailureAborts(store: Store, name: string, namespace: string)
    requires Get(store.datasets, ObjectKey(namespace, name)).Found?
    requires ProbeRuntime(store, ObjectKey(namespace, name), RuntimeKinds).Ok?
    requires Get(store.pvcs, ObjectKey(namespace, name)).Failure?
    ensures Discover(store, name, namespace)
      == Err(InfrastructureDiscoveryFailed(Get(store.pvcs, ObjectKey(namespace, name)).reason))
  {
  }

  /** The first runtime kind found, after only not-found probes, is the one
      the graph carries, beside the mapped Dataset and Infrastructure. */
  lemma FirstRuntimeReachesGraph(store: Store, name: string, namespace: string, i: nat)
    requires Get(store.datasets, ObjectKey(namespace, name)).Found?
    requires i < |RuntimeKinds| && MissedBefore(store, ObjectKey(namespace, name), RuntimeKinds, i)
    requires RuntimeRead(store, RuntimeKinds[i], ObjectKey(namespace, name)).Found?
    requires !Get(store.pvcs, ObjectKey(namespace, name)).Failure?
    ensures var key := ObjectKey(namespace, name);
      var r := Discover(store, name, namespace);
      && r.Ok?
      && r.value.dataset == Some(DatasetInfoOf(Get(store.datasets, key).obj))
      && r.value.runtime == Some(RuntimeInfoOf(store, RuntimeRead(store, RuntimeKinds[i], key).obj, RuntimeKinds[i]))
      && r.value.infrastructure == Some(InfrastructureOf(store, key).value)
  {
    ProbeFirstFound(store, ObjectKey(namespace, name), RuntimeKinds, i);
  }

  /** Shape of a mapped graph: the Dataset slot is always present (so the
      graph can be diagnosed), as is the Infrastructure slot; the status is
      one of the two normalised values; a PV is present only beside a PVC that
      names a volume; a present Runtime is one of the known kinds with
      conventionally named, consistently derived components. */
  lemma MappedGraphShape(store: Store, name: string, namespace: string)
    requires Discover(store, name, namespace).Ok?
    ensures var g := Discover(store, name, namespace).value;
      var key := ObjectKey(namespace, name);
      && Diagnosable(g)
      && Get(store.datasets, key).Found?
      && g.dataset.value == DatasetInfoOf(Get(store.datasets, key).obj)
      && (g.dataset.value.status == "Bound" || g.dataset.value.status == "NotBound")
      && g.infrastructure.Some?
      && (g.infrastructure.value.pv.Some? ==> g.infrastructure.value.pvc.Some?)
      && (g.runtime.Some? ==>
            WellDerived(g.runtime.value)
            && exists i :: 0 <= i < |RuntimeKinds| && g.runtime.value.runtimeType == RuntimeKinds[i].Name())
  {
    var g := Discover(store, name, namespace).value;
    var key := ObjectKey(namespace, name);
    if g.runtime.Some? {
      var i :| 0 <= i < |RuntimeKinds| && MissedBefore(store, key, RuntimeKinds, i)
        && RuntimeRead(store, RuntimeKinds[i], key).Found?
        && g.runtime.value == RuntimeInfoOf(store, RuntimeRead(store, RuntimeKinds[i], key).obj, RuntimeKinds[i]);
      RuntimeInfoWellDerived(store, RuntimeRead(store, RuntimeKinds[i], key).obj, RuntimeKinds[i]);
    }
  }

  /** When no runtime kind is found under the dataset's name, the mapped
      graph has no Runtime and its diagnosis reports RUNTIME_MISSING. */
  lemma MissingRuntimeIsReported(store: Store, name: string, namespace: string)
    requires Discover(store, name, namespace).Ok?
    requires forall k :: k in RuntimeKinds ==> RuntimeRead(store, k, ObjectKey(namespace, name)).NotFound?
    ensures Discover(store, name, namespace).value.runtime.None?
    ensures exists h :: h in DiagnosisHints(Discover(store, name, namespace).value) && h.id == "RUNTIME_MISSING"
  {
    var g := Discover(store, name, namespace).value;
    assert MissedBefore(store, ObjectKey(namespace, name), RuntimeKinds, |RuntimeKinds|) by {
      forall j | 0 <= j < |RuntimeKinds| ensures RuntimeRead(store, RuntimeKinds[j], ObjectKey(namespace, name)).NotFound? {
        assert RuntimeKinds[j] in RuntimeKinds;
      }
    }
    MappedGraphShape(store, name, namespace);
    ReportedIffFires(g, 1);
  }

  /** On a mapped graph the case-sensitive Dataset rule agrees with the
      case-insensitive phase check, because discovery normalises the status:
      the rule fires exactly when the phase is not "Bound" up to case. */
  lemma MappedDatasetRuleIgnoresCase(store: Store, name: string, namespace: string)
    requires Discover(store, name, namespace).Ok?
    ensures var g := Discover(store, name, namespace).value;
      Diagnosable(g)
      && (EvaluateDatasetNotBound(g).Some? <==> !EqualFold(g.dataset.value.phase, "Bound"))
  {
    MappedGraphShape(store, name, namespace);
  }

  /** The Master rule and the derived state agree: a Ready master never
      fires, a PartialReady or NotReady one always does. */
  lemma MasterStateAgreesWithRule(rt: RuntimeInfo)
    requires rt.master.Some? && WellDerived(rt)
    ensures var m := rt.master.value;
      var g := ResourceGraph(None, Some(rt), None);
      && (m.state == ReadyState ==> EvaluateMasterNotReady(g).None?)
      && (m.state == PartialReadyState || m.state == NotReadyState ==> EvaluateMasterNotReady(g).Some?)
  {
    assert rt.master.value in Components(rt);
  }

  /** For a Worker whose ready count lies between zero and its replicas, the
      Worker rule fires exactly when the derived state is PartialReady or NotReady. */
  lemma WorkerStateAgreesWithRule(rt: RuntimeInfo)
    requires rt.worker.Some? && WellDerived(rt)
    requires 0 <= rt.worker.value.ready <= rt.worker.value.replicas
    ensures var w := rt.worker.value;
      (EvaluateWorkerPartiallyReady(ResourceGraph(None, Some(rt), None)).Some?
       <==> (w.state == PartialReadyState || w.state == NotReadyState))
  {
    assert rt.worker.value in Components(rt);
  }

  /** For a Fuse with non-negative counts, the Fuse rule fires exactly when
      the derived state is NotReady. */
  lemma FuseStateAgreesWithRule(rt: RuntimeInfo)
    requires rt.fuse.Some? && WellDerived(rt)
    requires 0 <= rt.fuse.value.ready && 0 <= rt.fuse.value.replicas
    ensures EvaluateFuseMissing(ResourceGraph(None, Some(rt), None)).Some?
      <==> rt.fuse.value.state == NotReadyState
  {
    assert rt.fuse.value in Components(rt);
  }
}
