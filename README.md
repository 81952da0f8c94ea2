# Resource Graph Diagnostic Engine of fluid-introspector, in Dafny

This project models the diagnostic core of `fluid-introspector`, a tool that
inspects a Fluid Dataset in a Kubernetes cluster. Discovery reads the Dataset
custom resource, probes for its Runtime (Alluxio, Jindo, JuiceFS, Thin) and
the Runtime's Master, Worker and Fuse workloads, and reads the Dataset's PVC
and PV. The result is a *resource graph*: a tree of optional records. A fixed
registry of six rules then judges the graph. Their findings (*failure
hints*) are stable-sorted by severity, component and evidence name, and
summarised in one sentence. Five fixture graphs serve as scenarios that run
without a cluster.

Modules, in dependency order:

- `Wrappers` (`wrappers.dfy`): `Option` (Go pointers) and `Result` (Go `(value, error)`).
- `Strings` (`strings.dfy`):
  - ASCII `EqualFold`;
  - `LexLess`, Go's `<` on strings;
  - decimal rendering of integers, as `%d` prints them.
- `Graph` (`graph.dfy`): the resource graph. One datatype per struct. Every pointer is an `Option`. Replica counts are a signed 32-bit `Int32` newtype.
- `Diagnostic` (`diagnostic.dfy`): the closed `Severity` set, `Evidence`, `FailureHint`, `DiagnosticResult`.
- `Rules` (`rules.dfy`): the six rules, their identifiers and the ordered registry.
- `HintOrder` (`hint_order.dfy`): `severityRank` and the comparator passed to `sort.SliceStable`.
- `StableSort` (`stable_sort.dfy`):
  - a functional insertion sort, which specifies the result;
  - lemmas proving that sort sorted, a permutation and stable;
  - an in-place array insertion sort (adjacent swaps, as Go's stable sort does on short slices), proved equal to the functional sort.
- `Diagnoser` (`diagnoser.dfy`):
  - `Diagnose` as a method: the rule loop, the in-place sort and the summary counter loop;
  - the specification function `DiagnosisOf` it is proved against;
  - the properties of that function.
- `ObjectStore` (`object_store.dfy`): the cluster API, reduced to an abstract store. Each object kind is a map from key to `Found(obj) | NotFound | Failure(reason)`. A missing key reads as `NotFound`.
- `K8sMapper` (`k8s_mapper.dfy`): discovery over the store. Each step is a method that assigns the graph's fields one read at a time, proved equal to a specification function.
- `MapperProperties` (`mapper_properties.dfy`): what discovery guarantees about the graphs it builds, and how derived component states line up with the rules.
- `Scenarios` (`scenarios.dfy`): the five fixtures, `Get`, and the exact diagnosis of each fixture.
- `DiagnoserExamples` (`diagnoser_examples.dfy`): the diagnoser's example graphs and their exact findings.

Some behaviour of the code is easy to misread, and the model keeps it as written:

- **missing-runtime fixture.** The fixture's Dataset status is `"NotBound"`, so `DATASET_NOT_BOUND` fires beside `RUNTIME_MISSING` and sorts first. `Scenarios.MissingRuntimeDiagnosis` proves `[DATASET_NOT_BOUND, RUNTIME_MISSING]`. A bound Dataset without a Runtime yields exactly `[RUNTIME_MISSING]` (`DiagnoserExamples.RuntimeMissingExampleDiagnosis`).
- **Component names.** `<runtime>-master`, `<runtime>-worker` and `<runtime>-fuse` come from the Runtime object's own name, not from the Dataset's.
- **Replica counts.** They are signed `int32`, and the model keeps the sign. The lemmas relating derived state to rule outcomes state the non-negativity they need as a precondition.
- **Worker fallback.** The Worker is read as a StatefulSet and, on *any* error, falls back to a DaemonSet. A non-"not found" failure on the first read is swallowed.

## Model

| member | source | states |
|---|---|---|
| Graph.Components | fluid-introspector/pkg/types/graph.go:32-34 | a runtime has at most three components, and a component belongs to it exactly when it fills the Master, Worker or Fuse slot |
| Diagnostic.Severity.Name | fluid-introspector/pkg/types/diagnostic.go:26-32 | every severity is one of "Critical", "Warning", "Info" |
| Diagnostic.SeverityNamesDistinct | fluid-introspector/pkg/types/diagnostic.go:26-32 | the three severities have pairwise distinct string values |
| Strings.EqualFoldIffSameLower | fluid-introspector/pkg/diagnose/rules.go:134 | equal up to case exactly when the lower-cased strings are equal |
| Strings.LexLessTransitive | fluid-introspector/pkg/diagnose/diagnoser.go:47-51 | string `<` is transitive (with the irreflexive and total lemmas beside it, a strict total order) |
| Strings.NatToStringRoundTrip | fluid-introspector/pkg/diagnose/rules.go:98 | the decimal rendering of a count reads back as that count |
| Strings.IntToString | fluid-introspector/pkg/diagnose/rules.go:98 | a rendered integer is its decimal digits, behind a minus sign exactly when it is negative |
| Strings.IntToStringInjective | fluid-introspector/pkg/diagnose/rules.go:98 | distinct integers render to distinct texts |
| Rules.Rule.Evaluate | fluid-introspector/pkg/diagnose/rules.go:10-14 | whatever a rule emits carries that rule's identifier |
| Rules.ReplicaDetailDeterminesCounts | fluid-introspector/pkg/diagnose/rules.go:78 | the "Ready replicas: R/D" detail (also rules.go:98 and rules.go:119) determines both the ready and the replica count it reports |
| Rules.RegistryIdsDistinct | fluid-introspector/pkg/diagnose/rules.go:17-24 | the registry holds six rules with pairwise distinct identifiers |
| Rules.EvaluateDatasetNotBound | fluid-introspector/pkg/diagnose/rules.go:33-46 | fires iff the Dataset status is not exactly "Bound"; the finding is Critical, component "Dataset", evidence names the Dataset, detail "Phase: P, Status: S" |
| Rules.EvaluateRuntimeMissing | fluid-introspector/pkg/diagnose/rules.go:51-64 | fires iff the Runtime is absent; Critical, component "Runtime", evidence names the Dataset, with the fixed "Runtime object is missing from graph." detail |
| Rules.EvaluateMasterNotReady | fluid-introspector/pkg/diagnose/rules.go:69-84 | fires iff a Master is present with ready different from replicas (also when ready exceeds replicas); Critical, detail "Ready replicas: R/D" |
| Rules.EvaluateWorkerPartiallyReady | fluid-introspector/pkg/diagnose/rules.go:89-104 | fires iff a Worker is present with ready below replicas; Warning, detail "Ready replicas: R/D" |
| Rules.EvaluateFuseMissing | fluid-introspector/pkg/diagnose/rules.go:109-125 | fires iff a Fuse is present with none ready and replicas above zero; Warning |
| Rules.EvaluatePVCNotBound | fluid-introspector/pkg/diagnose/rules.go:130-145 | fires iff a PVC is present whose status is not "Bound" up to case; Critical, detail "Status: " and the status |
| Rules.AbsentPartsSilenceRules | fluid-introspector/pkg/diagnose/rules.go:71-145 | with no Runtime the Master, Worker and Fuse rules emit nothing; with no Infrastructure or no PVC the PVC rule emits nothing |
| Rules.BoundCheckCaseSensitivity | fluid-introspector/pkg/diagnose/rules.go:35-145 | a lower-case "bound" fires the case-sensitive Dataset rule but not the case-insensitive PVC rule |
| HintOrder.SeverityRank | fluid-introspector/pkg/diagnose/diagnoser.go:61-72 | Critical ranks 3, Warning 2, Info 1 and every other string 0 |
| HintOrder.Rank | fluid-introspector/pkg/diagnose/diagnoser.go:61-72 | the named severities rank between 1 and 3, and distinct severities never tie |
| HintOrder.SeverityFirst | fluid-introspector/pkg/diagnose/diagnoser.go:41-52 | the comparator `Less`: a more severe finding always sorts before a less severe one and never after it; at equal severity, distinct components are ordered by string `<`, and equal components by evidence name |
| HintOrder.LessTransitive | fluid-introspector/pkg/diagnose/diagnoser.go:40-52 | the comparator is transitive |
| HintOrder.LessAsymmetric | fluid-introspector/pkg/diagnose/diagnoser.go:40-52 | the comparator is asymmetric (and irreflexive, by `LessIrreflexive`) |
| HintOrder.LessTotal | fluid-introspector/pkg/diagnose/diagnoser.go:40-52 | two findings are ordered one way or the other unless their sort keys are equal |
| StableSort.SortHintsSorted | fluid-introspector/pkg/diagnose/diagnoser.go:40-52 | the sort's output is ordered by the comparator |
| StableSort.SortHintsPermutes | fluid-introspector/pkg/diagnose/diagnoser.go:40 | the sort's output is a permutation of its input |
| StableSort.SortHintsStable | fluid-introspector/pkg/diagnose/diagnoser.go:40 | for every sort key, the findings with that key keep their input order |
| StableSort.InsertAt | fluid-introspector/pkg/diagnose/diagnoser.go:40 | sinking one element into the sorted prefix of the array leaves the prefix equal to the functional insertion, the rest unchanged |
| StableSort.SortInPlace | fluid-introspector/pkg/diagnose/diagnoser.go:40-52 | the in-place sort leaves the array equal to the functional stable sort of its old contents |
| Diagnoser.FlattenMembers | fluid-introspector/pkg/diagnose/diagnoser.go:28-35 | a finding is collected exactly when some rule output was that finding |
| Diagnoser.FlattenEmpty | fluid-introspector/pkg/diagnose/diagnoser.go:28-35 | nothing is collected exactly when every rule output was nil |
| Diagnoser.CollectHintsByRule | fluid-introspector/pkg/diagnose/diagnoser.go:28-35 | the collected findings are the six rules' outputs, in registration order, nil outputs skipped |
| Diagnoser.RunRules | fluid-introspector/pkg/diagnose/diagnoser.go:24-35 | the rule loop appends each rule's finding in order, and any finding clears the healthy flag |
| Diagnoser.CountsWithinTotal | fluid-introspector/pkg/diagnose/diagnoser.go:79-87 | the Critical, Warning and Info counts add up to the number of findings |
| Diagnoser.IssuesSentenceInjective | fluid-introspector/pkg/diagnose/diagnoser.go:88 | the "Found N issues: C critical, W warnings." sentence determines its total, critical and warning counts |
| Diagnoser.SummaryDistinguishesHealth | fluid-introspector/pkg/diagnose/diagnoser.go:74-89 | the summary is the healthy sentence exactly when the result is healthy |
| Diagnoser.GenerateSummary | fluid-introspector/pkg/diagnose/diagnoser.go:74-89 | the counting loop yields the healthy sentence or "Found N issues: C critical, W warnings." with the Critical and Warning counts |
| Diagnoser.DiagnosisOf | fluid-introspector/pkg/diagnose/diagnoser.go:13-16 | a nil graph yields a nil result, and only a nil graph does |
| Diagnoser.Diagnose | fluid-introspector/pkg/diagnose/diagnoser.go:13-58 | the loop, in-place sort and summary produce exactly the specified result |
| Diagnoser.HealthyIffNoHints | fluid-introspector/pkg/diagnose/diagnoser.go:21-34 | the result is healthy iff it has no findings, iff its summary is the healthy sentence |
| Diagnoser.HintsArePermutation | fluid-introspector/pkg/diagnose/diagnoser.go:28-35 | the findings are a permutation of the rule outputs, at most six, and a finding is reported iff some rule emitted it |
| Diagnoser.HintsSorted | fluid-introspector/pkg/diagnose/diagnoser.go:40-52 | the reported findings are ordered by severity rank descending, then component, then evidence name |
| Diagnoser.HintsStable | fluid-introspector/pkg/diagnose/diagnoser.go:40 | reported findings with equal sort keys keep rule-registration order |
| Diagnoser.SummaryCounts | fluid-introspector/pkg/diagnose/diagnoser.go:74-89 | an unhealthy summary reports the total with the Critical and Warning counts, which add up to at most the total |
| Diagnoser.ReportedIffFires | fluid-introspector/pkg/diagnose/diagnoser.go:28-35 | a rule's identifier appears among the findings iff that rule fires on the graph |
| K8sMapper.DetermineComponentState | fluid-introspector/pkg/mapper/k8s_mapper.go:256-267 | ComponentsScaledDown iff nothing is desired; Ready iff all desired are ready; PartialReady iff some but not all; NotReady otherwise |
| K8sMapper.DatasetInfoOf | fluid-introspector/pkg/mapper/k8s_mapper.go:80-101 | an empty phase becomes "NotReady"; the status is "Bound" iff the phase is "Bound" up to case, else "NotBound"; name and namespace come from the object |
| K8sMapper.MapDatasetCR | fluid-introspector/pkg/mapper/k8s_mapper.go:66-77 | the Dataset read's outcome is kept: found objects are mapped, not-found and failures are passed on |
| K8sMapper.StatefulSetComponent | fluid-introspector/pkg/mapper/k8s_mapper.go:147-152 | a StatefulSet component takes spec.replicas and readyReplicas, with the state derived from them |
| K8sMapper.DaemonSetComponent | fluid-introspector/pkg/mapper/k8s_mapper.go:172-177 | a DaemonSet component takes desiredNumberScheduled and numberReady, with the state derived from them |
| K8sMapper.MasterOf | fluid-introspector/pkg/mapper/k8s_mapper.go:143-154 | the Master is present iff the StatefulSet `<runtime>-master` is found |
| K8sMapper.WorkerOf | fluid-introspector/pkg/mapper/k8s_mapper.go:156-180 | the Worker is the StatefulSet `<runtime>-worker` when found; otherwise, after any error, the DaemonSet of that name; absent when neither is found |
| K8sMapper.FuseOf | fluid-introspector/pkg/mapper/k8s_mapper.go:182-193 | the Fuse is present iff the DaemonSet `<runtime>-fuse` is found |
| K8sMapper.MapRuntime | fluid-introspector/pkg/mapper/k8s_mapper.go:131-196 | the step-by-step assignments build exactly the specified runtime, with no error path |
| K8sMapper.ProbeRuntime | fluid-introspector/pkg/mapper/k8s_mapper.go:105-129 | no runtime and no error iff every kind is not found; a found runtime is the first found kind after only not-founds; an error is the first failure after only not-founds |
| K8sMapper.DiscoverRuntime | fluid-introspector/pkg/mapper/k8s_mapper.go:105-129 | the loop with early returns computes exactly the probe over Alluxio, Jindo, JuiceFS, Thin |
| K8sMapper.PVOf | fluid-introspector/pkg/mapper/k8s_mapper.go:232-240 | the PV is read by volume name without a namespace, and any read error leaves it absent |
| K8sMapper.InfrastructureOf | fluid-introspector/pkg/mapper/k8s_mapper.go:217-247 | a PVC failure is the only error; PVC not found gives an empty Infrastructure; a found PVC is recorded, and its PV slot is the PV read under its volume name, or absent when it names no volume |
| K8sMapper.DiscoverInfrastructure | fluid-introspector/pkg/mapper/k8s_mapper.go:217-247 | the step-by-step assignments compute exactly the specified Infrastructure |
| K8sMapper.MapError.Message | fluid-introspector/pkg/mapper/k8s_mapper.go:37-58 | the not-found text starts with "dataset "; a wrapped error's text is its fixed prefix, which ends in ": ", followed by the cause |
| K8sMapper.MessageDeterminesError | fluid-introspector/pkg/mapper/k8s_mapper.go:37-58 | the error text tells the not-found error from the wrapped ones, and a wrapped error's text determines its kind and its cause |
| K8sMapper.Discover | fluid-introspector/pkg/mapper/k8s_mapper.go:30-63 | outcome by reads: a missing or failed Dataset read is its error; else a failed runtime probe is a runtime error; else a failed PVC read is an infrastructure error; otherwise the graph of the mapped Dataset, the probed runtime and the Infrastructure, and only then |
| K8sMapper.MapDataset | fluid-introspector/pkg/mapper/k8s_mapper.go:30-63 | Dataset, Runtime and Infrastructure discovery in sequence compute exactly the outcome `Discover` characterises, with no partial graph on error |
| MapperProperties.ProbeFirstFound | fluid-introspector/pkg/mapper/k8s_mapper.go:109-120 | a kind found after only not-found probes is the runtime mapped |
| MapperProperties.ProbeFirstFailure | fluid-introspector/pkg/mapper/k8s_mapper.go:121-124 | a read failure after only not-found probes aborts discovery with that failure |
| MapperProperties.AlluxioShadowsJindo | fluid-introspector/pkg/mapper/k8s_mapper.go:107 | a found Alluxio runtime wins over any other kind |
| MapperProperties.RuntimeInfoWellDerived | fluid-introspector/pkg/mapper/k8s_mapper.go:131-196 | mapped components carry the conventional names and the state derived from their own counts |
| MapperProperties.DatasetErrors | fluid-introspector/pkg/mapper/k8s_mapper.go:34-40 | a missing Dataset gives the not-found error and a failed read the get-dataset error |
| MapperProperties.AbsenceIsNotFailure | fluid-introspector/pkg/mapper/k8s_mapper.go:30-63 | once the Dataset is found, a store whose reads never fail always yields a graph |
| MapperProperties.ErrorsHaveCauses | fluid-introspector/pkg/mapper/k8s_mapper.go:30-63 | every error comes from a Dataset that is not found, a failed runtime probe, or a failed PVC read |
| MapperProperties.RuntimeFailureAborts | fluid-introspector/pkg/mapper/k8s_mapper.go:45-52 | with the Dataset found, a runtime read failing after only not-found probes (k8s_mapper.go:121-124) aborts the mapping with that cause |
| MapperProperties.PVCFailureAborts | fluid-introspector/pkg/mapper/k8s_mapper.go:56-59 | with the Dataset found and the probe succeeded, a failed PVC read (k8s_mapper.go:242-243) aborts the mapping with that cause |
| MapperProperties.FirstRuntimeReachesGraph | fluid-introspector/pkg/mapper/k8s_mapper.go:41-62 | with the Dataset found, the first kind found after only not-found probes (k8s_mapper.go:118-120) is the graph's Runtime, beside the mapped Dataset and the Infrastructure, whenever the PVC read does not fail |
| MapperProperties.MappedGraphShape | fluid-introspector/pkg/mapper/k8s_mapper.go:41-62 | a mapped graph has its Dataset (so it can be diagnosed) and its Infrastructure; normalised status; PV only beside a PVC; a known runtime type with consistently derived components |
| MapperProperties.MissingRuntimeIsReported | fluid-introspector/pkg/mapper/k8s_mapper.go:127-128 | when no runtime kind is found, the graph has no Runtime and its diagnosis reports RUNTIME_MISSING |
| MapperProperties.MappedDatasetRuleIgnoresCase | fluid-introspector/pkg/mapper/k8s_mapper.go:89-92 | on a mapped graph the Dataset rule fires iff the phase is not "Bound" up to case |
| MapperProperties.MasterStateAgreesWithRule | fluid-introspector/pkg/mapper/k8s_mapper.go:256-267 | a Ready master never fires the Master rule; a PartialReady or NotReady one always does |
| MapperProperties.WorkerStateAgreesWithRule | fluid-introspector/pkg/mapper/k8s_mapper.go:256-267 | for counts with 0 <= ready <= replicas, the Worker rule fires iff the state is PartialReady or NotReady |
| MapperProperties.FuseStateAgreesWithRule | fluid-introspector/pkg/mapper/k8s_mapper.go:256-267 | for non-negative counts, the Fuse rule fires iff the state is NotReady |
| Scenarios.AllWellFormed | fluidctl/pkg/scenarios/scenarios.go:25-103 | the five scenarios have distinct names and diagnosable graphs |
| Scenarios.Get | fluidctl/pkg/scenarios/scenarios.go:14-22 | nothing iff no scenario has the name; otherwise a listed scenario with that name |
| Scenarios.HealthyDiagnosis | fluidctl/pkg/scenarios/scenarios.go:26-43 | healthy, no findings, the healthy summary |
| Scenarios.MissingRuntimeDiagnosis | fluidctl/pkg/scenarios/scenarios.go:44-51 | exactly DATASET_NOT_BOUND then RUNTIME_MISSING |
| Scenarios.PartialReadyFindings | fluidctl/pkg/scenarios/scenarios.go:52-68 | only the Worker rule fires |
| Scenarios.PartialReadyDiagnosis | fluidctl/pkg/scenarios/scenarios.go:52-68 | exactly WORKER_PARTIALLY_READY, detail from the worker's 2/3 |
| Scenarios.MissingFuseFindings | fluidctl/pkg/scenarios/scenarios.go:69-85 | only the Fuse rule fires |
| Scenarios.MissingFuseDiagnosis | fluidctl/pkg/scenarios/scenarios.go:69-85 | exactly FUSE_MISSING |
| Scenarios.FailedPodsFindings | fluidctl/pkg/scenarios/scenarios.go:86-102 | only the Master and Worker rules fire, in that order |
| Scenarios.FailedPodsDiagnosis | fluidctl/pkg/scenarios/scenarios.go:86-102 | exactly MASTER_NOT_READY then WORKER_PARTIALLY_READY |
| DiagnoserExamples.HealthyExampleDiagnosis | fluid-introspector/pkg/diagnose/diagnoser_test.go:11-36 | healthy, no findings, the healthy summary |
| DiagnoserExamples.RuntimeMissingExampleDiagnosis | fluid-introspector/pkg/diagnose/diagnoser_test.go:38-50 | unhealthy, exactly one finding: Critical RUNTIME_MISSING |
| DiagnoserExamples.WorkerPartialExampleDiagnosis | fluid-introspector/pkg/diagnose/diagnoser_test.go:52-67 | unhealthy, exactly one finding: Warning WORKER_PARTIALLY_READY with the 2/3 detail |
| DiagnoserExamples.WorkerPartialDetail | fluid-introspector/pkg/diagnose/diagnoser_test.go:66 | that detail reads "Ready replicas: 2/3" |
| DiagnoserExamples.ComplexFailureFindings | fluid-introspector/pkg/diagnose/diagnoser_test.go:69-79 | only the Worker and PVC rules fire, Worker first |
| DiagnoserExamples.ComplexFailureExampleDiagnosis | fluid-introspector/pkg/diagnose/diagnoser_test.go:81-93 | exactly Critical PVC_NOT_BOUND then Warning WORKER_PARTIALLY_READY: severity overrides registration order |

## Left out

- **Clock.** `time.Now()` is a `Timestamp` parameter of `Diagnose`.
- **Cluster I/O.** The controller-runtime client, its network I/O and `context` cancellation are left out. Every `client.Get` is a lookup in the abstract `ObjectStore.Store`. The client's error kinds are reduced to not-found and failure.
- **Nil Dataset.** `Diagnose` requires a graph whose Dataset is present. The Go code dereferences a nil Dataset in the first rule and panics. Discovery always sets the Dataset (`MapperProperties.MappedGraphShape`).
- **Unknown severities.** Severities are the closed set Critical, Warning, Info, which is all the rules emit. Two distinct unknown severity strings would both rank 0 and break the comparator's strict weak order. `HintOrder.SeverityRank` keeps the 0 case, but no finding can carry such a severity.
- **EqualFold.** It folds ASCII letters only; Unicode folding is not modelled. For comparisons against "Bound" the two agree.
- **Formatting.** `fmt.Sprintf` is not modelled in general. Replica details and the summary use the model's own decimal rendering. Error messages are the `K8sMapper.MapError` values; `Message` renders `%w` as the cause's text behind the fixed prefix.
- **Unused fields.** `Labels`, `Reason`, `Pods`, `Configs`, the raw `Object`, `StatefulSet` and `DaemonSet` fields, and `DiagnosticContext` are not modelled. Nothing in the core reads them.
- **Raw objects.** `unstructured.NestedString` extraction is not modelled. Dataset and Runtime objects are records with a phase string.
- **Nil replicas.** The nil dereference of `Spec.Replicas` is not modelled: a StatefulSet object always carries its replica count.
- **Get's pointer.** `Scenarios.Get` returns the scenario value. Go returns a pointer to a copy; no caller depends on the difference.
- **Other components.** The CLI (`fluidctl/cmd`), the printer, the client construction and the placeholder `ResourceMapper` implementations (`mapper.go`, `runtime.go`, `dataset.go`, `resources.go`) are not part of this model.
