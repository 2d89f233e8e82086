# kube-controller, modelled in Dafny

A model of the controller in `Henrod/kube-controller`. The controller keeps a
fixed number of worker pods running in one Kubernetes namespace. It is
modelled in these parts:

- **Status table** (`status.dfy`, module `StatusTable`). This is the map from
  pod name to the status string the pod last reported.
  - `Update` deletes the entry on `"terminated"` and otherwise overwrites it.
    It then sends one change notification, modelled as a counter.
  - `Report` counts the `"ready"` and `"occupied"` entries.
- **Usage report** (`report.dfy`, module `Reports`). `Usage` and `Delta` are
  computed over exact reals. `Delta` truncates toward zero the way Go's
  float-to-int conversion does.
- **Kubernetes adapter** (`kubernetes.dfy`, module `Kubernetes`). It covers
  the objects each call submits (labels, selectors, the 32-bit service port)
  and the `"already exists"` filter. `CreateNamespace` and `CreateService`
  apply that filter; `CreatePod` and `DeletePod` do not.
- **In-memory cluster** (`cluster.dfy`, module `Cluster`). This is a class
  implementing the controller's `Kubernetes` interface.
  - Each call builds its request with the adapter and sends it to an
    in-memory API server.
  - A per-call queue of injected faults can make a call fail.
  - The adapter maps the server's error, and the call is logged with the
    error the controller received.
- **Reconciler** (`watcher.dfy`, module `Watching`).
  - `Create` makes the namespace, then `numberOfPods` pods, then the
    service, and stops at the first error.
  - `ensureNumberOfPods` lists the namespace's labelled pods, then creates the
    shortfall or deletes the surplus from the front of the listing.
  - `handlePod` reconciles only on `Modified` events.
  - `podName` builds `namespace-<first segment of a UUID>`.
  - Each method also returns, as a ghost value, the trace of calls it made.
    Its contract says which plan that trace follows.
- **Ingestion endpoint** (`ingestion.dfy`, module `Ingestion`). A failed body
  read or a failed JSON decode answers 400 and changes nothing. Otherwise the
  handler makes exactly one `Update` with the decoded name and status, which
  is not validated, and answers 200.
- **Worker sidecar** (`statuspod.dfy`, module `StatusPod`). The status starts
  `"ready"`. A toggle flips ready to occupied and anything else to ready. A
  termination signal sets `"terminated"`. Every change is pushed to
  `url + "/statuss"` with a payload holding only the status.

Three behaviours of the code are easy to miss, and the model keeps them:

- The watcher keeps a fixed count, driven by a ticker and `Modified` events.
  It never reads the status table or the usage report. There is no
  minimum-pod floor, no creation ceiling and no occupancy-driven scaling.
- The ingestion endpoint accepts any status string.
- The sidecar's payload has no `Name` field, although the endpoint's record
  has one.

## Model

| member | source | states |
|---|---|---|
| Reports.Usage | controller/report.go:10-16 | For a non-empty report, usage lies in [0, 1] and is the occupied share of all counted pods: usage times total equals occupied. |
| Reports.ExactDelta | controller/report.go:20-32 | For any expected usage other than 1, the untruncated delta x solves `occupied + x = eu * (ready + occupied + x)`. |
| Reports.Delta | controller/report.go:32-33 | The result is the exact delta truncated toward zero: it lies within one of the exact value, on the side of zero. |
| Reports.DeltaWithoutReadyOrTarget | controller/report.go:32-33 | With no ready pods or a zero expected usage, the delta removes every occupied pod (`-occupied`). |
| Reports.DeltaAtEightyPercent | controller/report.go:32-33 | In exact arithmetic, at 80% expected usage, 1 ready and 9 occupied give -5, and 8 ready and 2 occupied give 30. |
| StatusTable.Updated | controller/status.go:40-45 | A terminated pod has no entry afterwards, even if it had none before. Any other status becomes the pod's entry. Every other key keeps its presence and its value. |
| StatusTable.LastWriteWins | controller/status.go:40-45 | Two updates of the same pod leave the table as the second update alone would. |
| StatusTable.CountsWithinTable | controller/status.go:52-59 | Ready plus occupied never exceeds the number of entries; unknown strings count as neither. |
| StatusTable.UpdateShiftsCount | controller/status.go:33-62 | An update moves each status count exactly: the pod's old entry leaves its status's count, and the new status joins its count unless it is terminated. |
| StatusTable.Status.constructor | controller/status.go:19-30 | The table's keys are exactly the listed pods, each ready; no notification has been sent. |
| StatusTable.Status.Update | controller/status.go:33-46 | The table becomes `Updated(old, name, status)`, and exactly one notification is sent, whatever the status. |
| StatusTable.Status.Report | controller/status.go:49-62 | The report's counts are the numbers of entries equal to `"ready"` and to `"occupied"`. |
| Kubernetes.Int32 | models/kubernetes.go:78 | The port is the two's-complement value of the low 32 bits: it is in the int32 range, congruent modulo 2^32, and unchanged when already in range. |
| Kubernetes.CreatedPodsAreSelected | models/kubernetes.go:32-108 | A pod made by `CreatePod` is selected by the namespace's listing selector and by its service's selector. The listing selector of every other namespace rejects it. |
| Kubernetes.Contains | models/kubernetes.go:126 | True exactly when the text occurs somewhere in the string. |
| Kubernetes.IsAlreadyExistsError | models/kubernetes.go:125-127 | False for no error; otherwise true exactly when the message contains "already exists". |
| Kubernetes.IgnoreAlreadyExists | models/kubernetes.go:61-66 | The result is no error exactly when there was none or it was an already-exists error; any other error is returned unchanged. |
| Kubernetes.AlreadyExistsIgnored | models/kubernetes.go:87-92 | An error whose message ends in "already exists" is recognised and swallowed. |
| Cluster.FakeKubernetes.Send | controller/controller.go:9-19 | The server's new state and answer are those of the in-memory server for this request, unless a fault is injected. One fault is consumed, and pod names stay unique per namespace. |
| Cluster.FakeKubernetes.CreatePod | models/kubernetes.go:31-51 | Submits the labelled one-container pod and returns the server's error unchanged. On success the pod is appended; on failure nothing changes. A name already in use fails. The call is logged. |
| Cluster.FakeKubernetes.CreateNamespace | models/kubernetes.go:54-67 | Submits the namespace. The error is the server's answer with "already exists" swallowed, so an existing namespace is no error. The namespace is stored exactly when no error is returned. Pods and services are unchanged, and the call is logged. |
| Cluster.FakeKubernetes.CreateService | models/kubernetes.go:70-93 | Submits the one-port NodePort service selecting `app=namespace`. The same already-exists rule applies. The service is stored exactly when no error is returned. Pods and namespaces are unchanged, and the call is logged. |
| Cluster.FakeKubernetes.GetPods | models/kubernetes.go:103-116 | Lists with selector `app=namespace` and changes nothing. The server filters by the namespace and the selector carried in the request. On success the result is the namespace's pods that the selector matches, in order; on failure, no pods and the server's error. |
| Cluster.FakeKubernetes.DeletePod | models/kubernetes.go:119-123 | Returns the server's error unchanged. On success the pod is removed; deleting a missing pod fails and changes nothing. |
| Cluster.ListedSnoc | models/kubernetes.go:103-116 | A newly stored pod appears at the end of a listing exactly when the listing selects it. |
| Cluster.ListedWithout | models/kubernetes.go:119-123 | Listing after a deletion gives the old listing without the entries of that name. |
| Cluster.ElsewhereWithout | models/kubernetes.go:119-123 | Deleting a pod of one namespace leaves the pods of every other namespace as they were, in order. |
| Cluster.DeleteFirstListed | models/kubernetes.go:103-123 | With unique names, deleting the first listed pod leaves exactly the rest of the listing, in order. |
| Watching.FirstSegment | controller/watcher.go:60 | The result is the prefix of the id before its first dash: it is a prefix, has no dash, and is followed by a dash or the end. |
| Watching.PodName | controller/watcher.go:58-62 | The name is the namespace, a dash, and the whole first segment of the id: a dash-free prefix followed in the id by a dash or the end. |
| Watching.Watcher.NewPodName | controller/watcher.go:58-62 | Returns `PodName` of the next unused identifier and uses it up. |
| Watching.Watcher.Create | controller/watcher.go:35-56 | The calls follow the bootstrap plan (namespace, `numberOfPods` pods, service) up to the first error, which is returned. The cluster gains exactly the pods created, which are not rolled back. The namespace is stored exactly when its call succeeded, and the service `(namespace, namespace)` exactly when `Create` returns no error; nothing else changes. One identifier is used up per pod creation attempted, and one injected fault per call made. |
| Watching.Watcher.CreatePods | controller/watcher.go:122-131 | The calls follow `count` creations with fresh names up to the first error. The cluster and the namespace's listing gain exactly the pods created. Namespaces, services and other namespaces' pods are unchanged. One identifier is used up per call, so a later call starts from unused ones, and one injected fault is consumed per call. |
| Watching.Watcher.CreateOnePod | controller/watcher.go:124-127 | One creation is logged; the cluster and the listing gain the pod exactly when it succeeded. Namespaces, services and other namespaces' pods are unchanged. |
| Watching.Watcher.DeletePods | controller/watcher.go:133-142 | The calls delete `pods[0]`, `pods[1]`, ... in order up to the first error. Given the listing, the listing loses exactly the pods deleted from its front. Namespaces, services and other namespaces' pods are unchanged. One injected fault is consumed per call. |
| Watching.Watcher.EnsureNumberOfPods | controller/watcher.go:106-120 | Lists first. A failed listing stops there with nothing changed. Otherwise it follows the reconcile plan for that listing, and the listing afterwards is the old one plus the created pods or minus the deleted prefix. Namespaces, services and other namespaces' pods are unchanged. Identifiers are used up only by creation calls, one each, and one injected fault is consumed per call. |
| Watching.Watcher.HandlePod | controller/watcher.go:97-104 | A `Modified` event reconciles, with the same frame as `EnsureNumberOfPods`. Any other event returns no error, makes no call, and leaves the cluster, the fault queue and the identifiers unchanged. |
| Watching.BootstrapNamespaceFailure | controller/watcher.go:38-41 | A failed namespace call is the only call of `Create`; no pod or service is requested, and no pod is created. |
| Watching.BootstrapPodFailure | controller/watcher.go:43-48 | When pod creation k fails, the trace ends there with that error. No service is requested, and the k - 1 earlier pods stay created. |
| Watching.BootstrapSuccess | controller/watcher.go:43-55 | A `Create` without error made exactly one namespace call, `numberOfPods` successful pod creations and one `CreateService(ns, ns, port)`, in that order, and created `numberOfPods` pods. |
| Watching.ReconcileReachesTarget | controller/watcher.go:112-119 | A reconciliation that returns no error leaves exactly `numberOfPods` pods in the in-memory server's listing. |
| Watching.ReconcileNeverOvershoots | controller/watcher.go:112-142 | Even when it fails part-way, the listed count only moves toward `numberOfPods`, never past it. |
| Watching.ReconcileAtTarget | controller/watcher.go:112-119 | When the listing already has `numberOfPods` pods, no call follows the listing and nothing changes. |
| Watching.CreatedAlongPlan | controller/watcher.go:123-128 | Along a creation plan that stops at its first error, the pods created are exactly the calls that succeeded. |
| Watching.FailureEndsTrace | controller/watcher.go:125-127 | A failed call is the last call made, and its error is the one returned. |
| Watching.CompletedTrace | controller/watcher.go:122-131 | A run that ends without error made every planned request, in order, and each one succeeded. |
| Ingestion.Handle | http/app.go:24-47 | The code is 200 or 400. It is 200 exactly when an update is made, which happens exactly when both the read and the decode succeed. The update is the decoded record as decoded. |
| Ingestion.UnknownStatusRecorded | http/app.go:36-45 | An accepted status the controller does not know is still stored for the pod. It removes the pod from the ready and occupied counts without joining either. |
| Ingestion.UpdateHandler.ServeHTTP | http/app.go:24-47 | Returns the code of `Handle`. An accepted request makes exactly one `Update` (table and one notification); a rejected one leaves the table and the notifications unchanged. |
| StatusPod.Toggled | statuspod/main.go:47-51 | The result is occupied exactly when the status was ready, and ready exactly when it was anything else (terminated included). |
| StatusPod.ToggleTwice | statuspod/main.go:47-51 | Toggling twice from ready or occupied restores the status. |
| StatusPod.ToggleAfterTermination | statuspod/main.go:47-51 | A terminated sidecar toggles to ready, then to occupied. |
| StatusPod.Sidecar.constructor | statuspod/main.go:26 | The status starts ready, and nothing has been pushed. |
| StatusPod.Sidecar.SendStatus | statuspod/main.go:56-67 | Appends one push of the current status, alone, to the base url followed by the path the controller's handler is registered under (`/statuss`). The status is unchanged. |
| StatusPod.Sidecar.Toggle | statuspod/main.go:45-54 | The status becomes `Toggled` of the old one, then exactly one push of the new status is made to `url + "/statuss"`. |
| StatusPod.Sidecar.Terminate | statuspod/main.go:104-105 | The status becomes terminated before the final push to `url + "/statuss"`, which carries terminated. |

## Left out

- `Watcher.Watch` (controller/watcher.go:65-89) is not modelled: it is an endless `select` over the watch channel and a ticker. Its two steps, `HandlePod` and `EnsureNumberOfPods`, are modelled. `checkErr` only logs.
- The `Watch` method of the `Kubernetes` interface is not part of the in-memory cluster, because it opens an event stream.
- The unbuffered notification channel and `Status.Watch` are not modelled: a blocking send is concurrency. Each `Update` counts one notification. In Go, `Update`'s deferred send blocks until something receives from `Status.Watch()`, and in this tree nothing does (the watcher never reads it, and cmd/start.go builds no `Status`), so `ServeHTTP` only answers 200 when a receiver exists. The model assumes one does.
- Reports.Usage: requires a non-empty report. In Go, `0/0` in float32 gives NaN.
- Reports.Delta: requires an expected usage other than 1. In Go, that division by zero gives an infinity or NaN, whose conversion to int is implementation-specific.
- Reports.Delta: computed over exact reals, not float32. Float32 rounding (0.8 is not exact in binary) can move a value near an integer across the truncation boundary, so Go's result can differ by one from the exact one.
- Reports.DeltaAtEightyPercent: states the exact values. For 1 ready and 9 occupied, float32 gives 0.8·1/(1−0.8) ≈ 4.0000005, a difference of about −4.9999995, and Go's conversion gives −4, not −5. The (8, 2) case gives 30 in both.
- JSON encoding and decoding are not modelled: the decoder is a function parameter of `Ingestion.Handle`. `getHandler` and the reading of the push response are left out as well.
- The route registrations (http/app.go:53 and those in the sidecar's `main`) are not modelled. The sidecar's push target and the endpoint's path are the one constant `Ingestion.StatusPath`, so the model takes it as given that a push reaches `updateHandler`.
- The HTTP servers (`ListenAndServe`, `Start`), `keepSendingStatus`'s ticker, signal capture wiring, `os.Hostname`, the wait group and all logging are not modelled: they are network, process and I/O plumbing.
- StatusPod.Sidecar.SendStatus: records every push as made. The real POST can fail, which `sendStatus` only logs.
- UUID generation is not modelled: the watcher draws identifiers from a `uuids` sequence given to it.
- The client-go client is replaced by an in-memory API server. Its error texts imitate the API server's, but only the "already exists" part matters to the controller.
- The in-memory server does not check that a pod's or a service's namespace exists.
- The in-memory server removes a deleted pod at once. The real API server marks it for deletion and keeps listing it, as Terminating, until its grace period ends, so a listing right after a reconciliation can still show deleted pods and the next tick or `Modified` event deletes from the front of the listing again. The reconcile lemmas (`ReconcileReachesTarget`, `ReconcileNeverOvershoots`, `ReconcileAtTarget`) are about the in-memory server's listing.
- Injected faults never carry an "already exists" message (`Cluster.Injectable`, required by the fake's constructor): that answer comes only from the server itself, when the object exists. Without this, an injected fault would be swallowed as success while nothing was stored.
- The in-memory server lists pods in creation order, so `DeletePods` removes the oldest pods first. The real API server lists in name order, which for UUID-based names is effectively arbitrary. The model states which pods go by position in the listing, which is what the source relies on.
- Label selectors are modelled as maps; `labels.Set.String()` rendering is not.
- clientset/clientset.go, cmd/start.go, `NewKubernetes` and controller/pod_spec.go are not part of this model: they are configuration loading, CLI wiring and an unused record.
- Watching.Watcher.constructor: `numberOfPods` is a natural number. A negative count in Go would make `deletePods` index past the listing and panic.
- Watching.Watcher.Create: reuses `CreatePods` for its pod loop (controller/watcher.go:43-48), which makes the same calls with the same early return.
- Watching.Watcher.HandlePod: the pod argument is unused by the source and is dropped.
- Watching.Watcher.DeletePods: its contract describes the effect on the namespace's listing only when it is handed that listing, which is the one way the source calls it.
