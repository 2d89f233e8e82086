/**
 * The fixed-count reconciler of controller/watcher.go: bootstrapping the
 * namespace, its pods and its service, and keeping the number of listed pods
 * at the configured count, against the in-memory `Kubernetes` of module
 * Cluster. The watch loop itself (a `select` over the event channel and a
 * ticker) is not modelled; its two steps, `handlePod` and
 * `ensureNumberOfPods`, are.
 */
module Watching {
  import opened Outcomes
  import opened Kubernetes
  import opened Cluster

  /** `strings.Split(id, "-")[0]`: the text of `id` before its first dash. */
  function FirstSegment(id: string): (segment: string)
    ensures segment <= id
    ensures '-' !in segment
    ensures |segment| == |id| || id[|segment|] == '-'
  {
    if id == [] || id[0] == '-' then [] else [id[0]] + FirstSegment(id[1..])
  }

  /** `podName`, given the identifier `uuid.New()` produced: the namespace, a dash, and a dash-free token. */
  function PodName(namespace: string, id: string): (name: string)
    ensures |namespace| < |name| && name[..|namespace| + 1] == namespace + "-"
    ensures '-' !in name[|namespace| + 1..]
    ensures name[|namespace| + 1..] <= id
    ensures |name| == |namespace| + 1 + |id| || id[|name| - |namespace| - 1] == '-'
  {
    var name := namespace + "-" + FirstSegment(id);
    assert name[|namespace| + 1..] == FirstSegment(id);
    name
  }

  /** The kinds of event a pod watch delivers. */
  datatype EventType = Added | Modified | Deleted | Bookmark | Error

  /**
   * `trace` made the requests of `plan` in order, every call but the last
   * succeeded, `err` is the last call's error (`Ok` for no call), and the
   * plan was cut short only by an error.
   */
  ghost predicate FollowsPlan(trace: seq<Call>, plan: seq<Request>, err: Outcome)
  {
    && |trace| <= |plan|
    && (forall i :: 0 <= i < |trace| ==> trace[i].request == plan[i])
    && (forall i :: 0 <= i < |trace| - 1 ==> trace[i].result.Ok?)
    && err == (if trace == [] then Ok else trace[|trace| - 1].result)
    && (|trace| < |plan| ==> err.Fail?)
  }

  /** How many calls of a trace that stops at its first error succeeded. */
  function Done(trace: seq<Call>, err: Outcome): nat
  {
    if err.Fail? && trace != [] then |trace| - 1 else |trace|
  }

  /** The pods whose creation succeeded, in call order. */
  function CreatedPods(trace: seq<Call>): seq<Pod>
  {
    if trace == [] then []
    else
      var last := trace[|trace| - 1];
      CreatedPods(trace[..|trace| - 1])
        + (if last.request.CreatePodRequest? && last.result.Ok? then [last.request.pod] else [])
  }

  /** `count` pod creations, named from the identifiers `from`, `from + 1`, .... */
  function CreatePlan(namespace: string, image: string, uuids: nat -> string, from: nat, count: nat): seq<Request>
  {
    seq(count, i requires 0 <= i => CreatePodRequest(PodObject(namespace, PodName(namespace, uuids(from + i)), image)))
  }

  /** Deletions of the first `count` pods of `pods`, in list order. */
  function DeletePlan(namespace: string, pods: seq<Pod>, count: nat): seq<Request>
    requires count <= |pods|
  {
    seq(count, i requires 0 <= i < count => DeletePodRequest(namespace, pods[i].name))
  }

  /** What `Create` asks for: the namespace, `count` pods, then the service named after the namespace. */
  function BootstrapPlan(namespace: string, image: string, count: nat, port: int, uuids: nat -> string, from: nat)
    : seq<Request>
  {
    [CreateNamespaceRequest(NamespaceObject(namespace))]
      + CreatePlan(namespace, image, uuids, from, count)
      + [CreateServiceRequest(ServiceObject(namespace, namespace, port))]
  }

  /** What `ensureNumberOfPods` asks for once it holds the listing: create the shortfall or delete the surplus from the front. */
  function ReconcilePlan(namespace: string, image: string, count: nat, listed: seq<Pod>, uuids: nat -> string, from: nat)
    : seq<Request>
  {
    if |listed| < count then CreatePlan(namespace, image, uuids, from, count - |listed|)
    else if |listed| > count then DeletePlan(namespace, listed, |listed| - count)
    else []
  }

  lemma CreatedPodsSnoc(trace: seq<Call>, call: Call)
    ensures CreatedPods(trace + [call])
         == CreatedPods(trace) + (if call.request.CreatePodRequest? && call.result.Ok? then [call.request.pod] else [])
  {
    assert (trace + [call])[..|trace|] == trace;
  }

  /**
   * Between `before` and `after` only the pods of `namespace` changed: the
   * namespaces, the services and the pods of every other namespace are as
   * they were.
   */
  ghost predicate OnlyPodsOf(namespace: string, before: ClusterState, after: ClusterState)
  {
    && after.namespaces == before.namespaces
    && after.services == before.services
    && Elsewhere(after.pods, namespace) == Elsewhere(before.pods, namespace)
  }

  class Watcher {
    const kubernetes: FakeKubernetes
    const namespace: string
    const image: string
    const numberOfPods: nat
    /** The identifiers `uuid.New()` yields, in order; the first `drawn` have been used. */
    const uuids: nat -> string
    var drawn: nat

    /** `NewWatcher`. */
    constructor (kubernetes: FakeKubernetes, namespace: string, image: string, numberOfPods: nat, uuids: nat -> string)
      ensures this.kubernetes == kubernetes && this.namespace == namespace && this.image == image
      ensures this.numberOfPods == numberOfPods && this.uuids == uuids && drawn == 0
    {
      this.kubernetes := kubernetes;
      this.namespace := namespace;
      this.image := image;
      this.numberOfPods := numberOfPods;
      this.uuids := uuids;
      drawn := 0;
    }

    /** `podName(w.namespace)`: draws the next identifier. */
    method NewPodName() returns (name: string)
      modifies this
      ensures name == PodName(namespace, uuids(old(drawn))) && drawn == old(drawn) + 1
    {
      name := PodName(namespace, uuids(drawn));
      drawn := drawn + 1;
    }

    /**
     * `Create`: the namespace, then `numberOfPods` pods, then the service,
     * stopping at the first error; pods already created stay.
     */
    method Create(servicePort: int) returns (err: Outcome, ghost trace: seq<Call>)
      requires kubernetes.Valid()
      modifies this, kubernetes
      ensures kubernetes.Valid()
      ensures kubernetes.calls == old(kubernetes.calls) + trace && trace != []
      ensures FollowsPlan(trace, BootstrapPlan(namespace, image, numberOfPods, servicePort, uuids, old(drawn)), err)
      ensures kubernetes.state.pods == old(kubernetes.state.pods) + CreatedPods(trace)
      ensures drawn == old(drawn) + (if |trace| <= numberOfPods + 1 then |trace| - 1 else numberOfPods)
      ensures kubernetes.faults == Remaining(old(kubernetes.faults), |trace|)
      ensures kubernetes.state.namespaces
           == old(kubernetes.state.namespaces) + (if trace[0].result.Ok? then {namespace} else {})
      ensures kubernetes.state.services
           == old(kubernetes.state.services) + (if err.Ok? then {(namespace, namespace)} else {})
    {
      ghost var from, faults := drawn, kubernetes.faults;
      err := kubernetes.CreateNamespace(namespace);
      trace := [NamespaceCall(namespace, err)];
      RemainingStep(faults, 0);
      if err.Fail? {
        BootstrapFailsFirst(namespace, image, numberOfPods, servicePort, uuids, from, err);
        return;
      }
      ghost var spaces := kubernetes.state.namespaces;
      assert spaces == old(kubernetes.state.namespaces) + {namespace};
      ghost var pods;
      err, pods := CreatePods(numberOfPods);
      Associative(old(kubernetes.calls), trace, pods);
      RemainingAdd(faults, 1, |pods|);
      assert kubernetes.faults == Remaining(faults, 1 + |pods|) && drawn == from + |pods|;
      assert kubernetes.state.namespaces == spaces && kubernetes.state.services == old(kubernetes.state.services);
      if err.Fail? {
        BootstrapStops(pods, namespace, image, numberOfPods, servicePort, uuids, from, err);
        trace := trace + pods;
        assert |trace| == 1 + |pods| <= numberOfPods + 1;
        return;
      }
      err := kubernetes.CreateService(namespace, namespace, servicePort);
      ghost var last := [ServiceCall(namespace, servicePort, err)];
      Associative(old(kubernetes.calls), trace + pods, last);
      BootstrapCompletes(pods, namespace, image, numberOfPods, servicePort, uuids, from, err);
      RemainingStep(faults, 1 + |pods|);
      trace := trace + pods + last;
      assert |trace| == 2 + |pods| == numberOfPods + 2;
    }

    /**
     * `createPods`: `count` pods with fresh names, stopping at the first
     * error; `trace` is the calls it made.
     */
    method CreatePods(count: nat) returns (err: Outcome, ghost trace: seq<Call>)
      requires kubernetes.Valid()
      modifies this, kubernetes
      ensures kubernetes.Valid()
      ensures kubernetes.calls == old(kubernetes.calls) + trace
      ensures FollowsPlan(trace, CreatePlan(namespace, image, uuids, old(drawn), count), err)
      ensures kubernetes.state.pods == old(kubernetes.state.pods) + CreatedPods(trace)
      ensures Listed(kubernetes.state.pods, namespace) == Listed(old(kubernetes.state.pods), namespace) + CreatedPods(trace)
      ensures drawn == old(drawn) + |trace|
      ensures kubernetes.faults == Remaining(old(kubernetes.faults), |trace|)
      ensures OnlyPodsOf(namespace, old(kubernetes.state), kubernetes.state)
    {
      ghost var initial := kubernetes.state;
      ghost var start, before, faults := kubernetes.calls, kubernetes.state.pods, kubernetes.faults;
      ghost var plan := CreatePlan(namespace, image, uuids, drawn, count);
      trace := [];
      err := Ok;
      for i := 0 to count
        invariant kubernetes.Valid()
        invariant kubernetes.calls == start + trace
        invariant |trace| == i && drawn == old(drawn) + i && err.Ok?
        invariant kubernetes.faults == Remaining(faults, i)
        invariant OnlyPodsOf(namespace, initial, kubernetes.state)
        invariant AllSucceeded(trace, plan)
        invariant kubernetes.state.pods == before + CreatedPods(trace)
        invariant Listed(kubernetes.state.pods, namespace) == Listed(before, namespace) + CreatedPods(trace)
      {
        var name := NewPodName();
        assert plan[i] == CreatePodRequest(PodObject(namespace, name, image));
        err := CreateOnePod(name);
        RemainingStep(faults, i);
        ghost var call := Call(plan[i], err);
        CreatedPodsSnoc(trace, call);
        Associative(start, trace, [call]);
        if err.Fail? {
          StoppedAtError(trace, call, plan);
          assert CreatedPods(trace) + [] == CreatedPods(trace);
          trace := trace + [call];
          return;
        }
        AllSucceededSnoc(trace, plan);
        ghost var pod := [PodObject(namespace, name, image)];
        Associative(before, CreatedPods(trace), pod);
        Associative(Listed(before, namespace), CreatedPods(trace), pod);
        trace := trace + [call];
      }
      RanToEnd(trace, plan);
    }

    /**
     * `deletePods`: deletes `pods[0]`, `pods[1]`, ... up to `count` of them,
     * stopping at the first error. Handed the namespace's listing, it leaves
     * the listing without the pods it deleted.
     */
    method DeletePods(count: nat, pods: seq<Pod>) returns (err: Outcome, ghost trace: seq<Call>)
      requires kubernetes.Valid() && count <= |pods|
      modifies kubernetes
      ensures kubernetes.Valid()
      ensures kubernetes.calls == old(kubernetes.calls) + trace
      ensures FollowsPlan(trace, DeletePlan(namespace, pods, count), err)
      ensures pods == Listed(old(kubernetes.state.pods), namespace)
          ==> Listed(kubernetes.state.pods, namespace) == pods[Done(trace, err)..]
      ensures kubernetes.faults == Remaining(old(kubernetes.faults), |trace|)
      ensures OnlyPodsOf(namespace, old(kubernetes.state), kubernetes.state)
    {
      ghost var initial := kubernetes.state;
      ghost var start, faults := kubernetes.calls, kubernetes.faults;
      ghost var listing := pods == Listed(kubernetes.state.pods, namespace);
      ghost var plan := DeletePlan(namespace, pods, count);
      trace := [];
      err := Ok;
      for i := 0 to count
        invariant kubernetes.Valid()
        invariant kubernetes.calls == start + trace
        invariant |trace| == i && AllSucceeded(trace, plan) && err.Ok?
        invariant kubernetes.faults == Remaining(faults, i)
        invariant OnlyPodsOf(namespace, initial, kubernetes.state)
        invariant listing ==> Listed(kubernetes.state.pods, namespace) == pods[i..]
      {
        ghost var current := kubernetes.state.pods;
        err := kubernetes.DeletePod(namespace, pods[i].name);
        RemainingStep(faults, i);
        ElsewhereWithout(current, namespace, pods[i].name);
        ghost var call := Call(plan[i], err);
        Associative(start, trace, [call]);
        if err.Fail? {
          StoppedAtError(trace, call, plan);
          trace := trace + [call];
          return;
        }
        if listing {
          DeleteFirstListed(current, namespace);
          assert pods[i..][1..] == pods[i + 1..];
        }
        AllSucceededSnoc(trace, plan);
        trace := trace + [call];
      }
      RanToEnd(trace, plan);
    }

    /**
     * `ensureNumberOfPods`: lists the namespace's pods, then creates the
     * shortfall or deletes the surplus.
     */
    method EnsureNumberOfPods() returns (err: Outcome, ghost trace: seq<Call>)
      requires kubernetes.Valid()
      modifies this, kubernetes
      ensures kubernetes.Valid()
      ensures kubernetes.calls == old(kubernetes.calls) + trace
      ensures Reconciled(namespace, image, numberOfPods, uuids, old(drawn),
        old(kubernetes.state.pods), trace, kubernetes.state.pods, err)
      ensures drawn == old(drawn) + (if |Listed(old(kubernetes.state.pods), namespace)| < numberOfPods then |trace| - 1 else 0)
      ensures kubernetes.faults == Remaining(old(kubernetes.faults), |trace|)
      ensures OnlyPodsOf(namespace, old(kubernetes.state), kubernetes.state)
    {
      ghost var before, faults := kubernetes.state.pods, kubernetes.faults;
      var pods;
      pods, err := kubernetes.GetPods(namespace);
      RemainingStep(faults, 0);
      ghost var listed := kubernetes.faults;
      assert listed == Remaining(faults, 1);
      ghost var first := Call(GetPodsRequest(namespace, PodListOptions(namespace)), err);
      trace := [first];
      if err.Fail? {
        return;
      }
      ghost var rest: seq<Call> := [];
      if |pods| < numberOfPods {
        err, rest := CreatePods(numberOfPods - |pods|);
      } else if |pods| > numberOfPods {
        err, rest := DeletePods(|pods| - numberOfPods, pods);
      } else {
        assert pods[Done(rest, err)..] == pods;
      }
      assert kubernetes.faults == Remaining(listed, |rest|);
      Associative(old(kubernetes.calls), [first], rest);
      RemainingAdd(faults, 1, |rest|);
      ReconciledAfterListing(namespace, image, numberOfPods, uuids, old(drawn), before, first, rest,
        kubernetes.state.pods, err);
      trace := [first] + rest;
    }

    /** `handlePod`: only a modification triggers a reconciliation. */
    method HandlePod(eventType: EventType) returns (err: Outcome, ghost trace: seq<Call>)
      requires kubernetes.Valid()
      modifies this, kubernetes
      ensures kubernetes.Valid()
      ensures kubernetes.calls == old(kubernetes.calls) + trace
      ensures eventType == Modified ==> Reconciled(namespace, image, numberOfPods, uuids, old(drawn),
        old(kubernetes.state.pods), trace, kubernetes.state.pods, err)
      ensures eventType == Modified ==>
        drawn == old(drawn) + (if |Listed(old(kubernetes.state.pods), namespace)| < numberOfPods then |trace| - 1 else 0)
      ensures eventType != Modified ==>
        err == Ok && trace == [] && kubernetes.state == old(kubernetes.state) && drawn == old(drawn)
      ensures kubernetes.faults == Remaining(old(kubernetes.faults), |trace|)
      ensures OnlyPodsOf(namespace, old(kubernetes.state), kubernetes.state)
    {
      err, trace := Ok, [];
      RemainingStep(kubernetes.faults, 0);
      if eventType == Modified {
        err, trace := EnsureNumberOfPods();
      }
    }

    /** One round of `createPods`: the call, and how it extends the cluster and the listing. */
    method CreateOnePod(name: string) returns (err: Outcome)
      requires kubernetes.Valid()
      modifies kubernetes
      ensures kubernetes.Valid()
      ensures kubernetes.calls == old(kubernetes.calls) + [Call(CreatePodRequest(PodObject(namespace, name, image)), err)]
      ensures var added := if err.Ok? then [PodObject(namespace, name, image)] else [];
        && kubernetes.state.pods == old(kubernetes.state.pods) + added
        && Listed(kubernetes.state.pods, namespace) == Listed(old(kubernetes.state.pods), namespace) + added
      ensures kubernetes.faults == Tail(old(kubernetes.faults))
      ensures OnlyPodsOf(namespace, old(kubernetes.state), kubernetes.state)
    {
      err := kubernetes.CreatePod(namespace, name, image);
      if err.Ok? {
        ElsewhereAppend(old(kubernetes.state.pods), [PodObject(namespace, name, image)], namespace);
        ListedSnoc(old(kubernetes.state.pods), PodObject(namespace, name, image), namespace);
        CreatedPodsAreSelected(namespace, name, image, 0);
      }
    }
  }

  lemma Associative<T>(a: seq<T>, b: seq<T>, c: seq<T>)
    ensures (a + b) + c == a + (b + c)
  {
  }

  lemma NothingCreated(call: Call)
    requires !call.request.CreatePodRequest?
    ensures CreatedPods([call]) == []
  {
    CreatedPodsSnoc([], call);
    assert [] + [call] == [call];
  }

  lemma {:induction false} CreatedPodsAppend(a: seq<Call>, b: seq<Call>)
    ensures CreatedPods(a + b) == CreatedPods(a) + CreatedPods(b)
    decreases |b|
  {
    if b == [] {
      assert a + b == a;
    } else {
      var init, last := b[..|b| - 1], b[|b| - 1];
      assert b == init + [last];
      assert a + b == (a + init) + [last];
      CreatedPodsSnoc(a + init, last);
      CreatedPodsSnoc(init, last);
      CreatedPodsAppend(a, init);
      var extra := if last.request.CreatePodRequest? && last.result.Ok? then [last.request.pod] else [];
      Associative(CreatedPods(a), CreatedPods(init), extra);
    }
  }

  /**
   * What one `ensureNumberOfPods` did: it listed the namespace; if that
   * failed, it stopped there; otherwise it followed the reconcile plan for
   * that listing, and the listing afterwards holds the listed pods plus those
   * created, or the listed pods minus those deleted from the front.
   */
  ghost predicate Reconciled(
    namespace: string, image: string, count: nat, uuids: nat -> string, from: nat,
    before: seq<Pod>, trace: seq<Call>, after: seq<Pod>, err: Outcome)
  {
    var listed := Listed(before, namespace);
    && trace != []
    && trace[0].request == GetPodsRequest(namespace, PodListOptions(namespace))
    && (trace[0].result.Fail? ==> trace == [trace[0]] && err == trace[0].result && after == before)
    && (trace[0].result.Ok? ==>
          var rest := trace[1..];
          && FollowsPlan(rest, ReconcilePlan(namespace, image, count, listed, uuids, from), err)
          && Listed(after, namespace)
             == if |listed| < count then listed + CreatedPods(rest) else listed[Done(rest, err)..])
  }

  /** A successful listing followed by the reconcile plan for that listing is a reconciliation. */
  lemma ReconciledAfterListing(
    namespace: string, image: string, count: nat, uuids: nat -> string, from: nat,
    before: seq<Pod>, first: Call, rest: seq<Call>, after: seq<Pod>, err: Outcome)
    requires first == Call(GetPodsRequest(namespace, PodListOptions(namespace)), Ok)
    requires var listed := Listed(before, namespace);
      && FollowsPlan(rest, ReconcilePlan(namespace, image, count, listed, uuids, from), err)
      && Listed(after, namespace) == if |listed| < count then listed + CreatedPods(rest) else listed[Done(rest, err)..]
    ensures Reconciled(namespace, image, count, uuids, from, before, [first] + rest, after, err)
  {
    assert ([first] + rest)[1..] == rest;
  }

  /** A reconciliation that returns no error leaves exactly `count` pods listed. */
  lemma ReconcileReachesTarget(
    namespace: string, image: string, count: nat, uuids: nat -> string, from: nat,
    before: seq<Pod>, trace: seq<Call>, after: seq<Pod>, err: Outcome)
    requires Reconciled(namespace, image, count, uuids, from, before, trace, after, err)
    requires err.Ok?
    ensures |Listed(after, namespace)| == count
  {
    var listed := Listed(before, namespace);
    var rest := trace[1..];
    var plan := ReconcilePlan(namespace, image, count, listed, uuids, from);
    if |listed| < count {
      CreatedAlongPlan(rest, plan, err);
    }
  }

  /**
   * Even when it fails part-way, a reconciliation only moves the number of
   * listed pods towards `count`, never past it.
   */
  lemma ReconcileNeverOvershoots(
    namespace: string, image: string, count: nat, uuids: nat -> string, from: nat,
    before: seq<Pod>, trace: seq<Call>, after: seq<Pod>, err: Outcome)
    requires Reconciled(namespace, image, count, uuids, from, before, trace, after, err)
    ensures var n, m := |Listed(before, namespace)|, |Listed(after, namespace)|;
      && (n <= count ==> n <= m <= count)
      && (count <= n ==> count <= m <= n)
  {
    var listed := Listed(before, namespace);
    if trace[0].result.Ok? {
      var rest := trace[1..];
      var plan := ReconcilePlan(namespace, image, count, listed, uuids, from);
      if |listed| < count {
        CreatedAlongPlan(rest, plan, err);
      }
    }
  }

  /** Along a plan of pod creations, the pods created are the calls that succeeded. */
  lemma CreatedAlongPlan(trace: seq<Call>, plan: seq<Request>, err: Outcome)
    requires FollowsPlan(trace, plan, err)
    requires forall i :: 0 <= i < |plan| ==> plan[i].CreatePodRequest?
    ensures |CreatedPods(trace)| == Done(trace, err)
  {
    if trace != [] {
      var init, last := trace[..|trace| - 1], trace[|trace| - 1];
      AllCreated(init);
      assert trace == init + [last];
      CreatedPodsSnoc(init, last);
    }
  }

  lemma {:induction false} AllCreated(trace: seq<Call>)
    requires forall i :: 0 <= i < |trace| ==> trace[i].request.CreatePodRequest? && trace[i].result.Ok?
    ensures |CreatedPods(trace)| == |trace|
  {
    if trace != [] {
      AllCreated(trace[..|trace| - 1]);
    }
  }

  /** The namespace call of a bootstrap. */
  function NamespaceCall(namespace: string, err: Outcome): Call
  {
    Call(CreateNamespaceRequest(NamespaceObject(namespace)), err)
  }

  /** The service call that closes a bootstrap. */
  function ServiceCall(namespace: string, port: int, err: Outcome): Call
  {
    Call(CreateServiceRequest(ServiceObject(namespace, namespace, port)), err)
  }

  /** A bootstrap whose namespace call failed stops there, having created nothing. */
  lemma BootstrapFailsFirst(namespace: string, image: string, count: nat, port: int, uuids: nat -> string, from: nat, err: Outcome)
    requires err.Fail?
    ensures var trace := [NamespaceCall(namespace, err)];
      FollowsPlan(trace, BootstrapPlan(namespace, image, count, port, uuids, from), err) && CreatedPods(trace) == []
  {
    NothingCreated(NamespaceCall(namespace, err));
  }

  /** A bootstrap cut short by a failed pod creation still follows the bootstrap plan. */
  lemma BootstrapStops(pods: seq<Call>, namespace: string, image: string, count: nat, port: int, uuids: nat -> string, from: nat, err: Outcome)
    requires FollowsPlan(pods, CreatePlan(namespace, image, uuids, from, count), err) && err.Fail?
    ensures var trace := [NamespaceCall(namespace, Ok)] + pods;
      FollowsPlan(trace, BootstrapPlan(namespace, image, count, port, uuids, from), err)
      && CreatedPods(trace) == CreatedPods(pods)
  {
    var first := [NamespaceCall(namespace, Ok)];
    var plan := BootstrapPlan(namespace, image, count, port, uuids, from);
    var trace := first + pods;
    forall i | 0 <= i < |trace| ensures trace[i].request == plan[i] {
      if i > 0 {
        assert trace[i] == pods[i - 1];
      }
    }
    NothingCreated(first[0]);
    CreatedPodsAppend(first, pods);
  }

  /** A bootstrap whose pods were all created ends with the service call, and follows the plan. */
  lemma BootstrapCompletes(pods: seq<Call>, namespace: string, image: string, count: nat, port: int, uuids: nat -> string, from: nat, err: Outcome)
    requires FollowsPlan(pods, CreatePlan(namespace, image, uuids, from, count), Ok)
    ensures var trace := [NamespaceCall(namespace, Ok)] + pods + [ServiceCall(namespace, port, err)];
      FollowsPlan(trace, BootstrapPlan(namespace, image, count, port, uuids, from), err)
      && CreatedPods(trace) == CreatedPods(pods)
  {
    var first, last := [NamespaceCall(namespace, Ok)], [ServiceCall(namespace, port, err)];
    var plan := BootstrapPlan(namespace, image, count, port, uuids, from);
    var trace := first + pods + last;
    assert |pods| == count;
    forall i | 0 <= i < |trace| ensures trace[i].request == plan[i] {
      if 0 < i <= count {
        assert trace[i] == pods[i - 1];
      }
    }
    forall i | 0 <= i < |trace| - 1 ensures trace[i].result.Ok? {
      if 0 < i {
        assert trace[i] == pods[i - 1];
      }
    }
    NothingCreated(first[0]);
    NothingCreated(last[0]);
    CreatedPodsAppend(first, pods);
    CreatedPodsAppend(first + pods, last);
    assert CreatedPods(first + pods) + [] == CreatedPods(first + pods);
  }

  /** A call that failed is the last call of a trace that follows a plan, and its error is the result. */
  lemma {:induction false} FailureEndsTrace(trace: seq<Call>, plan: seq<Request>, err: Outcome, k: nat)
    requires FollowsPlan(trace, plan, err)
    requires k < |trace| && trace[k].result.Fail?
    ensures |trace| == k + 1 && err == trace[k].result
  {
  }

  /** A trace that follows a plan and ends without error made every request of the plan, and each succeeded. */
  lemma {:induction false} CompletedTrace(trace: seq<Call>, plan: seq<Request>)
    requires FollowsPlan(trace, plan, Ok)
    ensures |trace| == |plan|
    ensures forall i :: 0 <= i < |trace| ==> trace[i] == Call(plan[i], Ok)
  {
    forall i | 0 <= i < |trace| ensures trace[i] == Call(plan[i], Ok) {
      if i == |trace| - 1 {
        assert trace[i].result == Ok;
      }
    }
  }

  /** `Create` returns the namespace error before asking for any pod or service. */
  lemma {:induction false} BootstrapNamespaceFailure(
    trace: seq<Call>, namespace: string, image: string, count: nat, port: int, uuids: nat -> string, from: nat, err: Outcome)
    requires FollowsPlan(trace, BootstrapPlan(namespace, image, count, port, uuids, from), err)
    requires trace != [] && trace[0].result.Fail?
    ensures trace == [NamespaceCall(namespace, err)]
    ensures CreatedPods(trace) == []
  {
    FailureEndsTrace(trace, BootstrapPlan(namespace, image, count, port, uuids, from), err, 0);
    NothingCreated(trace[0]);
  }

  /**
   * `Create` stops at a failed pod creation: no service is asked for, and
   * the pods created before it stay.
   */
  lemma {:induction false} BootstrapPodFailure(
    trace: seq<Call>, namespace: string, image: string, count: nat, port: int, uuids: nat -> string, from: nat,
    err: Outcome, k: nat)
    requires FollowsPlan(trace, BootstrapPlan(namespace, image, count, port, uuids, from), err)
    requires 1 <= k <= count && k < |trace| && trace[k].result.Fail?
    ensures |trace| == k + 1 && err == trace[k].result
    ensures forall i :: 0 <= i < |trace| ==> !trace[i].request.CreateServiceRequest?
    ensures |CreatedPods(trace)| == k - 1
  {
    var plan := BootstrapPlan(namespace, image, count, port, uuids, from);
    FailureEndsTrace(trace, plan, err, k);
    var pods := trace[1..];
    var podPlan := CreatePlan(namespace, image, uuids, from, count);
    forall i | 0 <= i < |pods| ensures pods[i].request == podPlan[i] {
      assert pods[i] == trace[i + 1];
    }
    assert FollowsPlan(pods, podPlan, err);
    CreatedAlongPlan(pods, podPlan, err);
    assert trace == [NamespaceCall(namespace, Ok)] + pods;
    BootstrapStops(pods, namespace, image, count, port, uuids, from, err);
  }

  /**
   * A `Create` that returns no error made exactly the namespace call,
   * `count` pod creations and the service call, in that order, and created
   * `count` pods.
   */
  lemma {:induction false} BootstrapSuccess(
    trace: seq<Call>, namespace: string, image: string, count: nat, port: int, uuids: nat -> string, from: nat)
    requires FollowsPlan(trace, BootstrapPlan(namespace, image, count, port, uuids, from), Ok)
    ensures |trace| == count + 2
    ensures trace[0] == NamespaceCall(namespace, Ok)
    ensures forall i :: 1 <= i <= count ==> trace[i].request.CreatePodRequest? && trace[i].result.Ok?
    ensures trace[count + 1] == ServiceCall(namespace, port, Ok)
    ensures |CreatedPods(trace)| == count
  {
    var plan := BootstrapPlan(namespace, image, count, port, uuids, from);
    CompletedTrace(trace, plan);
    var pods := trace[1..count + 1];
    var podPlan := CreatePlan(namespace, image, uuids, from, count);
    forall i | 0 <= i < |pods| ensures pods[i] == Call(podPlan[i], Ok) {
      assert pods[i] == trace[i + 1];
    }
    AllCreated(pods);
    assert FollowsPlan(pods, podPlan, Ok);
    assert trace == [NamespaceCall(namespace, Ok)] + pods + [ServiceCall(namespace, port, Ok)];
    BootstrapCompletes(pods, namespace, image, count, port, uuids, from, Ok);
  }

  /** A reconciliation that finds the target count listed makes no call after the listing. */
  lemma {:induction false} ReconcileAtTarget(
    namespace: string, image: string, count: nat, uuids: nat -> string, from: nat,
    before: seq<Pod>, trace: seq<Call>, after: seq<Pod>, err: Outcome)
    requires Reconciled(namespace, image, count, uuids, from, before, trace, after, err)
    requires trace[0].result.Ok? && |Listed(before, namespace)| == count
    ensures |trace| == 1 && err == Ok
    ensures Listed(after, namespace) == Listed(before, namespace)
  {
    var listed := Listed(before, namespace);
    assert ReconcilePlan(namespace, image, count, listed, uuids, from) == [];
    assert listed[0..] == listed;
  }

  /** Every call of `trace` made the corresponding request of `plan` and succeeded. */
  ghost predicate AllSucceeded(trace: seq<Call>, plan: seq<Request>)
  {
    |trace| <= |plan| && forall k :: 0 <= k < |trace| ==> trace[k] == Call(plan[k], Ok)
  }

  lemma AllSucceededSnoc(trace: seq<Call>, plan: seq<Request>)
    requires AllSucceeded(trace, plan) && |trace| < |plan|
    ensures AllSucceeded(trace + [Call(plan[|trace|], Ok)], plan)
  {
  }

  lemma StoppedAtError(trace: seq<Call>, call: Call, plan: seq<Request>)
    requires AllSucceeded(trace, plan) && |trace| < |plan|
    requires call.request == plan[|trace|] && call.result.Fail?
    ensures FollowsPlan(trace + [call], plan, call.result)
    ensures Done(trace + [call], call.result) == |trace|
  {
  }

  lemma RanToEnd(trace: seq<Call>, plan: seq<Request>)
    requires AllSucceeded(trace, plan) && |trace| == |plan|
    ensures FollowsPlan(trace, plan, Ok)
    ensures Done(trace, Ok) == |trace|
  {
  }
}
