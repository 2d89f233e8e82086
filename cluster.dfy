/**
 * An in-memory stand-in for the `Kubernetes` interface of
 * controller/controller.go:9-19, as implemented by models/kubernetes.go:
 * requests are built by the adapter, answered by an in-memory API server,
 * and the answer's error is mapped by the adapter's rules. Failures of the
 * API server can be injected, one per call, from a queue. Every call is
 * logged with the error the controller got back.
 */
module Cluster {
  import opened Outcomes
  import opened Kubernetes

  /** A request made through the `Kubernetes` interface. */
  datatype Request =
    | CreatePodRequest(pod: Pod)
    | CreateServiceRequest(service: Service)
    | CreateNamespaceRequest(ns: Namespace)
    | GetPodsRequest(namespace: string, options: ListOptions)
    | DeletePodRequest(namespace: string, name: string)

  /** One call through the interface and the error it returned to the controller. */
  datatype Call = Call(request: Request, result: Outcome)

  /** What the API server stores: namespaces, services by (namespace, name), and pods in creation order. */
  datatype ClusterState = ClusterState(namespaces: set<string>, services: set<(string, string)>, pods: seq<Pod>)

  /** The pods a listing with `options` in `namespace` returns. */
  predicate Listable(p: Pod, namespace: string, options: ListOptions)
  {
    p.namespace == namespace && Selects(options.labelSelector, p.labels)
  }

  /** The API server's answer to a pod listing in `namespace` with `options`, in creation order. */
  function Selected(pods: seq<Pod>, namespace: string, options: ListOptions): seq<Pod>
  {
    if pods == [] then []
    else
      var last := pods[|pods| - 1];
      Selected(pods[..|pods| - 1], namespace, options) + (if Listable(last, namespace, options) then [last] else [])
  }

  /** The answer of `GetPods(namespace)`: the listing with the selector the adapter builds. */
  function Listed(pods: seq<Pod>, namespace: string): seq<Pod>
  {
    Selected(pods, namespace, PodListOptions(namespace))
  }

  /** The pods of every namespace but `namespace`, in creation order. */
  function Elsewhere(pods: seq<Pod>, namespace: string): seq<Pod>
  {
    if pods == [] then []
    else
      var last := pods[|pods| - 1];
      Elsewhere(pods[..|pods| - 1], namespace) + (if last.namespace != namespace then [last] else [])
  }

  predicate NameInUse(pods: seq<Pod>, namespace: string, name: string)
  {
    exists p :: p in pods && p.namespace == namespace && p.name == name
  }

  /** Pod names are unique within a namespace. */
  ghost predicate UniqueNames(pods: seq<Pod>)
  {
    forall i, j :: 0 <= i < j < |pods| && pods[i].namespace == pods[j].namespace ==> pods[i].name != pods[j].name
  }

  /** The pods left after deleting the pod `name` of `namespace`. */
  function Without(pods: seq<Pod>, namespace: string, name: string): seq<Pod>
  {
    if pods == [] then []
    else
      var last := pods[|pods| - 1];
      Without(pods[..|pods| - 1], namespace, name)
        + (if last.namespace == namespace && last.name == name then [] else [last])
  }

  /** The in-memory API server: the new state and the error it answers a request with. */
  function Serve(s: ClusterState, request: Request): (ClusterState, Outcome)
  {
    match request
    case CreatePodRequest(pod) =>
      if NameInUse(s.pods, pod.namespace, pod.name)
      then (s, Fail("pods \"" + pod.name + "\" " + AlreadyExists))
      else (s.(pods := s.pods + [pod]), Ok)
    case CreateServiceRequest(service) =>
      if (service.namespace, service.name) in s.services
      then (s, Fail("services \"" + service.name + "\" " + AlreadyExists))
      else (s.(services := s.services + {(service.namespace, service.name)}), Ok)
    case CreateNamespaceRequest(ns) =>
      if ns.name in s.namespaces
      then (s, Fail("namespaces \"" + ns.name + "\" " + AlreadyExists))
      else (s.(namespaces := s.namespaces + {ns.name}), Ok)
    case GetPodsRequest(_, _) =>
      (s, Ok)
    case DeletePodRequest(namespace, name) =>
      if NameInUse(s.pods, namespace, name)
      then (s.(pods := Without(s.pods, namespace, name)), Ok)
      else (s, Fail("pods \"" + name + "\" not found"))
  }

  /** The API server's answer, unless a failure was injected for this call. */
  function Answer(s: ClusterState, request: Request, fault: Outcome): (ClusterState, Outcome)
  {
    if fault.Fail? then (s, fault) else Serve(s, request)
  }

  function Head(faults: seq<Outcome>): Outcome
  {
    if faults == [] then Ok else faults[0]
  }

  function Tail(faults: seq<Outcome>): seq<Outcome>
  {
    if faults == [] then [] else faults[1..]
  }

  /** The injected faults left after `n` calls: each call consumes one, and an empty queue stays empty. */
  function Remaining(faults: seq<Outcome>, n: nat): seq<Outcome>
  {
    if n == 0 then faults else Tail(Remaining(faults, n - 1))
  }

  lemma RemainingStep(faults: seq<Outcome>, n: nat)
    ensures Remaining(faults, 0) == faults
    ensures Remaining(faults, n + 1) == Tail(Remaining(faults, n))
  {
  }

  lemma {:induction false} RemainingAdd(faults: seq<Outcome>, a: nat, b: nat)
    ensures Remaining(Remaining(faults, a), b) == Remaining(faults, a + b)
  {
    if b > 0 {
      RemainingAdd(faults, a, b - 1);
    }
  }

  /**
   * Injected failures stand for the API server being unavailable or
   * refusing a request; an "already exists" answer comes only from the
   * server itself, when the object does exist.
   */
  ghost predicate Injectable(faults: seq<Outcome>)
  {
    forall i :: 0 <= i < |faults| ==> !IsAlreadyExistsError(faults[i])
  }

  class FakeKubernetes {
    var state: ClusterState
    /** Failures to inject, one per call, in call order; `Ok` or an empty queue lets a call through. */
    var faults: seq<Outcome>
    var calls: seq<Call>

    ghost predicate Valid()
      reads this
    {
      UniqueNames(state.pods) && Injectable(faults)
    }

    constructor (faults: seq<Outcome>)
      requires Injectable(faults)
      ensures Valid()
      ensures state == ClusterState({}, {}, []) && this.faults == faults && calls == []
    {
      state := ClusterState({}, {}, []);
      this.faults := faults;
      calls := [];
    }

    /** Sends `request` to the API server, consuming one injected fault; returns the server's answer. */
    method Send(request: Request) returns (apiErr: Outcome)
      requires Valid()
      modifies this
      ensures Valid()
      ensures (state, apiErr) == Answer(old(state), request, Head(old(faults)))
      ensures faults == Tail(old(faults)) && calls == old(calls)
    {
      var fault := Head(faults);
      faults := Tail(faults);
      var answer := Answer(state, request, fault);
      if !fault.Fail? {
        match request
        case CreatePodRequest(pod) =>
          if !NameInUse(state.pods, pod.namespace, pod.name) {
            UniqueNamesSnoc(state.pods, pod);
          }
        case DeletePodRequest(namespace, name) =>
          UniqueNamesWithout(state.pods, namespace, name);
        case _ =>
      }
      state, apiErr := answer.0, answer.1;
    }

    /** `CreatePod`: the API server's error is returned unchanged. */
    method CreatePod(namespace: string, name: string, image: string) returns (err: Outcome)
      requires Valid()
      modifies this
      ensures Valid()
      ensures var request := CreatePodRequest(PodObject(namespace, name, image));
        && (state, err) == Answer(old(state), request, Head(old(faults)))
        && calls == old(calls) + [Call(request, err)]
      ensures faults == Tail(old(faults))
      ensures err.Ok? ==> state == old(state).(pods := old(state).pods + [PodObject(namespace, name, image)])
      ensures err.Fail? ==> state == old(state)
      ensures NameInUse(old(state).pods, namespace, name) ==> err.Fail?
    {
      var request := CreatePodRequest(PodObject(namespace, name, image));
      err := Send(request);
      calls := calls + [Call(request, err)];
    }

    /** `CreateNamespace`: an "already exists" answer is not an error. */
    method CreateNamespace(namespace: string) returns (err: Outcome)
      requires Valid()
      modifies this
      ensures Valid()
      ensures var request := CreateNamespaceRequest(NamespaceObject(namespace));
        var answer := Answer(old(state), request, Head(old(faults)));
        && state == answer.0 && err == IgnoreAlreadyExists(answer.1)
        && calls == old(calls) + [Call(request, err)]
      ensures faults == Tail(old(faults))
      ensures state.pods == old(state).pods && state.services == old(state).services
      ensures state.namespaces == old(state).namespaces + (if err.Ok? then {namespace} else {})
      ensures namespace in old(state).namespaces && Head(old(faults)).Ok? ==> err.Ok?
    {
      var request := CreateNamespaceRequest(NamespaceObject(namespace));
      AlreadyExistsIgnored("namespaces \"" + namespace + "\" ");
      var apiErr := Send(request);
      err := IgnoreAlreadyExists(apiErr);
      calls := calls + [Call(request, err)];
    }

    /** `CreateService`: an "already exists" answer is not an error. */
    method CreateService(namespace: string, name: string, port: int) returns (err: Outcome)
      requires Valid()
      modifies this
      ensures Valid()
      ensures var request := CreateServiceRequest(ServiceObject(namespace, name, port));
        var answer := Answer(old(state), request, Head(old(faults)));
        && state == answer.0 && err == IgnoreAlreadyExists(answer.1)
        && calls == old(calls) + [Call(request, err)]
      ensures faults == Tail(old(faults))
      ensures state.pods == old(state).pods && state.namespaces == old(state).namespaces
      ensures state.services == old(state).services + (if err.Ok? then {(namespace, name)} else {})
      ensures (namespace, name) in old(state).services && Head(old(faults)).Ok? ==> err.Ok?
    {
      var request := CreateServiceRequest(ServiceObject(namespace, name, port));
      AlreadyExistsIgnored("services \"" + name + "\" ");
      var apiErr := Send(request);
      err := IgnoreAlreadyExists(apiErr);
      calls := calls + [Call(request, err)];
    }

    /** `GetPods`: the namespace's labelled pods, or no pods and the API server's error. */
    method GetPods(namespace: string) returns (pods: seq<Pod>, err: Outcome)
      requires Valid()
      modifies this
      ensures Valid()
      ensures state == old(state)
      ensures var request := GetPodsRequest(namespace, PodListOptions(namespace));
        && err == Answer(old(state), request, Head(old(faults))).1
        && calls == old(calls) + [Call(request, err)]
      ensures faults == Tail(old(faults))
      ensures err.Ok? ==> pods == Listed(state.pods, namespace)
      ensures err.Fail? ==> pods == []
    {
      var request := GetPodsRequest(namespace, PodListOptions(namespace));
      err := Send(request);
      pods := if err.Ok? then Selected(state.pods, request.namespace, request.options) else [];
      calls := calls + [Call(request, err)];
    }

    /** `DeletePod`: the API server's error is returned unchanged. */
    method DeletePod(namespace: string, name: string) returns (err: Outcome)
      requires Valid()
      modifies this
      ensures Valid()
      ensures var request := DeletePodRequest(namespace, name);
        && (state, err) == Answer(old(state), request, Head(old(faults)))
        && calls == old(calls) + [Call(request, err)]
      ensures faults == Tail(old(faults))
      ensures err.Ok? ==> state == old(state).(pods := Without(old(state).pods, namespace, name))
      ensures err.Fail? ==> state == old(state)
      ensures !NameInUse(old(state).pods, namespace, name) ==> err.Fail?
    {
      var request := DeletePodRequest(namespace, name);
      err := Send(request);
      calls := calls + [Call(request, err)];
    }
  }

  lemma UniqueNamesSnoc(pods: seq<Pod>, pod: Pod)
    requires UniqueNames(pods) && !NameInUse(pods, pod.namespace, pod.name)
    ensures UniqueNames(pods + [pod])
  {
    var s := pods + [pod];
    forall i, j | 0 <= i < j < |s| && s[i].namespace == s[j].namespace
      ensures s[i].name != s[j].name
    {
      if j == |pods| {
        assert s[i] in pods;
      }
    }
  }

  lemma {:induction false} UniqueNamesWithout(pods: seq<Pod>, namespace: string, name: string)
    requires UniqueNames(pods)
    ensures UniqueNames(Without(pods, namespace, name))
  {
    if pods != [] {
      var init, last := pods[..|pods| - 1], pods[|pods| - 1];
      UniqueNamesWithout(init, namespace, name);
      var rest := Without(init, namespace, name);
      if !(last.namespace == namespace && last.name == name) {
        forall p | p in rest && p.namespace == last.namespace
          ensures p.name != last.name
        {
          WithoutKeeps(init, namespace, name, p);
          var i :| 0 <= i < |init| && init[i] == p;
          assert pods[i] == p;
        }
        UniqueNamesAppend(rest, last);
      }
    }
  }

  lemma UniqueNamesAppend(pods: seq<Pod>, pod: Pod)
    requires UniqueNames(pods)
    requires forall p :: p in pods && p.namespace == pod.namespace ==> p.name != pod.name
    ensures UniqueNames(pods + [pod])
  {
    var s := pods + [pod];
    forall i, j | 0 <= i < j < |s| && s[i].namespace == s[j].namespace
      ensures s[i].name != s[j].name
    {
      if j == |pods| {
        assert s[i] in pods;
      }
    }
  }

  /** Deleting a pod of `namespace` leaves the pods of every other namespace as they were. */
  lemma {:induction false} ElsewhereWithout(pods: seq<Pod>, namespace: string, name: string)
    ensures Elsewhere(Without(pods, namespace, name), namespace) == Elsewhere(pods, namespace)
  {
    if pods != [] {
      var init, last := pods[..|pods| - 1], pods[|pods| - 1];
      ElsewhereWithout(init, namespace, name);
      var rest := Without(init, namespace, name);
      if !(last.namespace == namespace && last.name == name) {
        assert Without(pods, namespace, name) == rest + [last];
        assert (rest + [last])[..|rest|] == rest;
      } else {
        assert Without(pods, namespace, name) == rest;
      }
    }
  }

  /** Adding pods of `namespace` leaves the pods of every other namespace as they were. */
  lemma {:induction false} ElsewhereAppend(pods: seq<Pod>, added: seq<Pod>, namespace: string)
    requires forall p :: p in added ==> p.namespace == namespace
    ensures Elsewhere(pods + added, namespace) == Elsewhere(pods, namespace)
  {
    if added == [] {
      assert pods + added == pods;
    } else {
      var init := added[..|added| - 1];
      assert pods + added == (pods + init) + [added[|added| - 1]];
      assert ((pods + init) + [added[|added| - 1]])[..|pods + init|] == pods + init;
      ElsewhereAppend(pods, init, namespace);
    }
  }

  /** A created pod joins the end of its namespace's listing when its labels select it. */
  lemma ListedSnoc(pods: seq<Pod>, pod: Pod, namespace: string)
    ensures Listed(pods + [pod], namespace)
         == Listed(pods, namespace) + (if Listable(pod, namespace, PodListOptions(namespace)) then [pod] else [])
  {
    assert (pods + [pod])[..|pods|] == pods;
  }

  /** `pods` with every entry named `name` dropped (a listing never repeats a name). */
  function DropNamed(pods: seq<Pod>, name: string): seq<Pod>
  {
    if pods == [] then []
    else
      var last := pods[|pods| - 1];
      DropNamed(pods[..|pods| - 1], name) + (if last.name == name then [] else [last])
  }

  ghost predicate DistinctNames(pods: seq<Pod>)
  {
    forall i, j :: 0 <= i < j < |pods| ==> pods[i].name != pods[j].name
  }

  lemma {:induction false} ListedWithout(pods: seq<Pod>, namespace: string, name: string)
    ensures Listed(Without(pods, namespace, name), namespace) == DropNamed(Listed(pods, namespace), name)
  {
    if pods != [] {
      var init, last := pods[..|pods| - 1], pods[|pods| - 1];
      ListedWithout(init, namespace, name);
      ListedWithoutSnoc(init, last, namespace, name);
      DropNamedListedSnoc(init, last, namespace, name);
    }
  }

  /** One more stored pod, seen through a deletion and then a listing. */
  lemma ListedWithoutSnoc(init: seq<Pod>, last: Pod, namespace: string, name: string)
    ensures Listed(Without(init + [last], namespace, name), namespace)
         == Listed(Without(init, namespace, name), namespace)
            + (if last.name != name && Listable(last, namespace, PodListOptions(namespace)) then [last] else [])
  {
    var pods := init + [last];
    assert pods[..|pods| - 1] == init;
    var rest := Without(init, namespace, name);
    if !(last.namespace == namespace && last.name == name) {
      assert Without(pods, namespace, name) == rest + [last];
      ListedSnoc(rest, last, namespace);
    } else {
      assert Without(pods, namespace, name) == rest;
    }
  }

  /** One more stored pod, seen through a listing and then the dropping of a name. */
  lemma DropNamedListedSnoc(init: seq<Pod>, last: Pod, namespace: string, name: string)
    ensures DropNamed(Listed(init + [last], namespace), name)
         == DropNamed(Listed(init, namespace), name)
            + (if last.name != name && Listable(last, namespace, PodListOptions(namespace)) then [last] else [])
  {
    var pods := init + [last];
    ListedSnoc(init, last, namespace);
    var listed := Listed(pods, namespace);
    if Listable(last, namespace, PodListOptions(namespace)) {
      assert listed == Listed(init, namespace) + [last];
      assert listed[..|listed| - 1] == Listed(init, namespace);
      assert DropNamed(listed, name)
          == DropNamed(Listed(init, namespace), name) + (if last.name == name then [] else [last]);
    } else {
      assert listed == Listed(init, namespace);
    }
  }

  lemma {:induction false} ListedDistinct(pods: seq<Pod>, namespace: string)
    requires UniqueNames(pods)
    ensures DistinctNames(Listed(pods, namespace))
  {
    if pods != [] {
      var init, last := pods[..|pods| - 1], pods[|pods| - 1];
      ListedDistinct(init, namespace);
      var front := Listed(init, namespace);
      if Listable(last, namespace, PodListOptions(namespace)) {
        var l := front + [last];
        forall i, j | 0 <= i < j < |l| ensures l[i].name != l[j].name {
          if j == |front| {
            ListedSelects(init, namespace, l[i]);
            var k :| 0 <= k < |init| && init[k] == l[i];
            assert pods[k] == l[i];
          }
        }
      }
    }
  }

  lemma {:induction false} DropFirstName(pods: seq<Pod>)
    requires pods != [] && DistinctNames(pods)
    ensures DropNamed(pods, pods[0].name) == pods[1..]
  {
    if |pods| > 1 {
      var init := pods[..|pods| - 1];
      DropFirstName(init);
      assert init[1..] + [pods[|pods| - 1]] == pods[1..];
    }
  }

  /** Deleting the first pod of a listing leaves the rest of the listing, in order. */
  lemma DeleteFirstListed(pods: seq<Pod>, namespace: string)
    requires UniqueNames(pods) && Listed(pods, namespace) != []
    ensures var listed := Listed(pods, namespace);
      Listed(Without(pods, namespace, listed[0].name), namespace) == listed[1..]
  {
    var listed := Listed(pods, namespace);
    ListedWithout(pods, namespace, listed[0].name);
    ListedDistinct(pods, namespace);
    DropFirstName(listed);
  }

  /** A listing only holds pods of the cluster that the listing selects. */
  lemma {:induction false} ListedSelects(pods: seq<Pod>, namespace: string, p: Pod)
    requires p in Listed(pods, namespace)
    ensures p in pods && Listable(p, namespace, PodListOptions(namespace))
  {
    var init := pods[..|pods| - 1];
    if p in Listed(init, namespace) {
      ListedSelects(init, namespace, p);
    }
  }

  lemma {:induction false} WithoutKeeps(pods: seq<Pod>, namespace: string, name: string, p: Pod)
    requires p in Without(pods, namespace, name)
    ensures p in pods && !(p.namespace == namespace && p.name == name)
  {
    var init := pods[..|pods| - 1];
    if p in Without(init, namespace, name) {
      WithoutKeeps(init, namespace, name, p);
    }
  }
}
