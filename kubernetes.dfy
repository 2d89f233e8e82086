/**
 * The decision logic of models/kubernetes.go: the objects each call submits
 * to the API server (labels, selectors, ports) and how the API server's
 * error is mapped to the error the controller sees. The API server itself
 * is not part of this module: its answer is an input.
 */
module Kubernetes {
  import opened Outcomes

  const AlreadyExists := "already exists"
  const MainContainer := "main"

  datatype Container = Container(name: string, image: string)

  /** A pod object: its metadata and its one-container spec. */
  datatype Pod = Pod(name: string, namespace: string, labels: map<string, string>, containers: seq<Container>)

  datatype Namespace = Namespace(name: string)

  datatype ServiceType = ClusterIP | NodePort | LoadBalancer

  /** A service object; `ports` holds the 32-bit port numbers it exposes. */
  datatype Service = Service(
    name: string, namespace: string, ports: seq<int>, serviceType: ServiceType, selector: map<string, string>)

  /** The options of a pod listing: the label selector as its set of key/value pairs. */
  datatype ListOptions = ListOptions(labelSelector: map<string, string>)

  /** The pod `CreatePod` submits: labelled with its namespace and its name, running `image` in one container. */
  function PodObject(namespace: string, name: string, image: string): Pod
  {
    Pod(name, namespace, map["app" := namespace, "name" := name], [Container(MainContainer, image)])
  }

  function NamespaceObject(namespace: string): Namespace
  {
    Namespace(namespace)
  }

  /** Go's `int32(port)`: keeps the low 32 bits as a two's-complement number. */
  function Int32(n: int): (r: int)
    ensures -0x8000_0000 <= r < 0x8000_0000
    ensures (r - n) % 0x1_0000_0000 == 0
    ensures -0x8000_0000 <= n < 0x8000_0000 ==> r == n
  {
    (n + 0x8000_0000) % 0x1_0000_0000 - 0x8000_0000
  }

  /** The service `CreateService` submits: a NodePort service on one port, selecting the namespace's pods. */
  function ServiceObject(namespace: string, name: string, port: int): Service
  {
    Service(name, namespace, [Int32(port)], NodePort, map["app" := namespace])
  }

  /** The listing options `GetPods` uses: only pods labelled with the namespace. */
  function PodListOptions(namespace: string): ListOptions
  {
    ListOptions(map["app" := namespace])
  }

  /** A label selector selects an object when every one of its pairs is among the object's labels. */
  predicate Selects(selector: map<string, string>, labels: map<string, string>)
  {
    forall k :: k in selector ==> k in labels && labels[k] == selector[k]
  }

  /** The pods the controller creates are the ones its listing and its service select. */
  lemma CreatedPodsAreSelected(namespace: string, name: string, image: string, port: int)
    ensures Selects(PodListOptions(namespace).labelSelector, PodObject(namespace, name, image).labels)
    ensures Selects(ServiceObject(namespace, namespace, port).selector, PodObject(namespace, name, image).labels)
    ensures forall other ::
      other != namespace ==> !Selects(PodListOptions(other).labelSelector, PodObject(namespace, name, image).labels)
  {
    forall other | other != namespace
      ensures !Selects(PodListOptions(other).labelSelector, PodObject(namespace, name, image).labels)
    {
      assert "app" in PodListOptions(other).labelSelector;
    }
  }

  /** `sub` is the window of `s` that starts at index `i`. */
  ghost predicate OccursAt(sub: string, s: string, i: int)
  {
    0 <= i <= |s| - |sub| && s[i..i + |sub|] == sub
  }

  /** `sub` occurs somewhere in `s`. */
  ghost predicate Occurs(sub: string, s: string)
  {
    exists i :: OccursAt(sub, s, i)
  }

  /** `strings.Contains`: scans `s` for a window equal to `sub`. */
  function Contains(s: string, sub: string): (b: bool)
    ensures b <==> Occurs(sub, s)
    decreases |s|
  {
    if |sub| > |s| then
      assert forall i :: !OccursAt(sub, s, i);
      false
    else if s[..|sub|] == sub then
      assert OccursAt(sub, s, 0);
      true
    else
      var rest := Contains(s[1..], sub);
      assert Occurs(sub, s[1..]) <==> Occurs(sub, s) by {
        if Occurs(sub, s[1..]) {
          var i :| OccursAt(sub, s[1..], i);
          assert s[1..][i..i + |sub|] == s[i + 1..i + 1 + |sub|];
          assert OccursAt(sub, s, i + 1);
        }
        if Occurs(sub, s) {
          var i :| OccursAt(sub, s, i);
          assert i != 0;
          assert s[1..][i - 1..i - 1 + |sub|] == s[i..i + |sub|];
          assert OccursAt(sub, s[1..], i - 1);
        }
      }
      rest
  }

  /** `isAlreadyExistsError`: a non-nil error whose message mentions "already exists". */
  function IsAlreadyExistsError(err: Outcome): (b: bool)
    ensures b <==> err.Fail? && Occurs(AlreadyExists, err.message)
  {
    err.Fail? && Contains(err.message, AlreadyExists)
  }

  /**
   * The error `CreateNamespace` and `CreateService` return for the API
   * server's answer: creating what already exists is not an error.
   */
  function IgnoreAlreadyExists(apiErr: Outcome): (err: Outcome)
    ensures err.Ok? <==> apiErr.Ok? || Occurs(AlreadyExists, apiErr.message)
    ensures err.Fail? ==> err == apiErr
  {
    if apiErr.Fail? && !IsAlreadyExistsError(apiErr) then apiErr else Ok
  }

  /** Any message that ends in "already exists" is ignored, whatever names the object. */
  lemma AlreadyExistsIgnored(prefix: string)
    ensures IsAlreadyExistsError(Fail(prefix + AlreadyExists))
    ensures IgnoreAlreadyExists(Fail(prefix + AlreadyExists)) == Ok
  {
    var message := prefix + AlreadyExists;
    assert message[|prefix|..|prefix| + |AlreadyExists|] == AlreadyExists;
    assert OccursAt(AlreadyExists, message, |prefix|);
  }
}
