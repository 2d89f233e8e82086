/**
 * The worker sidecar of statuspod/main.go: a status that starts ready, is
 * flipped by the toggle endpoint and set to terminated when the process is
 * signalled, and is pushed to the controller after each change. The pushes
 * are recorded rather than sent; the JSON encoding of the payload is not
 * modelled, only its one field.
 */
module StatusPod {
  import Ingestion

  const Ready := "ready"
  const Occupied := "occupied"
  const Terminated := "terminated"

  /** The record `bodyReader` encodes: the status only, with no pod name. */
  datatype Payload = Payload(status: string)

  /** One status push: where it was posted, and what. */
  datatype Push = Push(url: string, payload: Payload)

  /** `toggleHandler`'s transition: ready becomes occupied, anything else becomes ready. */
  function Toggled(status: string): (next: string)
    ensures next == Occupied <==> status == Ready
    ensures next == Ready <==> status != Ready
  {
    if status == Ready then Occupied else Ready
  }

  /** Toggling twice from ready or occupied restores the status. */
  lemma ToggleTwice(status: string)
    requires status == Ready || status == Occupied
    ensures Toggled(Toggled(status)) == status
  {
  }

  /** A terminated sidecar that is toggled becomes ready again, then occupied. */
  lemma ToggleAfterTermination()
    ensures Toggled(Terminated) == Ready && Toggled(Toggled(Terminated)) == Occupied
  {
  }

  /** The sidecar's global state: its status, the base url, and the pushes made so far. */
  class Sidecar {
    var status: string
    const url: string
    var sent: seq<Push>

    /**
     * Every status the sidecar can hold. No operation needs it: the
     * constructor, `Toggle` and `Terminate` ensure it, and `SendStatus`
     * keeps the status.
     */
    ghost predicate Valid()
      reads this
    {
      status == Ready || status == Occupied || status == Terminated
    }

    constructor (url: string)
      ensures Valid()
      ensures status == Ready && this.url == url && sent == []
    {
      status := Ready;
      this.url := url;
      sent := [];
    }

    /** `sendStatus`: posts the current status, alone, to the base url followed by the controller's status path. */
    method SendStatus()
      modifies this
      ensures status == old(status)
      ensures sent == old(sent) + [Push(url + Ingestion.StatusPath, Payload(status))]
    {
      sent := sent + [Push(url + Ingestion.StatusPath, Payload(status))];
    }

    /** `toggleHandler`: flip the status, then push the new one. */
    method Toggle()
      modifies this
      ensures Valid()
      ensures status == Toggled(old(status))
      ensures sent == old(sent) + [Push(url + Ingestion.StatusPath, Payload(status))]
    {
      if status == Ready {
        status := Occupied;
      } else {
        status := Ready;
      }
      SendStatus();
    }

    /** `captureSignal`'s reaction: set the status to terminated, then push it. */
    method Terminate()
      modifies this
      ensures Valid()
      ensures status == Terminated
      ensures sent == old(sent) + [Push(url + Ingestion.StatusPath, Payload(Terminated))]
    {
      status := Terminated;
      SendStatus();
    }
  }
}
