/**
 * The status ingestion endpoint of http/app.go: a worker pod posts its name
 * and status, and the handler records it in the pod status table. Reading
 * the request body and decoding its JSON are inputs: the read either fails
 * or yields bytes, and `decode` stands for `json.Unmarshal` into the body
 * record.
 */
module Ingestion {
  import opened Outcomes
  import StatusTable

  /** The path the handler is registered under, and the one the worker pods post to. */
  const StatusPath := "/statuss"

  const StatusOK := 200
  const StatusBadRequest := 400

  /** The JSON record a request carries. */
  datatype Body = Body(status: string, name: string)

  /** What `ioutil.ReadAll(r.Body)` gave. */
  datatype ReadResult = ReadFailed(message: string) | ReadBytes(bytes: seq<bv8>)

  /** The status code written, and the update the handler makes, if any. */
  datatype Response = Response(code: int, update: Option<Body>)

  /**
   * The handler's decision: a failed read or a failed decode is a bad
   * request with no update; otherwise the decoded record goes to the table
   * exactly as decoded, whatever its status string says, and the answer is
   * 200.
   */
  function Handle(read: ReadResult, decode: seq<bv8> -> Option<Body>): (r: Response)
    ensures r.code == StatusOK || r.code == StatusBadRequest
    ensures r.code == StatusOK <==> r.update.Some?
    ensures r.update.Some? <==> read.ReadBytes? && decode(read.bytes).Some?
    ensures r.update.Some? ==> r.update == decode(read.bytes)
  {
    match read
    case ReadFailed(_) => Response(StatusBadRequest, None)
    case ReadBytes(bytes) =>
      match decode(bytes)
      case None => Response(StatusBadRequest, None)
      case Some(body) => Response(StatusOK, Some(body))
  }

  /**
   * An accepted request whose status is not one the controller knows still
   * lands in the table, and counts as neither ready nor occupied.
   */
  lemma UnknownStatusRecorded(
    m: map<string, string>, bytes: seq<bv8>, decode: seq<bv8> -> Option<Body>, name: string, status: string)
    requires decode(bytes) == Some(Body(status, name))
    requires status != StatusTable.StatusReady && status != StatusTable.StatusOccupied
    requires status != StatusTable.StatusTerminated
    ensures Handle(ReadBytes(bytes), decode).code == StatusOK
    ensures var m' := StatusTable.Updated(m, name, status);
      && name in m' && m'[name] == status
      && |StatusTable.PodsWith(m', StatusTable.StatusReady)|
         == |StatusTable.PodsWith(m, StatusTable.StatusReady)|
            - (if name in m && m[name] == StatusTable.StatusReady then 1 else 0)
      && |StatusTable.PodsWith(m', StatusTable.StatusOccupied)|
         == |StatusTable.PodsWith(m, StatusTable.StatusOccupied)|
            - (if name in m && m[name] == StatusTable.StatusOccupied then 1 else 0)
  {
    StatusTable.UpdateShiftsCount(m, name, status, StatusTable.StatusReady);
    StatusTable.UpdateShiftsCount(m, name, status, StatusTable.StatusOccupied);
  }

  /** `updateHandler`, bound to the controller's status table. */
  class UpdateHandler {
    const statusUpdater: StatusTable.Status

    constructor (statusUpdater: StatusTable.Status)
      ensures this.statusUpdater == statusUpdater
    {
      this.statusUpdater := statusUpdater;
    }

    /**
     * `ServeHTTP`: writes one status code; an accepted request makes exactly
     * one `Update`, a rejected one none.
     */
    method ServeHTTP(read: ReadResult, decode: seq<bv8> -> Option<Body>) returns (code: int)
      modifies statusUpdater
      ensures var r := Handle(read, decode);
        && code == r.code
        && (r.update.Some? ==>
              && statusUpdater.podsStatuses
                 == StatusTable.Updated(old(statusUpdater.podsStatuses), r.update.value.name, r.update.value.status)
              && statusUpdater.notifications == old(statusUpdater.notifications) + 1)
        && (r.update.None? ==>
              && statusUpdater.podsStatuses == old(statusUpdater.podsStatuses)
              && statusUpdater.notifications == old(statusUpdater.notifications))
    {
      if read.ReadFailed? {
        return StatusBadRequest;
      }
      var decoded := decode(read.bytes);
      if decoded.None? {
        return StatusBadRequest;
      }
      statusUpdater.Update(decoded.value.name, decoded.value.status);
      code := StatusOK;
    }
  }
}
