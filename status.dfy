/**
 * The pod status table of controller/status.go: a map from pod name to the
 * status string the pod last reported, plus the change notification each
 * update sends (modelled as a counter of notifications sent).
 */
module StatusTable {
  import Reports

  const StatusReady := "ready"
  const StatusOccupied := "occupied"
  const StatusTerminated := "terminated"

  /**
   * The table after one update: a terminated pod loses its entry, any other
   * status string (known or not) becomes the pod's entry.
   */
  function Updated(m: map<string, string>, name: string, status: string): (m': map<string, string>)
    ensures status == StatusTerminated ==> name !in m'
    ensures status != StatusTerminated ==> name in m' && m'[name] == status
    ensures forall k :: k != name ==> (k in m' <==> k in m)
    ensures forall k :: k != name && k in m ==> m'[k] == m[k]
  {
    if status == StatusTerminated then m - {name} else m[name := status]
  }

  /** The pods whose entry is exactly `status`. */
  ghost function PodsWith(m: map<string, string>, status: string): set<string>
  {
    set k | k in m && m[k] == status
  }

  /** A report never counts more pods than the table holds: unknown strings count as neither. */
  lemma CountsWithinTable(m: map<string, string>)
    ensures |PodsWith(m, StatusReady)| + |PodsWith(m, StatusOccupied)| <= |m|
  {
    var ready, occupied := PodsWith(m, StatusReady), PodsWith(m, StatusOccupied);
    assert ready * occupied == {};
    assert |ready + occupied| == |ready| + |occupied|;
    SubsetCardinality(ready + occupied, m.Keys);
  }

  lemma {:induction false} SubsetCardinality(a: set<string>, b: set<string>)
    requires a <= b
    ensures |a| <= |b|
    decreases |b|
  {
    if a != {} {
      var x :| x in a;
      SubsetCardinality(a - {x}, b - {x});
    }
  }

  /**
   * How an update moves the counts: the pod's old entry leaves the count of
   * its status, and the new status (unless terminated) joins its own.
   */
  lemma {:induction false} UpdateShiftsCount(m: map<string, string>, name: string, status: string, counted: string)
    ensures |PodsWith(Updated(m, name, status), counted)|
         == |PodsWith(m, counted)|
            - (if name in m && m[name] == counted then 1 else 0)
            + (if status == counted && status != StatusTerminated then 1 else 0)
  {
    var m' := Updated(m, name, status);
    OthersKeepStatus(m, name, status, counted);
    SplitOff(PodsWith(m, counted), name);
    SplitOff(PodsWith(m', counted), name);
  }

  /** Apart from the updated pod, the pods with a given status are the same before and after. */
  lemma OthersKeepStatus(m: map<string, string>, name: string, status: string, counted: string)
    ensures PodsWith(Updated(m, name, status), counted) - {name} == PodsWith(m, counted) - {name}
  {
    var m' := Updated(m, name, status);
    forall k | k != name ensures k in PodsWith(m', counted) <==> k in PodsWith(m, counted) {}
  }

  /** A set's size is that of the set without `x`, plus one if `x` was in it. */
  lemma SplitOff(s: set<string>, x: string)
    ensures |s| == |s - {x}| + (if x in s then 1 else 0)
  {
    if x in s {
      assert s == (s - {x}) + {x};
    }
  }

  /** Last write wins: a second update of the same pod erases every trace of the first. */
  lemma LastWriteWins(m: map<string, string>, name: string, first: string, second: string)
    ensures Updated(Updated(m, name, first), name, second) == Updated(m, name, second)
  {
  }

  class Status {
    var podsStatuses: map<string, string>
    /** How many change notifications `Update` has sent on the channel. */
    var notifications: nat

    /** `NewStatus`: every listed pod starts ready. */
    constructor (pods: seq<string>)
      ensures podsStatuses.Keys == set p | p in pods
      ensures forall p :: p in podsStatuses ==> podsStatuses[p] == StatusReady
      ensures notifications == 0
    {
      var m := map[];
      for i := 0 to |pods|
        invariant m.Keys == set p | p in pods[..i]
        invariant forall p :: p in m ==> m[p] == StatusReady
      {
        assert pods[..i + 1] == pods[..i] + [pods[i]];
        m := m[pods[i] := StatusReady];
      }
      assert pods[..|pods|] == pods;
      podsStatuses := m;
      notifications := 0;
    }

    /** `Update`: change the table, then send exactly one notification, whatever the status. */
    method Update(name: string, status: string)
      modifies this
      ensures podsStatuses == Updated(old(podsStatuses), name, status)
      ensures notifications == old(notifications) + 1
    {
      if status == StatusTerminated {
        podsStatuses := podsStatuses - {name};
      } else {
        podsStatuses := podsStatuses[name := status];
      }
      notifications := notifications + 1;
    }

    /** `Report`: count the ready and the occupied entries, in whatever order the map yields them. */
    method Report() returns (r: Reports.Report)
      ensures r.readyPods == |PodsWith(podsStatuses, StatusReady)|
      ensures r.occupiedPods == |PodsWith(podsStatuses, StatusOccupied)|
    {
      var ready, occupied := 0, 0;
      var remaining := podsStatuses.Keys;
      while remaining != {}
        invariant remaining <= podsStatuses.Keys
        invariant ready == |PodsWith(podsStatuses, StatusReady) - remaining|
        invariant occupied == |PodsWith(podsStatuses, StatusOccupied) - remaining|
        decreases |remaining|
      {
        var pod :| pod in remaining;
        var status := podsStatuses[pod];
        CountOneMore(podsStatuses, StatusReady, remaining, pod);
        CountOneMore(podsStatuses, StatusOccupied, remaining, pod);
        remaining := remaining - {pod};
        if status == StatusReady {
          ready := ready + 1;
        } else if status == StatusOccupied {
          occupied := occupied + 1;
        }
      }
      r := Reports.Report(ready, occupied);
    }
  }

  /** Visiting one more pod adds it to the count of its own status only. */
  lemma CountOneMore(m: map<string, string>, status: string, remaining: set<string>, pod: string)
    requires pod in remaining && pod in m
    ensures |PodsWith(m, status) - (remaining - {pod})|
         == |PodsWith(m, status) - remaining| + (if m[pod] == status then 1 else 0)
  {
    var done := PodsWith(m, status) - remaining;
    if m[pod] == status {
      assert PodsWith(m, status) - (remaining - {pod}) == done + {pod};
    } else {
      assert PodsWith(m, status) - (remaining - {pod}) == done;
    }
  }
}
