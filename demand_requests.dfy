/** The demand-request routes of server/src/routes/demandRequests.js other
    than the recommendation ranker: the `demand_requests` table as a map
    from id to row, changed by create, the status PATCH and DELETE, and the
    list query with its `allocated_quantity` aggregate. A snapshot of a
    table that a query scans is a sequence in scan order. */
module DemandRequests {

  import opened Wrappers
  import opened Http
  import Ordering

  datatype Priority = Low | Medium | High

  const PriorityNames: seq<string> := ["Low", "Medium", "High"]

  function PriorityName(p: Priority): string {
    match p
    case Low => "Low"
    case Medium => "Medium"
    case High => "High"
  }

  function PriorityNamed(t: string): (p: Option<Priority>)
    ensures p.Some? <==> t in PriorityNames
    ensures p.Some? ==> PriorityName(p.value) == t
  {
    if t == "Low" then Some(Low)
    else if t == "Medium" then Some(Medium)
    else if t == "High" then Some(High)
    else None
  }

  datatype RequestStatus = Pending | InProgress | Fulfilled | Cancelled

  const RequestStatusNames: seq<string> := ["Pending", "In Progress", "Fulfilled", "Cancelled"]

  function RequestStatusName(s: RequestStatus): string {
    match s
    case Pending => "Pending"
    case InProgress => "In Progress"
    case Fulfilled => "Fulfilled"
    case Cancelled => "Cancelled"
  }

  function RequestStatusNamed(t: string): (s: Option<RequestStatus>)
    ensures s.Some? <==> t in RequestStatusNames
    ensures s.Some? ==> RequestStatusName(s.value) == t
  {
    if t == "Pending" then Some(Pending)
    else if t == "In Progress" then Some(InProgress)
    else if t == "Fulfilled" then Some(Fulfilled)
    else if t == "Cancelled" then Some(Cancelled)
    else None
  }

  datatype DemandRequest = DemandRequest(
    id: int,
    disasterId: int,
    requestedBy: string,
    priority: Priority,
    location: Option<string>,
    resourceType: string,
    quantityRequested: int,
    status: RequestStatus,
    createdAt: int,
    updatedAt: int)

  const NotFoundMessage: string := "Demand request not found"

  // ---- validation ----

  /** What the create schema lets through. */
  datatype NewRequest = NewRequest(
    disasterId: int,
    requestedBy: string,
    priority: Priority,
    location: Option<string>,
    resourceType: string,
    quantityRequested: int)

  /** `location: Joi.string().max(150).allow(null, '')`: absent and null
      both store NULL; the empty string is kept as it is. */
  function LocationField(v: Option<Json>): (r: Option<Option<string>>)
    ensures r.Some? <==> v.None? || v.value.Null? || (v.value.Text? && |v.value.s| <= 150)
    ensures r.Some? && r.value.Some? ==> v == Some(Text(r.value.value))
    ensures v.None? || v.value.Null? ==> r == Some(None)
    ensures v.Some? && v.value.Text? && r.Some? ==> r.value == Some(v.value.s)
  {
    if v.None? || v.value.Null? then Some(None)
    else if v.value.Text? && |v.value.s| <= 150 then Some(Some(v.value.s))
    else None
  }

  /** The create schema: an integer disaster id, a requester of 1 to 100
      characters, a priority among the three, an optional location, a
      resource type of 1 to 50 characters and a quantity of at least 1. */
  function ValidateCreate(body: Body): (r: Outcome<NewRequest>)
    ensures r.Err? ==> r.error == Unprocessable
    ensures r.Ok? ==> r.value.quantityRequested >= 1
    ensures r.Ok? <==> && Lookup(body, "disaster_id").Some? && IsInteger(Lookup(body, "disaster_id").value)
                       && Lookup(body, "requested_by").Some? && IsText(Lookup(body, "requested_by").value, 100)
                       && Lookup(body, "priority_level").Some? && IsOneOf(Lookup(body, "priority_level").value, PriorityNames)
                       && LocationField(Lookup(body, "location")).Some?
                       && Lookup(body, "resource_type").Some? && IsText(Lookup(body, "resource_type").value, 50)
                       && Lookup(body, "quantity_requested").Some? && IsIntegerAtLeast(Lookup(body, "quantity_requested").value, 1)
    ensures r.Ok? ==> && r.value.disasterId as real == Lookup(body, "disaster_id").value.n
                      && Lookup(body, "requested_by") == Some(Text(r.value.requestedBy))
                      && Lookup(body, "priority_level") == Some(Text(PriorityName(r.value.priority)))
                      && Lookup(body, "resource_type") == Some(Text(r.value.resourceType))
                      && r.value.quantityRequested as real == Lookup(body, "quantity_requested").value.n
    ensures r.Ok? ==> && (Lookup(body, "location").None? || Lookup(body, "location").value.Null? ==>
                            r.value.location == None)
                      && (Lookup(body, "location").Some? && Lookup(body, "location").value.Text? ==>
                            r.value.location == Some(Lookup(body, "location").value.s))
  {
    var disaster := Lookup(body, "disaster_id");
    var requestedBy := Lookup(body, "requested_by");
    var priority := Lookup(body, "priority_level");
    var location := LocationField(Lookup(body, "location"));
    var resourceType := Lookup(body, "resource_type");
    var quantity := Lookup(body, "quantity_requested");
    if disaster.None? || !IsInteger(disaster.value) then Err(Unprocessable)
    else if requestedBy.None? || !IsText(requestedBy.value, 100) then Err(Unprocessable)
    else if priority.None? || !IsOneOf(priority.value, PriorityNames) then Err(Unprocessable)
    else if location.None? then Err(Unprocessable)
    else if resourceType.None? || !IsText(resourceType.value, 50) then Err(Unprocessable)
    else if quantity.None? || !IsIntegerAtLeast(quantity.value, 1) then Err(Unprocessable)
    else
      Ok(NewRequest(disaster.value.n.Floor, requestedBy.value.s, PriorityNamed(priority.value.s).value,
                    location.value, resourceType.value.s, quantity.value.n.Floor))
  }

  /** The status schema: one of the four status texts, required. */
  function ValidateStatus(body: Body): (r: Outcome<RequestStatus>)
    ensures r.Err? ==> r.error == Unprocessable
    ensures r.Ok? <==> Lookup(body, "status").Some? && IsOneOf(Lookup(body, "status").value, RequestStatusNames)
    ensures r.Ok? ==> Lookup(body, "status") == Some(Text(RequestStatusName(r.value)))
  {
    var s := Lookup(body, "status");
    if s.None? || !IsOneOf(s.value, RequestStatusNames) then Err(Unprocessable)
    else Ok(RequestStatusNamed(s.value.s).value)
  }

  /** Every status can be reached from the status schema. */
  lemma EveryStatusAccepted(s: RequestStatus)
    ensures ValidateStatus([("status", Text(RequestStatusName(s)))]) == Ok(s)
  {
    var body := [("status", Text(RequestStatusName(s)))];
    assert Lookup(body, "status") == Some(Text(RequestStatusName(s)));
    assert RequestStatusName(s) in RequestStatusNames;
  }

  // ---- the table ----

  class DemandRequestTable {
    var rows: map<int, DemandRequest>
    var nextId: int

    /** Each row sits under its own id, ids come from the sequence, and
        every requested quantity is at least 1. */
    ghost predicate Valid()
      reads this
    {
      forall id :: id in rows ==> rows[id].id == id && id < nextId && rows[id].quantityRequested >= 1
    }

    constructor ()
      ensures Valid() && rows == map[] && nextId == 1
    {
      rows := map[];
      nextId := 1;
    }

    /** `POST /demand-requests`: the validated row under the next id with
        the column default status Pending, or 422 and no change. */
    method Create(body: Body, now: int) returns (r: Outcome<DemandRequest>)
      requires Valid()
      modifies this
      ensures Valid()
      ensures ValidateCreate(body).Err? ==> r == Err(Unprocessable) && rows == old(rows) && nextId == old(nextId)
      ensures ValidateCreate(body).Ok? ==>
                var n := ValidateCreate(body).value;
                && r == Ok(DemandRequest(old(nextId), n.disasterId, n.requestedBy, n.priority, n.location,
                                         n.resourceType, n.quantityRequested, Pending, now, now))
                && old(nextId) !in old(rows)
                && rows == old(rows)[old(nextId) := r.value] && nextId == old(nextId) + 1
    {
      var v := ValidateCreate(body);
      if v.Err? {
        return Err(Unprocessable);
      }
      var n := v.value;
      var row := DemandRequest(nextId, n.disasterId, n.requestedBy, n.priority, n.location,
                               n.resourceType, n.quantityRequested, Pending, now, now);
      rows := rows[nextId := row];
      nextId := nextId + 1;
      r := Ok(row);
    }

    /** `PATCH /demand-requests/:id/status`: any of the four statuses is
        accepted whatever the current one; only that row's status and
        `updated_at` change. 422 or 404 change nothing. */
    method SetStatus(id: int, body: Body, now: int) returns (r: Outcome<DemandRequest>)
      requires Valid()
      modifies this
      ensures Valid() && nextId == old(nextId)
      ensures ValidateStatus(body).Err? ==> r == Err(Unprocessable) && rows == old(rows)
      ensures ValidateStatus(body).Ok? && id !in old(rows) ==>
                r == Err(NotFound(NotFoundMessage)) && rows == old(rows)
      ensures ValidateStatus(body).Ok? && id in old(rows) ==>
                && r == Ok(old(rows)[id].(status := ValidateStatus(body).value, updatedAt := now))
                && rows == old(rows)[id := r.value]
    {
      var v := ValidateStatus(body);
      if v.Err? {
        return Err(Unprocessable);
      }
      if id !in rows {
        return Err(NotFound(NotFoundMessage));
      }
      var row := rows[id].(status := v.value, updatedAt := now);
      rows := rows[id := row];
      r := Ok(row);
    }

    /** `DELETE /demand-requests/:id`: removes the row, or 404 when there is
        none. */
    method Delete(id: int) returns (r: Outcome<()>)
      requires Valid()
      modifies this
      ensures Valid() && nextId == old(nextId)
      ensures id !in old(rows) ==> r == Err(NotFound(NotFoundMessage)) && rows == old(rows)
      ensures id in old(rows) ==> r == Ok(()) && rows == old(rows) - {id}
    {
      if id !in rows {
        return Err(NotFound(NotFoundMessage));
      }
      rows := rows - {id};
      r := Ok(());
    }
  }

  // ---- GET /demand-requests ----

  /** A row of `allocations`; its status plays no part in the sum. */
  datatype Allocation = Allocation(id: int, requestId: int, resourceId: int, allocatedQuantity: int, status: string)

  /** The lateral `SELECT SUM(allocated_quantity) ... WHERE request_id = id`:
      NULL (`None`) when the request has no allocation. */
  function LateralSum(allocations: seq<Allocation>, requestId: int): (s: Option<int>)
    ensures s.None? <==> forall i :: 0 <= i < |allocations| ==> allocations[i].requestId != requestId
  {
    if allocations == [] then None
    else
      var rest := LateralSum(allocations[1..], requestId);
      if allocations[0].requestId != requestId then rest
      else if rest.None? then Some(allocations[0].allocatedQuantity)
      else Some(allocations[0].allocatedQuantity + rest.value)
  }

  /** `COALESCE(a.allocated_quantity, 0)`: the listed aggregate is the
      plain total of the request's allocations, 0 when there are none. */
  function AllocatedQuantity(allocations: seq<Allocation>, requestId: int): (q: int)
    ensures q == TotalFor(allocations, requestId)
  {
    LateralSumIsTotal(allocations, requestId);
    match LateralSum(allocations, requestId)
    case None => 0
    case Some(s) => s
  }

  /** Reference definition: the quantities of the request's allocations,
      added up, whatever their status. */
  function TotalFor(allocations: seq<Allocation>, requestId: int): (t: int)
    ensures (forall i :: 0 <= i < |allocations| ==> allocations[i].requestId != requestId) ==> t == 0
    ensures (forall i :: 0 <= i < |allocations| ==> allocations[i].allocatedQuantity >= 0) ==> t >= 0
  {
    if allocations == [] then 0
    else (if allocations[0].requestId == requestId then allocations[0].allocatedQuantity else 0)
         + TotalFor(allocations[1..], requestId)
  }

  /** A non-NULL lateral sum is the plain total. */
  lemma {:induction false} LateralSumIsTotal(allocations: seq<Allocation>, requestId: int)
    ensures LateralSum(allocations, requestId).Some? ==>
              LateralSum(allocations, requestId).value == TotalFor(allocations, requestId)
  {
    if allocations != [] {
      LateralSumIsTotal(allocations[1..], requestId);
    }
  }

  lemma {:induction false} TotalForAppend(a: seq<Allocation>, b: seq<Allocation>, requestId: int)
    ensures TotalFor(a + b, requestId) == TotalFor(a, requestId) + TotalFor(b, requestId)
  {
    if a == [] {
      assert a + b == b;
    } else {
      assert (a + b)[0] == a[0];
      assert (a + b)[1..] == a[1..] + b;
      TotalForAppend(a[1..], b, requestId);
    }
  }

  /** Taking one row out of the scan takes its share out of the total. */
  lemma {:induction false} TotalForRemove(b: seq<Allocation>, k: nat, requestId: int)
    requires k < |b|
    ensures TotalFor(b, requestId)
            == (if b[k].requestId == requestId then b[k].allocatedQuantity else 0)
               + TotalFor(b[..k] + b[k + 1..], requestId)
  {
    var tail := [b[k]] + b[k + 1..];
    assert b == b[..k] + tail;
    assert tail[0] == b[k] && tail[1..] == b[k + 1..];
    TotalForAppend(b[..k], tail, requestId);
    TotalForAppend(b[..k], b[k + 1..], requestId);
  }

  lemma MultisetRemove(b: seq<Allocation>, k: nat)
    requires k < |b|
    ensures multiset(b[..k] + b[k + 1..]) == multiset(b) - multiset{b[k]}
  {
    assert b == b[..k] + [b[k]] + b[k + 1..];
  }

  /** The total does not depend on the order the rows are scanned in. */
  lemma {:induction false} TotalForPermutation(a: seq<Allocation>, b: seq<Allocation>, requestId: int)
    requires multiset(a) == multiset(b)
    ensures TotalFor(a, requestId) == TotalFor(b, requestId)
    decreases |a|
  {
    if a != [] {
      assert a[0] in multiset(a);
      var k :| 0 <= k < |b| && b[k] == a[0];
      var rest := b[..k] + b[k + 1..];
      MultisetRemove(b, k);
      assert a == [a[0]] + a[1..];
      assert multiset(a[1..]) == multiset(a) - multiset{a[0]};
      TotalForPermutation(a[1..], rest, requestId);
      TotalForRemove(b, k, requestId);
    }
  }

  /** Only the quantities count: changing allocations' statuses leaves the
      aggregate as it was. */
  lemma {:induction false} TotalForIgnoresStatus(a: seq<Allocation>, b: seq<Allocation>, requestId: int)
    requires |a| == |b|
    requires forall i :: 0 <= i < |a| ==> a[i].(status := b[i].status) == b[i]
    ensures TotalFor(a, requestId) == TotalFor(b, requestId)
  {
    if a != [] {
      TotalForIgnoresStatus(a[1..], b[1..], requestId);
    }
  }

  /** One line of the list. */
  datatype Listing = Listing(
    id: int,
    disasterId: int,
    disasterType: string,
    requestedBy: string,
    priority: Priority,
    location: Option<string>,
    resourceType: string,
    quantityRequested: int,
    status: RequestStatus,
    createdAt: int,
    allocatedQuantity: int)

  function ListingOf(r: DemandRequest, disasterType: string, allocations: seq<Allocation>): Listing {
    Listing(r.id, r.disasterId, disasterType, r.requestedBy, r.priority, r.location, r.resourceType,
            r.quantityRequested, r.status, r.createdAt, AllocatedQuantity(allocations, r.id))
  }

  /** `JOIN disasters d ON d.id = dr.disaster_id`: a request whose disaster
      is missing drops out, and the aggregate keeps one line per request:
      lines of requests with distinct ids have distinct ids, and when every
      disaster exists there are as many lines as requests. `disasters` maps
      a disaster id to its type. */
  function Joined(requests: seq<DemandRequest>, disasters: map<int, string>, allocations: seq<Allocation>): (ls: seq<Listing>)
    ensures |ls| <= |requests|
    ensures (forall i :: 0 <= i < |requests| ==> requests[i].disasterId in disasters) ==> |ls| == |requests|
    ensures forall l :: l in ls ==> l.id in Ids(requests)
    ensures DistinctIds(requests) ==> Ordering.DistinctBy(ls, ListingId)
    ensures forall l :: l in ls ==> l.allocatedQuantity == TotalFor(allocations, l.id)
  {
    if requests == [] then []
    else
      var rest := Joined(requests[1..], disasters, allocations);
      var r := requests[0];
      if r.disasterId in disasters then
        var ls := [ListingOf(r, disasters[r.disasterId], allocations)] + rest;
        assert DistinctIds(requests) ==> r.id !in Ids(requests[1..]);
        assert forall k :: 1 <= k < |ls| ==> ls[k] == rest[k - 1];
        ls
      else rest
  }

  function ListingId(l: Listing): int {
    l.id
  }

  /** The ids of the requests, as a set. */
  function Ids(requests: seq<DemandRequest>): (ids: set<int>)
    ensures forall i :: 0 <= i < |requests| ==> requests[i].id in ids
  {
    if requests == [] then {} else {requests[0].id} + Ids(requests[1..])
  }

  /** No two requests share an id, as in the `demand_requests` table. */
  predicate DistinctIds(requests: seq<DemandRequest>) {
    requests != [] ==> requests[0].id !in Ids(requests[1..]) && DistinctIds(requests[1..])
  }

  /** `ORDER BY dr.created_at DESC`. */
  predicate NewerFirst(a: Listing, b: Listing) {
    a.createdAt >= b.createdAt
  }

  /** `GET /demand-requests`: the joined lines, newest first, nothing
      added or dropped. */
  function ListRequests(requests: seq<DemandRequest>, disasters: map<int, string>, allocations: seq<Allocation>): (out: seq<Listing>)
    ensures Ordering.Sorted(out, NewerFirst)
    ensures multiset(out) == multiset(Joined(requests, disasters, allocations))
  {
    var joined := Joined(requests, disasters, allocations);
    NewerFirstIsTotalPreorder();
    Ordering.SortBySorted(joined, NewerFirst);
    Ordering.SortByPermutes(joined, NewerFirst);
    Ordering.SortBy(joined, NewerFirst)
  }

  lemma NewerFirstIsTotalPreorder()
    ensures Ordering.TotalPreorder(NewerFirst)
  {
  }

  lemma {:induction false} JoinedMembers(requests: seq<DemandRequest>, disasters: map<int, string>,
                                         allocations: seq<Allocation>, l: Listing)
    ensures l in Joined(requests, disasters, allocations) <==>
              exists r :: r in requests && r.disasterId in disasters && l == ListingOf(r, disasters[r.disasterId], allocations)
  {
    if requests != [] {
      JoinedMembers(requests[1..], disasters, allocations, l);
      assert forall r :: r in requests <==> r == requests[0] || r in requests[1..];
    }
  }

  /** The list is newest first; it holds one line per request whose
      disaster exists, no two lines for the same request, each carrying
      that request's allocation total. */
  lemma ListRequestsSpec(requests: seq<DemandRequest>, disasters: map<int, string>, allocations: seq<Allocation>)
    ensures var out := ListRequests(requests, disasters, allocations);
            && Ordering.Sorted(out, NewerFirst)
            && multiset(out) == multiset(Joined(requests, disasters, allocations))
            && (forall l :: l in out <==>
                  exists r :: r in requests && r.disasterId in disasters && l == ListingOf(r, disasters[r.disasterId], allocations))
            && (forall l :: l in out ==> l.allocatedQuantity == TotalFor(allocations, l.id))
            && (DistinctIds(requests) ==> Ordering.DistinctBy(out, ListingId))
            && ((forall i :: 0 <= i < |requests| ==> requests[i].disasterId in disasters) ==> |out| == |requests|)
  {
    var joined := Joined(requests, disasters, allocations);
    NewerFirstIsTotalPreorder();
    Ordering.SortBySorted(joined, NewerFirst);
    Ordering.SortByPermutes(joined, NewerFirst);
    forall l ensures l in ListRequests(requests, disasters, allocations) <==>
                       exists r :: r in requests && r.disasterId in disasters && l == ListingOf(r, disasters[r.disasterId], allocations)
    {
      Ordering.SortByMembers(joined, NewerFirst, l);
      JoinedMembers(requests, disasters, allocations, l);
    }
    forall l | l in ListRequests(requests, disasters, allocations) ensures l.allocatedQuantity == TotalFor(allocations, l.id) {
      Ordering.SortByMembers(joined, NewerFirst, l);
    }
    var out := ListRequests(requests, disasters, allocations);
    if DistinctIds(requests) {
      Ordering.PermutationKeepsDistinct(joined, out, ListingId);
    }
    assert |out| == |multiset(out)| == |multiset(joined)| == |joined|;
  }
}
