/** The approval store: one record per approval id, decided at most once. */
module ApprovalStore {
  import opened PyValues

  type Id = string
  type Time = int

  datatype Status = Pending | Approved | Rejected | Expired

  datatype Record = Record(
    status: Status,
    expiresAt: Option<Time>,
    reason: Option<string>,
    note: Option<string>,
    resolvedAt: Option<Time>,
    resolvedBy: Option<string>)

  /** A request nobody has answered, without a time limit. */
  const NEW_RECORD := Record(Pending, None, None, None, None, None)

  type Records = map<Id, Record>

  datatype Error = AlreadyExists | NotFound | NotPending(was: Status) | HasExpired
  datatype Result<+T> = Ok(value: T) | Err(error: Error)

  /** What a person answers; the store methods approve and reject differ in nothing else. */
  datatype Verdict = Approve | Reject

  datatype StoreOp =
    | CreateOp(id: Id, record: Record)
    | DecideOp(id: Id, verdict: Verdict, who: string, reason: Option<string>, now: Time)

  predicate IsExpired(record: Record, now: Time) {
    record.expiresAt.Some? && now >= record.expiresAt.value
  }

  /** A record without a limit is always in time; one with a limit only strictly before it. */
  predicate InTime(record: Record, now: Time) {
    match record.expiresAt
    case None => true
    case Some(limit) => now < limit
  }

  /** `reason or default`: None and the empty string both fall back. */
  function OrDefault(text: Option<string>, default: string): string {
    if text.Some? && text.value != "" then text.value else default
  }

  function Resolved(record: Record, verdict: Verdict, who: string, reason: Option<string>, now: Time): Record {
    if IsExpired(record, now) then
      record.(status := Expired, resolvedAt := Some(now), note := Some(OrDefault(reason, "expired")))
    else
      record.(status := if verdict.Approve? then Approved else Rejected,
              resolvedAt := Some(now), resolvedBy := Some(who), reason := reason, note := reason)
  }

  /** The store after one call, whether the call succeeds or raises. */
  function AfterOp(records: Records, op: StoreOp): Records {
    match op
    case CreateOp(id, record) => if id in records then records else records[id := record]
    case DecideOp(id, verdict, who, reason, now) =>
      if id in records && records[id].status.Pending?
      then records[id := Resolved(records[id], verdict, who, reason, now)]
      else records
  }

  /** What concurrent store traffic may do to the records: no id disappears, a record that has left
      Pending never changes again, in any field, a time limit is never moved, and a record without one
      does not expire. */
  ghost predicate Evolves(before: Records, after: Records) {
    forall id :: id in before ==>
      && id in after && after[id].expiresAt == before[id].expiresAt
      && (before[id].status.Pending? || after[id] == before[id])
      && (before[id].expiresAt.None? && after[id].status.Expired? ==> before[id].status.Expired?)
  }

  lemma OpsEvolve(records: Records, op: StoreOp)
    ensures Evolves(records, AfterOp(records, op))
  {}

  class Store {
    var records: Records

    constructor ()
      ensures records == map[]
    {
      records := map[];
    }

    method Create(id: Id, record: Record) returns (r: Result<Record>)
      modifies this
      ensures r == if id in old(records) then Err(AlreadyExists) else Ok(record)
      ensures records == if id in old(records) then old(records) else old(records)[id := record]
      ensures records == AfterOp(old(records), CreateOp(id, record))
    {
      if id in records {
        return Err(AlreadyExists);
      }
      records := records[id := record];
      r := Ok(record);
    }

    method Lookup(id: Id) returns (r: Result<Record>)
      ensures r == if id in records then Ok(records[id]) else Err(NotFound)
    {
      if id !in records {
        return Err(NotFound);
      }
      r := Ok(records[id]);
    }

    /** approve and reject. A call that succeeds found the record pending and inside its time limit;
        a call past the limit turns the record Expired and still raises. */
    method Decide(id: Id, verdict: Verdict, who: string, reason: Option<string>, now: Time)
      returns (r: Result<Record>)
      modifies this
      ensures r.Ok? <==> id in old(records) && old(records)[id].status.Pending? && InTime(old(records)[id], now)
      ensures r.Ok? ==>
        && records == old(records)[id := r.value]
        && r.value == old(records)[id].(status := if verdict.Approve? then Approved else Rejected,
             resolvedAt := Some(now), resolvedBy := Some(who), reason := reason, note := reason)
      ensures r.Err? && r.error.HasExpired? <==>
              id in old(records) && old(records)[id].status.Pending? && !InTime(old(records)[id], now)
      ensures r.Err? && r.error.HasExpired? ==>
        records == old(records)[id := old(records)[id].(status := Expired, resolvedAt := Some(now),
          note := if reason == None || reason == Some("") then Some("expired") else reason)]
      ensures id !in old(records) ==> r == Err(NotFound)
      ensures id in old(records) && !old(records)[id].status.Pending? ==> r == Err(NotPending(old(records)[id].status))
      ensures r.Err? && !r.error.HasExpired? ==> records == old(records)
      ensures records == AfterOp(old(records), DecideOp(id, verdict, who, reason, now))
      ensures Evolves(old(records), records)
    {
      var found := Lookup(id);
      if found.Err? {
        return found;
      }
      var req := found.value;
      if !req.status.Pending? {
        return Err(NotPending(req.status));
      }
      if IsExpired(req, now) {
        req := req.(status := Expired, resolvedAt := Some(now), note := Some(OrDefault(reason, "expired")));
        records := records[id := req];
        return Err(HasExpired);
      }
      req := req.(status := if verdict.Approve? then Approved else Rejected,
                  resolvedAt := Some(now), resolvedBy := Some(who), reason := reason, note := reason);
      records := records[id := req];
      r := Ok(req);
    }
  }
}
