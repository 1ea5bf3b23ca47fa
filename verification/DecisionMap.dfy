/** `_build_sdk_decision_map`: from approval records to one decision per SDK call id. */
module DecisionMap {
  import opened PyValues

  datatype ApprovalItem = ApprovalItem(approvalId: Field, status: Field)
  datatype Interruption = Interruption(approvalId: Field, sdkCallId: Field)

  /** An entry of `approval_id_map`, in insertion order. */
  datatype IdEntry = IdEntry(approvalId: string, callId: string)

  function IdText(f: Field): string {
    StrOf(f, "")
  }

  function StatusText(a: ApprovalItem): string {
    StrOf(a.status, "pending")
  }

  // ---- The reference: one lookup per key ----

  /** The status recorded last under an approval id. */
  function LastStatus(approvals: seq<ApprovalItem>, id: string): Option<string> {
    if approvals == [] then None
    else
      var a := approvals[|approvals| - 1];
      if IdText(a.approvalId) == id then Some(StatusText(a))
      else LastStatus(approvals[..|approvals| - 1], id)
  }

  /** The status recorded first under an approval id. */
  function FirstStatus(approvals: seq<ApprovalItem>, id: string): Option<string> {
    if approvals == [] then None
    else
      var earlier := FirstStatus(approvals[..|approvals| - 1], id);
      var a := approvals[|approvals| - 1];
      if earlier.Some? then earlier
      else if IdText(a.approvalId) == id then Some(StatusText(a)) else None
  }

  /** The last id-map entry for a call id whose approval is listed. */
  function ViaIdMap(approvals: seq<ApprovalItem>, idMap: seq<IdEntry>, key: string): Option<string> {
    if idMap == [] then None
    else
      var e := idMap[|idMap| - 1];
      if e.callId == key && LastStatus(approvals, e.approvalId).Some? then LastStatus(approvals, e.approvalId)
      else ViaIdMap(approvals, idMap[..|idMap| - 1], key)
  }

  /** The last interruption with a call id whose approval is listed; an empty call id never counts. */
  function ViaInterruptions(approvals: seq<ApprovalItem>, interruptions: seq<Interruption>, key: string)
    : Option<string>
  {
    if interruptions == [] then None
    else
      var x := interruptions[|interruptions| - 1];
      var status := LastStatus(approvals, IdText(x.approvalId));
      if key != "" && IdText(x.sdkCallId) == key && status.Some? then status
      else ViaInterruptions(approvals, interruptions[..|interruptions| - 1], key)
  }

  /** The decision for a key: the id map speaks first, then the interruptions, then the key itself
      taken as an approval id. */
  function Decide(approvals: seq<ApprovalItem>, interruptions: seq<Interruption>, idMap: seq<IdEntry>, key: string)
    : Option<string>
  {
    var viaMap := ViaIdMap(approvals, idMap, key);
    var viaInterruptions := ViaInterruptions(approvals, interruptions, key);
    if viaMap.Some? then viaMap
    else if viaInterruptions.Some? then viaInterruptions
    else ViaOwnId(approvals, key)
  }

  /** The key's own status when it is itself an approval id. */
  function ViaOwnId(approvals: seq<ApprovalItem>, key: string): Option<string> {
    if key != "" then FirstStatus(approvals, key) else None
  }

  lemma ViaIdMapSnoc(approvals: seq<ApprovalItem>, idMap: seq<IdEntry>, e: IdEntry, key: string)
    ensures ViaIdMap(approvals, idMap + [e], key) ==
            if e.callId == key && LastStatus(approvals, e.approvalId).Some? then LastStatus(approvals, e.approvalId)
            else ViaIdMap(approvals, idMap, key)
  {
    assert (idMap + [e])[..|idMap|] == idMap;
  }

  // ---- The loops ----

  method StatusById(approvals: seq<ApprovalItem>) returns (byId: map<string, string>)
    ensures forall id :: Get(byId, id) == LastStatus(approvals, id)
  {
    byId := map[];
    for n := 0 to |approvals|
      invariant forall id :: Get(byId, id) == LastStatus(approvals[..n], id)
    {
      assert approvals[..n + 1][..n] == approvals[..n];
      byId := byId[IdText(approvals[n].approvalId) := StatusText(approvals[n])];
    }
    assert approvals[..|approvals|] == approvals;
  }

  method FoldInterruptions(approvals: seq<ApprovalItem>, byId: map<string, string>, interruptions: seq<Interruption>)
    returns (decisions: map<string, string>)
    requires forall id :: Get(byId, id) == LastStatus(approvals, id)
    ensures forall key :: Get(decisions, key) == ViaInterruptions(approvals, interruptions, key)
  {
    decisions := map[];
    for n := 0 to |interruptions|
      invariant forall key :: Get(decisions, key) == ViaInterruptions(approvals, interruptions[..n], key)
    {
      assert interruptions[..n + 1][..n] == interruptions[..n];
      var approvalId := IdText(interruptions[n].approvalId);
      var callId := IdText(interruptions[n].sdkCallId);
      assert Get(byId, approvalId) == LastStatus(approvals, approvalId);
      if callId != "" && approvalId in byId {
        decisions := decisions[callId := byId[approvalId]];
      }
    }
    assert interruptions[..|interruptions|] == interruptions;
  }

  function OrElse<T>(a: Option<T>, b: Option<T>): Option<T> {
    if a.Some? then a else b
  }

  method FoldIdMap(approvals: seq<ApprovalItem>, byId: map<string, string>, idMap: seq<IdEntry>,
                   start: map<string, string>)
    returns (decisions: map<string, string>)
    requires forall id :: Get(byId, id) == LastStatus(approvals, id)
    ensures forall key :: Get(decisions, key) == OrElse(ViaIdMap(approvals, idMap, key), Get(start, key))
  {
    decisions := start;
    for n := 0 to |idMap|
      invariant forall key :: Get(decisions, key) == OrElse(ViaIdMap(approvals, idMap[..n], key), Get(start, key))
    {
      assert idMap[..n + 1][..n] == idMap[..n];
      var e := idMap[n];
      assert Get(byId, e.approvalId) == LastStatus(approvals, e.approvalId);
      if e.approvalId in byId {
        decisions := decisions[e.callId := byId[e.approvalId]];
      }
    }
    assert idMap[..|idMap|] == idMap;
  }

  method FoldApprovalIds(approvals: seq<ApprovalItem>, start: map<string, string>)
    returns (decisions: map<string, string>)
    ensures forall key :: Get(decisions, key) == OrElse(Get(start, key), ViaOwnId(approvals, key))
  {
    decisions := start;
    for n := 0 to |approvals|
      invariant forall key :: Get(decisions, key) == OrElse(Get(start, key), ViaOwnId(approvals[..n], key))
    {
      assert approvals[..n + 1][..n] == approvals[..n];
      var id := IdText(approvals[n].approvalId);
      if id != "" && id !in decisions {
        assert Get(decisions, id) == None;
        decisions := decisions[id := StatusText(approvals[n])];
      }
    }
    assert approvals[..|approvals|] == approvals;
  }

  /** The finished map holds, for every key and for no other, what the reference lookup says. An
      absent id map is the empty one. */
  method BuildSdkDecisionMap(approvals: seq<ApprovalItem>, interruptions: seq<Interruption>, idMap: seq<IdEntry>)
    returns (decisions: map<string, string>)
    ensures forall key :: Get(decisions, key) == Decide(approvals, interruptions, idMap, key)
  {
    var byId := StatusById(approvals);
    var viaInterruptions := FoldInterruptions(approvals, byId, interruptions);
    var viaMap := FoldIdMap(approvals, byId, idMap, viaInterruptions);
    decisions := FoldApprovalIds(approvals, viaMap);
    forall key ensures Get(decisions, key) == Decide(approvals, interruptions, idMap, key) {
      assert Get(viaInterruptions, key) == ViaInterruptions(approvals, interruptions, key);
      assert Get(viaMap, key) == OrElse(ViaIdMap(approvals, idMap, key), Get(viaInterruptions, key));
    }
  }

  ghost predicate Applicable(approvals: seq<ApprovalItem>, idMap: seq<IdEntry>, key: string, n: int) {
    0 <= n < |idMap| && idMap[n].callId == key && LastStatus(approvals, idMap[n].approvalId).Some?
  }

  ghost predicate LastApplicable(approvals: seq<ApprovalItem>, idMap: seq<IdEntry>, key: string, n: int) {
    Applicable(approvals, idMap, key, n) && forall m :: m > n ==> !Applicable(approvals, idMap, key, m)
  }

  /** The id map answers a key with the status of its last applicable entry n, and with nothing when
      no entry applies. */
  lemma {:induction false} ViaIdMapFinds(approvals: seq<ApprovalItem>, idMap: seq<IdEntry>, key: string)
    returns (n: int)
    ensures ViaIdMap(approvals, idMap, key).Some? ==>
              LastApplicable(approvals, idMap, key, n)
              && ViaIdMap(approvals, idMap, key) == LastStatus(approvals, idMap[n].approvalId)
    ensures ViaIdMap(approvals, idMap, key).None? ==> forall m :: !Applicable(approvals, idMap, key, m)
  {
    n := |idMap| - 1;
    if idMap != [] && !Applicable(approvals, idMap, key, n) {
      var front := idMap[..n];
      forall m | Applicable(approvals, idMap, key, m) ensures Applicable(approvals, front, key, m) {}
      n := ViaIdMapFinds(approvals, front, key);
    }
  }

  /** What a record counts for: a missing id is the empty one, a missing status is pending, a None is the word
      None. */
  ghost predicate Counts(a: ApprovalItem, id: string, status: string) {
    && (a.approvalId == Text(id) || (a.approvalId == PyNone && id == "None") || (a.approvalId == Absent && id == ""))
    && (a.status == Text(status) || (a.status == PyNone && status == "None")
        || (a.status == Absent && status == "pending"))
  }

  /** A record counts for exactly one id, with one status. */
  ghost predicate CountsFor(approvals: seq<ApprovalItem>, n: int, id: string) {
    0 <= n < |approvals| && Counts(approvals[n], id, StatusText(approvals[n]))
  }

  /** The status of an id is the one of the last record that counts for it. */
  lemma {:induction false} LastStatusFinds(approvals: seq<ApprovalItem>, id: string) returns (n: int)
    ensures var r := LastStatus(approvals, id);
            if r.Some? then
              && 0 <= n < |approvals| && Counts(approvals[n], id, r.value)
              && forall m :: m > n ==> !CountsFor(approvals, m, id)
            else forall m :: !CountsFor(approvals, m, id)
  {
    n := |approvals| - 1;
    if approvals != [] && IdText(approvals[n].approvalId) != id {
      var front := approvals[..n];
      forall m | CountsFor(approvals, m, id) ensures CountsFor(front, m, id) {}
      n := LastStatusFinds(front, id);
    }
  }

  /** A key that is itself an approval id is decided by the first record that counts for it. */
  lemma {:induction false} FirstStatusFinds(approvals: seq<ApprovalItem>, id: string) returns (n: int)
    ensures var r := FirstStatus(approvals, id);
            if r.Some? then
              && 0 <= n < |approvals| && Counts(approvals[n], id, r.value)
              && forall m :: m < n ==> !CountsFor(approvals, m, id)
            else forall m :: !CountsFor(approvals, m, id)
  {
    n := |approvals| - 1;
    if approvals != [] {
      var front := approvals[..n];
      var k := FirstStatusFinds(front, id);
      if FirstStatus(front, id).Some? {
        n := k;
        forall m | m < n ensures !CountsFor(approvals, m, id) {
          assert CountsFor(approvals, m, id) ==> CountsFor(front, m, id);
        }
      } else {
        forall m | m < n ensures !CountsFor(approvals, m, id) {
          assert CountsFor(approvals, m, id) ==> CountsFor(front, m, id);
        }
        assert IdText(approvals[n].approvalId) != id ==> forall m :: !CountsFor(approvals, m, id);
      }
    }
  }

  ghost predicate ShownApplicable(approvals: seq<ApprovalItem>, interruptions: seq<Interruption>, key: string, n: int) {
    && 0 <= n < |interruptions| && key != "" && IdText(interruptions[n].sdkCallId) == key
    && LastStatus(approvals, IdText(interruptions[n].approvalId)).Some?
  }

  /** The interruptions answer a key with the status of the last applicable one, and with nothing when
      none applies. */
  lemma {:induction false} ViaInterruptionsFinds(approvals: seq<ApprovalItem>, interruptions: seq<Interruption>,
                                                 key: string)
    returns (n: int)
    ensures var r := ViaInterruptions(approvals, interruptions, key);
            if r.Some? then
              && ShownApplicable(approvals, interruptions, key, n)
              && (forall m :: m > n ==> !ShownApplicable(approvals, interruptions, key, m))
              && r == LastStatus(approvals, IdText(interruptions[n].approvalId))
            else forall m :: !ShownApplicable(approvals, interruptions, key, m)
  {
    n := |interruptions| - 1;
    if interruptions != [] && !ShownApplicable(approvals, interruptions, key, n) {
      var front := interruptions[..n];
      forall m | ShownApplicable(approvals, interruptions, key, m) ensures ShownApplicable(approvals, front, key, m) {}
      n := ViaInterruptionsFinds(approvals, front, key);
    }
  }

  lemma {:induction false} EmptyNeverViaInterruptions(approvals: seq<ApprovalItem>, interruptions: seq<Interruption>)
    ensures ViaInterruptions(approvals, interruptions, "").None?
  {
    if interruptions != [] {
      EmptyNeverViaInterruptions(approvals, interruptions[..|interruptions| - 1]);
    }
  }

  /** An interruption whose call id is None answers for the call id spelled "None". */
  lemma NoneCallIdIsAWord(approvals: seq<ApprovalItem>, id: string)
    ensures ViaInterruptions(approvals, [Interruption(Text(id), PyNone)], "None") == LastStatus(approvals, id)
  {
    var x := Interruption(Text(id), PyNone);
    assert [x][..0] == [];
    assert ViaInterruptions(approvals, [], "None") == None;
  }

  /** A call with an empty id is decided exactly when the id map has an applicable entry with an
      empty call id; no interruption and no approval id can decide it. */
  lemma EmptyCallIdDecidedIff(approvals: seq<ApprovalItem>, interruptions: seq<Interruption>, idMap: seq<IdEntry>)
    ensures Decide(approvals, interruptions, idMap, "").Some? <==> exists n :: Applicable(approvals, idMap, "", n)
  {
    var n := ViaIdMapFinds(approvals, idMap, "");
    EmptyNeverViaInterruptions(approvals, interruptions);
  }
}
