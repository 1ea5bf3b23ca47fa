/** One dry-run recovery scan: which statuses to look at, and which candidates to select. */
module RecoveryScan {
  import opened PyValues

  datatype Cause =
    | RunningTooLong | RunStale | NodeInterrupted | NodeFailed | LeaseExpired | LeaseMissing
    | CompensationIncomplete | SnapshotAvailable | ResumePlanAvailable | NotResumableCause

  datatype Recommendation = InspectOnly | Resume | WaitForActiveLease | ManualReview | DoNotResume

  datatype Candidate = Candidate(runId: string, recommendation: Recommendation, causes: set<Cause>)

  datatype Policy = Policy(maxCandidates: int, recoverFailed: bool, recoverStaleRunning: bool,
                           recoverCompensating: bool)

  datatype SkipReason =
    | Recommended(r: Recommendation) | FailedDisabled | StaleDisabled | CompensatingDisabled
    | ActiveLease | NotResumable | LeaseMissingOnly

  datatype Skip = Skip(runId: string, reason: SkipReason, recommendation: Recommendation)

  datatype ScanOutcome = ScanRaised | Scanned(total: nat, candidates: seq<Candidate>)

  datatype Tick = Tick(scanned: nat, selectedCount: nat, recovered: nat, skippedCount: nat, dryRun: bool,
                       selected: seq<string>, skipped: seq<Skip>, failed: bool)

  predicate IsFailed(c: Candidate) { NodeFailed in c.causes }
  predicate IsStale(c: Candidate) { RunStale in c.causes || RunningTooLong in c.causes }
  predicate IsCompensating(c: Candidate) { CompensationIncomplete in c.causes }

  /** `_should_skip_candidate`, branch by branch. */
  function ShouldSkip(c: Candidate, p: Policy): Option<SkipReason> {
    if !c.recommendation.Resume? then Some(Recommended(c.recommendation))
    else if IsFailed(c) && !p.recoverFailed then Some(FailedDisabled)
    else if IsStale(c) && !p.recoverStaleRunning then Some(StaleDisabled)
    else if IsCompensating(c) && !p.recoverCompensating then Some(CompensatingDisabled)
    else if c.recommendation.WaitForActiveLease? then Some(ActiveLease)
    else if c.recommendation.DoNotResume? then Some(NotResumable)
    else if LeaseMissing in c.causes && !(IsFailed(c) || IsStale(c) || IsCompensating(c)) then Some(LeaseMissingOnly)
    else None
  }

  /** A candidate is selected exactly when it is recommended for resume, every cause of it that has a
      recover flag has that flag on, and a missing lease is not its only trouble; two of the reasons in
      the code are never given. */
  lemma SelectedIff(c: Candidate, p: Policy)
    ensures ShouldSkip(c, p).None? <==>
            && c.recommendation.Resume?
            && (NodeFailed in c.causes ==> p.recoverFailed)
            && ({RunStale, RunningTooLong} !! c.causes || p.recoverStaleRunning)
            && (CompensationIncomplete in c.causes ==> p.recoverCompensating)
            && (LeaseMissing in c.causes ==>
                  !({NodeFailed, RunStale, RunningTooLong, CompensationIncomplete} !! c.causes))
    ensures ShouldSkip(c, p) != Some(ActiveLease) && ShouldSkip(c, p) != Some(NotResumable)
  {}

  /** Which reason is given: the first objection there is, in this order. */
  lemma ReasonGivenIff(c: Candidate, p: Policy)
    ensures var reason := ShouldSkip(c, p);
            var resume := c.recommendation == Resume;
            var failedOk := NodeFailed in c.causes ==> p.recoverFailed;
            var staleOk := RunStale in c.causes || RunningTooLong in c.causes ==> p.recoverStaleRunning;
            var compensatingOk := CompensationIncomplete in c.causes ==> p.recoverCompensating;
            && (forall x :: reason == Some(Recommended(x)) <==> !resume && x == c.recommendation)
            && (reason == Some(FailedDisabled) <==> resume && !failedOk)
            && (reason == Some(StaleDisabled) <==> resume && failedOk && !staleOk)
            && (reason == Some(CompensatingDisabled) <==> resume && failedOk && staleOk && !compensatingOk)
            && (reason == Some(LeaseMissingOnly) <==>
                  resume && LeaseMissing in c.causes && NodeFailed !in c.causes && RunStale !in c.causes
                  && RunningTooLong !in c.causes && CompensationIncomplete !in c.causes)
  {}

  /** `candidates[:n]`: a negative n counts from the end. */
  function Prefix<T>(s: seq<T>, n: int): (r: seq<T>)
    ensures r <= s
    ensures 0 <= n <= |s| ==> |r| == n
    ensures n > |s| ==> r == s
    ensures -|s| <= n < 0 ==> |r| + -n == |s|
    ensures n < -|s| ==> r == []
  {
    if n >= |s| then s else if n >= 0 then s[..n] else if |s| + n >= 0 then s[..|s| + n] else []
  }

  function Selected(cs: seq<Candidate>, p: Policy): seq<string> {
    if cs == [] then []
    else
      var c := cs[|cs| - 1];
      Selected(cs[..|cs| - 1], p) + (if ShouldSkip(c, p).None? then [c.runId] else [])
  }

  function Skipped(cs: seq<Candidate>, p: Policy): seq<Skip> {
    if cs == [] then []
    else
      var c := cs[|cs| - 1];
      var reason := ShouldSkip(c, p);
      Skipped(cs[..|cs| - 1], p) + (if reason.Some? then [Skip(c.runId, reason.value, c.recommendation)] else [])
  }

  method RunScanOnce(p: Policy, scan: ScanOutcome) returns (tick: Tick)
    ensures scan.ScanRaised? ==> tick == Tick(0, 0, 0, 0, true, [], [], true)
    ensures scan.Scanned? ==>
              var cs := Prefix(scan.candidates, p.maxCandidates);
              var selected, skipped := Selected(cs, p), Skipped(cs, p);
              tick == Tick(scan.total, |selected|, 0, |skipped|, true, selected, skipped, false)
  {
    if scan.ScanRaised? {
      return Tick(0, 0, 0, 0, true, [], [], true);
    }
    var cs := Prefix(scan.candidates, p.maxCandidates);
    var selected, skipped := [], [];
    for n := 0 to |cs|
      invariant selected == Selected(cs[..n], p) && skipped == Skipped(cs[..n], p)
    {
      assert cs[..n + 1][..n] == cs[..n];
      var reason := ShouldSkip(cs[n], p);
      if reason.Some? {
        skipped := skipped + [Skip(cs[n].runId, reason.value, cs[n].recommendation)];
      } else {
        selected := selected + [cs[n].runId];
      }
    }
    assert cs[..|cs|] == cs;
    tick := Tick(scan.total, |selected|, 0, |skipped|, true, selected, skipped, false);
  }

  /** The scan splits its candidates: candidate i goes to the selected list or to the skipped list, at
      the position given by how many before it went there, so both lists keep the scan's order, nothing
      is dropped and nothing is counted twice. */
  lemma {:induction false} ScanPartitions(cs: seq<Candidate>, p: Policy, i: nat)
    requires i < |cs|
    ensures |Selected(cs, p)| + |Skipped(cs, p)| == |cs|
    ensures |Selected(cs[..i], p)| + |Skipped(cs[..i], p)| == i
    ensures var reason, s, k := ShouldSkip(cs[i], p), |Selected(cs[..i], p)|, |Skipped(cs[..i], p)|;
            if reason.None? then s < |Selected(cs, p)| && Selected(cs, p)[s] == cs[i].runId
            else k < |Skipped(cs, p)| && Skipped(cs, p)[k] == Skip(cs[i].runId, reason.value, cs[i].recommendation)
    decreases |cs|
  {
    var front := cs[..|cs| - 1];
    if front != [] {
      ScanPartitions(front, p, if i < |front| then i else 0);
      assert i < |front| ==> front[..i] == cs[..i];
    }
    if i == |front| {
      assert cs[..i] == front;
    }
  }

  ghost predicate Subsequence(a: seq<string>, b: seq<string>) {
    a == [] || (b != [] && ((a[|a| - 1] == b[|b| - 1] && Subsequence(a[..|a| - 1], b[..|b| - 1]))
                            || Subsequence(a, b[..|b| - 1])))
  }

  /** Turning on more recover flags only adds runs to the selection, in place. */
  lemma {:induction false} MoreFlagsSelectMore(cs: seq<Candidate>, p: Policy, q: Policy)
    requires (p.recoverFailed ==> q.recoverFailed) && (p.recoverStaleRunning ==> q.recoverStaleRunning)
    requires p.recoverCompensating ==> q.recoverCompensating
    ensures Subsequence(Selected(cs, p), Selected(cs, q))
  {
    if cs != [] {
      var front, c := cs[..|cs| - 1], cs[|cs| - 1];
      MoreFlagsSelectMore(front, p, q);
      var a, b := Selected(front, p), Selected(front, q);
      assert (a + [c.runId])[..|a|] == a && (b + [c.runId])[..|b|] == b;
      assert a + [] == a && b + [] == b;
    }
  }

  // ---- Which statuses to scan ----

  datatype Flags = Flags(failed: bool, running: bool, compensating: bool, completed: bool)

  datatype FlagName = IncludeFailed | IncludeRunning | IncludeCompensating | IncludeCompleted

  const STATUS_TO_FLAGS := map[
    "failed" := [IncludeFailed],
    "running" := [IncludeRunning],
    "pending" := [IncludeRunning],
    "started" := [IncludeRunning],
    "compensating" := [IncludeCompensating],
    "compensation_started" := [IncludeCompensating],
    "completed" := [IncludeCompleted]]

  function FlagsFor(names: set<string>, includeCompleted: bool): Flags {
    Flags("failed" in names,
          "running" in names || "pending" in names || "started" in names,
          "compensating" in names || "compensation_started" in names,
          "completed" in names || includeCompleted)
  }

  function LowerSet(lower: string -> string, statuses: seq<string>): set<string> {
    set s | s in statuses :: lower(s)
  }

  /** The nested flag loops of `_build_scan_config_from_policy`. The flags depend on the set of
      lower-cased statuses alone: their order and repetition do not matter. */
  method BuildFlags(lower: string -> string, statuses: seq<string>, includeCompleted: bool) returns (flags: Flags)
    ensures flags == FlagsFor(LowerSet(lower, statuses), includeCompleted)
    ensures flags.failed <==> exists s :: s in statuses && lower(s) == "failed"
    ensures flags.running <==> exists s :: s in statuses && lower(s) in {"running", "pending", "started"}
    ensures flags.compensating <==> exists s :: s in statuses && lower(s) in {"compensating", "compensation_started"}
    ensures flags.completed <==> includeCompleted || exists s :: s in statuses && lower(s) == "completed"
  {
    flags := Flags(false, false, false, false);
    for n := 0 to |statuses|
      invariant flags == FlagsFor(LowerSet(lower, statuses[..n]), false)
    {
      var name := lower(statuses[n]);
      assert LowerSet(lower, statuses[..n + 1]) == LowerSet(lower, statuses[..n]) + {name} by {
        assert statuses[..n + 1] == statuses[..n] + [statuses[n]];
      }
      var found := if name in STATUS_TO_FLAGS then STATUS_TO_FLAGS[name] else [];
      ghost var before := flags;
      for m := 0 to |found|
        invariant flags == Raised(before, found[..m])
      {
        assert found[..m + 1][..m] == found[..m];
        match found[m] {
          case IncludeFailed => flags := flags.(failed := true);
          case IncludeRunning => flags := flags.(running := true);
          case IncludeCompensating => flags := flags.(compensating := true);
          case IncludeCompleted => flags := flags.(completed := true);
        }
      }
      assert found[..|found|] == found;
      OneStatus(before, name);
    }
    assert statuses[..|statuses|] == statuses;
    if includeCompleted {
      flags := flags.(completed := true);
    }
    forall s | s in statuses ensures lower(s) in LowerSet(lower, statuses) {}
  }

  function Raised(flags: Flags, names: seq<FlagName>): Flags {
    if names == [] then flags
    else
      var f := Raised(flags, names[..|names| - 1]);
      match names[|names| - 1]
      case IncludeFailed => f.(failed := true)
      case IncludeRunning => f.(running := true)
      case IncludeCompensating => f.(compensating := true)
      case IncludeCompleted => f.(completed := true)
  }

  lemma OneStatus(flags: Flags, name: string)
    ensures var found := if name in STATUS_TO_FLAGS then STATUS_TO_FLAGS[name] else [];
            var own := FlagsFor({name}, false);
            Raised(flags, found) == Flags(flags.failed || own.failed, flags.running || own.running,
                                          flags.compensating || own.compensating, flags.completed || own.completed)
  {
    var found := if name in STATUS_TO_FLAGS then STATUS_TO_FLAGS[name] else [];
    if found != [] {
      assert |found| == 1 && found[..0] == [];
    }
  }

  predicate Implied(f: Flags, g: Flags) {
    && (f.failed ==> g.failed) && (f.running ==> g.running)
    && (f.compensating ==> g.compensating) && (f.completed ==> g.completed)
  }

  /** More statuses, in any order and any letter case, never switch a flag off. */
  lemma FlagsGrow(lower: string -> string, a: seq<string>, b: seq<string>, includeCompleted: bool)
    requires forall s :: s in a ==> exists t :: t in b && lower(t) == lower(s)
    ensures Implied(FlagsFor(LowerSet(lower, a), includeCompleted), FlagsFor(LowerSet(lower, b), includeCompleted))
  {
    forall name | name in LowerSet(lower, a) ensures name in LowerSet(lower, b) {
      var s :| s in a && lower(s) == name;
      var t :| t in b && lower(t) == lower(s);
    }
  }
}
