/**
 * The pass exactly as faction_revive_assistant.js:138-143 is written. Line
 * 138 declares `currentElapsedTime`, but lines 142-143 read
 * `expectedElapsedTime`, which is declared nowhere in the script. Reading an
 * undeclared identifier throws a ReferenceError, so the first row that gets
 * as far as the pacing check ends the pass: `updateFactionMembers` rejects,
 * no lookup is ever made and no marker is ever added. Module Scan models the
 * evident intent, where the expected time is the value computed at :138.
 */
module AsWritten {
  import opened Wrappers
  import opened Scan

  /** How a pass as written ends: after every row, or by the ReferenceError thrown at row `row`. */
  datatype Outcome = Finished(state: PassState) | ReferenceError(row: nat, state: PassState)

  /** The first `n` rows of a pass as written: a candidate row throws at :142. */
  function RunAsWritten(targets: seq<Option<string>>, n: nat, key: Option<string>, runTime: nat, world: World): (r: Outcome)
    requires n <= |targets|
    ensures runTime <= r.state.now
  {
    if n == 0 then Finished(Begin(runTime))
    else
      match RunAsWritten(targets, n - 1, key, runTime, world)
      case ReferenceError(row, s) => ReferenceError(row, s)
      case Finished(s) =>
        if targets[n - 1].Some? then ReferenceError(n - 1, s.(now := s.now + world.busy(n - 1)))
        else Finished(Step(s, targets, n - 1, key, runTime, world))
  }

  /** Without any candidate row the defect is never reached and the pass is the intended one. */
  lemma {:induction false} AgreesWithoutCandidates(targets: seq<Option<string>>, n: nat, key: Option<string>, runTime: nat, world: World)
    requires n <= |targets| && CandidateCount(targets, n) == 0
    ensures RunAsWritten(targets, n, key, runTime, world) == Finished(Run(targets, n, key, runTime, world))
  {
    if n > 0 {
      AgreesWithoutCandidates(targets, n - 1, key, runTime, world);
    }
  }

  /** Once thrown, the error ends the pass: later rows change nothing. */
  lemma {:induction false} ErrorIsFinal(targets: seq<Option<string>>, m: nat, n: nat, key: Option<string>, runTime: nat, world: World)
    requires m <= n <= |targets| && RunAsWritten(targets, m, key, runTime, world).ReferenceError?
    ensures RunAsWritten(targets, n, key, runTime, world) == RunAsWritten(targets, m, key, runTime, world)
  {
    if m < n {
      ErrorIsFinal(targets, m, n - 1, key, runTime, world);
    }
  }

  /**
   * As written, a pass with a candidate row throws at the first one, having
   * processed only the rows before it, made no lookup and added no marker.
   */
  lemma ThrowsAtFirstCandidate(targets: seq<Option<string>>, i: nat, key: Option<string>, runTime: nat, world: World)
    requires i < |targets| && targets[i].Some? && CandidateCount(targets, i) == 0
    ensures var r := RunAsWritten(targets, |targets|, key, runTime, world);
      && r.ReferenceError? && r.row == i
      && r.state.processed == i && r.state.apiRequestCount == 0 && r.state.revivable == 0
      && r.state.lookups == [] && r.state.markers == []
  {
    AgreesWithoutCandidates(targets, i, key, runTime, world);
    ProcessedCountsEveryRow(targets, i, key, runTime, world);
    LookupCount(targets, i, key, runTime, world);
    MarkersCounted(targets, i, key, runTime, world);
    ErrorIsFinal(targets, i + 1, |targets|, key, runTime, world);
  }

  /**
   * A page whose only row is a candidate: as written the pass throws at that
   * row before any lookup; as intended it looks the member up once.
   */
  lemma OneCandidateRow(row: Row, world: World)
    requires Candidate(row).Some?
    ensures RunAsWritten(Targets([row]), 1, None, 0, world) == ReferenceError(0, Begin(world.busy(0)))
    ensures |Run(Targets([row]), 1, None, 0, world).lookups| == 1
  {
    var targets := Targets([row]);
    TargetsAt([row], 0);
    StepEffect(Begin(0), targets, 0, None, 0, world);
  }

  /** A member in hospital whose profile link carries XID 3385879 is a candidate for that id. */
  lemma HospitalMemberIsCandidate()
    ensures Candidate(Row(Some("/profiles.php?XID=3385879"), "Hospital")) == Some("3385879")
  {
    Xid.ProfileLinkId();
    Status.PlainHospital();
  }

  /**
   * The discrepancy on one concrete page: a single member in hospital. As
   * written the pass throws before any lookup; as intended it looks the member
   * up once.
   */
  lemma OneHospitalRow(world: World)
    ensures var rows := [Row(Some("/profiles.php?XID=3385879"), "Hospital")];
      && RunAsWritten(Targets(rows), 1, None, 0, world) == ReferenceError(0, Begin(world.busy(0)))
      && |Run(Targets(rows), 1, None, 0, world).lookups| == 1
  {
    HospitalMemberIsCandidate();
    OneCandidateRow(Row(Some("/profiles.php?XID=3385879"), "Hospital"), world);
  }
}
