/**
 * One pass of `updateFactionMembers` (faction_revive_assistant.js:101-176),
 * stated as a function of its inputs: the member rows in page order, the API
 * key the lookups carry, the clock reading `runTime` taken when the pass
 * starts (:125), and the outside world (the remote lookup and how long things
 * take). The imperative loop in module Assistant is proved to compute exactly
 * this; the lemmas below state what a pass promises.
 */
module Scan {
  import opened Wrappers
  import Xid
  import Status
  import Pacing

  /**
   * A member row as the loop sees it: the `href` of the row's profile link
   * (`a[href*="/profiles.php?XID="]`, None when the row has none) and the raw
   * text of its status cell.
   */
  datatype Row = Row(link: Option<string>, status: string)

  /** What `queryUserData` resolves to: `false` on failure, or the user's data. */
  datatype LookupResult = Failed | Data(revivable: bool)

  /**
   * The outside world of a pass. `respond(key, k, id)` is the answer to the
   * k-th lookup (0-based), for user `id`, sent with `key`; `busy(i)` is the
   * time spent on row `i` before its clock reading at :139; `latency(k)` is
   * how long the k-th lookup takes.
   */
  datatype World = World(
    respond: (Option<string>, nat, string) -> LookupResult,
    busy: nat -> nat,
    latency: nat -> nat)

  /** One remote call: the row it was for, the id sent, when the row reached the pacing check, when the call went out, and its answer. */
  datatype Lookup = Lookup(row: nat, userId: string, reachedAt: nat, issuedAt: nat, result: LookupResult)

  /**
   * The loop's three counters, the rows that got a "(Revive)" marker (in the
   * order they got it), the remote calls made, and the clock.
   */
  datatype PassState = PassState(
    processed: nat,
    apiRequestCount: nat,
    revivable: nat,
    markers: seq<nat>,
    lookups: seq<Lookup>,
    now: nat)

  /** `userData && userData.revivable` (:148). */
  predicate Revives(r: LookupResult) {
    r.Data? && r.revivable
  }

  /**
   * The user id to look up for a row, or None when the row is skipped: it needs
   * a profile link, the trimmed status "Hospital" and an XID in the link
   * (:128-134).
   */
  function Candidate(row: Row): Option<string> {
    if row.link.Some? && Status.Trim(row.status) == "Hospital" then Xid.FindXid(row.link.value) else None
  }

  /** The lookup target of every row, in page order: the pass sees the rows only through these. */
  function Targets(rows: seq<Row>): (t: seq<Option<string>>)
    ensures |t| == |rows|
  {
    if rows == [] then [] else [Candidate(rows[0])] + Targets(rows[1..])
  }

  /** Row `i`'s entry among the targets is that row's candidate. */
  lemma {:induction false} TargetsAt(rows: seq<Row>, i: nat)
    requires i < |rows|
    ensures Targets(rows)[i] == Candidate(rows[i])
  {
    if i > 0 {
      TargetsAt(rows[1..], i - 1);
    }
  }

  /** The state when the loop starts (:109-111, :125). */
  function Begin(runTime: nat): PassState {
    PassState(0, 0, 0, [], [], runTime)
  }

  /** One iteration of the loop, for row `i` (:127-175). */
  function Step(s: PassState, targets: seq<Option<string>>, i: nat, key: Option<string>, runTime: nat, world: World): (r: PassState)
    requires i < |targets| && runTime <= s.now
    ensures s.now <= r.now
  {
    var reached := s.now + world.busy(i);
    var s' :=
      match targets[i]
      case None => s.(now := reached)
      case Some(id) =>
        var k := s.apiRequestCount;
        var issued := reached + Pacing.Delay(k, runTime, reached);
        var result := world.respond(key, k, id);
        s.(apiRequestCount := k + 1,
           revivable := if Revives(result) then s.revivable + 1 else s.revivable,
           markers := if Revives(result) then s.markers + [i] else s.markers,
           lookups := s.lookups + [Lookup(i, id, reached, issued, result)],
           now := issued + world.latency(k));
    s'.(processed := s'.processed + 1)
  }

  /** The state after the first `n` rows. */
  function Run(targets: seq<Option<string>>, n: nat, key: Option<string>, runTime: nat, world: World): (r: PassState)
    requires n <= |targets|
    ensures runTime <= r.now
  {
    if n == 0 then Begin(runTime) else Step(Run(targets, n - 1, key, runTime, world), targets, n - 1, key, runTime, world)
  }

  /** What one iteration changes, spelled out field by field for the proofs below. */
  lemma StepEffect(s: PassState, targets: seq<Option<string>>, i: nat, key: Option<string>, runTime: nat, world: World)
    requires i < |targets| && runTime <= s.now
    ensures var r := Step(s, targets, i, key, runTime, world);
      var reached := s.now + world.busy(i);
      && r.processed == s.processed + 1
      && (targets[i].None? ==>
            && r.apiRequestCount == s.apiRequestCount && r.revivable == s.revivable
            && r.markers == s.markers && r.lookups == s.lookups && r.now == reached)
      && (targets[i].Some? ==>
            var k := s.apiRequestCount;
            var issued := reached + Pacing.Delay(k, runTime, reached);
            var result := world.respond(key, k, targets[i].value);
            && r.apiRequestCount == k + 1
            && r.lookups == s.lookups + [Lookup(i, targets[i].value, reached, issued, result)]
            && r.now == issued + world.latency(k)
            && r.revivable == (if Revives(result) then s.revivable + 1 else s.revivable)
            && r.markers == (if Revives(result) then s.markers + [i] else s.markers))
  {
  }

  /** A row that is not a candidate is only counted, after the time spent on it. */
  lemma StepSkip(s: PassState, targets: seq<Option<string>>, i: nat, key: Option<string>, runTime: nat, world: World)
    requires i < |targets| && runTime <= s.now && targets[i].None?
    ensures Step(s, targets, i, key, runTime, world) == s.(processed := s.processed + 1, now := s.now + world.busy(i))
  {
  }

  /** A candidate row waits for its budget, is looked up, maybe marked, and counted. */
  lemma StepLookup(s: PassState, targets: seq<Option<string>>, i: nat, key: Option<string>, runTime: nat, world: World)
    requires i < |targets| && runTime <= s.now && targets[i].Some?
    ensures var reached := s.now + world.busy(i);
      var k := s.apiRequestCount;
      var issued := reached + Pacing.Delay(k, runTime, reached);
      var result := world.respond(key, k, targets[i].value);
      Step(s, targets, i, key, runTime, world) == PassState(
        s.processed + 1, k + 1,
        if Revives(result) then s.revivable + 1 else s.revivable,
        if Revives(result) then s.markers + [i] else s.markers,
        s.lookups + [Lookup(i, targets[i].value, reached, issued, result)],
        issued + world.latency(k))
  {
  }

  /** The number of lookup candidates among the first `n` rows. */
  function CandidateCount(targets: seq<Option<string>>, n: nat): (c: nat)
    requires n <= |targets|
    ensures c <= n
  {
    if n == 0 then 0
    else CandidateCount(targets, n - 1) + if targets[n - 1].Some? then 1 else 0
  }

  /** Row `i` is a candidate and its lookup (the CandidateCount(targets, i)-th) says revivable. */
  predicate Revivable(targets: seq<Option<string>>, i: nat, key: Option<string>, world: World)
    requires i < |targets|
  {
    match targets[i]
    case None => false
    case Some(id) => Revives(world.respond(key, CandidateCount(targets, i), id))
  }

  /** Some lookup of the pass failed. */
  predicate AnyFailed(lookups: seq<Lookup>) {
    exists k :: 0 <= k < |lookups| && lookups[k].result.Failed?
  }

  /** A pass has a failed lookup once its latest call or an earlier one failed. */
  lemma AnyFailedAppend(lookups: seq<Lookup>, call: Lookup)
    ensures AnyFailed(lookups + [call]) <==> AnyFailed(lookups) || call.result.Failed?
  {
    assert (lookups + [call])[|lookups|] == call;
    assert forall k :: 0 <= k < |lookups| ==> (lookups + [call])[k] == lookups[k];
  }

  /** `processed` counts every row once, candidate or not, whatever the lookups answer (:109, :173). */
  lemma {:induction false} ProcessedCountsEveryRow(targets: seq<Option<string>>, n: nat, key: Option<string>, runTime: nat, world: World)
    requires n <= |targets|
    ensures Run(targets, n, key, runTime, world).processed == n
  {
    if n > 0 {
      ProcessedCountsEveryRow(targets, n - 1, key, runTime, world);
    }
  }

  /** `apiRequestCount` counts the candidate rows, whatever the lookups answer (:110, :130-134, :167-168). */
  lemma {:induction false} LookupCount(targets: seq<Option<string>>, n: nat, key: Option<string>, runTime: nat, world: World)
    requires n <= |targets|
    ensures var s := Run(targets, n, key, runTime, world);
      s.apiRequestCount == |s.lookups| == CandidateCount(targets, n)
  {
    if n > 0 {
      LookupCount(targets, n - 1, key, runTime, world);
      StepEffect(Run(targets, n - 1, key, runTime, world), targets, n - 1, key, runTime, world);
    }
  }

  /** Later rows only append: the calls and markers of the first `m` rows stay as they were. */
  lemma {:induction false} RunExtends(targets: seq<Option<string>>, m: nat, n: nat, key: Option<string>, runTime: nat, world: World)
    requires m <= n <= |targets|
    ensures var sm := Run(targets, m, key, runTime, world);
      var sn := Run(targets, n, key, runTime, world);
      && |sm.lookups| <= |sn.lookups| && sn.lookups[..|sm.lookups|] == sm.lookups
      && |sm.markers| <= |sn.markers| && sn.markers[..|sm.markers|] == sm.markers
  {
    if m < n {
      RunExtends(targets, m, n - 1, key, runTime, world);
      StepEffect(Run(targets, n - 1, key, runTime, world), targets, n - 1, key, runTime, world);
    }
  }

  /**
   * The k-th remote call is for a candidate row, sends the id extracted from
   * that row's link, is the row's place among the candidates, and gets the
   * k-th answer (:133-135, :147).
   */
  lemma {:induction false} LookupTarget(targets: seq<Option<string>>, n: nat, k: nat, key: Option<string>, runTime: nat, world: World)
    requires n <= |targets|
    requires k < |Run(targets, n, key, runTime, world).lookups|
    ensures var l := Run(targets, n, key, runTime, world).lookups[k];
      && l.row < n
      && targets[l.row] == Some(l.userId)
      && CandidateCount(targets, l.row) == k
      && l.result == world.respond(key, k, l.userId)
  {
    var s0 := Run(targets, n - 1, key, runTime, world);
    StepEffect(s0, targets, n - 1, key, runTime, world);
    LookupCount(targets, n - 1, key, runTime, world);
    if k < |s0.lookups| {
      LookupTarget(targets, n - 1, k, key, runTime, world);
    }
  }

  /** Every candidate row is looked up: it is the target of the call whose number is its place among the candidates. */
  lemma CandidateLookedUp(targets: seq<Option<string>>, n: nat, i: nat, key: Option<string>, runTime: nat, world: World)
    requires i < n <= |targets| && targets[i].Some?
    ensures var s := Run(targets, n, key, runTime, world);
      CandidateCount(targets, i) < |s.lookups| && s.lookups[CandidateCount(targets, i)].row == i
  {
    LookupCount(targets, i, key, runTime, world);
    StepEffect(Run(targets, i, key, runTime, world), targets, i, key, runTime, world);
    RunExtends(targets, i + 1, n, key, runTime, world);
    var si := Run(targets, i + 1, key, runTime, world);
    assert si.lookups[CandidateCount(targets, i)].row == i;
    assert Run(targets, n, key, runTime, world).lookups[CandidateCount(targets, i)] == si.lookups[CandidateCount(targets, i)];
  }

  /** Each call is for a later row than the one before it. */
  predicate InPageOrder(lookups: seq<Lookup>) {
    forall j, k :: 0 <= j < k < |lookups| ==> lookups[j].row < lookups[k].row
  }

  /** Lookups go out in page order, one per row at most (:127). */
  lemma {:induction false} LookupsInPageOrder(targets: seq<Option<string>>, n: nat, key: Option<string>, runTime: nat, world: World)
    requires n <= |targets|
    ensures InPageOrder(Run(targets, n, key, runTime, world).lookups)
  {
    if n > 0 {
      LookupsInPageOrder(targets, n - 1, key, runTime, world);
      var s0 := Run(targets, n - 1, key, runTime, world);
      StepEffect(s0, targets, n - 1, key, runTime, world);
      forall j | 0 <= j < |s0.lookups| ensures s0.lookups[j].row < n - 1 {
        LookupTarget(targets, n - 1, j, key, runTime, world);
      }
      var l := Run(targets, n, key, runTime, world).lookups;
      forall j, k | 0 <= j < k < |l| ensures l[j].row < l[k].row {
        assert l[j] == s0.lookups[j];
        if k < |s0.lookups| {
          assert l[k] == s0.lookups[k];
        } else {
          assert l[k].row == n - 1;
        }
      }
    }
  }

  /**
   * `revivable` counts the markers added, never exceeds `apiRequestCount`,
   * and the marked rows are in page order, each marked once (:148-165).
   */
  lemma {:induction false} MarkersCounted(targets: seq<Option<string>>, n: nat, key: Option<string>, runTime: nat, world: World)
    requires n <= |targets|
    ensures var s := Run(targets, n, key, runTime, world);
      && s.revivable == |s.markers| <= s.apiRequestCount
      && (forall a :: 0 <= a < |s.markers| ==> s.markers[a] < n)
      && (forall a, b :: 0 <= a < b < |s.markers| ==> s.markers[a] < s.markers[b])
  {
    if n > 0 {
      MarkersCounted(targets, n - 1, key, runTime, world);
      StepEffect(Run(targets, n - 1, key, runTime, world), targets, n - 1, key, runTime, world);
    }
  }

  /**
   * After the first `n` rows, the marked rows are exactly the revivable rows
   * among them, and `apiRequestCount` counts the candidate rows.
   */
  ghost predicate MarksRevivable(s: PassState, targets: seq<Option<string>>, n: nat, key: Option<string>, world: World)
    requires n <= |targets|
  {
    && s.apiRequestCount == CandidateCount(targets, n)
    && forall m: nat :: m in s.markers <==> m < n && Revivable(targets, m, key, world)
  }

  /** One iteration marks its row exactly when the row is revivable, and leaves the other marks alone. */
  lemma StepMarksRevivable(s: PassState, targets: seq<Option<string>>, i: nat, key: Option<string>, runTime: nat, world: World)
    requires i < |targets| && runTime <= s.now && MarksRevivable(s, targets, i, key, world)
    ensures MarksRevivable(Step(s, targets, i, key, runTime, world), targets, i + 1, key, world)
  {
    StepEffect(s, targets, i, key, runTime, world);
    var marked := Step(s, targets, i, key, runTime, world).markers;
    assert marked == if Revivable(targets, i, key, world) then s.markers + [i] else s.markers;
    forall m: nat ensures m in marked <==> m < i + 1 && Revivable(targets, m, key, world) {
      assert m in marked <==> m in s.markers || (m == i && Revivable(targets, i, key, world));
    }
  }

  /** The marks of a pass are exactly its revivable rows, after any number of rows. */
  lemma {:induction false} RunMarksRevivable(targets: seq<Option<string>>, n: nat, key: Option<string>, runTime: nat, world: World)
    requires n <= |targets|
    ensures MarksRevivable(Run(targets, n, key, runTime, world), targets, n, key, world)
  {
    if n > 0 {
      var s0 := Run(targets, n - 1, key, runTime, world);
      RunMarksRevivable(targets, n - 1, key, runTime, world);
      StepMarksRevivable(s0, targets, n - 1, key, runTime, world);
    }
  }

  /** Row `i` gets a "(Revive)" marker exactly when it is a candidate whose lookup says revivable (:148-161). */
  lemma MarkedIffRevivable(targets: seq<Option<string>>, n: nat, i: nat, key: Option<string>, runTime: nat, world: World)
    requires n <= |targets|
    ensures i in Run(targets, n, key, runTime, world).markers <==> i < n && Revivable(targets, i, key, world)
  {
    RunMarksRevivable(targets, n, key, runTime, world);
  }

  /**
   * The pacing rule (:138-145): the k-th lookup goes out at the later of the
   * moment its row reaches the check and `runTime + 750 * k`, and the clock
   * never runs backwards between lookups.
   */
  lemma {:induction false} PacingBudget(targets: seq<Option<string>>, n: nat, key: Option<string>, runTime: nat, world: World)
    requires n <= |targets|
    ensures var s := Run(targets, n, key, runTime, world);
      && s.apiRequestCount == |s.lookups|
      && (forall k :: 0 <= k < |s.lookups| ==>
            && runTime <= s.lookups[k].reachedAt
            && s.lookups[k].issuedAt == Pacing.Max(s.lookups[k].reachedAt, runTime + Pacing.ApiDelay * k)
            && s.lookups[k].issuedAt <= s.now)
      && (forall j, k :: 0 <= j < k < |s.lookups| ==> s.lookups[j].issuedAt <= s.lookups[k].reachedAt)
  {
    if n > 0 {
      PacingBudget(targets, n - 1, key, runTime, world);
      StepEffect(Run(targets, n - 1, key, runTime, world), targets, n - 1, key, runTime, world);
    }
  }

  /**
   * Lookups made one at a time: each goes out no earlier than its row was
   * reached, and its reply, `latency(k)` after it went out, comes before the
   * next lookup's row is reached, or for the last one before the clock reads
   * `now`.
   */
  ghost predicate OneAtATime(lookups: seq<Lookup>, now: nat, world: World)
    decreases |lookups|
  {
    || lookups == []
    || var k := |lookups| - 1;
       && lookups[k].reachedAt <= lookups[k].issuedAt
       && lookups[k].issuedAt + world.latency(k) <= now
       && OneAtATime(lookups[..k], lookups[k].reachedAt, world)
  }

  /**
   * The lookups of a pass so far were made one at a time and all have
   * returned, and `apiRequestCount` counts them.
   */
  ghost predicate Awaited(s: PassState, world: World) {
    s.apiRequestCount == |s.lookups| && OneAtATime(s.lookups, s.now, world)
  }

  /** What OneAtATime promises about every lookup and every pair of lookups. */
  lemma {:induction false} OneAtATimePairs(lookups: seq<Lookup>, now: nat, world: World)
    requires OneAtATime(lookups, now, world)
    ensures forall k :: 0 <= k < |lookups| ==> lookups[k].issuedAt + world.latency(k) <= now
    ensures forall j, k :: 0 <= j < k < |lookups| ==> lookups[j].issuedAt + world.latency(j) <= lookups[k].reachedAt
  {
    if lookups != [] {
      var k := |lookups| - 1;
      var earlier := lookups[..k];
      OneAtATimePairs(earlier, lookups[k].reachedAt, world);
      assert forall j :: 0 <= j < k ==> earlier[j] == lookups[j];
    }
  }

  /** A lookup whose row is reached once the earlier replies are in, and whose own reply is in by `now'`, keeps the lookups one at a time. */
  lemma OneAtATimeAppend(lookups: seq<Lookup>, now: nat, l: Lookup, now': nat, world: World)
    requires OneAtATime(lookups, now, world)
    requires now <= l.reachedAt <= l.issuedAt && l.issuedAt + world.latency(|lookups|) <= now'
    ensures OneAtATime(lookups + [l], now', world)
  {
    assert (lookups + [l])[..|lookups|] == lookups;
  }

  /** One iteration keeps the lookups one at a time. */
  lemma StepOneAtATime(s: PassState, targets: seq<Option<string>>, i: nat, key: Option<string>, runTime: nat, world: World)
    requires i < |targets| && runTime <= s.now && Awaited(s, world)
    ensures var r := Step(s, targets, i, key, runTime, world); Awaited(r, world)
  {
    var reached := s.now + world.busy(i);
    if targets[i].Some? {
      var k := s.apiRequestCount;
      var issued := reached + Pacing.Delay(k, runTime, reached);
      var l := Lookup(i, targets[i].value, reached, issued, world.respond(key, k, targets[i].value));
      StepLookup(s, targets, i, key, runTime, world);
      OneAtATimeAppend(s.lookups, s.now, l, issued + world.latency(k), world);
    } else {
      StepSkip(s, targets, i, key, runTime, world);
    }
  }

  /** Every pass, after any number of rows, has made its lookups one at a time. */
  lemma {:induction false} RunAwaited(targets: seq<Option<string>>, n: nat, key: Option<string>, runTime: nat, world: World)
    requires n <= |targets|
    ensures Awaited(Run(targets, n, key, runTime, world), world)
  {
    if n > 0 {
      var s0 := Run(targets, n - 1, key, runTime, world);
      RunAwaited(targets, n - 1, key, runTime, world);
      StepOneAtATime(s0, targets, n - 1, key, runTime, world);
    }
  }

  /**
   * The scan awaits each lookup before it moves on (:147-168): the k-th
   * lookup's reply, `latency(k)` after it went out, comes before any later
   * lookup's row is reached and before the pass ends.
   */
  lemma LookupsOneAtATime(targets: seq<Option<string>>, n: nat, key: Option<string>, runTime: nat, world: World)
    requires n <= |targets|
    ensures var s := Run(targets, n, key, runTime, world);
      && (forall k :: 0 <= k < |s.lookups| ==> s.lookups[k].issuedAt + world.latency(k) <= s.now)
      && (forall j, k :: 0 <= j < k < |s.lookups| ==>
            s.lookups[j].issuedAt + world.latency(j) <= s.lookups[k].reachedAt)
  {
    RunAwaited(targets, n, key, runTime, world);
    var s := Run(targets, n, key, runTime, world);
    OneAtATimePairs(s.lookups, s.now, world);
  }

  /** No lookup goes out before its budgeted time `runTime + 750 * k`. */
  lemma LookupNotBeforeBudget(targets: seq<Option<string>>, key: Option<string>, runTime: nat, world: World, k: nat)
    requires k < |Run(targets, |targets|, key, runTime, world).lookups|
    ensures Run(targets, |targets|, key, runTime, world).lookups[k].issuedAt >= runTime + Pacing.ApiDelay * k
  {
    PacingBudget(targets, |targets|, key, runTime, world);
  }

  /** The first lookup of a pass goes out as soon as its row is reached. */
  lemma FirstLookupDoesNotWait(targets: seq<Option<string>>, key: Option<string>, runTime: nat, world: World)
    requires Run(targets, |targets|, key, runTime, world).lookups != []
    ensures var l := Run(targets, |targets|, key, runTime, world).lookups[0]; l.issuedAt == l.reachedAt
  {
    PacingBudget(targets, |targets|, key, runTime, world);
  }

  /**
   * Anchoring the budget at the start of the pass bounds how many lookups can
   * go out by a given time, not the gap between two of them: after one slow
   * lookup, the next ones go out back to back. Here the first lookup takes two
   * seconds, and the second and third are issued at the same instant.
   */
  lemma NoMinimumGap()
    ensures var world := World((key, k, id) => Data(false), i => 0, k => if k == 0 then 2000 else 0);
      var l := Run([Some("1"), Some("2"), Some("3")], 3, None, 0, world).lookups;
      |l| == 3 && l[1].issuedAt == l[2].issuedAt == 2000
  {
    var world := World((key, k, id) => Data(false), i => 0, k => if k == 0 then 2000 else 0);
    var targets := [Some("1"), Some("2"), Some("3")];
    var s0 := Run(targets, 0, None, 0, world);
    StepEffect(s0, targets, 0, None, 0, world);
    var s1 := Run(targets, 1, None, 0, world);
    StepEffect(s1, targets, 1, None, 0, world);
    var s2 := Run(targets, 2, None, 0, world);
    StepEffect(s2, targets, 2, None, 0, world);
  }

  /**
   * A row is looked up exactly when it has a profile link, its trimmed status
   * is "Hospital" and the link holds "XID=" followed by a digit; the id sent
   * is then the greedy digit run of the leftmost such "XID=" (:128-135).
   */
  lemma CandidateExactly(row: Row)
    ensures Candidate(row).Some? <==>
      row.link.Some? && Status.Trim(row.status) == "Hospital" && exists p: nat :: Xid.XidAt(row.link.value, p)
    ensures Candidate(row).Some? ==>
      exists p: nat :: Xid.LeftmostXid(row.link.value, p) && Xid.MaximalDigitsAt(row.link.value, p, Candidate(row).value)
  {
    if row.link.Some? {
      Xid.FindXidSound(row.link.value);
    }
  }
}
