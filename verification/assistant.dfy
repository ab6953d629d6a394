/**
 * The script's own state and its imperative steps: the in-memory `apiKey`
 * (faction_revive_assistant.js:21), the value stored under "apiKey" by
 * GM_setValue, `verifyApiKey` (:24-42), `queryUserData` (:61-75),
 * `updateFactionMembers` (:101-176) and `start` (:178-183).
 */
module Assistant {
  import opened Wrappers
  import Xid
  import Status
  import Pacing
  import opened Scan

  /** JavaScript truthiness of the key: neither null nor the empty string. */
  predicate Truthy(key: Option<string>) {
    key.Some? && key.value != ""
  }

  /** How `verifyApiKey` ends; InvalidKey stands for the Error("Invalid API key.") it throws. */
  datatype KeyCheck = AlreadySet | Validated | NotEntered | InvalidKey

  /** How `start` ends: the key check threw, or the pass ran. */
  datatype StartResult = KeyRejected | Processed(pass: PassState)

  class Assistant {
    /** The key the lookups send; None is JavaScript null (a cancelled prompt). */
    var apiKey: Option<string>
    /** The value stored under "apiKey"; "" when it was never set. */
    var stored: string

    /**
     * Line 21. Its test compares two identical literals and is false, so the
     * key is read from storage (GM_getValue with default "").
     */
    constructor (storedValue: string)
      ensures apiKey == Some(storedValue) && stored == storedValue
    {
      apiKey := Some(storedValue);
      stored := storedValue;
    }

    /**
     * Lines 24-42. `entered` is what the prompt returns (None for Cancel) and
     * `valid` what validateApiKey reports for it.
     */
    method VerifyApiKey(entered: Option<string>, valid: bool) returns (r: KeyCheck)
      modifies this
      ensures old(Truthy(apiKey)) ==> r == AlreadySet && apiKey == old(apiKey) && stored == old(stored)
      ensures !old(Truthy(apiKey)) ==> apiKey == entered
      ensures !old(Truthy(apiKey)) && !Truthy(entered) ==> r == NotEntered && stored == old(stored)
      ensures !old(Truthy(apiKey)) && Truthy(entered) && valid ==> r == Validated && stored == entered.value
      ensures !old(Truthy(apiKey)) && Truthy(entered) && !valid ==> r == InvalidKey && stored == ""
    {
      if Truthy(apiKey) {
        return AlreadySet;
      }
      apiKey := entered;
      if Truthy(apiKey) {
        stored := apiKey.value;
        if valid {
          r := Validated;
        } else {
          stored := "";
          r := InvalidKey;
        }
      } else {
        r := NotEntered;
      }
    }

    /**
     * Lines 61-75: the `k`-th lookup of a pass, for `userId`, sent with the
     * current key. A failure (a response that is not ok, a network error or
     * a body that is not JSON) clears the stored key but not `apiKey`.
     */
    method QueryUserData(userId: string, k: nat, world: World) returns (r: LookupResult)
      modifies this`stored
      ensures r == world.respond(apiKey, k, userId)
      ensures stored == if r.Failed? then "" else old(stored)
    {
      r := world.respond(apiKey, k, userId);
      if r.Failed? {
        stored := "";
      }
    }

    /**
     * Lines 137-147: the `k`-th lookup of the pass waits until `k` lookups'
     * worth of API_DELAY have passed since `runTime`, then queries `userId`.
     * `issued` is the clock reading when the request goes out.
     */
    method PacedLookup(userId: string, k: nat, runTime: nat, now: nat, world: World) returns (issued: nat, userData: LookupResult)
      requires runTime <= now
      modifies this`stored
      ensures issued == now + Pacing.Delay(k, runTime, now)
      ensures userData == world.respond(apiKey, k, userId)
      ensures stored == if userData.Failed? then "" else old(stored)
    {
      issued := now;
      var currentElapsedTime := Pacing.ApiDelay * k;
      var actualElapsedTime := now - runTime;
      if actualElapsedTime < currentElapsedTime {
        var delayTime := currentElapsedTime - actualElapsedTime;
        issued := issued + delayTime;
      }
      userData := QueryUserData(userId, k, world);
    }

    /**
     * Lines 128-135: the profile link and the status cell of row `i`, and the
     * user id matched in the link when the row qualifies for a lookup.
     */
    static method ReadRow(rows: seq<Row>, i: nat) returns (target: Option<string>)
      requires i < |rows|
      ensures target == Targets(rows)[i]
    {
      var row := rows[i];
      var status := Status.Trim(row.status);
      target := None;
      if row.link.Some? && status == "Hospital" {
        var xid := Xid.FindXid(row.link.value);
        if xid.Some? {
          target := xid;
        }
      }
      TargetsAt(rows, i);
    }

    /**
     * Lines 136-174, the rest of the loop's body for row `i`, whose lookup
     * target `target` is: the time spent reaching the row, and for a candidate
     * the paced lookup, the "(Revive)" marker and the counters. `s` holds the loop's variables
     * before the row and `r` after it.
     */
    method ScanRow(s: PassState, ghost targets: seq<Option<string>>, i: nat, target: Option<string>, runTime: nat, world: World)
      returns (r: PassState)
      requires i < |targets| && targets[i] == target && runTime <= s.now
      requires AnyFailed(s.lookups) ==> stored == ""
      modifies this`stored
      ensures r == Step(s, targets, i, apiKey, runTime, world)
      ensures AnyFailed(s.lookups) ==> AnyFailed(r.lookups)
      ensures stored == if AnyFailed(r.lookups) then "" else old(stored)
    {
      var now := s.now + world.busy(i);
      var reached := now;
      r := s;
      if target.Some? {
        var userId := target.value;
        var issued, userData := PacedLookup(userId, r.apiRequestCount, runTime, now, world);
        AnyFailedAppend(r.lookups, Lookup(i, userId, reached, issued, userData));
        r := r.(lookups := r.lookups + [Lookup(i, userId, reached, issued, userData)]);
        if Revives(userData) {
          r := r.(markers := r.markers + [i], revivable := r.revivable + 1);
        }
        now := issued + world.latency(r.apiRequestCount);
        r := r.(apiRequestCount := r.apiRequestCount + 1);
        StepLookup(s, targets, i, apiKey, runTime, world);
      } else {
        StepSkip(s, targets, i, apiKey, runTime, world);
      }
      r := r.(processed := r.processed + 1, now := now);
    }

    /**
     * Lines 101-176, over the rows of the members table, with the clock
     * reading `runTime` taken at :125. The pass is exactly Scan.Run over the
     * rows' lookup targets; the stored key is cleared when some lookup failed.
     */
    method UpdateFactionMembers(rows: seq<Row>, runTime: nat, world: World) returns (pass: PassState)
      modifies this`stored
      ensures pass == Run(Targets(rows), |rows|, apiKey, runTime, world)
      ensures stored == if AnyFailed(pass.lookups) then "" else old(stored)
    {
      // processed, apiRequestCount and revivable start at 0 (:109-111)
      pass := Begin(runTime);
      for i := 0 to |rows|
        invariant pass == Run(Targets(rows), i, apiKey, runTime, world)
        invariant stored == if AnyFailed(pass.lookups) then "" else old(stored)
      {
        // the profile link, the "Hospital" status and the XID match (:128-135)
        var target := ReadRow(rows, i);
        pass := ScanRow(pass, Targets(rows), i, target, runTime, world);
      }
    }

    /**
     * Lines 178-183: check the key, then run one pass. An invalid key throws
     * before the pass; a missing key only shows an alert and the pass still runs.
     * Once the pass has run, the stored key is the one entered at the prompt
     * (when one was asked for and given) or the earlier one, and it is erased
     * when some lookup failed.
     */
    method Start(entered: Option<string>, valid: bool, rows: seq<Row>, runTime: nat, world: World) returns (r: StartResult)
      modifies this
      ensures r.KeyRejected? <==> !old(Truthy(apiKey)) && Truthy(entered) && !valid
      ensures r.KeyRejected? ==> stored == "" && apiKey == entered
      ensures r.Processed? ==> r.pass == Run(Targets(rows), |rows|, apiKey, runTime, world)
      ensures r.Processed? ==> apiKey == if old(Truthy(apiKey)) then old(apiKey) else entered
      ensures r.Processed? ==> stored == if AnyFailed(r.pass.lookups) then ""
                                         else if !old(Truthy(apiKey)) && Truthy(entered) then entered.value
                                         else old(stored)
    {
      var check := VerifyApiKey(entered, valid);
      if check == InvalidKey {
        return KeyRejected;
      }
      var pass := UpdateFactionMembers(rows, runTime, world);
      r := Processed(pass);
    }
  }
}
