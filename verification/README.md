# Faction Revive Assistant, modelled in Dafny

The Faction Revive Assistant is a userscript for the faction pages of Torn.
What it is meant to do: walk the members table of a faction page, and for
every member whose status cell reads "Hospital" and whose profile link
carries an `XID=<digits>` id, look the member up on the Torn API. When the
answer says the member is revivable, it appends a green "(Revive)" marker to
that member's row. Lookups are paced: the k-th lookup of a pass (counting from
0) waits until `API_DELAY * k` milliseconds (`API_DELAY` = 750) have passed
since the pass started. The API key comes from the script's storage or from a
prompt. A rejected key is erased from storage, and the stored key is erased
when a lookup fails; the key in memory stays.

As the script is written, the pacing check reads an identifier that is never
declared. The first such member therefore ends the pass with a ReferenceError
before any lookup is made (see "## Findings"). Module `Scan` and the loop in
`Assistant` model the intended pass; module `AsWritten` models the pass as
written.

The project has seven modules, one file each:

- `Wrappers` (wrappers.dfy): the `Option` type for values that may be absent.
- `Xid` (xid.dfy): the `/XID=(\d+)/` match on a profile link. It finds the
  leftmost `XID=` followed by a digit and takes the greedy run of digits.
- `Status` (status.dfy): `trim()` on the status cell. The white space it removes
  is the ECMA-262 set of WhiteSpace and LineTerminator characters.
- `Pacing` (pacing.dfy): the delay arithmetic, with `API_DELAY` = 750.
- `Scan` (scan.dfy): the scan written as functions. A row's lookup target is
  `Candidate`. One loop iteration is `Step` and the first `n` rows are `Run`.
  The lemmas about `Run` state what a pass does: the counters, the lookups, the
  markers and the pacing.
- `Assistant` (assistant.dfy): the script's state and imperative steps. A class
  holds the in-memory key `apiKey` and the stored key `stored`. Its methods are
  `VerifyApiKey`, `QueryUserData`, the loop `UpdateFactionMembers` and `Start`.
  `VerifyApiKey` and `QueryUserData` carry full contracts of their own.
  `ReadRow`, `ScanRow`, `UpdateFactionMembers` and `Start` are proved equal to
  the `Scan` specification.
- `AsWritten` (as_written.dfy): the pass exactly as written, which throws a
  ReferenceError at the first candidate row (see Findings).

The environment is a parameter `World`:

- `respond(key, k, id)` is what the API answers to the k-th lookup of a pass.
- `busy(i)` is the time the page spends reaching row `i`.
- `latency(k)` is how long the k-th lookup takes.

The clock is a natural number of milliseconds. The pass reads it as `runTime`
when it starts.

## Model

| member | source | states |
|---|---|---|
| Xid.DigitsEnd | faction_revive_assistant.js:133 | the end of the digit run starting at `j`: every character before it is a digit and the one at it is not (or the text ends) |
| Xid.XidFrom | faction_revive_assistant.js:133 | the first position at or after `from` holding `XID=` and a digit, and there is no such position before it; None when there is none at all |
| Xid.FindXid | faction_revive_assistant.js:133-135 | a matched id is a non-empty string of decimal digits |
| Xid.FindXidSound | faction_revive_assistant.js:133-135 | a match is the maximal digit run after the leftmost `XID=` that is followed by a digit; there is no match exactly when no `XID=` is followed by a digit |
| Xid.MaximalRunUnique | faction_revive_assistant.js:133 | the greedy `\d+` after a given `XID=` is unique: any maximal digit run there equals the one the match takes |
| Xid.FindXidComplete | faction_revive_assistant.js:133-135 | the converse of FindXidSound: the maximal run after the leftmost `XID=`-and-digit is what the match returns |
| Xid.SkipsEmptyXid | faction_revive_assistant.js:133 | an `XID=` with no digit after it is passed over: `XID=&XID=42&XID=7` gives `42` |
| Xid.ProfileLinkId | faction_revive_assistant.js:133-135 | `/profiles.php?XID=3385879` gives `3385879` |
| Status.SkipLeading | faction_revive_assistant.js:129 | the first index at or after `i` that is not white space, with only white space before it |
| Status.SkipTrailing | faction_revive_assistant.js:129 | the end of `s[a..j]` once trailing white space is removed, with only white space after it |
| Status.Trim | faction_revive_assistant.js:129 | `trim()` of the status cell: the text between the leading and the trailing white space; what it keeps and drops is stated by TrimIsCore and TrimUnique |
| Status.TrimIsCore | faction_revive_assistant.js:129 | the trimmed status is a slice of the cell that neither starts nor ends with white space, and only white space lies around it |
| Status.TrimUnique | faction_revive_assistant.js:129 | the converse: any such split of the cell yields its core as the trimmed value |
| Status.TrimIdempotent | faction_revive_assistant.js:129 | trimming twice equals trimming once |
| Status.PaddedHospital | faction_revive_assistant.js:129-130 | a cell `"\n  Hospital "` passes the `=== "Hospital"` test after trimming |
| Status.PlainHospital | faction_revive_assistant.js:129-130 | a cell `"Hospital"` passes the test unchanged |
| Pacing.Delay | faction_revive_assistant.js:138-145 | the k-th lookup goes out at the later of now and `runTime + 750 * k`; the scan waits exactly when less than `750 * k` ms have elapsed; the first lookup never waits |
| Scan.Revives | faction_revive_assistant.js:148 | `userData && userData.revivable`: a lookup that did not fail and answers revivable; its use is stated by MarkedIffRevivable |
| Scan.Candidate | faction_revive_assistant.js:128-134 | the eligibility filter: a profile link, the trimmed status "Hospital" and an XID match, giving the id to look up; characterised by CandidateExactly |
| Scan.Begin | faction_revive_assistant.js:109-125 | the pass starts with `processed`, `apiRequestCount` and `revivable` at 0, no lookups, no markers, and the clock at `runTime` |
| Scan.Targets | faction_revive_assistant.js:127-135 | one lookup target per table row; which target each row gets is stated by TargetsAt |
| Scan.TargetsAt | faction_revive_assistant.js:127-135 | the target of row `i` is that row's candidate |
| Scan.Step | faction_revive_assistant.js:127-175 | one loop iteration never moves the clock back |
| Scan.Run | faction_revive_assistant.js:101-176 | the clock never reads earlier than the `runTime` taken when the pass started |
| Scan.CandidateCount | faction_revive_assistant.js:130-134 | the number of candidate rows among the first `n`, at most `n`; LookupCount ties it to `apiRequestCount` |
| Scan.AnyFailedAppend | faction_revive_assistant.js:68-74 | a pass has had a failed lookup once its latest lookup or an earlier one failed |
| Scan.ProcessedCountsEveryRow | faction_revive_assistant.js:127-173 | after `n` rows `processed` is `n`, whatever the rows and the answers |
| Scan.LookupCount | faction_revive_assistant.js:130-168 | `apiRequestCount` equals the number of lookups made and the number of candidate rows |
| Scan.RunExtends | faction_revive_assistant.js:127-175 | later rows only append: earlier lookups and markers stay as they were |
| Scan.LookupTarget | faction_revive_assistant.js:133-147 | the k-th lookup is for a candidate row, sends the id matched in that row's link, is the row's place among the candidates, and gets the k-th answer |
| Scan.CandidateLookedUp | faction_revive_assistant.js:130-147 | every candidate row is looked up, by the lookup numbered by its place among the candidates |
| Scan.LookupsInPageOrder | faction_revive_assistant.js:127-147 | lookups go out in page order, at most one per row |
| Scan.MarkersCounted | faction_revive_assistant.js:148-165 | `revivable` equals the number of markers and never exceeds `apiRequestCount`; marked rows are in page order, each marked once |
| Scan.StepMarksRevivable | faction_revive_assistant.js:147-168 | one loop iteration marks its row exactly when the row is revivable, leaves the other marks as they were, and keeps `apiRequestCount` equal to the number of candidate rows so far |
| Scan.RunMarksRevivable | faction_revive_assistant.js:127-168 | after any number of rows, the marked rows are exactly the revivable rows among them |
| Scan.MarkedIffRevivable | faction_revive_assistant.js:147-161 | a row gets a "(Revive)" marker if and only if it is a candidate whose lookup answers revivable |
| Scan.PacingBudget | faction_revive_assistant.js:137-145 | the k-th lookup goes out at the later of when its row was reached and `runTime + 750 * k`; a later lookup's row is reached no earlier than an earlier lookup went out |
| Scan.StepOneAtATime | faction_revive_assistant.js:147-168 | one loop iteration keeps the lookups one at a time: each goes out no earlier than its row was reached, and its reply (`latency(k)` after it went out) comes before the next lookup's row is reached and before the clock reading; `apiRequestCount` stays the number of lookups |
| Scan.RunAwaited | faction_revive_assistant.js:127-168 | after any number of rows the lookups were made one at a time and all have returned |
| Scan.OneAtATimePairs | faction_revive_assistant.js:147 | lookups made one at a time never overlap: every reply comes before the clock reading and before any later lookup's row is reached |
| Scan.LookupsOneAtATime | faction_revive_assistant.js:147-168 | the scan awaits each lookup: the k-th lookup returns, `latency(k)` after it went out, before any later lookup's row is reached and before the pass ends, so lookups never overlap |
| Scan.LookupNotBeforeBudget | faction_revive_assistant.js:138-145 | no lookup goes out before `runTime + 750 * k` |
| Scan.FirstLookupDoesNotWait | faction_revive_assistant.js:138-145 | the first lookup of a pass goes out as soon as its row is reached |
| Scan.NoMinimumGap | faction_revive_assistant.js:138-145 | the budget is anchored at the start of the pass, so after one slow lookup the next two go out at the same instant |
| Scan.CandidateExactly | faction_revive_assistant.js:128-135 | a row is looked up exactly when it has a profile link, its trimmed status is "Hospital" and its link holds `XID=` followed by a digit; the id sent is the greedy digit run after the leftmost such `XID=` |
| AsWritten.RunAsWritten | faction_revive_assistant.js:138-143 | the pass as written: the clock never runs back, and the first candidate row ends the pass with a ReferenceError |
| AsWritten.AgreesWithoutCandidates | faction_revive_assistant.js:127-143 | on a page without candidate rows, the pass as written is the intended pass |
| AsWritten.ErrorIsFinal | faction_revive_assistant.js:142-143 | once thrown, the error ends the pass and later rows change nothing |
| AsWritten.ThrowsAtFirstCandidate | faction_revive_assistant.js:138-143 | as written, the pass throws at the first candidate row, having processed only the rows before it, made no lookup and added no marker |
| AsWritten.OneCandidateRow | faction_revive_assistant.js:138-147 | on a page with one candidate row, the pass as written throws before any lookup, while the intended pass makes one |
| AsWritten.HospitalMemberIsCandidate | faction_revive_assistant.js:128-135 | a member in hospital with profile link `/profiles.php?XID=3385879` is a candidate for id `3385879` |
| AsWritten.OneHospitalRow | faction_revive_assistant.js:138-143 | the discrepancy on that concrete one-member page |
| Assistant.Truthy | faction_revive_assistant.js:25-27 | the truthiness tests `!apiKey` and `if (apiKey)`: neither null (a cancelled prompt) nor the empty string |
| Assistant.Assistant.constructor | faction_revive_assistant.js:21 | the key in use starts as the stored key |
| Assistant.Assistant.VerifyApiKey | faction_revive_assistant.js:24-42 | a set key is kept; otherwise the prompt's answer becomes the key. A non-empty answer is stored, and erased again if validation rejects it, which ends with InvalidKey. An empty or cancelled answer changes nothing in storage |
| Assistant.Assistant.QueryUserData | faction_revive_assistant.js:61-75 | the result is the API's answer for the key in use; a failure erases the stored key and leaves the key in use |
| Assistant.Assistant.PacedLookup | faction_revive_assistant.js:137-147 | the request goes out after exactly the pacing delay, and the answer is the API's for the key in use; a failure erases the stored key |
| Assistant.Assistant.ReadRow | faction_revive_assistant.js:128-135 | the profile-link, status and XID checks give row `i`'s target |
| Assistant.Assistant.ScanRow | faction_revive_assistant.js:136-174 | the rest of one iteration leaves the loop's variables as Scan.Step does; the stored key is erased once any lookup so far has failed |
| Assistant.Assistant.UpdateFactionMembers | faction_revive_assistant.js:101-176 | the loop's final counters, markers, lookups and clock are exactly Scan.Run over all rows (so every Scan lemma holds of them); the stored key is erased exactly when some lookup failed |
| Assistant.Assistant.Start | faction_revive_assistant.js:178-183 | the pass is skipped exactly when the prompt supplied a key that validation rejected, and then the stored key is erased; otherwise the pass runs with the key that `verifyApiKey` left, and the stored key ends as "" when some lookup failed, else as the key entered at the prompt when one was asked for and given, else as before |

## Left out

- The page itself is not modelled. That covers the DOM, the selectors and `observeFactionMembers` (:78-98) with its MutationObserver. A row is its profile link's `href` (None when the row has none) and its status text.
- The shape of the link is not checked. The model accepts any `href`, not only one matching the selector `a[href*="/profiles.php?XID="]`; the XID match decides.
- A row without a `.status span`, or a revivable row without a `userInfoBox`, makes the script throw a TypeError. The model assumes both elements are present.
- `fetch`, the Authorization header, HTTP status codes and JSON parsing are not modelled. `World.respond` stands in for them. A lookup is either `Failed` (a status that is not ok, a network error or a body that is not JSON) or data whose `revivable` field the script reads as truthy or falsy.
- `validateApiKey` (:45-58) is a network call. Its verdict is the `valid` parameter of `VerifyApiKey` and `Start`.
- `prompt`, `alert` and `console` are left out, apart from the prompt's answer, which is the `entered` parameter.
- The progress box and its percentage text (:113-122, :174) are left out, and so are the marker's styling (:150-161). Only which rows get a marker, and in what order, is modelled.
- Real timers, `Date.now()` and `setTimeout` are left out. The clock is a number that advances by `busy`, the pacing delay and `latency`.
- Asynchronous interleaving is not modelled. A second pass running at the same time is not covered: the script has no guard against re-entry, and the model runs one pass.
- The TornPDA placeholder substitution on line 21 is not modelled. The test compares two equal literals, so the key always comes from storage.
- `Start`, `UpdateFactionMembers`, `ScanRow` and `PacedLookup` do not model the ReferenceError of the pass as written. `PacedLookup` compares against the expected time computed on line 138, so these methods run the intended pass, Scan.Run. The pass as written is `AsWritten.RunAsWritten`.

## Findings

| source | as written | input that shows it | evidently intended | confidence | as-written member | corrected member |
|---|---|---|---|---|---|---|
| faction_revive_assistant.js:138-143 | line 138 declares `currentElapsedTime`, but the pacing test and the delay on lines 142-143 read `expectedElapsedTime`, which the script never declares. The first candidate row throws a ReferenceError, so the pass ends before any lookup or marker. | a page whose one row has profile link `/profiles.php?XID=3385879` and status "Hospital" | compare against the expected time `750 * apiRequestCount` computed on line 138 and wait for the shortfall | high (not executed) | AsWritten.OneHospitalRow | Scan.PacingBudget |

Other behaviour, as coded:

- The pacing budget is anchored at the start of the pass, not at the previous lookup. It bounds how many lookups have gone out by any moment. It does not keep consecutive lookups 750 ms apart: `Scan.NoMinimumGap` shows two lookups issued at the same instant.
- A failed lookup erases the stored key, but the key in use stays set. The rest of the pass goes on sending it.
- Rows whose lookup fails, or whose answer is not revivable, get no marker.
