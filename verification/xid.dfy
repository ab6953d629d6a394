/**
 * The user-id extraction `profileLink.href.match(/XID=(\d+)/)` of
 * faction_revive_assistant.js:133-135, as plain string matching.
 *
 * A regular expression without flags is tried at every start position from
 * the left; at a position it needs the four characters "XID=" and at least one
 * ASCII digit, and `\d+` is greedy. So the capture group is the maximal run of
 * digits after the leftmost "XID=" that is immediately followed by a digit.
 */
module Xid {
  import opened Wrappers

  /** `\d`: the ASCII digits 0-9 only. */
  predicate IsDigit(c: char) {
    '0' <= c <= '9'
  }

  /** The pattern can match at position `p`: "XID=" followed by a digit. */
  predicate XidAt(s: string, p: nat) {
    p + 5 <= |s| && s[p..p + 4] == "XID=" && IsDigit(s[p + 4])
  }

  /** `p` is the leftmost position where the pattern can match. */
  predicate LeftmostXid(s: string, p: nat) {
    XidAt(s, p) && forall q: nat :: q < p ==> !XidAt(s, q)
  }

  /** `d` is the whole (greedy) run of digits starting right after "XID=" at `p`. */
  predicate MaximalDigitsAt(s: string, p: nat, d: string) {
    && d != []
    && p + 4 + |d| <= |s|
    && s[p + 4..p + 4 + |d|] == d
    && (forall i :: 0 <= i < |d| ==> IsDigit(d[i]))
    && (p + 4 + |d| == |s| || !IsDigit(s[p + 4 + |d|]))
  }

  /** The end of the run of digits that starts at `j`. */
  function DigitsEnd(s: string, j: nat): (e: nat)
    requires j <= |s|
    ensures j <= e <= |s|
    ensures forall i :: j <= i < e ==> IsDigit(s[i])
    ensures e == |s| || !IsDigit(s[e])
    decreases |s| - j
  {
    if j < |s| && IsDigit(s[j]) then DigitsEnd(s, j + 1) else j
  }

  /** The leftmost position at or after `from` where the pattern can match. */
  function XidFrom(s: string, from: nat): (r: Option<nat>)
    ensures r.Some? ==> from <= r.value && XidAt(s, r.value)
    ensures forall q: nat :: from <= q && (r.None? || q < r.value) ==> !XidAt(s, q)
    decreases |s| - from
  {
    if |s| < from + 5 then None
    else if XidAt(s, from) then Some(from)
    else XidFrom(s, from + 1)
  }

  /** `match[1]` of `href.match(/XID=(\d+)/)`, or None when `match` is null. */
  function FindXid(href: string): (r: Option<string>)
    ensures r.Some? ==> r.value != [] && forall i :: 0 <= i < |r.value| ==> IsDigit(r.value[i])
  {
    match XidFrom(href, 0)
    case None => None
    case Some(p) => Some(href[p + 4..DigitsEnd(href, p + 4)])
  }

  /**
   * What FindXid returns is the greedy run of digits after the leftmost
   * "XID=" that a digit follows, and it finds nothing exactly when no "XID="
   * in the string is followed by a digit.
   */
  lemma FindXidSound(href: string)
    ensures FindXid(href).Some? ==>
      exists p: nat :: LeftmostXid(href, p) && MaximalDigitsAt(href, p, FindXid(href).value)
    ensures FindXid(href).None? <==> forall p: nat :: !XidAt(href, p)
  {
    var r := XidFrom(href, 0);
    if r.Some? {
      var p := r.value;
      assert MaximalDigitsAt(href, p, href[p + 4..DigitsEnd(href, p + 4)]);
    }
  }

  /** A run of digits has only one maximal extent. */
  lemma {:induction false} MaximalRunUnique(s: string, p: nat, d: string)
    requires MaximalDigitsAt(s, p, d)
    ensures DigitsEnd(s, p + 4) == p + 4 + |d|
  {
    assert forall i :: p + 4 <= i < p + 4 + |d| ==> s[i] == d[i - (p + 4)];
  }

  /**
   * The converse of FindXid's contract: whatever the leftmost match and its
   * greedy digit run are, FindXid returns exactly that run. Together with
   * FindXidSound, the match result is characterised completely.
   */
  lemma {:induction false} FindXidComplete(href: string, p: nat, d: string)
    requires LeftmostXid(href, p) && MaximalDigitsAt(href, p, d)
    ensures FindXid(href) == Some(d)
  {
    MaximalRunUnique(href, p, d);
  }

  /** An "XID=" with no digit after it is skipped, and only the first id counts. */
  lemma SkipsEmptyXid()
    ensures FindXid("XID=&XID=42&XID=7") == Some("42")
  {
    var s := "XID=&XID=42&XID=7";
    assert !XidAt(s, 0) by { assert !IsDigit(s[4]); }
    forall q: nat | 0 < q < 5 ensures !XidAt(s, q) {
      assert s[q..q + 4][0] == s[q] != 'X';
    }
    assert s[5..9] == "XID=" by { assert s[5..9] == [s[5], s[6], s[7], s[8]]; }
    assert MaximalDigitsAt(s, 5, "42") by { assert s[9..11] == "42"; }
    FindXidComplete(s, 5, "42");
  }

  /** The id in a profile link as the members list has it. */
  lemma ProfileLinkId()
    ensures FindXid("/profiles.php?XID=3385879") == Some("3385879")
  {
    var href := "/profiles.php?XID=3385879";
    forall q: nat | q < 14 ensures !XidAt(href, q) {
      assert href[q..q + 4][0] == href[q] != 'X';
    }
    assert href[14..18] == "XID=" by { assert href[14..18] == [href[14], href[15], href[16], href[17]]; }
    assert MaximalDigitsAt(href, 14, "3385879") by { assert href[18..25] == "3385879"; }
    FindXidComplete(href, 14, "3385879");
  }
}
