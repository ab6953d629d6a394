/**
 * `textContent.trim()` of the status cell (faction_revive_assistant.js:129):
 * JavaScript's String.prototype.trim removes leading and trailing white space
 * and line terminators, as ECMA-262 section 22.1.3.32 defines them.
 */
module Status {

  /** ECMA-262 WhiteSpace (TAB, VT, FF, ZWNBSP and the Zs category) and LineTerminator. */
  predicate IsTrimmable(c: char) {
    || c == '\t' || c == '\n' || c == '\U{000B}' || c == '\U{000C}' || c == '\r'
    || c == ' ' || c == '\U{00A0}' || c == '\U{1680}' || ('\U{2000}' <= c <= '\U{200A}')
    || c == '\U{2028}' || c == '\U{2029}' || c == '\U{202F}' || c == '\U{205F}'
    || c == '\U{3000}' || c == '\U{FEFF}'
  }

  /** The first index at or after `i` that does not hold white space, or |s|. */
  function SkipLeading(s: string, i: nat): (a: nat)
    requires i <= |s|
    ensures i <= a <= |s|
    ensures forall k :: i <= k < a ==> IsTrimmable(s[k])
    ensures a == |s| || !IsTrimmable(s[a])
    decreases |s| - i
  {
    if i < |s| && IsTrimmable(s[i]) then SkipLeading(s, i + 1) else i
  }

  /** The end of `s[a..j]` once the white space it ends with is dropped. */
  function SkipTrailing(s: string, a: nat, j: nat): (b: nat)
    requires a <= j <= |s|
    ensures a <= b <= j
    ensures forall k :: b <= k < j ==> IsTrimmable(s[k])
    ensures b == a || !IsTrimmable(s[b - 1])
  {
    if a < j && IsTrimmable(s[j - 1]) then SkipTrailing(s, a, j - 1) else j
  }

  /** String.prototype.trim: the text between the leading and the trailing white space. */
  function Trim(s: string): string {
    var a := SkipLeading(s, 0);
    s[a..SkipTrailing(s, a, |s|)]
  }

  /**
   * What trim keeps: a slice of `s` that neither starts nor ends with white
   * space, with only white space before and after it.
   */
  lemma TrimIsCore(s: string)
    ensures var a := SkipLeading(s, 0);
            var r := Trim(s);
            && a + |r| <= |s| && r == s[a..a + |r|]
            && (forall i :: 0 <= i < a ==> IsTrimmable(s[i]))
            && (forall i :: a + |r| <= i < |s| ==> IsTrimmable(s[i]))
            && (r != [] ==> !IsTrimmable(r[0]) && !IsTrimmable(r[|r| - 1]))
  {
    var a := SkipLeading(s, 0);
    var b := SkipTrailing(s, a, |s|);
    assert Trim(s) == s[a..b];
    assert a < b ==> Trim(s)[0] == s[a] && Trim(s)[b - a - 1] == s[b - 1];
  }

  /**
   * The converse: any split of `s` into white space, a core that neither
   * starts nor ends with white space, and white space again, has that core as
   * its trimmed value.
   */
  lemma {:induction false} TrimUnique(s: string, a: nat, b: nat)
    requires a <= b <= |s|
    requires forall i :: 0 <= i < a ==> IsTrimmable(s[i])
    requires forall i :: b <= i < |s| ==> IsTrimmable(s[i])
    requires a < b ==> !IsTrimmable(s[a]) && !IsTrimmable(s[b - 1])
    ensures Trim(s) == s[a..b]
  {
    var a' := SkipLeading(s, 0);
    if a < b {
      assert a' == a;
    }
  }

  /** Trimming twice changes nothing. */
  lemma TrimIdempotent(s: string)
    ensures Trim(Trim(s)) == Trim(s)
  {
    var r := Trim(s);
    TrimIsCore(s);
    TrimUnique(r, 0, |r|);
  }

  /** A status cell padded with spaces and line breaks still reads "Hospital". */
  lemma PaddedHospital()
    ensures Trim("\n  Hospital ") == "Hospital"
  {
    var s := "\n  Hospital ";
    assert s[0] == '\n' && s[1] == ' ' && s[2] == ' ' && s[3] == 'H' && s[10] == 'l' && s[11] == ' ';
    TrimUnique(s, 3, 11);
    assert s[3..11] == "Hospital";
  }

  /** A status cell without padding is left as it is. */
  lemma PlainHospital()
    ensures Trim("Hospital") == "Hospital"
  {
    TrimUnique("Hospital", 0, 8);
  }
}
