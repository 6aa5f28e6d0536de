/**
 * The list of server addresses: each line the file iterator yields is
 * stripped of surrounding whitespace, and the first line that is empty after
 * stripping ends the enumeration (a `break`, not a skip).
 */
module ServerList {

  /** The characters Python's `str.isspace` accepts, which `str.strip()` removes. */
  predicate IsSpace(c: char) {
    c == ' ' || ('\t' <= c <= '\r') || ('\U{1C}' <= c <= '\U{1F}') ||
    c == '\U{85}' || c == '\U{A0}' || c == '\U{1680}' || ('\U{2000}' <= c <= '\U{200A}') ||
    c == '\U{2028}' || c == '\U{2029}' || c == '\U{202F}' || c == '\U{205F}' || c == '\U{3000}'
  }

  /** The index of the first non-whitespace character at or after `i` (|s| if none). */
  function SkipSpaces(s: string, i: nat): (k: nat)
    requires i <= |s|
    ensures i <= k <= |s|
    ensures forall m :: i <= m < k ==> IsSpace(s[m])
    ensures k == |s| || !IsSpace(s[k])
    decreases |s| - i
  {
    if i < |s| && IsSpace(s[i]) then SkipSpaces(s, i + 1) else i
  }

  /** The end of `s[lo..j]` once its trailing whitespace is dropped. */
  function DropSpaces(s: string, lo: nat, j: nat): (e: nat)
    requires lo <= j <= |s|
    ensures lo <= e <= j
    ensures forall m :: e <= m < j ==> IsSpace(s[m])
    ensures e == lo || !IsSpace(s[e - 1])
    decreases j
  {
    if j > lo && IsSpace(s[j - 1]) then DropSpaces(s, lo, j - 1) else j
  }

  /** Python's `s.strip()`: a line that is whitespace only strips to the empty string. */
  function Strip(s: string): (r: string)
    ensures r == [] <==> forall i :: 0 <= i < |s| ==> IsSpace(s[i])
    ensures r == [] || (!IsSpace(r[0]) && !IsSpace(r[|r| - 1]))
  {
    var k := SkipSpaces(s, 0);
    var e := DropSpaces(s, k, |s|);
    assert k < |s| ==> e > k;
    s[k..e]
  }

  /** The stripped line is `s` without an all-whitespace prefix and an all-whitespace suffix. */
  lemma StripShape(s: string)
    ensures var k := SkipSpaces(s, 0);
      && k + |Strip(s)| <= |s|
      && Strip(s) == s[k..k + |Strip(s)|]
      && (forall i :: 0 <= i < k ==> IsSpace(s[i]))
      && (forall i :: k + |Strip(s)| <= i < |s| ==> IsSpace(s[i]))
  {
  }

  /**
   * The addresses the script visits, in file order: the stripped lines up to,
   * not including, the first line that strips to the empty string.
   */
  function Endpoints(lines: seq<string>): (r: seq<string>)
    ensures |r| <= |lines|
    ensures forall i :: 0 <= i < |r| ==> r[i] == Strip(lines[i]) && r[i] != []
    ensures |r| < |lines| ==> Strip(lines[|r|]) == []
    decreases |lines|
  {
    if lines == [] then []
    else
      var address := Strip(lines[0]);
      if address == [] then []
      else
        var tail := Endpoints(lines[1..]);
        assert forall i :: 0 < i <= |tail| ==> lines[1..][i - 1] == lines[i];
        [address] + tail
  }

  /**
   * N usable lines, then a blank (or whitespace-only) line, then anything:
   * exactly the N stripped lines are visited.
   */
  lemma {:induction false} BlankLineTruncates(good: seq<string>, blank: string, more: seq<string>)
    requires forall i :: 0 <= i < |good| ==> Strip(good[i]) != []
    requires forall i :: 0 <= i < |blank| ==> IsSpace(blank[i])
    ensures Endpoints(good + [blank] + more) == seq(|good|, i requires 0 <= i < |good| => Strip(good[i]))
    decreases |good|
  {
    var lines := good + [blank] + more;
    if good == [] {
      assert lines[0] == blank;
    } else {
      assert lines[0] == good[0];
      assert lines[1..] == good[1..] + [blank] + more;
      BlankLineTruncates(good[1..], blank, more);
    }
  }

  /** Lines after a blank one, and the blank line itself, never reach the enumeration. */
  lemma {:induction false} LinesAfterBlankIgnored(lines: seq<string>, k: nat, more: seq<string>)
    requires k < |lines| && Strip(lines[k]) == []
    ensures Endpoints(lines + more) == Endpoints(lines)
    ensures |Endpoints(lines)| <= k
    decreases k
  {
    assert (lines + more)[0] == lines[0];
    if Strip(lines[0]) != [] {
      assert (lines + more)[1..] == lines[1..] + more;
      LinesAfterBlankIgnored(lines[1..], k - 1, more);
    }
  }
}
