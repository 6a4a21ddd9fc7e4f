/** The search that compares the part name of a firmware file with the board. */
module Bitfile {
  import opened Common

  function ToLower(c: char): char {
    if 'A' <= c <= 'Z' then c + 32 as char else c
  }

  /** `pattern` occurs in `text` at `i`, letter case aside. */
  ghost predicate OccursAt(text: string, pattern: string, i: nat) {
    i + |pattern| <= |text|
    && forall k :: 0 <= k < |pattern| ==> ToLower(text[i + k]) == ToLower(pattern[k])
  }

  /** Everything before `n` has been ruled out. */
  ghost predicate RuledOut(text: string, pattern: string, n: nat) {
    forall i :: 0 <= i < n ==> !OccursAt(text, pattern, i)
  }

  /** A partial match: `r` is where it began, `p1` and `p2` are how far it got. */
  ghost predicate Matching(text: string, pattern: string, r: Option<nat>, p1: nat, p2: nat) {
    if r.None? then p2 == 0 && RuledOut(text, pattern, p1)
    else
      && p1 == r.value + p2 && 0 < p2 <= |pattern| && p1 <= |text|
      && RuledOut(text, pattern, r.value)
      && forall k :: 0 <= k < p2 ==> ToLower(text[r.value + k]) == ToLower(pattern[k])
  }

  /**
   * The position of the first occurrence, or none. The search moves back to the character after the
   * beginning of a match that broke off, and terminates all the same.
   */
  method Stristr(text: string, pattern: string) returns (found: Option<nat>)
    ensures found.Some? ==> OccursAt(text, pattern, found.value) && RuledOut(text, pattern, found.value)
    ensures found.None? ==> forall i :: !OccursAt(text, pattern, i)
  {
    hide ToLower;
    if |pattern| == 0 {
      return Some(0);
    }
    var p1, p2 := 0, 0;
    var r: Option<nat> := None;
    while p1 < |text| && p2 < |pattern|
      invariant 0 <= p1 <= |text| && 0 <= p2 <= |pattern|
      invariant Matching(text, pattern, r, p1, p2)
      decreases |text| - (if r.Some? then r.value else p1), |text| - p1
    {
      if ToLower(text[p1]) == ToLower(pattern[p2]) {
        if r.None? {
          r := Some(p1);
        }
        p2 := p2 + 1;
      } else {
        if r.Some? {
          assert !OccursAt(text, pattern, r.value);
          p1 := r.value + 1;
        }
        p2 := 0;
        if ToLower(text[p1]) == ToLower(pattern[p2]) {
          r := Some(p1);
          p2 := p2 + 1;
        } else {
          assert !OccursAt(text, pattern, p1);
          r := None;
        }
      }
      p1 := p1 + 1;
    }
    if p2 == |pattern| {
      return r;
    }
    return None;
  }

  /** Comparing the result with the start of the text is a prefix test, letter case aside. */
  method PartMatches(part: string, target: string) returns (ok: bool)
    ensures ok <==> |target| <= |part| && forall k :: 0 <= k < |target| ==> ToLower(part[k]) == ToLower(target[k])
  {
    var found := Stristr(part, target);
    ok := found == Some(0);
    assert OccursAt(part, target, 0) ==> ok;
  }
}
