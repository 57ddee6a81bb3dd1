/**
 * The `icontains` lookup used by the follow search: substring containment
 * after folding ASCII letters to lower case.
 */
module TextSearch {

  function Lower(c: char): char {
    if 'A' <= c <= 'Z' then (c as int + 32) as char else c
  }

  function Fold(s: string): string {
    seq(|s|, i requires 0 <= i < |s| => Lower(s[i]))
  }

  /** `c` is an ASCII capital and `d` the same letter in small case. */
  predicate CapitalOf(c: char, d: char) {
    'A' <= c <= 'Z' && d as int == c as int + 32
  }

  /** Two characters fold alike exactly when they are equal or one ASCII letter in two cases. */
  lemma LowerEqualIff(c: char, d: char)
    ensures Lower(c) == Lower(d) <==> c == d || CapitalOf(c, d) || CapitalOf(d, c)
  {
  }

  /** No capital survives folding. */
  lemma LowerLeavesNoCapital(c: char)
    ensures !('A' <= Lower(c) <= 'Z')
  {
  }

  /** Folding a folded string changes nothing. */
  lemma FoldIdempotent(s: string)
    ensures Fold(Fold(s)) == Fold(s)
  {
    forall i | 0 <= i < |s| ensures Fold(Fold(s))[i] == Fold(s)[i] {
      LowerLeavesNoCapital(s[i]);
    }
  }

  /** `needle` occurs in `hay` starting at position `k`. */
  predicate OccursAt(hay: string, needle: string, k: nat) {
    k + |needle| <= |hay| && hay[k..k + |needle|] == needle
  }

  lemma OccursAtTail(hay: string, needle: string, k: nat)
    requires |hay| > 0
    ensures OccursAt(hay[1..], needle, k) <==> OccursAt(hay, needle, k + 1)
  {
  }

  /** Case-sensitive substring test, scanning `hay` from the left. */
  function Contains(hay: string, needle: string): (r: bool)
    ensures r <==> exists k: nat :: OccursAt(hay, needle, k)
    decreases |hay|
  {
    if |needle| > |hay| then
      assert forall k: nat :: !OccursAt(hay, needle, k);
      false
    else if hay[..|needle|] == needle then
      assert OccursAt(hay, needle, 0);
      true
    else
      var r := Contains(hay[1..], needle);
      assert r ==> exists k: nat :: OccursAt(hay, needle, k) by {
        if r {
          var k: nat :| OccursAt(hay[1..], needle, k);
          OccursAtTail(hay, needle, k);
        }
      }
      assert (exists k: nat :: OccursAt(hay, needle, k)) ==> r by {
        if exists k: nat :: OccursAt(hay, needle, k) {
          var k: nat :| OccursAt(hay, needle, k);
          assert k != 0;
          OccursAtTail(hay, needle, k - 1);
        }
      }
      r
  }

  /** Django's `icontains` with ASCII-only case folding. */
  function IContains(hay: string, needle: string): (r: bool)
    ensures r <==> exists k: nat :: OccursAt(Fold(hay), Fold(needle), k)
  {
    Contains(Fold(hay), Fold(needle))
  }

  /** Every term matches its own occurrences whatever their case. */
  lemma {:induction false} IContainsIgnoresCase(hay: string, needle: string, k: nat)
    requires k + |needle| <= |hay|
    requires Fold(hay[k..k + |needle|]) == Fold(needle)
    ensures IContains(hay, needle)
  {
    assert Fold(hay)[k..k + |needle|] == Fold(hay[k..k + |needle|]);
    assert OccursAt(Fold(hay), Fold(needle), k);
  }

  /** The empty term matches every username. */
  lemma EmptyTermMatchesAll(hay: string)
    ensures IContains(hay, "")
  {
    assert OccursAt(Fold(hay), Fold(""), 0);
  }
}
