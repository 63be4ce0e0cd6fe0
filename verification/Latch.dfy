/** A condition that certain steps of a run bring about and others end. */
module Latch {

  /** Before step i a setting step came, and no clearing step since. */
  ghost predicate SetSince(sets: seq<bool>, clears: seq<bool>, i: nat)
    requires i <= |sets| == |clears|
  {
    exists j :: 0 <= j < i && sets[j] && forall k :: j < k < i ==> !clears[k]
  }

  /** If setting steps, and only they, bring the condition about, and clearing steps, and only they,
      end it, then it holds exactly when a setting step came and no clearing step since. */
  lemma {:induction false} HeldSinceSet(on: seq<bool>, sets: seq<bool>, clears: seq<bool>, i: nat)
    requires |on| == |sets| + 1 == |clears| + 1 && !on[0] && i < |on|
    requires forall k :: 0 <= k < |sets| ==> sets[k] ==> on[k + 1]
    requires forall k :: 0 <= k < |sets| ==> (on[k + 1] <==> if on[k] then !clears[k] else sets[k])
    ensures on[i] <==> SetSince(sets, clears, i)
  {
    if i == 0 {
    } else {
      var p := i - 1;
      HeldSinceSet(on, sets, clears, p);
      assert on[i] <==> if on[p] then !clears[p] else sets[p];
      if on[i] {
        if !sets[p] {
          var j :| 0 <= j < p && sets[j] && forall k :: j < k < p ==> !clears[k];
          assert forall k :: j < k < i ==> !clears[k];
        }
      } else {
        forall j | 0 <= j < i && sets[j] ensures exists k :: j < k < i && clears[k] {
          assert j < p;
          if on[p] {
            assert clears[p];
          } else {
            var k :| j < k < p && clears[k];
          }
        }
      }
    }
  }
}
