/**
 * The sample location indexes are built sheet by sheet, each sheet's entries
 * written over those of the sheets before it. `Merge` is that fold.
 */
module SheetIndex {

  /** Maps combined in order, a later one overriding an earlier one. */
  function Merge(ms: seq<map<string, string>>): map<string, string>
    decreases |ms|
  {
    if |ms| == 0 then map[] else Merge(ms[..|ms| - 1]) + ms[|ms| - 1]
  }

  /** A key is in a merge exactly when one of the merged maps has it. */
  lemma {:induction false} MergeDomain(ms: seq<map<string, string>>, key: string)
    ensures key in Merge(ms) <==> exists i | 0 <= i < |ms| :: key in ms[i]
    decreases |ms|
  {
    if |ms| > 0 {
      MergeDomain(ms[..|ms| - 1], key);
      if key !in ms[|ms| - 1] {
        if exists i | 0 <= i < |ms| :: key in ms[i] {
          var i :| 0 <= i < |ms| && key in ms[i];
          assert key in ms[..|ms| - 1][i];
        }
      } else {
        assert key in Merge(ms);
      }
    }
  }

  /** A key of a merge maps to what the LAST map having it says. */
  lemma {:induction false} MergeLastWins(ms: seq<map<string, string>>, key: string)
    requires key in Merge(ms)
    ensures exists i | 0 <= i < |ms| ::
              key in ms[i] && Merge(ms)[key] == ms[i][key] &&
              forall j | i < j < |ms| :: key !in ms[j]
    decreases |ms|
  {
    var init := ms[..|ms| - 1];
    if key !in ms[|ms| - 1] {
      MergeLastWins(init, key);
      var i :| 0 <= i < |init| && key in init[i] && Merge(init)[key] == init[i][key] &&
               forall j | i < j < |init| :: key !in init[j];
      assert ms[i] == init[i];
      assert forall j | i < j < |ms| :: key !in ms[j] by {
        forall j | i < j < |ms| ensures key !in ms[j] {
          if j < |init| { assert ms[j] == init[j]; }
        }
      }
    }
  }

  /** Updating a union is updating its right operand. */
  lemma UnionUpdate(a: map<string, string>, b: map<string, string>, k: string, v: string)
    ensures (a + b)[k := v] == a + b[k := v]
  {
  }
}
