/**
 * The grouping step shared by the product and recipe result enhancers: rows
 * fetched for a page of results are collected, in fetched order, into a
 * record keyed by the id of the product or recipe they belong to; a result
 * then takes its group, or `[]` when it has none.
 */
module Grouping {
  import opened Common

  /**
   * Whether a row with this owner id is grouped: the id must be present, and
   * where the source tests `if (productId)` it must also be truthy (non-empty).
   */
  predicate Groupable(k: Option<string>, truthyOnly: bool)
  {
    k.Some? && (!truthyOnly || k.value != "")
  }

  /** The projected rows that belong to `id`, in fetched order. */
  function GroupOf<R, V>(rows: seq<R>, keyOf: R -> Option<string>, truthyOnly: bool, project: R -> V, id: string): seq<V>
  {
    if |rows| == 0 then []
    else
      var last := rows[|rows| - 1];
      GroupOf(rows[..|rows| - 1], keyOf, truthyOnly, project, id)
      + (if Groupable(keyOf(last), truthyOnly) && keyOf(last).value == id then [project(last)] else [])
  }

  /**
   * The `reduce`/`forEach` that fills the record: for each groupable row,
   * create the owner's list when missing, then push the projected row.
   */
  method GroupRows<R, V>(rows: seq<R>, keyOf: R -> Option<string>, truthyOnly: bool, project: R -> V)
    returns (acc: map<string, seq<V>>)
    ensures forall id :: id in acc ==> acc[id] == GroupOf(rows, keyOf, truthyOnly, project, id) && |acc[id]| > 0
    ensures forall id :: id !in acc ==> GroupOf(rows, keyOf, truthyOnly, project, id) == []
  {
    acc := map[];
    for i := 0 to |rows|
      invariant forall id :: id in acc ==> acc[id] == GroupOf(rows[..i], keyOf, truthyOnly, project, id) && |acc[id]| > 0
      invariant forall id :: id !in acc ==> GroupOf(rows[..i], keyOf, truthyOnly, project, id) == []
    {
      assert rows[..i + 1][..i] == rows[..i];
      var key := keyOf(rows[i]);
      if Groupable(key, truthyOnly) {
        var owner := key.value;
        if owner !in acc {
          acc := acc[owner := []];
        }
        acc := acc[owner := acc[owner] + [project(rows[i])]];
      }
    }
    assert rows[..|rows|] == rows;
  }

  /** `groups[id] || []`: a result's group, `[]` when it has none. */
  function GroupFor<V>(groups: map<string, seq<V>>, id: string): seq<V>
  {
    if id in groups then groups[id] else []
  }

  /** Looking a result up in the filled record gives exactly its rows, in fetched order. */
  lemma GroupForIsGroupOf<R, V>(rows: seq<R>, keyOf: R -> Option<string>, truthyOnly: bool, project: R -> V,
                                groups: map<string, seq<V>>, id: string)
    requires forall k :: k in groups ==> groups[k] == GroupOf(rows, keyOf, truthyOnly, project, k)
    requires forall k :: k !in groups ==> GroupOf(rows, keyOf, truthyOnly, project, k) == []
    ensures GroupFor(groups, id) == GroupOf(rows, keyOf, truthyOnly, project, id)
  {
  }

  /** A group holds the projection of a row exactly when some groupable row with that owner id projects to it. */
  lemma {:induction false} GroupOfMembership<R, V>(rows: seq<R>, keyOf: R -> Option<string>, truthyOnly: bool,
                                                   project: R -> V, id: string, v: V)
    ensures v in GroupOf(rows, keyOf, truthyOnly, project, id) <==>
            exists i :: 0 <= i < |rows| && Groupable(keyOf(rows[i]), truthyOnly) && keyOf(rows[i]).value == id
                        && project(rows[i]) == v
  {
    if |rows| > 0 {
      var init := rows[..|rows| - 1];
      GroupOfMembership(init, keyOf, truthyOnly, project, id, v);
      if exists i :: 0 <= i < |init| && Groupable(keyOf(init[i]), truthyOnly) && keyOf(init[i]).value == id
                     && project(init[i]) == v {
        var i :| 0 <= i < |init| && Groupable(keyOf(init[i]), truthyOnly) && keyOf(init[i]).value == id
                 && project(init[i]) == v;
        assert rows[i] == init[i];
      }
    }
  }

  /** A group has at most as many entries as there were rows fetched. */
  lemma {:induction false} GroupOfLength<R, V>(rows: seq<R>, keyOf: R -> Option<string>, truthyOnly: bool, project: R -> V, id: string)
    ensures |GroupOf(rows, keyOf, truthyOnly, project, id)| <= |rows|
  {
    if |rows| > 0 {
      GroupOfLength(rows[..|rows| - 1], keyOf, truthyOnly, project, id);
    }
  }

  /** A row whose owner id is missing (or, under the truthiness test, empty) lands in no group. */
  lemma {:induction false} UngroupableRowDropped<R, V>(rows: seq<R>, keyOf: R -> Option<string>, truthyOnly: bool,
                                                      project: R -> V, r: R, id: string)
    requires !Groupable(keyOf(r), truthyOnly)
    ensures GroupOf(rows + [r], keyOf, truthyOnly, project, id) == GroupOf(rows, keyOf, truthyOnly, project, id)
  {
    assert (rows + [r])[..|rows|] == rows;
  }
}
