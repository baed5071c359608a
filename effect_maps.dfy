/** The id-keyed effect maps that the health ledger (its DOTs) and the stat
    table (its timed changes) both keep, and the two things both do with
    them: walk them in the map's iteration order, and remove the ids that
    finished, one after the other. */
module EffectMaps {

  /** An iteration order of an id-keyed map: every key exactly once. */
  predicate IsOrderOf<V>(m: map<nat, V>, order: seq<nat>) {
    && (forall i :: 0 <= i < |order| ==> order[i] in m)
    && (forall id :: id in m ==> id in order)
    && (forall i, j :: 0 <= i < j < |order| ==> order[i] != order[j])
  }

  /** A map with every listed id removed, one after the other. */
  function RemoveAll<V>(m: map<nat, V>, ids: seq<nat>): map<nat, V> {
    if ids == [] then m else RemoveAll(m, ids[..|ids| - 1]) - {ids[|ids| - 1]}
  }

  lemma RemoveAllStep<V>(m: map<nat, V>, ids: seq<nat>, k: nat)
    requires k < |ids|
    ensures RemoveAll(m, ids[..k + 1]) == RemoveAll(m, ids[..k]) - {ids[k]}
  {
    var prefix := ids[..k + 1];
    assert prefix[..|prefix| - 1] == ids[..k];
  }

  /** Removing listed ids keeps exactly the unlisted ids and their values. */
  lemma {:induction false} RemoveAllExact<V>(m: map<nat, V>, ids: seq<nat>)
    ensures forall id :: id in RemoveAll(m, ids) <==> id in m && id !in ids
    ensures forall id :: id in RemoveAll(m, ids) ==> RemoveAll(m, ids)[id] == m[id]
  {
    if ids != [] {
      RemoveAllExact(m, ids[..|ids| - 1]);
      assert ids == ids[..|ids| - 1] + [ids[|ids| - 1]];
    }
  }
}
