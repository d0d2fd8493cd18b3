/** DeleteAsync takes the key list from KeyPropertiesCache and appends the
    explicit keys to it in place, where UpdateAsync first copies it with
    `ToList()`. When the list handed out is the cached one, every delete
    lengthens the cached key list: the next delete's WHERE repeats the
    explicit keys, and the next insert treats them as keys and leaves their
    columns out. This module models both readings with the cached list as
    explicit state. */
module KeyCache {
  import opened Results
  import opened Strings
  import opened Statements

  /** DeleteAsync as written, when the cache hands out its own list: the
      explicit keys are appended to `cached`, and the extended list is what
      the cache holds afterwards. */
  function DeleteSharingCache(e: Entity, a: Adapter, entityIsNull: bool, cached: seq<Property>)
    : (r: (Result<DeletePlan>, seq<Property>))
    ensures r.0.Ok? <==> !entityIsNull && (|cached| > 0 || |ExplicitKeys(e)| > 0)
    ensures r.0.Ok? ==> r.1 == cached + ExplicitKeys(e) && r.0.value.keyProperties == r.1
    ensures r.0.Ok? ==> r.0.value.sql == DeleteStatement(e, a, cached + ExplicitKeys(e))
    ensures r.0.Err? ==> r.1 == cached
  {
    if entityIsNull then (Err(NullEntity), cached)
    else if |cached| == 0 && |ExplicitKeys(e)| == 0 then (Err(NoKey), cached)
    else
      var keys := cached + ExplicitKeys(e);
      (Ok(Delete(DeleteStatement(e, a, keys), keys)), keys)
  }

  /** DeleteAsync with the key list copied before it is extended, as
      UpdateAsync does: the cache is left as it was. */
  function DeleteCopyingCache(e: Entity, a: Adapter, entityIsNull: bool, cached: seq<Property>)
    : (r: (Result<DeletePlan>, seq<Property>))
    ensures r.1 == cached
    ensures cached == Keys(e) ==> r.0 == DeleteSql(e, a, entityIsNull)
  {
    var keys := cached + ExplicitKeys(e);
    var result :=
      if entityIsNull then Err(NullEntity)
      else if |cached| == 0 && |ExplicitKeys(e)| == 0 then Err(NoKey)
      else Ok(Delete(DeleteStatement(e, a, keys), keys));
    (result, cached)
  }

  /** The properties InsertAsync writes, given the key list the cache hands out. */
  function InsertedWithCache(e: Entity, cached: seq<Property>): (r: seq<Property>)
    ensures forall p :: p in r <==> p in e.properties && p !in cached && !p.isComputed
  {
    Filter(e.properties, (p: Property) => p !in cached && !p.isComputed)
  }

  /** With a fresh cache the insert writes exactly Statements.Inserted. */
  lemma FreshCacheInsertsAsModelled(e: Entity)
    ensures InsertedWithCache(e, Keys(e)) == Inserted(e)
  {
    FilterAgrees(e.properties, (p: Property) => p !in Keys(e) && !p.isComputed, (p: Property) => !p.isKey && !p.isComputed);
  }

  /** Filtering with two tests that agree on every element gives the same list. */
  lemma {:induction false} FilterAgrees(ps: seq<Property>, f: Property -> bool, g: Property -> bool)
    requires forall p :: p in ps ==> f(p) == g(p)
    ensures Filter(ps, f) == Filter(ps, g)
    decreases |ps|
  {
    if |ps| > 0 {
      assert forall p :: p in ps[..|ps| - 1] ==> p in ps;
      FilterAgrees(ps[..|ps| - 1], f, g);
    }
  }

  lemma AssignmentsAppend(a: Adapter, xs: seq<Property>, ys: seq<Property>)
    ensures Assignments(a, xs + ys) == Assignments(a, xs) + Assignments(a, ys)
  {
  }

  /** As written: a second delete of an entity with an explicit key repeats
      the explicit-key conditions after the first delete's. */
  lemma SecondDeleteRepeatsExplicitKeys(e: Entity, a: Adapter)
    requires |ExplicitKeys(e)| > 0
    ensures var first := DeleteSharingCache(e, a, false, Keys(e));
      var second := DeleteSharingCache(e, a, false, first.1);
      && first.0.Ok? && second.0.Ok?
      && second.0.value.sql == first.0.value.sql + " AND " + Join(" AND ", Assignments(a, ExplicitKeys(e)))
      && second.0.value.sql != first.0.value.sql
  {
    var first := DeleteSharingCache(e, a, false, Keys(e));
    var keys := Keys(e) + ExplicitKeys(e);
    assert first.1 == keys;
    AssignmentsAppend(a, keys, ExplicitKeys(e));
    JoinAppend(" AND ", Assignments(a, keys), Assignments(a, ExplicitKeys(e)));
    assert "DELETE FROM " + e.aliasTableName + " WHERE " + (Join(" AND ", Assignments(a, keys)) + " AND " + Join(" AND ", Assignments(a, ExplicitKeys(e))))
        == DeleteStatement(e, a, keys) + " AND " + Join(" AND ", Assignments(a, ExplicitKeys(e)));
  }

  /** As written: after one delete, an explicit key that is not also a key
      is no longer inserted. */
  lemma InsertAfterDeleteDropsExplicitKey(e: Entity, a: Adapter, p: Property)
    requires p in e.properties && p.isExplicitKey && !p.isKey && !p.isComputed
    ensures p in Inserted(e)
    ensures p !in InsertedWithCache(e, DeleteSharingCache(e, a, false, Keys(e)).1)
  {
    assert p in ExplicitKeys(e);
  }

  /** Corrected: deletes leave the cache alone, so any number of them build
      the same statement, the one Statements.DeleteSql describes. */
  lemma CopyingDeleteIsRepeatable(e: Entity, a: Adapter, entityIsNull: bool)
    ensures var first := DeleteCopyingCache(e, a, entityIsNull, Keys(e));
      && first.0 == DeleteSql(e, a, entityIsNull)
      && DeleteCopyingCache(e, a, entityIsNull, first.1) == first
  {
  }
}
