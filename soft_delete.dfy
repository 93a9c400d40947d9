/** The soft-delete layer shared by every model: the `BaseModel` fields,
    a table of rows keyed by primary key, the filtered `objects` accessor
    (`BaseModelManager.get_queryset`), the unfiltered `all_objects`, and the
    two effects of `BaseModel.delete` on a table. */
module SoftDelete {
  import opened Common

  /** The `BaseModel` columns: `date_created`, `date_modified`, `deleted_at`. */
  datatype Meta = Meta(dateCreated: Time, dateModified: Time, deletedAt: Option<Time>)

  /** One row: the shared columns and the model's own fields. */
  datatype Row<T> = Row(meta: Meta, fields: T)

  type Table<T> = map<Pk, Row<T>>

  predicate IsLive<T>(row: Row<T>) {
    row.meta.deletedAt.None?
  }

  /** `objects`: the queryset filtered on `deleted_at=None`. */
  function Objects<T>(t: Table<T>): (r: Table<T>)
    ensures r.Keys <= t.Keys
    ensures forall pk :: pk in r ==> r[pk] == t[pk] && IsLive(r[pk])
    ensures forall pk :: pk in t && IsLive(t[pk]) ==> pk in r
  {
    map pk | pk in t && IsLive(t[pk]) :: t[pk]
  }

  /** `all_objects`: the plain manager, soft-deleted rows included, so it
      holds every row `objects` returns. */
  function AllObjects<T>(t: Table<T>): (r: Table<T>)
    ensures r.Keys == t.Keys
    ensures forall pk :: pk in t ==> r[pk] == t[pk]
    ensures Objects(t).Keys <= r.Keys
  {
    t
  }

  /** A freshly saved row: both timestamps are `now`, not deleted. */
  function Inserted<T>(t: Table<T>, pk: Pk, fields: T, now: Time): (r: Table<T>)
    requires pk !in t
    ensures r.Keys == t.Keys + {pk}
    ensures IsLive(r[pk]) && r[pk].fields == fields
    ensures r[pk].meta == Meta(now, now, None)
    ensures forall k :: k in t ==> r[k] == t[k]
  {
    t[pk := Row(Meta(now, now, None), fields)]
  }

  /** `delete()`: `deleted_at` is set to now and the row saved, which also
      refreshes the auto-now `date_modified`. */
  function SoftDeleted<T>(t: Table<T>, pk: Pk, now: Time): (r: Table<T>)
    requires pk in t
    ensures r.Keys == t.Keys
    ensures r[pk].meta.deletedAt == Some(now) && r[pk].meta.dateModified == now
    ensures r[pk].meta.dateCreated == t[pk].meta.dateCreated && r[pk].fields == t[pk].fields
    ensures forall k :: k in t && k != pk ==> r[k] == t[k]
  {
    var row := t[pk];
    t[pk := row.(meta := row.meta.(dateModified := now, deletedAt := Some(now)))]
  }

  /** `delete(hard_delete=True)`: the row is removed. */
  function HardDeleted<T>(t: Table<T>, pk: Pk): (r: Table<T>)
    ensures r.Keys == t.Keys - {pk}
    ensures forall k :: k in r ==> r[k] == t[k]
  {
    t - {pk}
  }

  /** After a soft delete the row is gone from `objects`, still in
      `all_objects`, and `objects` has lost exactly that row. */
  lemma SoftDeleteHides<T>(t: Table<T>, pk: Pk, now: Time)
    requires pk in t
    ensures pk !in Objects(SoftDeleted(t, pk, now))
    ensures pk in AllObjects(SoftDeleted(t, pk, now))
    ensures Objects(SoftDeleted(t, pk, now)) == Objects(t) - {pk}
  {
  }

  /** After a hard delete the row is in neither accessor. */
  lemma HardDeleteRemoves<T>(t: Table<T>, pk: Pk)
    ensures pk !in AllObjects(HardDeleted(t, pk))
    ensures Objects(HardDeleted(t, pk)) == Objects(t) - {pk}
  {
  }

  /** A saved row is visible through `objects`, which otherwise is unchanged. */
  lemma InsertShows<T>(t: Table<T>, pk: Pk, fields: T, now: Time)
    requires pk !in t
    ensures Objects(Inserted(t, pk, fields, now)) == Objects(t)[pk := Row(Meta(now, now, None), fields)]
  {
  }

  /** Filtering twice is filtering once. */
  lemma ObjectsIdempotent<T>(t: Table<T>)
    ensures Objects(Objects(t)) == Objects(t)
  {
  }
}
