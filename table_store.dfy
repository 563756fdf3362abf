/** An Azure table as the Functions see it through TableClient: rows addressed by
    (PartitionKey, RowKey), kept here as a map from key to entity. */
module TableStore {
  import opened Wrappers
  import opened Entities

  class TableClient<E(==)> {
    /** How an entity names its own row: (PartitionKey, RowKey). */
    const keyOf: E -> TableKey
    var rows: map<TableKey, E>

    /** Every row is stored under its own key. */
    ghost predicate Valid()
      reads this
    {
      forall k :: k in rows ==> keyOf(rows[k]) == k
    }

    constructor (keyOf: E -> TableKey)
      ensures Valid() && this.keyOf == keyOf && rows == map[]
    {
      this.keyOf := keyOf;
      rows := map[];
    }

    /** AddEntityAsync: inserts a new row; an existing key is a 409 Conflict and changes nothing. */
    method AddEntity(e: E) returns (ok: bool)
      requires Valid()
      modifies this
      ensures Valid()
      ensures ok <==> keyOf(e) !in old(rows)
      ensures rows == if ok then old(rows)[keyOf(e) := e] else old(rows)
    {
      ok := keyOf(e) !in rows;
      if ok {
        rows := rows[keyOf(e) := e];
      }
    }

    /** GetEntityAsync: the row under a key; None is the 404 the SDK throws. */
    method GetEntity(key: TableKey) returns (r: Option<E>)
      requires Valid()
      ensures r.Some? <==> key in rows
      ensures r.Some? ==> r.value == rows[key] && keyOf(r.value) == key
    {
      if key in rows {
        r := Some(rows[key]);
      } else {
        r := None;
      }
    }

    /** UpdateEntityAsync(e, ETag.All, TableUpdateMode.Replace): the whole row is overwritten with
        no concurrency check; a missing row is the 404 the SDK throws, and changes nothing. */
    method UpdateEntityReplace(e: E) returns (ok: bool)
      requires Valid()
      modifies this
      ensures Valid()
      ensures ok <==> keyOf(e) in old(rows)
      ensures rows == if ok then old(rows)[keyOf(e) := e] else old(rows)
    {
      ok := keyOf(e) in rows;
      if ok {
        rows := rows[keyOf(e) := e];
      }
    }

    /** DeleteEntityAsync: removes the row; deleting an absent row is not an error. */
    method DeleteEntity(key: TableKey)
      requires Valid()
      modifies this
      ensures Valid()
      ensures rows == old(rows) - {key}
    {
      rows := rows - {key};
    }

    /** Query<E>().ToList(): every row exactly once. */
    method Query() returns (all: seq<E>)
      requires Valid()
      ensures |all| == |rows|
      ensures forall k :: k in rows ==> rows[k] in all
      ensures forall i :: 0 <= i < |all| ==> keyOf(all[i]) in rows && rows[keyOf(all[i])] == all[i]
      ensures forall i, j :: 0 <= i < j < |all| ==> keyOf(all[i]) != keyOf(all[j])
    {
      all := [];
      var pending := rows.Keys;
      while pending != {}
        invariant pending <= rows.Keys
        invariant |all| + |pending| == |rows.Keys|
        invariant forall k :: k in rows.Keys - pending ==> rows[k] in all
        invariant forall i :: 0 <= i < |all| ==> keyOf(all[i]) in rows.Keys - pending && rows[keyOf(all[i])] == all[i]
        invariant forall i, j :: 0 <= i < j < |all| ==> keyOf(all[i]) != keyOf(all[j])
        decreases pending
      {
        var k :| k in pending;
        all := all + [rows[k]];
        pending := pending - {k};
      }
      assert |rows.Keys| == |rows|;
    }
  }
}
