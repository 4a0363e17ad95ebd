/**
 * The media item and media file tables the scanner and the identification
 * step read and write. A table is a sequence of rows in the order the
 * queries see them; a queryset's `.first()` is the first matching row.
 */
module Catalog {
  import opened Wrappers
  import opened Models

  /** The first index whose row satisfies `p`. */
  function FirstWhere<T>(rows: seq<T>, p: T -> bool): (r: Option<nat>)
    ensures r.Some? ==> r.value < |rows| && p(rows[r.value]) && forall j :: 0 <= j < r.value ==> !p(rows[j])
    ensures r.None? <==> forall j :: 0 <= j < |rows| ==> !p(rows[j])
    decreases |rows|
  {
    if rows == [] then None
    else if p(rows[0]) then Some(0)
    else
      var rest := FirstWhere(rows[1..], p);
      if rest.Some? then Some(rest.value + 1) else None
  }

  /** The first matching index is the only index with that description. */
  lemma {:induction false} FirstWhereIs<T>(rows: seq<T>, p: T -> bool, k: nat)
    requires k < |rows| && p(rows[k]) && forall j :: 0 <= j < k ==> !p(rows[j])
    ensures FirstWhere(rows, p) == Some(k)
    decreases |rows|
  {
    if k > 0 {
      assert !p(rows[0]);
      FirstWhereIs(rows[1..], p, k - 1);
    }
  }

  /** Appending a row never changes an earlier answer. */
  lemma FirstWhereAppend<T>(rows: seq<T>, x: T, p: T -> bool)
    ensures FirstWhere(rows, p).Some? ==> FirstWhere(rows + [x], p) == FirstWhere(rows, p)
    ensures FirstWhere(rows, p).None? ==> FirstWhere(rows + [x], p) == if p(x) then Some(|rows|) else None
  {
    var r := FirstWhere(rows, p);
    assert forall j :: 0 <= j < |rows| ==> (rows + [x])[j] == rows[j];
    if r.Some? {
      FirstWhereIs(rows + [x], p, r.value);
    } else if p(x) {
      FirstWhereIs(rows + [x], p, |rows|);
    }
  }

  /** Replacing a row by one that answers `p` the same way changes nothing. */
  lemma FirstWhereUpdate<T>(rows: seq<T>, i: nat, x: T, p: T -> bool)
    requires i < |rows| && p(x) == p(rows[i])
    ensures FirstWhere(rows[i := x], p) == FirstWhere(rows, p)
  {
    var r := FirstWhere(rows, p);
    assert forall j :: 0 <= j < |rows| ==> p(rows[i := x][j]) == p(rows[j]);
    if r.Some? {
      FirstWhereIs(rows[i := x], p, r.value);
    }
  }

  predicate ItemIdsValid(items: seq<Item>, nextId: nat) {
    (forall i :: 0 <= i < |items| ==> items[i].id < nextId)
    && (forall i, j :: 0 <= i < j < |items| ==> items[i].id != items[j].id)
  }

  predicate FileIdsValid(files: seq<MediaFileRecord>, nextId: nat) {
    (forall i :: 0 <= i < |files| ==> files[i].id < nextId)
    && (forall i, j :: 0 <= i < j < |files| ==> files[i].id != files[j].id)
  }

  /** The row with primary key `id`. */
  function ItemIndex(items: seq<Item>, id: nat): (r: Option<nat>)
    ensures r.Some? ==> r.value < |items| && items[r.value].id == id
    ensures r.None? ==> forall j :: 0 <= j < |items| ==> items[j].id != id
  {
    FirstWhere(items, (x: Item) => x.id == id)
  }

  function FileIndex(files: seq<MediaFileRecord>, id: nat): (r: Option<nat>)
    ensures r.Some? ==> r.value < |files| && files[r.value].id == id
    ensures r.None? ==> forall j :: 0 <= j < |files| ==> files[j].id != id
  {
    FirstWhere(files, (x: MediaFileRecord) => x.id == id)
  }

  /** With distinct keys, the row found by key is the only one holding it. */
  lemma ItemIndexUnique(items: seq<Item>, nextId: nat, k: nat)
    requires ItemIdsValid(items, nextId) && k < |items|
    ensures ItemIndex(items, items[k].id) == Some(k)
  {
  }

  /** A new row with a key never handed out keeps the keys distinct. */
  lemma ItemIdsValidAppend(items: seq<Item>, nextId: nat, it: Item)
    requires ItemIdsValid(items, nextId) && it.id == nextId
    ensures ItemIdsValid(items + [it], nextId + 1)
  {
  }

  /** The media item and media file tables with their next primary keys. */
  datatype Tables = Tables(items: seq<Item>, nextItemId: nat, files: seq<MediaFileRecord>, nextFileId: nat)

  predicate TablesValid(t: Tables) {
    ItemIdsValid(t.items, t.nextItemId) && FileIdsValid(t.files, t.nextFileId)
  }

  /** The database: the two tables, which the scan and identification steps update in place. */
  class Database {
    var items: seq<Item>
    var nextItemId: nat
    var files: seq<MediaFileRecord>
    var nextFileId: nat

    function State(): Tables
      reads this
    {
      Tables(items, nextItemId, files, nextFileId)
    }

    constructor (t: Tables)
      ensures State() == t
    {
      items, nextItemId, files, nextFileId := t.items, t.nextItemId, t.files, t.nextFileId;
    }
  }
}
