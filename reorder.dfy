/** The admin list pages for categories and banners: moving a row up or down, the busy flag
    held while the new order is submitted, the move buttons' disabled states and the create
    payload that puts a new row at the end. */
module Reorder {
  import opened Seqs
  import opened Schema
  import opened Store
  import opened Routes

  datatype Direction = Up | Down

  /** The position a row moves to: one up or one down. */
  function MoveTarget(index: int, dir: Direction): int {
    if dir == Up then index - 1 else index + 1
  }

  /** The id list a move submits, or None when the target lies outside the list. */
  function MoveRequest<T>(rows: seq<T>, key: T -> Id, index: nat, dir: Direction): (r: Option<seq<Id>>)
    requires index < |rows|
    ensures r.None? <==> (dir == Up && index == 0) || (dir == Down && index == |rows| - 1)
    ensures r.Some? ==> |r.value| == |rows|
    ensures r.Some? ==>
      var t := MoveTarget(index, dir);
      0 <= t < |rows| && r.value[index] == key(rows[t]) && r.value[t] == key(rows[index])
      && forall k :: 0 <= k < |rows| && k != index && k != t ==> r.value[k] == key(rows[k])
  {
    var t := MoveTarget(index, dir);
    if t < 0 || t >= |rows| then None else Some(Map(Swapped(rows, index, t), key))
  }

  /** The submitted ids are a rearrangement of the ids on screen. */
  lemma MoveRequestPermutes<T>(rows: seq<T>, key: T -> Id, index: nat, dir: Direction)
    requires index < |rows|
    ensures var r := MoveRequest(rows, key, index, dir);
            r.Some? ==> multiset(r.value) == multiset(Map(rows, key))
  {
    var t := MoveTarget(index, dir);
    if 0 <= t < |rows| {
      MapSwapped(rows, key, index, t);
      SwappedPermutes(Map(rows, key), index, t);
    }
  }

  /** Moving a row and then moving it back, from its new position the other way, submits the
      original order again. */
  lemma MoveBackRestores<T>(rows: seq<T>, key: T -> Id, index: nat, dir: Direction)
    requires index < |rows| && MoveRequest(rows, key, index, dir).Some?
    ensures var t := MoveTarget(index, dir);
            var back := if dir == Up then Down else Up;
            0 <= t < |rows| && MoveTarget(t, back) == index
            && MoveRequest(Swapped(rows, index, t), key, t, back) == Some(Map(rows, key))
  {
    var t := MoveTarget(index, dir);
    SwappedTwice(rows, index, t);
    assert Swapped(Swapped(rows, index, t), t, index) == Swapped(Swapped(rows, index, t), index, t);
  }

  /** "Up" is disabled on the first row and while a reorder runs. */
  predicate UpDisabled(index: nat, busy: bool) {
    index == 0 || busy
  }

  /** "Down" is disabled on the last row and while a reorder runs. */
  predicate DownDisabled(index: nat, count: nat, busy: bool) {
    index == count - 1 || busy
  }

  /** Outside a reorder, a move button is disabled exactly when the move would be ignored. */
  lemma DisabledIffIgnored<T>(rows: seq<T>, key: T -> Id, index: nat)
    requires index < |rows|
    ensures UpDisabled(index, false) <==> MoveRequest(rows, key, index, Up).None?
    ensures DownDisabled(index, |rows|, false) <==> MoveRequest(rows, key, index, Down).None?
  {
  }

  /** A list page: the rows as fetched, the busy flag and the row key (`id`). */
  class ReorderPage<T> {
    const key: T -> Id
    var rows: seq<T>
    var isReordering: bool

    constructor (key: T -> Id, rows: seq<T>)
      ensures this.key == key && this.rows == rows && !isReordering
    {
      this.key := key;
      this.rows := rows;
      isReordering := false;
    }

    /** `moveCategory` / `moveBanner` up to the request: copy the rows, swap the two positions in
        the copy, and submit its ids while busy. A move off either end sends nothing and leaves
        the busy flag alone. */
    method BeginMove(index: nat, dir: Direction) returns (request: Option<seq<Id>>)
      requires index < |rows|
      modifies this`isReordering
      ensures request == MoveRequest(rows, key, index, dir)
      ensures request.None? ==> isReordering == old(isReordering)
      ensures request.Some? ==> isReordering
    {
      var current := rows;
      var newOrder := new T[|current|](i requires 0 <= i < |current| => current[i]);
      var target := MoveTarget(index, dir);
      if target < 0 || target >= newOrder.Length {
        return None;
      }
      newOrder[index], newOrder[target] := newOrder[target], newOrder[index];
      assert newOrder[..] == Swapped(current, index, target);
      var ids := Map(newOrder[..], key);
      isReordering := true;
      request := Some(ids);
    }

    /** The `finally` after the request: the flag drops whether the request succeeded or not. */
    method FinishMove()
      modifies this`isReordering
      ensures !isReordering
    {
      isReordering := false;
    }
  }

  /** The category form: the name is required; a new category is created with `order` equal to
      the number of categories on screen. */
  function CategorySubmission(editing: Option<Category>, name: string, count: nat)
    : (r: Option<Submission<InsertCategory, CategoryPatch>>)
    ensures r.None? <==> name == ""
    ensures r.Some? && editing.None? ==> r.value == Create(InsertCategory(name, Some(count)))
    ensures r.Some? && editing.Some? ==> r.value == Update(editing.value.id, CategoryPatch(Some(name), None))
  {
    if name == "" then None
    else if editing.Some? then Some(Update(editing.value.id, CategoryPatch(Some(name), None)))
    else Some(Create(InsertCategory(name, Some(count))))
  }

  /** The banner form: the image URL is required; a new banner is created with `order` equal
      to the number of banners on screen. */
  function BannerSubmission(editing: Option<Banner>, imageUrl: string, isActive: bool, count: nat)
    : (r: Option<Submission<InsertBanner, BannerPatch>>)
    ensures r.None? <==> imageUrl == ""
    ensures r.Some? && editing.None? ==>
      r.value == Create(InsertBanner(imageUrl, Some(count), Some(isActive)))
    ensures r.Some? && editing.Some? ==>
      r.value == Update(editing.value.id, BannerPatch(Some(imageUrl), None, Some(isActive)))
  {
    if imageUrl == "" then None
    else if editing.Some? then Some(Update(editing.value.id, BannerPatch(Some(imageUrl), None, Some(isActive))))
    else Some(Create(InsertBanner(imageUrl, Some(count), Some(isActive))))
  }

  /** Rows numbered 0..n-1 (as a full reorder leaves them): a created category sorts after all
      of them. */
  lemma NewCategorySortsLast(rows: seq<Category>, name: string, id: Id)
    requires name != ""
    requires forall i :: 0 <= i < |rows| ==> rows[i].order < |rows|
    ensures var s := CategorySubmission(None, name, |rows|);
            s.Some? && s.value.Create?
            && forall i :: 0 <= i < |rows| ==> rows[i].order < CategoryRow(id, s.value.payload).order
  {
  }

  /** The same for a created banner. */
  lemma NewBannerSortsLast(rows: seq<Banner>, imageUrl: string, isActive: bool, id: Id)
    requires imageUrl != ""
    requires forall i :: 0 <= i < |rows| ==> rows[i].order < |rows|
    ensures var s := BannerSubmission(None, imageUrl, isActive, |rows|);
            s.Some? && s.value.Create?
            && forall i :: 0 <= i < |rows| ==> rows[i].order < BannerRow(id, s.value.payload).order
  {
  }
}
