/**
 The inbox list: one entry an issue, and archiving all of an issue's items at once
 (packages/core/inbox/queries.ts:38-59, packages/core/inbox/mutations.ts:29-56).
 */
module Inbox {
  import opened Wrappers
  import opened Sorting

  type Id = string

  /** `time` is the creation date as a number; `body` is whatever is only copied. */
  datatype Item = Item(id: Id, issueId: Option<Id>, archived: bool, time: int, body: string)

  /** Newest first. */
  const NEWEST: Item -> int := (x: Item) => -x.time

  const IS_ACTIVE: Item -> bool := (x: Item) => !x.archived

  /** The issue, or the item itself when it has none. */
  function Key(x: Item): Id {
    if x.issueId.Some? then x.issueId.value else x.id
  }

  function HasKey(k: Id): Item -> bool {
    (x: Item) => Key(x) == k
  }

  function LacksKey(k: Id): Item -> bool {
    (x: Item) => Key(x) != k
  }

  // ------------------------------------------------------------------ dedup

  /** The distinct keys, in the order in which they first occur. */
  function Keys(items: seq<Item>): seq<Id> {
    if items == [] then []
    else
      var front, k := Keys(items[..|items| - 1]), Key(items[|items| - 1]);
      if k in front then front else front + [k]
  }

  function Group(items: seq<Item>, k: Id): seq<Item> {
    Filter(items, HasKey(k))
  }

  lemma {:induction false} GroupNonempty(items: seq<Item>, k: Id)
    ensures k in Keys(items) <==> Group(items, k) != []
  {
    if items != [] {
      GroupNonempty(items[..|items| - 1], k);
    }
  }

  /** The first of the key's group, newest first. */
  function Winner(items: seq<Item>, k: Id): Item
    requires k in Keys(items)
  {
    GroupNonempty(items, k);
    StableSort(Group(items, k), NEWEST)[0]
  }

  /** The newest of each group, in the order of the keys. */
  function Winners(items: seq<Item>, keys: seq<Id>): seq<Item>
    requires forall k :: k in keys ==> k in Keys(items)
  {
    if keys == [] then []
    else Winners(items, keys[..|keys| - 1]) + [Winner(items, keys[|keys| - 1])]
  }

  function Merged(items: seq<Item>): seq<Item> {
    Winners(items, Keys(items))
  }

  function Dedup(items: seq<Item>): seq<Item> {
    StableSort(Merged(Filter(items, IS_ACTIVE)), NEWEST)
  }

  lemma KeysSnoc(items: seq<Item>, x: Item, k: Id)
    ensures Keys(items + [x]) == if Key(x) in Keys(items) then Keys(items) else Keys(items) + [Key(x)]
    ensures Group(items + [x], k) == if Key(x) == k then Group(items, k) + [x] else Group(items, k)
  {
    assert (items + [x])[..|items|] == items;
    FilterSnoc(items, x, HasKey(k));
  }

  /** The first loop: a map of groups that remembers the order of its keys. */
  method GroupByKey(active: seq<Item>) returns (keys: seq<Id>, groups: map<Id, seq<Item>>)
    ensures keys == Keys(active)
    ensures forall k :: k in keys ==> k in groups && groups[k] == Group(active, k)
  {
    keys, groups := [], map[];
    for i := 0 to |active|
      invariant keys == Keys(active[..i])
      invariant forall k :: k in groups <==> k in keys
      invariant forall k :: k in groups ==> groups[k] == Group(active[..i], k)
    {
      var item := active[i];
      assert active[..i + 1] == active[..i] + [item];
      var key := Key(item);
      GroupNonempty(active[..i], key);
      forall k {
        KeysSnoc(active[..i], item, k);
      }
      var group := if key in groups then groups[key] else [];
      if key !in groups {
        keys := keys + [key];
      }
      groups := groups[key := group + [item]];
    }
    assert active[..|active|] == active;
  }

  method DeduplicateInboxItems(items: seq<Item>) returns (r: seq<Item>)
    ensures r == Dedup(items)
  {
    var active := Filter(items, IS_ACTIVE);
    var keys, groups := GroupByKey(active);
    var merged: seq<Item> := [];
    for i := 0 to |keys|
      invariant forall k :: k in keys[..i] ==> k in Keys(active)
      invariant merged == Winners(active, keys[..i])
    {
      assert keys[..i + 1][..i] == keys[..i];
      GroupNonempty(active, keys[i]);
      var group := StableSort(groups[keys[i]], NEWEST);
      merged := merged + [group[0]];
    }
    assert keys[..|keys|] == keys;
    r := StableSort(merged, NEWEST);
  }

  // -------------------------------------------------------- what dedup gives

  /** `x` stands at `i`, behind older items of its key only. */
  predicate FirstAt(items: seq<Item>, x: Item, i: nat) {
    i < |items| && items[i] == x && forall j :: 0 <= j < i && Key(items[j]) == Key(x) ==> items[j].time < x.time
  }

  /** No item of the key is newer. */
  predicate NoneNewer(items: seq<Item>, x: Item) {
    forall y :: y in items && Key(y) == Key(x) ==> y.time <= x.time
  }

  /** `x` is the newest item of its key, and the earliest listed among equals. */
  ghost predicate IsNewest(items: seq<Item>, x: Item) {
    NoneNewer(items, x) && exists i: nat :: FirstAt(items, x, i)
  }

  lemma {:induction false} InsertFirst(s: seq<Item>, x: Item)
    requires s != [] && Ascending(s, NEWEST)
    ensures Insert(s, x, NEWEST)[0] == if s[0].time < x.time then x else s[0]
  {
    var front := s[..|s| - 1];
    if s[|s| - 1].time < x.time && front != [] {
      InsertFirst(front, x);
    }
  }

  lemma NewestSnoc(items: seq<Item>, x: Item, last: Item)
    requires IsNewest(items, x)
    ensures Key(last) == Key(x) && x.time < last.time ==> IsNewest(items + [last], last)
    ensures Key(last) != Key(x) || last.time <= x.time ==> IsNewest(items + [last], x)
  {
    var all := items + [last];
    var i: nat :| FirstAt(items, x, i);
    if Key(last) == Key(x) && x.time < last.time {
      forall j | 0 <= j < |items| && Key(all[j]) == Key(last) ensures all[j].time < last.time {
        assert all[j] in items;
      }
      assert FirstAt(all, last, |items|);
    } else {
      assert FirstAt(all, x, i);
    }
  }

  lemma FirstOfKey(items: seq<Item>, x: Item)
    requires Group(items, Key(x)) == []
    ensures IsNewest(items + [x], x)
  {
    var all := items + [x];
    FilterMembers(items, HasKey(Key(x)));
    forall y | y in items ensures Key(y) != Key(x) {
      assert HasKey(Key(x))(y) ==> y in Group(items, Key(x));
    }
    forall j | 0 <= j < |items| ensures Key(all[j]) != Key(x) {
      assert all[j] in items;
    }
    assert FirstAt(all, x, |items|);
  }

  lemma FirstAfterSnoc(g: seq<Item>, x: Item)
    ensures StableSort(g + [x], NEWEST) != []
    ensures StableSort(g + [x], NEWEST)[0] ==
            if g == [] || StableSort(g, NEWEST)[0].time < x.time then x else StableSort(g, NEWEST)[0]
  {
    SortSnoc(g, x, NEWEST);
    SortAscending(g, NEWEST);
    if g != [] {
      InsertFirst(StableSort(g, NEWEST), x);
    }
  }

  lemma {:induction false} GroupFirst(items: seq<Item>, k: Id)
    requires Group(items, k) != []
    ensures var x := StableSort(Group(items, k), NEWEST)[0]; Key(x) == k && IsNewest(items, x)
  {
    var front, last := items[..|items| - 1], items[|items| - 1];
    assert front + [last] == items;
    var g := Group(front, k);
    if Key(last) == k {
      FirstAfterSnoc(g, last);
    }
    if g == [] {
      FirstOfKey(front, last);
    } else {
      GroupFirst(front, k);
      NewestSnoc(front, StableSort(g, NEWEST)[0], last);
    }
  }

  lemma {:induction false} KeysDistinct(items: seq<Item>)
    ensures forall i, j :: 0 <= i < j < |Keys(items)| ==> Keys(items)[i] != Keys(items)[j]
    ensures forall k :: k in Keys(items) <==> exists x :: x in items && Key(x) == k
  {
    if items != [] {
      var front, last := items[..|items| - 1], items[|items| - 1];
      KeysDistinct(front);
      assert items == front + [last];
    }
  }

  lemma WinnerIsNewest(items: seq<Item>, k: Id)
    requires k in Keys(items)
    ensures Key(Winner(items, k)) == k && IsNewest(items, Winner(items, k))
  {
    GroupNonempty(items, k);
    GroupFirst(items, k);
  }

  lemma NewestIsItem(items: seq<Item>, x: Item)
    requires IsNewest(items, x)
    ensures x in items
  {
  }

  lemma {:induction false} WinnersAt(items: seq<Item>, keys: seq<Id>)
    requires forall k :: k in keys ==> k in Keys(items)
    ensures |Winners(items, keys)| == |keys|
    ensures forall i :: 0 <= i < |keys| ==> keys[i] in Keys(items) && Winners(items, keys)[i] == Winner(items, keys[i])
  {
    if keys != [] {
      var n := |keys| - 1;
      var front := keys[..n];
      forall k | k in front ensures k in Keys(items) {
        assert k in keys;
      }
      WinnersAt(items, front);
      assert keys[n] in keys && Winners(items, keys) == Winners(items, front) + [Winner(items, keys[n])];
    }
  }

  /** Entry `i` of the merged list: the newest of key `i`. */
  lemma MergedAt(items: seq<Item>, i: nat)
    requires i < |Keys(items)|
    ensures |Merged(items)| == |Keys(items)|
    ensures Key(Merged(items)[i]) == Keys(items)[i] && Merged(items)[i] in items && IsNewest(items, Merged(items)[i])
  {
    WinnersAt(items, Keys(items));
    WinnerIsNewest(items, Keys(items)[i]);
    NewestIsItem(items, Merged(items)[i]);
  }

  /** No two entries share a key. */
  predicate DistinctKeys(items: seq<Item>) {
    forall i, j :: 0 <= i < j < |items| ==> Key(items[i]) != Key(items[j])
  }

  lemma {:induction false} InsertDistinct(s: seq<Item>, x: Item)
    requires DistinctKeys(s) && forall y :: y in s ==> Key(y) != Key(x)
    ensures DistinctKeys(Insert(s, x, NEWEST))
  {
    if s != [] && s[|s| - 1].time < x.time {
      var front, last := s[..|s| - 1], s[|s| - 1];
      InsertDistinct(front, x);
      InsertPermutes(front, x, NEWEST);
      var r := Insert(front, x, NEWEST);
      forall i | 0 <= i < |r| ensures Key(r[i]) != Key(last) {
        assert r[i] in r && last in s;
      }
    }
  }

  lemma {:induction false} SortDistinct(s: seq<Item>)
    requires DistinctKeys(s)
    ensures DistinctKeys(StableSort(s, NEWEST))
  {
    if s != [] {
      var front := s[..|s| - 1];
      SortDistinct(front);
      SortAscending(front, NEWEST);
      InsertDistinct(StableSort(front, NEWEST), s[|s| - 1]);
    }
  }

  lemma MergedDistinct(active: seq<Item>)
    ensures DistinctKeys(Merged(active))
  {
    KeysDistinct(active);
    WinnersAt(active, Keys(active));
    forall i, j | 0 <= i < j < |Merged(active)| ensures Key(Merged(active)[i]) != Key(Merged(active)[j]) {
      MergedAt(active, i);
      MergedAt(active, j);
    }
  }

  lemma MergedIsNewest(active: seq<Item>, x: Item)
    requires x in Merged(active)
    ensures x in active && IsNewest(active, x)
  {
    WinnersAt(active, Keys(active));
    var i :| 0 <= i < |Merged(active)| && Merged(active)[i] == x;
    MergedAt(active, i);
  }

  lemma MergedCovers(active: seq<Item>, y: Item) returns (x: Item)
    requires y in active
    ensures x in Merged(active) && Key(x) == Key(y)
  {
    KeysDistinct(active);
    assert Key(y) in Keys(active);
    var i :| 0 <= i < |Keys(active)| && Keys(active)[i] == Key(y);
    MergedAt(active, i);
    x := Merged(active)[i];
  }

  lemma EntryOf(items: seq<Item>, y: Item) returns (e: Item)
    requires y in items && !y.archived
    ensures e in Dedup(items) && Key(e) == Key(y)
  {
    var active := Filter(items, IS_ACTIVE);
    FilterMembers(items, IS_ACTIVE);
    SortAscending(Merged(active), NEWEST);
    e := MergedCovers(active, y);
  }

  /** Two items go by one entry: of one issue, or neither of any and one item; an item without an issue goes by its own id. */
  predicate ShareEntry(x: Item, y: Item) {
    match (x.issueId, y.issueId)
    case (Some(i), Some(j)) => i == j
    case (Some(i), None) => i == y.id
    case (None, Some(j)) => x.id == j
    case (None, None) => x.id == y.id
  }

  /**
   Exactly one entry for each key of the items that are not archived, the newest
   one and the earliest listed of several newest, and newest first over all.
   */
  lemma DedupSpecification(items: seq<Item>)
    ensures forall x, y :: Key(x) == Key(y) <==> ShareEntry(x, y)
    ensures DistinctKeys(Dedup(items))
    ensures forall i, j :: 0 <= i < j < |Dedup(items)| ==> Dedup(items)[i].time >= Dedup(items)[j].time
    ensures forall x :: x in Dedup(items) ==> x in items && !x.archived && IsNewest(Filter(items, IS_ACTIVE), x)
    ensures forall y :: y in items && !y.archived ==> exists x :: x in Dedup(items) && Key(x) == Key(y)
  {
    var active := Filter(items, IS_ACTIVE);
    FilterMembers(items, IS_ACTIVE);
    MergedDistinct(active);
    SortDistinct(Merged(active));
    SortAscending(Merged(active), NEWEST);
    forall x | x in Dedup(items) ensures x in items && !x.archived && IsNewest(active, x) {
      MergedIsNewest(active, x);
    }
    forall y | y in items && !y.archived ensures exists x :: x in Dedup(items) && Key(x) == Key(y) {
      var x := EntryOf(items, y);
    }
  }

  // -------------------------------------------------------------- idempotence

  lemma {:induction false} KeysOfDistinct(items: seq<Item>)
    requires DistinctKeys(items)
    ensures |Keys(items)| == |items| && forall i :: 0 <= i < |items| ==> Keys(items)[i] == Key(items[i])
  {
    if items != [] {
      KeysOfDistinct(items[..|items| - 1]);
    }
  }

  lemma MergedOfDistinct(items: seq<Item>)
    requires DistinctKeys(items)
    ensures Merged(items) == items
  {
    var r := Merged(items);
    KeysOfDistinct(items);
    assert |r| == |items| by {
      WinnersAt(items, Keys(items));
    }
    forall i | 0 <= i < |items| ensures r[i] == items[i] {
      MergedAt(items, i);
    }
  }

  lemma {:induction false} FilterAll(items: seq<Item>, p: Item -> bool)
    requires forall x :: x in items ==> p(x)
    ensures Filter(items, p) == items
  {
    if items != [] {
      FilterAll(items[..|items| - 1], p);
      assert items[|items| - 1] in items;
    }
  }

  lemma DedupTwice(items: seq<Item>)
    ensures Dedup(Dedup(items)) == Dedup(items)
  {
    var r := Dedup(items);
    DedupSpecification(items);
    FilterAll(r, IS_ACTIVE);
    MergedOfDistinct(r);
    SortAscending(Merged(Filter(items, IS_ACTIVE)), NEWEST);
    SortOfAscending(r, NEWEST);
  }

  // ----------------------------------------------------------------- archive

  function FindItem(items: seq<Item>, id: Id): Option<Item> {
    if items == [] then None else if items[0].id == id then Some(items[0]) else FindItem(items[1..], id)
  }

  /** The item itself, and every item of its issue when it has one. */
  predicate ToArchive(x: Item, id: Id, issueId: Option<Id>) {
    x.id == id || (issueId.Some? && issueId.value != "" && x.issueId == issueId)
  }

  function ArchiveEach(items: seq<Item>, id: Id, issueId: Option<Id>): seq<Item> {
    if items == [] then []
    else
      var last := items[|items| - 1];
      ArchiveEach(items[..|items| - 1], id, issueId)
      + [if ToArchive(last, id, issueId) then last.(archived := true) else last]
  }

  function Archive(items: seq<Item>, id: Id): seq<Item> {
    var target := FindItem(items, id);
    ArchiveEach(items, id, if target.Some? then target.value.issueId else None)
  }

  /** The optimistic step and its rollback on the cached list. */
  class InboxList {
    var items: Option<seq<Item>>

    method OnArchive(id: Id) returns (prev: Option<seq<Item>>)
      modifies this
      ensures prev == old(items)
      ensures items == if prev.Some? then Some(Archive(prev.value, id)) else None
    {
      prev := items;
      if items.Some? {
        var target := FindItem(items.value, id);
        items := Some(ArchiveEach(items.value, id, if target.Some? then target.value.issueId else None));
      }
    }

    method OnArchiveError(prev: Option<seq<Item>>)
      modifies this
      ensures items == if prev.Some? then prev else old(items)
    {
      if prev.Some? {
        items := prev;
      }
    }
  }

  /** An archive that fails with no write in between leaves the list as it was. */
  method FailedArchive(list: InboxList, id: Id)
    modifies list
    ensures list.items == old(list.items)
  {
    var prev := list.OnArchive(id);
    list.OnArchiveError(prev);
  }

  /** Of the items still shown, archiving `target` hits its group: all of it and nothing else. */
  predicate HitsGroup(items: seq<Item>, target: Item) {
    forall x :: x in items && !x.archived ==> (ToArchive(x, target.id, target.issueId) <==> Key(x) == Key(target))
  }

  /** Unique ids that are no issue's id, and nonempty issue ids, are enough. */
  lemma WellKeyedHitsGroup(items: seq<Item>, target: Item)
    requires target in items
    requires UniqueIds(items)
    requires forall x :: x in items && x.issueId.Some? ==> x.issueId.value != ""
    requires forall x, y :: x in items && y in items && y.issueId.Some? ==> x.id != y.issueId.value
    ensures HitsGroup(items, target)
  {
  }

  lemma {:induction false} FindItemFinds(items: seq<Item>, id: Id)
    ensures if FindItem(items, id).Some? then FindItem(items, id).value in items && FindItem(items, id).value.id == id
            else forall x :: x in items ==> x.id != id
  {
    if items != [] {
      FindItemFinds(items[1..], id);
      assert items == [items[0]] + items[1..];
    }
  }

  /** The item is to be marked: it has the id, or is of the nonempty issue of the first item that has it. */
  predicate GoesWith(items: seq<Item>, x: Item, id: Id) {
    || x.id == id
    || (x.issueId.Some? && x.issueId.value != ""
        && exists i :: 0 <= i < |items| && items[i].id == id && items[i].issueId == x.issueId
                       && forall j :: 0 <= j < i ==> items[j].id != id)
  }

  lemma {:induction false} FindItemFirst(items: seq<Item>, id: Id, i: nat)
    requires i < |items| && items[i].id == id && forall j :: 0 <= j < i ==> items[j].id != id
    ensures FindItem(items, id) == Some(items[i])
  {
    if i > 0 {
      FindItemFirst(items[1..], id, i - 1);
    }
  }

  lemma FirstWithId(items: seq<Item>, id: Id) returns (i: nat)
    requires exists x :: x in items && x.id == id
    ensures i < |items| && items[i].id == id && forall j :: 0 <= j < i ==> items[j].id != id
  {
    i := 0;
    while i < |items| && items[i].id != id
      invariant i <= |items| && forall j :: 0 <= j < i ==> items[j].id != id
    {
      i := i + 1;
    }
  }

  lemma GoesWithTarget(items: seq<Item>, x: Item, id: Id)
    ensures var target := FindItem(items, id);
            GoesWith(items, x, id) <==> ToArchive(x, id, if target.Some? then target.value.issueId else None)
  {
    FindItemFinds(items, id);
    if FindItem(items, id).Some? {
      var i := FirstWithId(items, id);
      FindItemFirst(items, id, i);
    }
  }

  lemma {:induction false} ArchiveEachAt(items: seq<Item>, id: Id, issueId: Option<Id>)
    ensures |ArchiveEach(items, id, issueId)| == |items|
    ensures forall i :: 0 <= i < |items| ==>
              ArchiveEach(items, id, issueId)[i] == if ToArchive(items[i], id, issueId) then items[i].(archived := true) else items[i]
  {
    if items != [] {
      ArchiveEachAt(items[..|items| - 1], id, issueId);
    }
  }

  /** Archiving marks just the item and those of its issue, each in its place, and changes nothing else. */
  lemma ArchiveMarks(items: seq<Item>, id: Id)
    ensures |Archive(items, id)| == |items|
    ensures forall i :: 0 <= i < |items| ==>
              Archive(items, id)[i] == if GoesWith(items, items[i], id) then items[i].(archived := true) else items[i]
  {
    var target := FindItem(items, id);
    ArchiveEachAt(items, id, if target.Some? then target.value.issueId else None);
    forall i | 0 <= i < |items| {
      GoesWithTarget(items, items[i], id);
    }
  }

  lemma {:induction false} ActiveAfterArchive(items: seq<Item>, target: Item)
    requires HitsGroup(items, target)
    ensures Filter(ArchiveEach(items, target.id, target.issueId), IS_ACTIVE) ==
            Filter(Filter(items, IS_ACTIVE), LacksKey(Key(target)))
  {
    if items != [] {
      var front, last := items[..|items| - 1], items[|items| - 1];
      assert items == front + [last];
      ActiveAfterArchive(front, target);
      var now := if ToArchive(last, target.id, target.issueId) then last.(archived := true) else last;
      FilterSnoc(ArchiveEach(front, target.id, target.issueId), now, IS_ACTIVE);
      FilterSnoc(front, last, IS_ACTIVE);
      FilterSnoc(Filter(front, IS_ACTIVE), last, LacksKey(Key(target)));
    }
  }

  /** The keys without `k`. */
  function OtherKeys(keys: seq<Id>, k: Id): seq<Id> {
    if keys == [] then []
    else if keys[|keys| - 1] == k then OtherKeys(keys[..|keys| - 1], k)
    else OtherKeys(keys[..|keys| - 1], k) + [keys[|keys| - 1]]
  }

  lemma {:induction false} OtherKeysMembers(keys: seq<Id>, k: Id)
    ensures forall i :: i in OtherKeys(keys, k) <==> i in keys && i != k
  {
    if keys != [] {
      OtherKeysMembers(keys[..|keys| - 1], k);
      assert keys == keys[..|keys| - 1] + [keys[|keys| - 1]];
    }
  }

  lemma {:induction false} KeysWithout(items: seq<Item>, k: Id)
    ensures Keys(Filter(items, LacksKey(k))) == OtherKeys(Keys(items), k)
  {
    if items != [] {
      var front, last := items[..|items| - 1], items[|items| - 1];
      KeysWithout(front, k);
      OtherKeysMembers(Keys(front), k);
      var f := Filter(front, LacksKey(k));
      assert (f + [last])[..|f|] == f;
      var ks := Keys(front);
      assert (ks + [Key(last)])[..|ks|] == ks;
    }
  }

  lemma {:induction false} GroupWithout(items: seq<Item>, k: Id, other: Id)
    requires k != other
    ensures Group(Filter(items, LacksKey(k)), other) == Group(items, other)
  {
    if items != [] {
      var front, last := items[..|items| - 1], items[|items| - 1];
      GroupWithout(front, k, other);
      FilterSnoc(Filter(front, LacksKey(k)), last, HasKey(other));
    }
  }

  lemma {:induction false} WinnersWithout(items: seq<Item>, keys: seq<Id>, k: Id)
    requires forall i :: i in keys ==> i in Keys(items)
    ensures forall i :: i in OtherKeys(keys, k) ==> i in Keys(Filter(items, LacksKey(k)))
    ensures Winners(Filter(items, LacksKey(k)), OtherKeys(keys, k)) == Filter(Winners(items, keys), LacksKey(k))
  {
    KeysWithout(items, k);
    OtherKeysMembers(Keys(items), k);
    OtherKeysMembers(keys, k);
    if keys != [] {
      var front, last := keys[..|keys| - 1], keys[|keys| - 1];
      WinnersWithout(items, front, k);
      WinnerIsNewest(items, last);
      FilterSnoc(Winners(items, front), Winner(items, last), LacksKey(k));
      if last != k {
        GroupWithout(items, k, last);
        var others := OtherKeys(front, k);
        assert (others + [last])[..|others|] == others;
      }
    }
  }

  lemma ArchiveKeepsOrder(items: seq<Item>, target: Item)
    requires HitsGroup(items, target)
    ensures Dedup(ArchiveEach(items, target.id, target.issueId)) == Filter(Dedup(items), LacksKey(Key(target)))
  {
    var active := Filter(items, IS_ACTIVE);
    ActiveAfterArchive(items, target);
    WinnersWithout(active, Keys(active), Key(target));
    KeysWithout(active, Key(target));
    SortFilter(Merged(active), NEWEST, LacksKey(Key(target)));
  }

  predicate UniqueIds(items: seq<Item>) {
    forall x, y :: x in items && y in items && x.id == y.id ==> x == y
  }

  lemma {:induction false} StaysListed(items: seq<Item>, id: Id, issueId: Option<Id>, x: Item)
    requires x in items && !ToArchive(x, id, issueId)
    ensures x in ArchiveEach(items, id, issueId)
  {
    var front, last := items[..|items| - 1], items[|items| - 1];
    assert items == front + [last];
    if x in front {
      StaysListed(front, id, issueId, x);
    }
  }

  lemma KeyIsGone(items: seq<Item>, k: Id, e: Item)
    requires Key(e) == k
    ensures e !in Filter(items, LacksKey(k))
  {
    FilterMembers(items, LacksKey(k));
  }

  /** An item of the target's group that the archive misses still gets its group an entry. */
  lemma MissedItemShows(items: seq<Item>, target: Item, x: Item)
    requires x in items && !x.archived && Key(x) == Key(target) && !ToArchive(x, target.id, target.issueId)
    ensures Dedup(ArchiveEach(items, target.id, target.issueId)) != Filter(Dedup(items), LacksKey(Key(target)))
  {
    StaysListed(items, target.id, target.issueId, x);
    var e := EntryOf(ArchiveEach(items, target.id, target.issueId), x);
    KeyIsGone(Dedup(items), Key(target), e);
  }

  /**
   Archiving commutes with deduplication: the list afterwards is the list before
   without the one entry of the archived item's key, in the same order; with unique
   item ids exactly when the archive hits that item's group.
   */
  lemma ArchiveCommutesWithDedup(items: seq<Item>, id: Id)
    ensures FindItem(items, id).None? ==> Dedup(Archive(items, id)) == Dedup(items)
    ensures FindItem(items, id).Some? ==>
              var target := FindItem(items, id).value;
              && (HitsGroup(items, target) ==> Dedup(Archive(items, id)) == Filter(Dedup(items), LacksKey(Key(target))))
              && (UniqueIds(items) && Dedup(Archive(items, id)) == Filter(Dedup(items), LacksKey(Key(target))) ==>
                    HitsGroup(items, target))
  {
    FindItemFinds(items, id);
    if FindItem(items, id).None? {
      ArchiveNothing(items, id);
    } else {
      var target := FindItem(items, id).value;
      if HitsGroup(items, target) {
        ArchiveKeepsOrder(items, target);
      } else if UniqueIds(items) {
        var x :| x in items && !x.archived && (ToArchive(x, target.id, target.issueId) != (Key(x) == Key(target)));
        MissedItemShows(items, target, x);
      }
    }
  }

  lemma ArchiveSnoc(items: seq<Item>, last: Item, id: Id, issueId: Option<Id>)
    ensures ArchiveEach(items + [last], id, issueId) ==
            ArchiveEach(items, id, issueId) + [if ToArchive(last, id, issueId) then last.(archived := true) else last]
  {
    assert (items + [last])[..|items|] == items;
  }

  lemma {:induction false} ArchiveNothing(items: seq<Item>, id: Id)
    requires forall x :: x in items ==> x.id != id
    ensures ArchiveEach(items, id, None) == items
  {
    if items != [] {
      var n := |items| - 1;
      assert items == items[..n] + [items[n]];
      forall x | x in items[..n] ensures x.id != id {
        assert x in items;
      }
      ArchiveNothing(items[..n], id);
      ArchiveSnoc(items[..n], items[n], id, None);
      assert items[n] in items;
    }
  }
}
