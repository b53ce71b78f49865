/** The project detail view's content list: filtering by type and search
    query, sorting, the selection list, and the single and bulk item
    operations. */
module ProjectContent {
  import opened Common
  import opened Strings

  /** A card or whiteboard of the project. `kind` is the source's `type`
      ("card" or "whiteboard"); `tags` may be absent; timestamps are
      abstract integers. Fields the operations only carry along (content,
      thumbnail) are not modelled. */
  datatype Item = Item(
    id: int,
    kind: string,
    title: string,
    preview: string,
    tags: Option<seq<string>>,
    lastModified: int,
    createdAt: int)

  function TagsOrEmpty(it: Item): seq<string> {
    if it.tags.Some? then it.tags.value else []
  }

  // ---------------------------------------------------------------------
  // Filtering
  // ---------------------------------------------------------------------

  /** The type filter: "all" keeps everything, otherwise the filter value
      is the item type with an "s" appended ("cards", "whiteboards"). */
  predicate MatchesType(filter: string, it: Item) {
    filter == "all" || filter == it.kind + "s"
  }

  /** Some tag contains the (already lower-cased) query, ignoring case. */
  predicate SomeTagIncludes(tags: seq<string>, q: string) {
    exists i :: 0 <= i < |tags| && Includes(Lower(tags[i]), q)
  }

  /** The search filter: an empty query keeps everything; otherwise the
      lower-cased query must occur in the lower-cased title, preview, or
      one of the tags. */
  predicate MatchesQuery(query: string, it: Item) {
    query == "" ||
    var q := Lower(query);
    Includes(Lower(it.title), q) || Includes(Lower(it.preview), q) ||
    (it.tags.Some? && SomeTagIncludes(it.tags.value, q))
  }

  predicate Keep(filter: string, query: string, it: Item) {
    MatchesType(filter, it) && MatchesQuery(query, it)
  }

  /** The filter stage of `filteredContent`: the items passing both
      filters, in their original order, and every such item. */
  function Visible(items: seq<Item>, filter: string, query: string): (r: seq<Item>)
    ensures IsSubsequence(r, items)
    ensures forall i :: 0 <= i < |r| ==> MatchesType(filter, r[i]) && MatchesQuery(query, r[i])
    ensures forall it :: it in items && Keep(filter, query, it) ==> it in r
    ensures forall it :: multiset(r)[it] == (if Keep(filter, query, it) then multiset(items)[it] else 0)
  {
    var r := Filter(items, it => Keep(filter, query, it));
    assert forall it :: it in items && Keep(filter, query, it) ==> multiset(r)[it] > 0;
    r
  }

  /** With filter "all" and an empty query nothing is hidden. */
  lemma VisibleUnfiltered(items: seq<Item>)
    ensures Visible(items, "all", "") == items
  {
    FilterKeepsAll(items, it => Keep("all", "", it));
  }

  // ---------------------------------------------------------------------
  // Sorting
  // ---------------------------------------------------------------------

  /** The sort selector. `Unknown` stands for any value the comparator's
      `default` branch handles. */
  datatype SortBy = Modified | Created | Name | Type | Unknown

  /** `a` may precede `b` under the comparator: newest first for the two
      timestamps, ascending for name and type, any order otherwise. */
  predicate InOrder(key: SortBy, a: Item, b: Item) {
    match key
    case Modified => a.lastModified >= b.lastModified
    case Created => a.createdAt >= b.createdAt
    case Name => LexLe(a.title, b.title)
    case Type => LexLe(a.kind, b.kind)
    case Unknown => true
  }

  lemma InOrderTotal(key: SortBy, a: Item, b: Item)
    ensures InOrder(key, a, b) || InOrder(key, b, a)
  {
    match key
    case Name => LexTotal(a.title, b.title);
    case Type => LexTotal(a.kind, b.kind);
    case _ =>
  }

  /** The comparator's order is transitive under every key. */
  lemma InOrderTrans(key: SortBy, a: Item, b: Item, c: Item)
    ensures InOrder(key, a, b) && InOrder(key, b, c) ==> InOrder(key, a, c)
  {
    match key
    case Name =>
      if LexLe(a.title, b.title) && LexLe(b.title, c.title) {
        LexTrans(a.title, b.title, c.title);
      }
    case Type =>
      if LexLe(a.kind, b.kind) && LexLe(b.kind, c.kind) {
        LexTrans(a.kind, b.kind, c.kind);
      }
    case _ =>
  }

  /** The comparator answers 0: either item may come first. */
  predicate Tied(key: SortBy, a: Item, b: Item) {
    InOrder(key, a, b) && InOrder(key, b, a)
  }

  /** The items of `s` tied with `z`, in their order in `s`. A sort is
      stable when it leaves this sequence unchanged for every `z`. */
  function TieClass(key: SortBy, z: Item, s: seq<Item>): seq<Item>
    decreases |s|
  {
    if s == [] then []
    else (if Tied(key, z, s[0]) then [s[0]] else []) + TieClass(key, z, s[1..])
  }

  predicate Sorted(key: SortBy, s: seq<Item>) {
    forall i :: 0 <= i < |s| - 1 ==> InOrder(key, s[i], s[i + 1])
  }

  /** Inserts `x` before the first element it may precede. Ties go to `x`,
      which came earlier in the input, so the sort is stable like
      `Array.prototype.sort`. */
  function Insert(key: SortBy, x: Item, s: seq<Item>): (r: seq<Item>)
    ensures multiset(r) == multiset(s) + multiset{x}
    ensures |r| == |s| + 1
    ensures r[0] == x || (s != [] && r[0] == s[0])
    ensures Sorted(key, s) ==> Sorted(key, r)
    decreases |s|
  {
    if s == [] then [x]
    else if InOrder(key, x, s[0]) then
      SortedCons(key, x, s);
      [x] + s
    else
      InOrderTotal(key, x, s[0]);
      assert s == [s[0]] + s[1..];
      var t := Insert(key, x, s[1..]);
      SortedTail(key, s);
      SortedCons(key, s[0], t);
      [s[0]] + t
  }

  /** The tail of a sorted list is sorted and its head may precede it. */
  lemma SortedTail(key: SortBy, s: seq<Item>)
    requires s != []
    ensures Sorted(key, s) ==> Sorted(key, s[1..]) && (|s| > 1 ==> InOrder(key, s[0], s[1]))
  {
    if Sorted(key, s) {
      forall i | 0 <= i < |s[1..]| - 1
        ensures InOrder(key, s[1..][i], s[1..][i + 1])
      {
        assert s[1..][i] == s[i + 1] && s[1..][i + 1] == s[i + 2];
      }
    }
  }

  /** Putting `a` in front of a sorted list it may precede keeps it sorted. */
  lemma SortedCons(key: SortBy, a: Item, t: seq<Item>)
    ensures Sorted(key, t) && (t == [] || InOrder(key, a, t[0])) ==> Sorted(key, [a] + t)
  {
    if Sorted(key, t) && (t == [] || InOrder(key, a, t[0])) {
      forall i | 0 <= i < |[a] + t| - 1
        ensures InOrder(key, ([a] + t)[i], ([a] + t)[i + 1])
      {
        if i > 0 {
          assert ([a] + t)[i] == t[i - 1];
        }
      }
    }
  }

  lemma TieClassCons(key: SortBy, z: Item, a: Item, t: seq<Item>)
    ensures TieClass(key, z, [a] + t) == (if Tied(key, z, a) then [a] else []) + TieClass(key, z, t)
  {
    assert ([a] + t)[1..] == t;
  }

  /** Moving `x` past an item `a` it must follow does not reorder any tie
      class: `x` and `a` are never both tied with the same item. */
  lemma MovePastKeepsTies(key: SortBy, z: Item, x: Item, a: Item, t: seq<Item>, rest: seq<Item>)
    requires !InOrder(key, x, a)
    requires TieClass(key, z, t) == TieClass(key, z, [x] + rest)
    ensures TieClass(key, z, [a] + t) == TieClass(key, z, [x] + ([a] + rest))
  {
    InOrderTrans(key, x, z, a);
    TieClassCons(key, z, a, t);
    TieClassCons(key, z, x, rest);
    TieClassCons(key, z, x, [a] + rest);
    TieClassCons(key, z, a, rest);
    var cx := if Tied(key, z, x) then [x] else [];
    var ca := if Tied(key, z, a) then [a] else [];
    var tr := TieClass(key, z, rest);
    if cx == [] {
      assert ca + (cx + tr) == ca + tr;
      assert cx + (ca + tr) == ca + tr;
    } else {
      assert ca == [];
      assert ca + (cx + tr) == cx + tr;
      assert cx + (ca + tr) == cx + tr;
    }
  }

  /** Inserting `x` in front of `s` keeps every tie class in the order of
      `[x] + s`: `x` only moves past items it must follow. */
  lemma {:induction false} InsertKeepsTies(key: SortBy, x: Item, s: seq<Item>, z: Item)
    ensures TieClass(key, z, Insert(key, x, s)) == TieClass(key, z, [x] + s)
    decreases |s|
  {
    if s != [] && !InOrder(key, x, s[0]) {
      var rest := s[1..];
      var t := Insert(key, x, rest);
      InsertKeepsTies(key, x, rest, z);
      MovePastKeepsTies(key, z, x, s[0], t, rest);
      assert [s[0]] + rest == s;
    }
  }

  /** The sort stage of `filteredContent`: a permutation of its input
      ordered by the selected key, and stable: items the comparator ties
      keep their input order. */
  function SortItems(key: SortBy, s: seq<Item>): (r: seq<Item>)
    ensures multiset(r) == multiset(s)
    ensures |r| == |s|
    ensures Sorted(key, r)
    ensures forall z :: TieClass(key, z, r) == TieClass(key, z, s)
    decreases |s|
  {
    if s == [] then []
    else
      assert s == [s[0]] + s[1..];
      var t := SortItems(key, s[1..]);
      assert forall z :: TieClass(key, z, Insert(key, s[0], t)) == TieClass(key, z, s) by {
        forall z
          ensures TieClass(key, z, Insert(key, s[0], t)) == TieClass(key, z, s)
        {
          InsertKeepsTies(key, s[0], t, z);
          assert ([s[0]] + t)[1..] == t;
        }
      }
      Insert(key, s[0], t)
  }

  /** The comparator's default branch answers 0 for every pair, so the
      stable sort keeps the filtered order. */
  lemma {:induction false} SortUnknownKeepsOrder(s: seq<Item>)
    ensures SortItems(Unknown, s) == s
    decreases |s|
  {
    if s != [] {
      SortUnknownKeepsOrder(s[1..]);
    }
  }

  /** `filteredContent`: filter, then sort. */
  function FilteredContent(items: seq<Item>, filter: string, query: string, key: SortBy): (r: seq<Item>)
    ensures multiset(r) == multiset(Visible(items, filter, query))
    ensures Sorted(key, r)
    ensures forall i :: 0 <= i < |r| ==> Keep(filter, query, r[i])
    ensures forall z :: TieClass(key, z, r) == TieClass(key, z, Visible(items, filter, query))
  {
    var v := Visible(items, filter, query);
    var r := SortItems(key, v);
    assert forall i :: 0 <= i < |r| ==> Keep(filter, query, r[i]) by {
      forall i | 0 <= i < |r|
        ensures Keep(filter, query, r[i])
      {
        assert r[i] in multiset(r);
        assert multiset(v)[r[i]] > 0;
      }
    }
    r
  }

  /** Sorted adjacent pairs give a sorted whole for the timestamp keys:
      every earlier item is at least as recent as every later one. */
  lemma {:induction false} SortedByModifiedPairwise(s: seq<Item>, i: int, j: int)
    requires Sorted(Modified, s)
    requires 0 <= i <= j < |s|
    ensures s[i].lastModified >= s[j].lastModified
    decreases j - i
  {
    if i < j {
      SortedByModifiedPairwise(s, i + 1, j);
    }
  }

  // ---------------------------------------------------------------------
  // Selection
  // ---------------------------------------------------------------------

  function Ids(s: seq<Item>): (r: seq<int>)
    ensures |r| == |s|
    ensures forall i :: 0 <= i < |s| ==> r[i] == s[i].id
  {
    if s == [] then [] else [s[0].id] + Ids(s[1..])
  }

  /** `handleItemSelect`: checking an item appends its id; unchecking
      removes every occurrence of it and keeps the other ids in order. */
  function SelectItem(selection: seq<int>, id: int, isSelected: bool): (r: seq<int>)
    ensures isSelected ==> |r| == |selection| + 1 && r[..|selection|] == selection && r[|selection|] == id
    ensures !isSelected ==> id !in r && IsSubsequence(r, selection)
    ensures !isSelected ==> forall y :: y != id ==> multiset(r)[y] == multiset(selection)[y]
  {
    if isSelected then selection + [id] else RemoveAll(selection, id)
  }

  /** Checking an id that was not selected and unchecking it again restores
      the selection. */
  lemma SelectThenDeselect(selection: seq<int>, id: int)
    requires id !in selection
    ensures SelectItem(SelectItem(selection, id, true), id, false) == selection
  {
    RemoveAllAppended(selection, id);
  }

  /** `handleSelectAll`: when as many ids are selected as items are
      visible, the selection is cleared; otherwise it becomes exactly the
      visible ids in display order. Only the counts are compared. */
  function SelectAll(selection: seq<int>, visible: seq<Item>): (r: seq<int>)
    ensures |selection| == |visible| ==> r == []
    ensures |selection| != |visible| ==>
      |r| == |visible| && forall i :: 0 <= i < |r| ==> r[i] == visible[i].id
  {
    if |selection| == |visible| then [] else Ids(visible)
  }

  /** Select-all toggles: from nothing selected it selects every visible
      item, and from there it clears the selection again. */
  lemma SelectAllToggles(visible: seq<Item>)
    requires visible != []
    ensures SelectAll([], visible) == Ids(visible)
    ensures SelectAll(SelectAll([], visible), visible) == []
  {
  }

  // ---------------------------------------------------------------------
  // Item operations
  // ---------------------------------------------------------------------

  /** The list of items and the ids of the selected ones. */
  datatype ListState = ListState(items: seq<Item>, selection: seq<int>)

  /** `handleBulkDelete`, with the user's answer to the confirmation as
      `confirmed`. Confirmed: exactly the items whose id is selected are
      removed, the rest keep their order, the selection is emptied.
      Declined: nothing changes. */
  function BulkDelete(st: ListState, confirmed: bool): (r: ListState)
    ensures !confirmed ==> r == st
    ensures confirmed ==> r.selection == [] && IsSubsequence(r.items, st.items)
    ensures confirmed ==> forall i :: 0 <= i < |r.items| ==> r.items[i].id !in st.selection
    ensures confirmed ==> forall it: Item :: it.id !in st.selection ==> multiset(r.items)[it] == multiset(st.items)[it]
  {
    if confirmed then
      ListState(Filter(st.items, (it: Item) => it.id !in st.selection), [])
    else st
  }

  /** Confirming a bulk delete with nothing selected keeps every item. */
  lemma BulkDeleteNothingSelected(items: seq<Item>)
    ensures BulkDelete(ListState(items, []), true) == ListState(items, [])
  {
    FilterKeepsAll(items, (it: Item) => it.id !in []);
  }

  /** Tags after bulk tagging: `[...new Set([...(tags || []), ...added])]`. */
  function MergeTags(prior: seq<string>, added: seq<string>): (r: seq<string>)
    ensures NoDup(r)
    ensures forall t :: t in r <==> t in prior || t in added
    ensures NoDup(prior) ==> |prior| <= |r| && r[..|prior|] == prior
  {
    DedupKeepsPrior(prior, added);
    Dedup(prior + added)
  }

  lemma DedupKeepsPrior(prior: seq<string>, added: seq<string>)
    ensures NoDup(prior) ==> |prior| <= |Dedup(prior + added)| && Dedup(prior + added)[..|prior|] == prior
  {
    if NoDup(prior) {
      DedupPrefix(prior, added);
      DedupOfNoDup(prior);
    }
  }

  /** `handleBulkTag`: every selected item gets the union of its tags and
      the added ones, old tags first, without duplicates; unselected items
      are untouched; the list keeps its length and order; the selection is
      emptied. */
  function BulkTag(st: ListState, added: seq<string>): (r: ListState)
    ensures r.selection == []
    ensures |r.items| == |st.items|
    ensures forall i :: 0 <= i < |st.items| && st.items[i].id !in st.selection ==>
      r.items[i] == st.items[i]
    ensures forall i :: 0 <= i < |st.items| && st.items[i].id in st.selection ==>
      && r.items[i].(tags := st.items[i].tags) == st.items[i]
      && r.items[i].tags.Some?
      && NoDup(r.items[i].tags.value)
      && (forall t :: t in r.items[i].tags.value <==> t in TagsOrEmpty(st.items[i]) || t in added)
  {
    ListState(TagSelected(st.items, st.selection, added), [])
  }

  function TagSelected(items: seq<Item>, selection: seq<int>, added: seq<string>): (r: seq<Item>)
    ensures |r| == |items|
    ensures forall i :: 0 <= i < |items| ==>
      r[i] == if items[i].id in selection
              then items[i].(tags := Some(MergeTags(TagsOrEmpty(items[i]), added)))
              else items[i]
    decreases |items|
  {
    if items == [] then []
    else
      var it := items[0];
      var head := if it.id in selection then it.(tags := Some(MergeTags(TagsOrEmpty(it), added))) else it;
      [head] + TagSelected(items[1..], selection, added)
  }

  /** An item that already had duplicate-free tags keeps them, in order, in
      front of the added ones. */
  lemma BulkTagKeepsOldTagsFirst(st: ListState, added: seq<string>, i: int)
    requires 0 <= i < |st.items| && st.items[i].id in st.selection
    requires NoDup(TagsOrEmpty(st.items[i]))
    ensures var prior := TagsOrEmpty(st.items[i]);
      var now := BulkTag(st, added).items[i].tags.value;
      |prior| <= |now| && now[..|prior|] == prior
  {
  }

  /** `handleItemDelete`, with the user's answer as `confirmed`: every item
      with the id of `item` is removed, nothing else. */
  function DeleteItem(items: seq<Item>, item: Item, confirmed: bool): (r: seq<Item>)
    ensures !confirmed ==> r == items
    ensures confirmed ==> IsSubsequence(r, items)
    ensures confirmed ==> forall i :: 0 <= i < |r| ==> r[i].id != item.id
    ensures confirmed ==> forall it: Item :: it.id != item.id ==> multiset(r)[it] == multiset(items)[it]
  {
    if confirmed then Filter(items, (i: Item) => i.id != item.id) else items
  }

  /** `handleItemDuplicate`: a copy titled "<title> (Copy)", with a new id
      and both timestamps set to now, goes in front; the list behind it is
      unchanged. */
  function DuplicateItem(items: seq<Item>, item: Item, newId: int, now: int): (r: seq<Item>)
    ensures |r| == |items| + 1
    ensures r[1..] == items
    ensures r[0].title == item.title + " (Copy)"
    ensures r[0].id == newId && r[0].lastModified == now && r[0].createdAt == now
    ensures r[0].kind == item.kind && r[0].preview == item.preview && r[0].tags == item.tags
  {
    [item.(id := newId, title := item.title + " (Copy)", lastModified := now, createdAt := now)] + items
  }

  /** Duplicating an item under an id no item has, then deleting the copy,
      restores the list. */
  lemma DeleteDuplicate(items: seq<Item>, item: Item, newId: int, now: int)
    requires forall i :: 0 <= i < |items| ==> items[i].id != newId
    ensures var d := DuplicateItem(items, item, newId, now);
      DeleteItem(d, d[0], true) == items
  {
    var d := DuplicateItem(items, item, newId, now);
    FilterKeepsAll(items, (i: Item) => i.id != d[0].id);
    assert d == [d[0]] + items;
  }
}
