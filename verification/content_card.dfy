/** One entry of the project's content list: where clicking it leads, and
    how many of its tags are shown as chips before a "+n" overflow badge. */
module ContentCard {
  import opened Common
  import opened ProjectContent

  datatype ViewMode = List | Grid

  /** The list row shows two tag chips, the grid tile three. */
  function ChipLimit(mode: ViewMode): (k: nat)
    ensures k > 0
  {
    match mode
    case List => 2
    case Grid => 3
  }

  /** The chips shown and, when some tags do not fit, the "+n" count. */
  datatype TagRow = TagRow(shown: seq<string>, overflow: Option<nat>)

  /** The tag row of an item; absent when the item has no tags or an empty
      tag list. */
  function TagRowFor(tags: Option<seq<string>>, mode: ViewMode): (r: Option<TagRow>)
    ensures r.None? <==> tags.None? || tags.value == []
    ensures r.Some? ==>
      var t := tags.value;
      var k := ChipLimit(mode);
      && r.value.shown == t[..if |t| < k then |t| else k]
      && (r.value.overflow.Some? <==> |t| > k)
      && (r.value.overflow.Some? ==> r.value.overflow.value == |t| - k)
  {
    if tags.None? || tags.value == [] then None
    else
      var t := tags.value;
      var k := ChipLimit(mode);
      var shown := if |t| < k then t else t[..k];
      Some(TagRow(shown, if |t| > k then Some(|t| - k) else None))
  }

  /** Nothing is lost: the chips plus the overflow count account for every
      tag, and the chips are the leading tags in order. */
  lemma TagRowAccountsForAll(tags: seq<string>, mode: ViewMode)
    requires tags != []
    ensures var r := TagRowFor(Some(tags), mode).value;
      && |r.shown| + (if r.overflow.Some? then r.overflow.value else 0) == |tags|
      && tags[..|r.shown|] == r.shown
      && 0 < |r.shown| <= ChipLimit(mode)
  {
  }

  /** The grid tile never shows fewer chips than the list row. */
  lemma GridShowsAtLeastList(tags: seq<string>)
    requires tags != []
    ensures |TagRowFor(Some(tags), List).value.shown| <= |TagRowFor(Some(tags), Grid).value.shown|
  {
  }

  /** Where a click navigates: the card editor for cards, the whiteboard
      page for everything else, both with the item's id. */
  datatype Route = CardEditorRoute(id: int) | WhiteboardRoute(id: int)

  function ClickTarget(it: Item): (r: Route)
    ensures r.id == it.id
    ensures r.CardEditorRoute? <==> it.kind == "card"
  {
    if it.kind == "card" then CardEditorRoute(it.id) else WhiteboardRoute(it.id)
  }
}
