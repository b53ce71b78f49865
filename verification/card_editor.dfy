/** The card editor page: the card being edited, the snapshot it is
    compared against to decide whether there are unsaved changes, and the
    load, autosave, duplicate and move transitions. Dates are abstract
    integer timestamps; the autosave timer is an explicit completion step. */
module CardEditor {
  import opened Common
  import CardMetadata

  datatype Card = Card(
    id: string,
    title: string,
    content: string,
    project: string,
    tags: seq<string>,
    createdAt: int,
    modifiedAt: int)

  datatype SaveStatus = Saved | Saving

  /** `cardData`, `originalData` (absent until the first load),
      `hasUnsavedChanges` and `saveStatus`. */
  datatype Editor = Editor(
    card: Card,
    original: Option<Card>,
    hasUnsavedChanges: bool,
    saveStatus: SaveStatus)

  /** The comparison behind the unsaved-changes flag: two cards agree on
      title, content, project and the tag sequence (compared as JSON, so
      order and multiplicity matter). Id and timestamps are ignored. */
  predicate SameContent(a: Card, b: Card) {
    a.title == b.title && a.content == b.content && a.project == b.project && a.tags == b.tags
  }

  /** The two effects that run after every change of the card or the
      snapshot: recompute the unsaved-changes flag (only once a snapshot
      exists) and, when it is set, show "saving" while the autosave timer
      runs. */
  function Settle(e: Editor): (r: Editor)
    ensures r.card == e.card && r.original == e.original
    ensures e.original.Some? ==> (r.hasUnsavedChanges <==> !SameContent(e.card, e.original.value))
    ensures e.original.None? ==> r.hasUnsavedChanges == e.hasUnsavedChanges
    ensures r.hasUnsavedChanges ==> r.saveStatus == Saving
    ensures !r.hasUnsavedChanges ==> r.saveStatus == e.saveStatus
  {
    var dirty := if e.original.Some? then !SameContent(e.card, e.original.value) else e.hasUnsavedChanges;
    e.(hasUnsavedChanges := dirty, saveStatus := if dirty then Saving else e.saveStatus)
  }

  /** The blank card a new or unknown id opens. */
  function BlankCard(now: int): Card {
    Card("new", "", "", "", [], now, now)
  }

  /** The load effect. `store` is the set of existing cards (the page's
      mock cards "1" and "2"). A non-empty id found in the store loads that
      card; anything else opens a blank card with id "new". Either way the
      snapshot is the loaded card, so nothing is unsaved. */
  function Load(e: Editor, store: map<string, Card>, cardId: Option<string>, now: int): (r: Editor)
    ensures r.original == Some(r.card)
    ensures !r.hasUnsavedChanges
    ensures cardId.Some? && cardId.value != "" && cardId.value in store ==> r.card == store[cardId.value]
    ensures !(cardId.Some? && cardId.value != "" && cardId.value in store) ==>
      r.card.id == "new" && r.card.title == "" && r.card.content == "" &&
      r.card.project == "" && r.card.tags == []
    ensures r.saveStatus == e.saveStatus
  {
    var c := if cardId.Some? && cardId.value != "" && cardId.value in store then store[cardId.value] else BlankCard(now);
    Settle(e.(card := c, original := Some(c)))
  }

  /** What the panels edit: one field of the card. */
  datatype Edit = Title(title: string) | Content(content: string) | Project(project: string) | Tags(tags: seq<string>)

  /** Applies an edit and lets the effects run: the edited field takes the
      new value and nothing else in the card changes. */
  function ApplyEdit(e: Editor, edit: Edit): (r: Editor)
    ensures edit.Title? ==> r.card == e.card.(title := edit.title)
    ensures edit.Content? ==> r.card == e.card.(content := edit.content)
    ensures edit.Project? ==> r.card == e.card.(project := edit.project)
    ensures edit.Tags? ==> r.card == e.card.(tags := edit.tags)
    ensures r.card.id == e.card.id && r.card.createdAt == e.card.createdAt && r.card.modifiedAt == e.card.modifiedAt
    ensures r.original == e.original
    ensures e.original.Some? ==> (r.hasUnsavedChanges <==> !SameContent(r.card, e.original.value))
  {
    var c := match edit
      case Title(t) => e.card.(title := t)
      case Content(x) => e.card.(content := x)
      case Project(p) => e.card.(project := p)
      case Tags(ts) => e.card.(tags := ts);
    Settle(e.(card := c))
  }

  /** Undoing an edit by hand (typing the old value back) clears the
      unsaved-changes flag: the flag compares with the snapshot, not with
      the edit history. */
  lemma EditBackIsClean(e: Editor, t: string)
    requires e.original.Some? && e.card == e.original.value
    ensures !ApplyEdit(ApplyEdit(e, Title(t)), Title(e.card.title)).hasUnsavedChanges
  {
  }

  /** The autosave timer fires (it is only running while changes are
      unsaved): status saved, flag cleared, the snapshot becomes the card,
      and the card's modification time is bumped. */
  function AutosaveComplete(e: Editor, now: int): (r: Editor)
    ensures !e.hasUnsavedChanges ==> r == e
    ensures e.hasUnsavedChanges ==>
      && r.saveStatus == Saved
      && !r.hasUnsavedChanges
      && r.original == Some(e.card)
      && r.card == e.card.(modifiedAt := now)
  {
    if e.hasUnsavedChanges then
      Editor(e.card.(modifiedAt := now), Some(e.card), false, Saved)
    else e
  }

  /** The bumped modification time does not make the card dirty again: the
      effects that run after the save completes leave the flag down and the
      status at "saved". */
  lemma SaveCompletionStaysClean(e: Editor, now: int)
    requires e.hasUnsavedChanges
    ensures var r := Settle(AutosaveComplete(e, now));
      !r.hasUnsavedChanges && r.saveStatus == Saved && r.card.modifiedAt == now
  {
  }

  /** `handleDuplicate`: the card becomes a copy with id "new", the title
      suffixed " (Copy)" and a fresh creation time; content, project and
      tags are kept; the copy is its own snapshot, so it is not dirty. */
  function Duplicate(e: Editor, now: int): (r: Editor)
    ensures r.card.id == "new"
    ensures r.card.title == e.card.title + " (Copy)"
    ensures r.card.content == e.card.content && r.card.project == e.card.project && r.card.tags == e.card.tags
    ensures r.card.createdAt == now && r.card.modifiedAt == e.card.modifiedAt
    ensures r.original == Some(r.card) && !r.hasUnsavedChanges
  {
    var dup := e.card.(id := "new", title := e.card.title + " (Copy)", createdAt := now);
    Settle(e.(card := dup, original := Some(dup)))
  }

  /** `handleMove`: only the project changes, and the effects recompute
      the unsaved-changes flag against the snapshot. */
  function Move(e: Editor, projectId: string): (r: Editor)
    ensures r.card.project == projectId
    ensures r.card.(project := e.card.project) == e.card
    ensures r.original == e.original
    ensures e.original.Some? ==> (r.hasUnsavedChanges <==> !SameContent(r.card, e.original.value))
    ensures e.original.Some? && SameContent(e.card, e.original.value) ==>
      (r.hasUnsavedChanges <==> projectId != e.original.value.project)
  {
    Settle(e.(card := e.card.(project := projectId)))
  }

  /** `getProjectName`: the label of a known project id, "Unassigned"
      otherwise. */
  const ProjectMap: map<string, string> := map[
    "research-methodology" := "Research Methodology",
    "literature-review" := "Literature Review",
    "data-analysis" := "Data Analysis",
    "getting-started" := "Getting Started",
    "para-system" := "PARA System",
    "my-library" := "My Library"]

  function ProjectName(projectId: string): (r: string)
    ensures r == "Unassigned" <==> projectId !in ProjectMap
  {
    if projectId in ProjectMap then ProjectMap[projectId] else "Unassigned"
  }

  /** The page's label table agrees with the metadata panel's project
      options: every option's value is named by its label, and an id that
      is no option's value is "Unassigned". */
  lemma ProjectNameMatchesOptions(projectId: string)
    ensures forall i :: 0 <= i < |CardMetadata.ProjectOptions| ==>
      ProjectName(CardMetadata.ProjectOptions[i].0) == CardMetadata.ProjectOptions[i].1
    ensures (forall i :: 0 <= i < |CardMetadata.ProjectOptions| ==> CardMetadata.ProjectOptions[i].0 != projectId)
      ==> ProjectName(projectId) == "Unassigned"
  {
    var opts := CardMetadata.ProjectOptions;
    assert opts[0].0 == "research-methodology";
    assert opts[1].0 == "literature-review";
    assert opts[2].0 == "data-analysis";
    assert opts[3].0 == "getting-started";
    assert opts[4].0 == "para-system";
    assert opts[5].0 == "my-library";
  }
}
