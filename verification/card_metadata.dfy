/** The card editor's metadata panel: the tag list with its input buffer,
    the predefined tag buttons, and the project options. */
module CardMetadata {
  import opened Common

  /** The tag list being edited and the text typed into the tag input. */
  datatype TagInput = TagInput(tags: seq<string>, newTag: string)

  /** The twelve one-click tags. */
  const PredefinedTags: seq<string> := [
    "Important", "Research", "Todo", "Reference", "Idea", "Question",
    "Summary", "Quote", "Definition", "Example", "Analysis", "Insight"]

  /** The project selector's (value, label) options. */
  const ProjectOptions: seq<(string, string)> := [
    ("research-methodology", "Research Methodology"),
    ("literature-review", "Literature Review"),
    ("data-analysis", "Data Analysis"),
    ("getting-started", "Getting Started"),
    ("para-system", "PARA System"),
    ("my-library", "My Library")]

  /** `handleAddTag`: a non-empty tag not yet in the list is appended and
      the input buffer is cleared; an empty or already present tag changes
      nothing, not even the buffer. */
  function AddTag(st: TagInput, value: string): (r: TagInput)
    ensures value != "" && value !in st.tags ==>
      && |r.tags| == |st.tags| + 1
      && r.tags[..|st.tags|] == st.tags
      && r.tags[|st.tags|] == value
      && r.newTag == ""
    ensures value == "" || value in st.tags ==> r == st
    ensures value in r.tags || value == ""
  {
    if value != "" && value !in st.tags then TagInput(st.tags + [value], "") else st
  }

  /** `handleKeyPress`: Enter submits the typed tag; other keys do nothing
      here (typing itself updates `newTag`). */
  function KeyPress(st: TagInput, key: string): (r: TagInput)
    ensures key != "Enter" ==> r == st
    ensures key == "Enter" && st.newTag != "" && st.newTag !in st.tags ==>
      r.tags == st.tags + [st.newTag] && r.newTag == ""
    ensures key == "Enter" && (st.newTag == "" || st.newTag in st.tags) ==> r == st
  {
    if key == "Enter" then AddTag(st, st.newTag) else st
  }

  /** `handleRemoveTag`: every occurrence goes, the other tags keep their
      order and multiplicity. */
  function RemoveTag(tags: seq<string>, tag: string): (r: seq<string>)
    ensures tag !in r
    ensures IsSubsequence(r, tags)
    ensures forall t :: t != tag ==> multiset(r)[t] == multiset(tags)[t]
  {
    RemoveAll(tags, tag)
  }

  /** Adding keeps a duplicate-free tag list duplicate-free. */
  lemma AddTagKeepsNoDup(st: TagInput, value: string)
    requires NoDup(st.tags)
    ensures NoDup(AddTag(st, value).tags)
  {
  }

  /** Adding a fresh tag and removing it again restores the list. */
  lemma AddThenRemove(st: TagInput, value: string)
    requires value != "" && value !in st.tags
    ensures RemoveTag(AddTag(st, value).tags, value) == st.tags
  {
    RemoveAllAppended(st.tags, value);
  }

  /** A predefined tag's button is disabled when the tag is in the list. */
  predicate ButtonDisabled(tags: seq<string>, tag: string) {
    tag in tags
  }

  /** A predefined button is disabled exactly when clicking it would
      change nothing. */
  lemma DisabledIffNoOp(st: TagInput, i: int)
    requires 0 <= i < |PredefinedTags|
    ensures ButtonDisabled(st.tags, PredefinedTags[i]) <==> AddTag(st, PredefinedTags[i]) == st
  {
    var t := PredefinedTags[i];
    assert t != "";
    if !ButtonDisabled(st.tags, t) {
      assert |AddTag(st, t).tags| != |st.tags|;
    }
  }
}
