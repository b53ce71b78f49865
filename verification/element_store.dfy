/** The whiteboard's element store: an append-only sequence of elements,
    each a plain record of named fields. Records are maps from field name to
    value, so the source's object spread `{...el, ...updates}` is map union. */
module ElementStore {
  import opened Common
  import opened Viewport

  /** A field value: a number, a string, a point list (a pen path) or a
      nested record (an element's `content`). */
  datatype Value =
    | Num(n: real)
    | Str(s: string)
    | Points(pts: seq<Point>)
    | Obj(fields: map<string, Value>)

  type Element = map<string, Value>

  /** The element's `id` field equals `id` (JS `el.id === id`). */
  predicate HasId(el: Element, id: real) {
    "id" in el && el["id"] == Num(id)
  }

  /** `{...el, ...updates}`: every updated field takes its new value, every
      other field keeps its old one, and no field is dropped. */
  function Merge(el: Element, updates: Element): (r: Element)
    ensures r.Keys == el.Keys + updates.Keys
    ensures forall k :: k in updates ==> r[k] == updates[k]
    ensures forall k :: k in el && k !in updates ==> r[k] == el[k]
  {
    el + updates
  }

  /** `handleElementCreate`: the draft with a fresh `id` is appended; the
      earlier elements are untouched. */
  function Create(elements: seq<Element>, draft: Element, newId: real): (r: seq<Element>)
    ensures |r| == |elements| + 1
    ensures r[..|elements|] == elements
    ensures HasId(r[|elements|], newId)
    ensures r[|elements|].Keys == draft.Keys + {"id"}
    ensures forall k :: k in draft && k != "id" ==> r[|elements|][k] == draft[k]
  {
    elements + [draft["id" := Num(newId)]]
  }

  /** `handleElementUpdate`: `elements.map(el => el.id === id ? {...el,
      ...updates} : el)`, written as a recursion over the list. */
  function Update(elements: seq<Element>, id: real, updates: Element): (r: seq<Element>)
    ensures |r| == |elements|
    ensures forall i :: 0 <= i < |r| ==>
      r[i] == if HasId(elements[i], id) then Merge(elements[i], updates) else elements[i]
    decreases |elements|
  {
    if elements == [] then []
    else
      var head := if HasId(elements[0], id) then Merge(elements[0], updates) else elements[0];
      [head] + Update(elements[1..], id, updates)
  }

  /** An update for an id no element carries changes nothing. */
  lemma UpdateUnknownId(elements: seq<Element>, id: real, updates: Element)
    requires forall i :: 0 <= i < |elements| ==> !HasId(elements[i], id)
    ensures Update(elements, id, updates) == elements
  {
  }

  /** The position of the first element carrying `id`, if any. */
  function FindIndex(elements: seq<Element>, id: real): (r: Option<nat>)
    ensures r.None? <==> forall i :: 0 <= i < |elements| ==> !HasId(elements[i], id)
    ensures r.Some? ==> r.value < |elements| && HasId(elements[r.value], id)
    ensures r.Some? ==> forall j :: 0 <= j < r.value ==> !HasId(elements[j], id)
    decreases |elements|
  {
    if elements == [] then None
    else if HasId(elements[0], id) then Some(0)
    else match FindIndex(elements[1..], id)
      case None => None
      case Some(i) => Some(i + 1)
  }

  /** `handleElementSelect`: `elements.find(el => el.id === id)`, the first
      element with that id, or nothing. */
  function Find(elements: seq<Element>, id: real): (r: Option<Element>)
    ensures r.None? <==> forall i :: 0 <= i < |elements| ==> !HasId(elements[i], id)
    ensures r.Some? ==> HasId(r.value, id)
    ensures r.Some? ==> exists i :: (0 <= i < |elements| && elements[i] == r.value &&
      forall j :: 0 <= j < i ==> !HasId(elements[j], id))
  {
    match FindIndex(elements, id)
    case None => None
    case Some(i) => Some(elements[i])
  }

  /** With a fresh id, the element just created is the one found by that
      id. */
  lemma FindCreated(elements: seq<Element>, draft: Element, newId: real)
    requires forall i :: 0 <= i < |elements| ==> !HasId(elements[i], newId)
    ensures Find(Create(elements, draft, newId), newId) == Some(draft["id" := Num(newId)])
  {
    var r := Create(elements, draft, newId);
    assert forall i :: 0 <= i < |elements| ==> r[i] == elements[i];
  }

  /** Creating an element does not change what any other id finds. */
  lemma {:induction false} FindAfterCreate(elements: seq<Element>, draft: Element, newId: real, id: real)
    requires id != newId
    ensures Find(Create(elements, draft, newId), id) == Find(elements, id)
  {
    var r := Create(elements, draft, newId);
    assert !HasId(r[|elements|], id);
    assert forall i :: 0 <= i < |elements| ==> r[i] == elements[i];
    match FindIndex(elements, id)
    case None =>
    case Some(k) =>
      assert FindIndex(r, id) == Some(k) by {
        FindIndexPrefix(elements, r, id);
      }
  }

  /** After an update that leaves `id` fields alone, looking up `id` finds
      the merged version of what it found before. */
  lemma {:induction false} FindAfterUpdate(elements: seq<Element>, id: real, updates: Element)
    requires "id" !in updates
    ensures Find(Update(elements, id, updates), id).Some? <==> Find(elements, id).Some?
    ensures Find(elements, id).Some? ==>
      Find(Update(elements, id, updates), id) == Some(Merge(Find(elements, id).value, updates))
  {
    var r := Update(elements, id, updates);
    FindIndexSamePattern(elements, r, id);
  }

  /** Two lists of equal length whose elements carry `id` at the same
      positions have the same first position for `id`. */
  lemma {:induction false} FindIndexSamePattern(a: seq<Element>, b: seq<Element>, id: real)
    requires |a| == |b|
    requires forall i :: 0 <= i < |a| ==> (HasId(a[i], id) <==> HasId(b[i], id))
    ensures FindIndex(a, id) == FindIndex(b, id)
    decreases |a|
  {
    if a != [] && !HasId(a[0], id) {
      FindIndexSamePattern(a[1..], b[1..], id);
    }
  }

  lemma {:induction false} FindIndexPrefix(a: seq<Element>, b: seq<Element>, id: real)
    requires |a| <= |b| && b[..|a|] == a
    requires FindIndex(a, id).Some?
    ensures FindIndex(b, id) == FindIndex(a, id)
    decreases |a|
  {
    assert a[0] == b[0];
    if !HasId(a[0], id) {
      assert b[1..][..|a| - 1] == a[1..];
      FindIndexPrefix(a[1..], b[1..], id);
    }
  }
}
