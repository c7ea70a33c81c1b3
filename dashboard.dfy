/**
  The editor's drag-and-drop preview: an ordered list of items that the user
  reorders, edits in place, deletes and extends, the template switch that
  replaces the list, the two-state inline editor of one item, and the
  choice of preview renderer by item type.
*/
module Dashboard {
  import opened Wrappers
  import opened JsValue

  /** An item of the preview. `editable` is optional in the source; an
      absent flag reads as false. `properties` is never touched by the editor. */
  datatype Item = Item(id: string, itemType: string, content: string, editable: bool, properties: Option<Value>)

  datatype Template = Template(id: string, name: string, components: seq<Item>)

  function Component(id: string, itemType: string, content: string, editable: bool): Item
  {
    Item(id, itemType, content, editable, None)
  }

  /** The four built-in page templates. */
  const Templates: seq<Template> := [
    Template("1", "Home Page", [
      Component("1", "hero", "This is home hero", true),
      Component("2", "Carousel", "This is carusel.", true),
      Component("3", "card", "This is Card", true),
      Component("4", "form", "This is form", true),
      Component("5", "image", "This is image ", false)]),
    Template("2", "Insights", [
      Component("1", "hero", "This is Insight hero", true),
      Component("2", "Card", "insight card...", true),
      Component("3", "image", "insight  Image", false),
      Component("4", "form", "insight form", true)]),
    Template("3", "Pressrelease", [
      Component("1", "hero", "This is pressrelease hero", true),
      Component("2", "image", "Product Image", false),
      Component("3", "card", "Product description...", true),
      Component("4", "form", "subscribe", true)]),
    Template("4", "Generic", [
      Component("1", "hero", "This is generic hero", true),
      Component("2", "card", "Get in touch with us...", true),
      Component("3", "form", "Contact Form", false),
      Component("4", "image", "Address: 123 Main St", true)])
  ]

  // ------------------------------------------------------------ moving

  /** `splice(i, 1)`: the list without position `i`. */
  function RemovedAt(s: seq<Item>, i: nat): seq<Item>
    requires i < |s|
  {
    s[..i] + s[i + 1..]
  }

  /** `splice(i, 0, x)`: `x` inserted before position `i`. */
  function InsertedAt(s: seq<Item>, i: nat, x: Item): seq<Item>
    requires i <= |s|
  {
    s[..i] + [x] + s[i..]
  }

  /** The list after `moveItem(from, to)`. */
  function Moved(s: seq<Item>, from: nat, to: nat): seq<Item>
    requires from < |s| && to < |s|
  {
    InsertedAt(RemovedAt(s, from), to, s[from])
  }

  /** A move is a permutation that puts the moved item at `to` and keeps the
      relative order of all the others. */
  lemma MovedIsRelocation(s: seq<Item>, from: nat, to: nat)
    requires from < |s| && to < |s|
    ensures |Moved(s, from, to)| == |s|
    ensures Moved(s, from, to)[to] == s[from]
    ensures multiset(Moved(s, from, to)) == multiset(s)
    ensures RemovedAt(Moved(s, from, to), to) == RemovedAt(s, from)
  {
    var r := RemovedAt(s, from);
    var m := Moved(s, from, to);
    assert m == r[..to] + [s[from]] + r[to..];
    assert m[..to] == r[..to] && m[to + 1..] == r[to..];
    assert r[..to] + r[to..] == r;
    calc {
      multiset(m);
      multiset(r[..to]) + multiset([s[from]]) + multiset(r[to..]);
      multiset(r) + multiset([s[from]]);
      { assert r == s[..from] + s[from + 1..]; }
      multiset(s[..from]) + multiset(s[from + 1..]) + multiset([s[from]]);
      { assert s == s[..from] + [s[from]] + s[from + 1..]; }
      multiset(s);
    }
  }

  /** Position by position: only the items between the two indices shift,
      each by exactly one place. */
  lemma MovedAt(s: seq<Item>, from: nat, to: nat, k: nat)
    requires from < |s| && to < |s| && k < |s|
    ensures |Moved(s, from, to)| == |s|
    ensures Moved(s, from, to)[k] ==
      if k == to then s[from]
      else if from <= to then (if from <= k < to then s[k + 1] else s[k])
      else (if to < k <= from then s[k - 1] else s[k])
  {
  }

  /** Moving an item onto its own place changes nothing. */
  lemma MoveToSelf(s: seq<Item>, i: nat)
    requires i < |s|
    ensures Moved(s, i, i) == s
  {
  }

  /** Moving back undoes a move. */
  lemma MoveBackRestores(s: seq<Item>, from: nat, to: nat)
    requires from < |s| && to < |s|
    ensures Moved(Moved(s, from, to), to, from) == s
  {
    var m := Moved(s, from, to);
    MovedIsRelocation(s, from, to);
    var r := RemovedAt(s, from);
    assert Moved(m, to, from) == InsertedAt(r, from, s[from]);
    assert r[..from] == s[..from];
    assert r[from..] == s[from + 1..];
    assert s == s[..from] + [s[from]] + s[from + 1..];
  }

  /** The drag source of react-dnd: the index the dragged item had when last moved. */
  class DragSource {
    var index: nat

    constructor (index: nat)
      ensures this.index == index
    {
      this.index := index;
    }
  }

  /** One `hover` step on the pure state: move only when the indices differ,
      then the dragged item's index is the target. */
  function HoverStep(s: seq<Item>, dragged: nat, target: nat): (seq<Item>, nat)
    requires dragged < |s| && target < |s|
  {
    if dragged != target then (Moved(s, dragged, target), target) else (s, dragged)
  }

  /** Hovering twice over the same target moves the item once; hovering back
      over the starting place restores the list. */
  lemma HoverSteps(s: seq<Item>, dragged: nat, target: nat)
    requires dragged < |s| && target < |s|
    ensures var (s1, d1) := HoverStep(s, dragged, target);
            |s1| == |s| && d1 == target && s1[target] == s[dragged] &&
            HoverStep(s1, d1, target) == (s1, d1) &&
            HoverStep(s1, d1, dragged).0 == s
  {
    MovedIsRelocation(s, dragged, target);
    if dragged != target {
      MoveBackRestores(s, dragged, target);
    }
  }

  // ------------------------------------------------------------ updating

  /** `items.map(item => item.id === id ? { ...item, content } : item)` */
  function Updated(s: seq<Item>, id: string, content: string): (r: seq<Item>)
    ensures |r| == |s|
  {
    if s == [] then []
    else [if s[0].id == id then s[0].(content := content) else s[0]] + Updated(s[1..], id, content)
  }

  /** Every item with the id gets the new content and keeps every other field;
      every other item is unchanged; length and order are kept. */
  lemma {:induction false} UpdatedAt(s: seq<Item>, id: string, content: string)
    ensures forall k :: 0 <= k < |s| ==>
              Updated(s, id, content)[k] == if s[k].id == id then s[k].(content := content) else s[k]
  {
    if s != [] {
      UpdatedAt(s[1..], id, content);
      assert forall k :: 1 <= k < |s| ==> s[k] == s[1..][k - 1];
    }
  }

  /** An id no item carries leaves the list as it is. */
  lemma UpdateUnknownId(s: seq<Item>, id: string, content: string)
    requires forall k :: 0 <= k < |s| ==> s[k].id != id
    ensures Updated(s, id, content) == s
  {
  }

  /** The last update of an id wins; in particular updating twice with the
      same content is updating once. */
  lemma UpdateLastWins(s: seq<Item>, id: string, c1: string, c2: string)
    ensures Updated(Updated(s, id, c1), id, c2) == Updated(s, id, c2)
    ensures Updated(Updated(s, id, c2), id, c2) == Updated(s, id, c2)
  {
  }

  // ------------------------------------------------------------ deleting

  /** `items.filter(item => item.id !== id)` */
  function Deleted(s: seq<Item>, id: string): (r: seq<Item>)
    ensures |r| <= |s|
  {
    if s == [] then []
    else (if s[0].id != id then [s[0]] else []) + Deleted(s[1..], id)
  }

  /** Exactly the items with another id remain. */
  lemma {:induction false} DeletedMembers(s: seq<Item>, id: string)
    ensures forall x :: x in Deleted(s, id) <==> x in s && x.id != id
  {
    if s != [] {
      DeletedMembers(s[1..], id);
      assert forall x :: x in s <==> x == s[0] || x in s[1..];
    }
  }

  /** Deletion works item by item, so the survivors keep their order. */
  lemma {:induction false} DeletedAppend(a: seq<Item>, b: seq<Item>, id: string)
    ensures Deleted(a + b, id) == Deleted(a, id) + Deleted(b, id)
  {
    if a == [] {
      assert a + b == b;
    } else {
      assert (a + b)[1..] == a[1..] + b;
      DeletedAppend(a[1..], b, id);
    }
  }

  /** An id no item carries leaves the list as it is. */
  lemma {:induction false} DeleteUnknownId(s: seq<Item>, id: string)
    requires forall k :: 0 <= k < |s| ==> s[k].id != id
    ensures Deleted(s, id) == s
  {
    if s != [] {
      DeleteUnknownId(s[1..], id);
    }
  }

  /** Deleting twice is deleting once. */
  lemma DeleteIdempotent(s: seq<Item>, id: string)
    ensures Deleted(Deleted(s, id), id) == Deleted(s, id)
  {
    DeletedMembers(s, id);
    var r := Deleted(s, id);
    assert forall k :: 0 <= k < |r| ==> r[k] in r;
    DeleteUnknownId(r, id);
  }

  // ------------------------------------------------------------ adding

  /** The item `handleComponentSelect(type, isExisting)` appends. */
  function NewComponent(newId: string, itemType: string, isExisting: bool): (r: Item)
    ensures r.id == newId && r.itemType == itemType && r.editable && r.properties.None?
    ensures isExisting ==> r.content == "Existing " + itemType + " entry"
    ensures !isExisting ==> r.content == "New " + itemType + " component"
  {
    Item(newId, itemType,
         if isExisting then "Existing " + itemType + " entry" else "New " + itemType + " component",
         true, None)
  }

  /** `templates.find(t => t.id === templateId)` */
  function FindTemplate(ts: seq<Template>, templateId: string): (r: Option<Template>)
    ensures r.None? <==> forall i :: 0 <= i < |ts| ==> ts[i].id != templateId
    ensures r.Some? ==> exists i :: 0 <= i < |ts| && ts[i] == r.value && ts[i].id == templateId &&
                                   forall j :: 0 <= j < i ==> ts[j].id != templateId
  {
    if ts == [] then None
    else if ts[0].id == templateId then Some(ts[0])
    else
      var r := FindTemplate(ts[1..], templateId);
      assert forall i :: 1 <= i < |ts| ==> ts[i] == ts[1..][i - 1];
      if r.Some? then
        var i :| 0 <= i < |ts[1..]| && ts[1..][i] == r.value && ts[1..][i].id == templateId &&
                 forall j :: 0 <= j < i ==> ts[1..][j].id != templateId;
        assert ts[i + 1] == r.value;
        r
      else r
  }

  /** The ids of the built-in templates, in sidebar order. */
  lemma TemplateIdList()
    ensures |Templates| == 4
    ensures Templates[0].id == "1" && Templates[1].id == "2" && Templates[2].id == "3" && Templates[3].id == "4"
  {
  }

  /** The sidebar's four ids select their templates; any other id selects none. */
  lemma TemplateIds(templateId: string)
    ensures FindTemplate(Templates, "1") == Some(Templates[0])
    ensures FindTemplate(Templates, "2") == Some(Templates[1])
    ensures FindTemplate(Templates, "3") == Some(Templates[2])
    ensures FindTemplate(Templates, "4") == Some(Templates[3])
    ensures templateId !in {"1", "2", "3", "4"} ==> FindTemplate(Templates, templateId) == None
  {
    KnownTemplates();
    if templateId !in {"1", "2", "3", "4"} {
      UnknownTemplate(templateId);
    }
  }

  lemma KnownTemplates()
    ensures FindTemplate(Templates, "1") == Some(Templates[0])
    ensures FindTemplate(Templates, "2") == Some(Templates[1])
    ensures FindTemplate(Templates, "3") == Some(Templates[2])
    ensures FindTemplate(Templates, "4") == Some(Templates[3])
  {
    KnownTemplate(0, "1");
    KnownTemplate(1, "2");
    KnownTemplate(2, "3");
    KnownTemplate(3, "4");
  }

  lemma KnownTemplate(k: nat, templateId: string)
    requires k < 4 && templateId == ["1", "2", "3", "4"][k]
    ensures k < |Templates| && FindTemplate(Templates, templateId) == Some(Templates[k])
  {
    TemplateIdList();
    FirstTemplateWith(Templates, k, templateId);
  }

  lemma UnknownTemplate(templateId: string)
    requires templateId !in {"1", "2", "3", "4"}
    ensures FindTemplate(Templates, templateId) == None
  {
    TemplateIdList();
  }

  /** The lookup answers the first template carrying the id. */
  lemma FirstTemplateWith(ts: seq<Template>, k: nat, templateId: string)
    requires k < |ts| && ts[k].id == templateId
    requires forall j :: 0 <= j < k ==> ts[j].id != templateId
    ensures FindTemplate(ts, templateId) == Some(ts[k])
  {
  }

  datatype ModalMode = NewMode | ExistingMode

  /** The state of the dashboard: the selected template, the preview list and the modal. */
  class Editor {
    var selectedTemplate: string
    var items: seq<Item>
    var modalOpen: bool
    var modalMode: ModalMode

    constructor ()
      ensures selectedTemplate == "1" && items == Templates[0].components
      ensures !modalOpen && modalMode == NewMode
    {
      selectedTemplate := "1";
      items := Templates[0].components;
      modalOpen := false;
      modalMode := NewMode;
    }

    /** Records the selection always; replaces the items only when a template has that id. */
    method SelectTemplate(templateId: string)
      modifies this
      ensures selectedTemplate == templateId
      ensures FindTemplate(Templates, templateId).Some? ==> items == FindTemplate(Templates, templateId).value.components
      ensures FindTemplate(Templates, templateId).None? ==> items == old(items)
      ensures modalOpen == old(modalOpen) && modalMode == old(modalMode)
    {
      selectedTemplate := templateId;
      var template := FindTemplate(Templates, templateId);
      if template.Some? {
        items := template.value.components;
      }
    }

    /** Splices the item out of a copy of the list and back in at `to`. */
    method MoveItem(from: nat, to: nat)
      requires from < |items| && to < |items|
      modifies this
      ensures items == Moved(old(items), from, to)
      ensures selectedTemplate == old(selectedTemplate) && modalOpen == old(modalOpen) && modalMode == old(modalMode)
    {
      var newItems := items;
      var moved := newItems[from];
      newItems := newItems[..from] + newItems[from + 1..];
      newItems := newItems[..to] + [moved] + newItems[to..];
      items := newItems;
    }

    method UpdateItem(id: string, content: string)
      modifies this
      ensures items == Updated(old(items), id, content)
      ensures selectedTemplate == old(selectedTemplate) && modalOpen == old(modalOpen) && modalMode == old(modalMode)
    {
      items := Updated(items, id, content);
    }

    method DeleteItem(id: string)
      modifies this
      ensures items == Deleted(old(items), id)
      ensures selectedTemplate == old(selectedTemplate) && modalOpen == old(modalOpen) && modalMode == old(modalMode)
    {
      items := Deleted(items, id);
    }

    method OpenModal(mode: ModalMode)
      modifies this
      ensures modalOpen && modalMode == mode
      ensures items == old(items) && selectedTemplate == old(selectedTemplate)
    {
      modalMode := mode;
      modalOpen := true;
    }

    method CloseModal()
      modifies this
      ensures !modalOpen && modalMode == old(modalMode)
      ensures items == old(items) && selectedTemplate == old(selectedTemplate)
    {
      modalOpen := false;
    }

    /** Appends one new editable item; `newId` stands for `Date.now().toString()`. */
    method HandleComponentSelect(itemType: string, isExisting: bool, newId: string)
      modifies this
      ensures items == old(items) + [NewComponent(newId, itemType, isExisting)]
      ensures selectedTemplate == old(selectedTemplate) && modalOpen == old(modalOpen) && modalMode == old(modalMode)
    {
      var newComponent := NewComponent(newId, itemType, isExisting);
      items := items + [newComponent];
    }

    /** A pick in the modal: add in the modal's mode, then close it. */
    method SelectInModal(itemType: string, newId: string)
      requires modalOpen
      modifies this
      ensures items == old(items) + [NewComponent(newId, itemType, old(modalMode) == ExistingMode)]
      ensures !modalOpen && modalMode == old(modalMode) && selectedTemplate == old(selectedTemplate)
    {
      HandleComponentSelect(itemType, modalMode == ExistingMode, newId);
      CloseModal();
    }

    /** The drop target's `hover` handler, for the item rendered at `index`. */
    method Hover(dragged: DragSource, index: nat)
      requires dragged.index < |items| && index < |items|
      modifies this, dragged
      ensures (items, dragged.index) == HoverStep(old(items), old(dragged.index), index)
      ensures selectedTemplate == old(selectedTemplate) && modalOpen == old(modalOpen) && modalMode == old(modalMode)
    {
      if dragged.index != index {
        MoveItem(dragged.index, index);
        dragged.index := index;
      }
    }
  }

  // ------------------------------------------------------- inline editing

  /** The `isEditing` / `editValue` state of one item's inline editor. The
      controls of each state exist only in that state, hence the requires. */
  class InlineEditor {
    var isEditing: bool
    var editValue: string

    constructor (item: Item)
      ensures !isEditing && editValue == item.content
    {
      isEditing := false;
      editValue := item.content;
    }

    /** A click on the displayed content starts editing only for an editable item. */
    method Click(item: Item)
      requires !isEditing
      modifies this
      ensures isEditing == item.editable && editValue == old(editValue)
    {
      if item.editable {
        isEditing := true;
      }
    }

    /** Typing in the input. */
    method Change(value: string)
      requires isEditing
      modifies this
      ensures isEditing && editValue == value
    {
      editValue := value;
    }

    /** Save: reports `(item.id, editValue)` to `onUpdate` and stops editing. */
    method Save(item: Item) returns (update: (string, string))
      requires isEditing
      modifies this
      ensures update == (item.id, old(editValue))
      ensures !isEditing && editValue == old(editValue)
    {
      update := (item.id, editValue);
      isEditing := false;
    }

    /** Cancel: restores the item's content, reports nothing, stops editing. */
    method Cancel(item: Item)
      requires isEditing
      modifies this
      ensures !isEditing && editValue == item.content
    {
      editValue := item.content;
      isEditing := false;
    }

    /** Enter saves, Escape cancels, other keys do nothing. */
    method KeyDown(item: Item, key: string) returns (update: Option<(string, string)>)
      requires isEditing
      modifies this
      ensures key == "Enter" ==> update == Some((item.id, old(editValue))) && !isEditing && editValue == old(editValue)
      ensures key == "Escape" ==> update == None && !isEditing && editValue == item.content
      ensures key != "Enter" && key != "Escape" ==> update == None && isEditing && editValue == old(editValue)
    {
      update := None;
      if key == "Enter" {
        var u := Save(item);
        update := Some(u);
      }
      if key == "Escape" {
        Cancel(item);
      }
    }
  }

  /** An editing session: click, type, press Enter; the update reaches the list. */
  method EditScenario()
  {
    var editor := new Editor();
    var item := editor.items[0];
    var inline := new InlineEditor(item);
    inline.Click(item);
    assert inline.isEditing;
    inline.Change("Welcome");
    var update := inline.KeyDown(item, "Enter");
    editor.UpdateItem(update.value.0, update.value.1);
    UpdatedAt(Templates[0].components, "1", "Welcome");
    assert editor.items[0].content == "Welcome";
    assert editor.items[1..] == Templates[0].components[1..];
  }

  // ------------------------------------------------------- preview dispatch

  datatype PreviewKind = HeroPreview | CardPreview | ImagePreview | FormPreview | CarouselPreview | DefaultPreview

  /** The registered preview renderers, as an independent table. */
  const PreviewRegistry: map<string, PreviewKind> :=
    map["hero" := HeroPreview, "card" := CardPreview, "image" := ImagePreview,
        "form" := FormPreview, "Carousel" := CarouselPreview]

  /** `renderPreviewContent`: the `switch` on `item.type`. */
  function PreviewKindOf(itemType: string): (r: PreviewKind)
    ensures itemType in PreviewRegistry ==> r == PreviewRegistry[itemType]
    ensures itemType !in PreviewRegistry ==> r == DefaultPreview
  {
    if itemType == "hero" then HeroPreview
    else if itemType == "card" then CardPreview
    else if itemType == "image" then ImagePreview
    else if itemType == "form" then FormPreview
    else if itemType == "Carousel" then CarouselPreview
    else DefaultPreview
  }

  /** Whether the renderer embeds the inline editor of the item. */
  predicate ShowsInlineEditor(k: PreviewKind)
  {
    k == HeroPreview || k == CardPreview || k == DefaultPreview
  }

  /** The dispatch is exact-case: "Card" and "carousel" get the default block;
      image, form and carousel previews offer no inline editing. */
  lemma PreviewDispatch(itemType: string)
    ensures PreviewKindOf("Card") == DefaultPreview && PreviewKindOf("carousel") == DefaultPreview
    ensures ShowsInlineEditor(PreviewKindOf(itemType)) <==> itemType !in {"image", "form", "Carousel"}
  {
  }

  /** Every type the "add new" modal offers has its own preview renderer. */
  lemma ModalTypesHaveRenderers()
    ensures forall t :: t in ["hero", "card", "image", "form", "Carousel"] ==> PreviewKindOf(t) != DefaultPreview
  {
  }
}
