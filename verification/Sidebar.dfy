/**
 The sidebar: the creation form with its submit rule and save button, and the
 AOI list with its count, empty hint, highlight and click handling.
 */
module Sidebar {
  import opened AoiTypes
  import opened Text
  import opened AoiStore

  /** The two text fields of the creation form. */
  datatype Form = Form(name: string, description: string)

  const EmptyForm: Form := Form("", "")

  /** The arguments passed to `onCreateAoi`. */
  datatype CreateRequest = CreateRequest(name: string, description: Option<string>)

  /** The outcome of a submit: the request handed to `onCreateAoi`, if any,
      and the form's fields afterwards. */
  datatype Submitted = Submitted(request: Option<CreateRequest>, form: Form)

  /* --------------------------------------------------------------- form */

  /** `handleSubmit`: with a draft point and a name that is not blank, hand
      over the trimmed name and the trimmed description (absent when blank)
      and clear the fields; otherwise do nothing. */
  function HandleSubmit(draft: Option<LatLng>, form: Form): (r: Submitted)
    ensures r.request.None? <==> draft.None? || AllWhitespace(form.name)
    ensures r.request.None? ==> r.form == form
    ensures r.request.Some? ==> r.form == EmptyForm
    ensures r.request.Some? ==>
      var req := r.request.value;
      && req.name == Trim(form.name) && req.name != "" && Trimmed(req.name)
      && (req.description.None? <==> AllWhitespace(form.description))
      && (req.description.Some? ==> req.description.value == Trim(form.description)
                                    && req.description.value != "")
  {
    if draft.None? || Trim(form.name) == "" then Submitted(None, form)
    else
      var description := Trim(form.description);
      var request := CreateRequest(Trim(form.name), if description == "" then None else Some(description));
      Submitted(Some(request), EmptyForm)
  }

  /** The save button's `disabled` attribute: disabled exactly when a submit
      would be turned away. */
  function SaveDisabled(draft: Option<LatLng>, form: Form): (r: bool)
    ensures r <==> HandleSubmit(draft, form).request.None?
    ensures r <==> draft.None? || AllWhitespace(form.name)
  {
    draft.None? || Trim(form.name) == ""
  }

  /* --------------------------------------------------------------- list */

  /** What one list entry shows: name, the description when it is a
      non-empty string, the geometry tag, the first coordinate, and whether
      the entry is highlighted as selected. */
  datatype Entry = Entry(
    id: string,
    name: string,
    note: Option<string>,
    kind: GeometryType,
    position: LatLng,
    highlighted: bool)

  /** The list section: the count in the header, the entries, and the hint
      shown when there are none. */
  datatype ListView = ListView(count: nat, entries: seq<Entry>, emptyHint: bool)

  function EntryOf(a: Aoi, selected: Option<string>): Entry
    requires |a.geometry.coordinates| > 0
  {
    var note := if a.description.Some? && a.description.value != "" then a.description else None;
    Entry(a.id, a.name, note, a.geometry.kind, a.geometry.coordinates[0], selected == Some(a.id))
  }

  /** One entry per record, in list order. */
  function Entries(aois: seq<Aoi>, selected: Option<string>): (r: seq<Entry>)
    requires AllHaveCoordinates(aois)
    ensures |r| == |aois|
    ensures forall i :: 0 <= i < |aois| ==> r[i] == EntryOf(aois[i], selected)
  {
    if |aois| == 0 then []
    else [EntryOf(aois[0], selected)] + Entries(aois[1..], selected)
  }

  /** The rendered list. Reading the first coordinate of every record is why
      every record must have one. */
  function RenderList(aois: seq<Aoi>, selected: Option<string>): (v: ListView)
    requires AllHaveCoordinates(aois)
    ensures v.count == |aois| == |v.entries|
    ensures v.emptyHint <==> v.entries == []
    ensures forall i :: 0 <= i < |aois| ==>
      && v.entries[i].id == aois[i].id
      && v.entries[i].name == aois[i].name
      && v.entries[i].kind == aois[i].geometry.kind
      && v.entries[i].position == aois[i].geometry.coordinates[0]
      && (v.entries[i].highlighted <==> selected == Some(aois[i].id))
      && (v.entries[i].note.Some? <==> aois[i].description.Some? && aois[i].description.value != "")
  {
    ListView(|aois|, Entries(aois, selected), |aois| == 0)
  }

  /** A click inside the list: on an entry's body, or on its delete control. */
  datatype ListClick = SelectEntry(id: string) | DeleteEntry(id: string)

  /** The delete control stops propagation, so a delete click only removes;
      an entry click only selects. */
  function HandleListClick(s: StoreState, click: ListClick): (r: StoreState)
    ensures click.SelectEntry? ==> r.aois == s.aois && r.selected == Some(click.id)
    ensures click.DeleteEntry? ==> r == RemoveAoi(s, click.id)
    ensures click.DeleteEntry? ==> r.selected != Some(click.id) && !HasId(r.aois, click.id)
  {
    match click
    case SelectEntry(id) => SetSelectedId(s, Some(id))
    case DeleteEntry(id) => RemoveAoi(s, id)
  }

  /* ------------------------------------------------------------- lemmas */

  /** With distinct ids at most one entry is highlighted. */
  lemma AtMostOneHighlighted(aois: seq<Aoi>, selected: Option<string>)
    requires AllHaveCoordinates(aois) && UniqueIds(aois)
    ensures var v := RenderList(aois, selected);
      forall i, j :: 0 <= i < j < |v.entries| ==> !(v.entries[i].highlighted && v.entries[j].highlighted)
  {
  }

  /** With distinct ids the highlighted entry is exactly the selected AOI
      the map flies to. */
  lemma HighlightIsSelectedAoi(s: StoreState)
    requires AllHaveCoordinates(s.aois) && UniqueIds(s.aois)
    ensures var v := RenderList(s.aois, s.selected);
      forall i :: 0 <= i < |s.aois| ==> (v.entries[i].highlighted <==> SelectedAoi(s) == Some(s.aois[i]))
  {
    forall i | 0 <= i < |s.aois|
      ensures s.selected == Some(s.aois[i].id) <==> SelectedAoi(s) == Some(s.aois[i])
    {
      SelectedIsTheOnlyMatch(s, i);
    }
  }

  /** A submit that hands over a request never hands over a blank name, and
      resubmitting the cleared form is turned away. */
  lemma SubmitClearsForm(draft: Option<LatLng>, form: Form)
    ensures var r := HandleSubmit(draft, form);
      r.request.Some? ==> HandleSubmit(draft, r.form).request.None?
  {
  }
}
