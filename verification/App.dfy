/**
 The application shell: the draft point picked on the map, the creation of a
 point AOI from it, the WMS layer switch, and the wiring of the sidebar and
 map events into the store.
 */
module App {
  import opened AoiTypes
  import opened Text
  import opened AoiStore
  import opened Sidebar

  /** The shell's state: the store, the draft point, and whether the WMS
      layer is shown. */
  datatype AppState = AppState(store: StoreState, draft: Option<LatLng>, wmsVisible: bool)

  /** The shell after mounting on a loaded list. */
  function InitialApp(loaded: seq<Aoi>): (r: AppState)
    ensures r.wmsVisible
    ensures r.draft.None?
    ensures r.store.aois == loaded && SelectedAoi(r.store).None?
  {
    AppState(StoreState(loaded, None), None, true)
  }

  /** `handleMapClick`: the clicked position becomes the draft point. */
  function HandleMapClick(app: AppState, lat: real, lng: real): (r: AppState)
    ensures r.draft == Some(LatLng(lat, lng))
    ensures r.store == app.store && r.wmsVisible == app.wmsVisible
  {
    app.(draft := Some(LatLng(lat, lng)))
  }

  /** `handleCreateAoi`: without a draft point nothing happens; with one, a
      point AOI at the draft is added (and selected) and the draft is
      cleared. */
  function HandleCreateAoi(app: AppState, name: string, description: Option<string>, id: string, now: string)
    : (r: AppState)
    ensures app.draft.None? ==> r == app
    ensures app.draft.Some? ==>
      && r.draft.None?
      && r.wmsVisible == app.wmsVisible
      && |r.store.aois| == |app.store.aois| + 1
      && r.store.aois[..|app.store.aois|] == app.store.aois
      && r.store.aois[|app.store.aois|] == Aoi(id, name, description, Geometry(Point, [app.draft.value]), now, now)
      && r.store.selected == Some(id)
  {
    match app.draft
    case None => app
    case Some(p) =>
      var geometry := Geometry(Point, [LatLng(p.lat, p.lng)]);
      AppState(AddAoi(app.store, NewAoi(name, description, geometry), id, now), None, app.wmsVisible)
  }

  /** The layer checkbox's `onToggleWms`: flip the WMS layer. */
  function ToggleWms(app: AppState): (r: AppState)
    ensures r.wmsVisible != app.wmsVisible
    ensures r.store == app.store && r.draft == app.draft
  {
    app.(wmsVisible := !app.wmsVisible)
  }

  /** The shell after `n` toggles. */
  function ToggleTimes(app: AppState, n: nat): AppState {
    if n == 0 then app else ToggleWms(ToggleTimes(app, n - 1))
  }

  /* --------------------------------------------------------- whole page */

  /** The page: the shell plus the sidebar's form fields. */
  datatype Page = Page(app: AppState, form: Form)

  /** What a user can do. Submitting carries the fresh id and the time the
      store would draw; a marker click selects that marker's AOI. */
  datatype Event =
    | MapClick(lat: real, lng: real)
    | EditName(name: string)
    | EditDescription(description: string)
    | Submit(id: string, now: string)
    | List(click: ListClick)
    | MarkerClick(id: string)
    | ToggleLayer

  /** The sidebar's submit followed, when it hands over a request, by
      `handleCreateAoi`. */
  function SubmitPage(page: Page, id: string, now: string): Page {
    var submitted := HandleSubmit(page.app.draft, page.form);
    match submitted.request
    case None => page.(form := submitted.form)
    case Some(req) => Page(HandleCreateAoi(page.app, req.name, req.description, id, now), submitted.form)
  }

  function Step(page: Page, e: Event): Page {
    match e
    case MapClick(lat, lng) => page.(app := HandleMapClick(page.app, lat, lng))
    case EditName(name) => page.(form := page.form.(name := name))
    case EditDescription(description) => page.(form := page.form.(description := description))
    case Submit(id, now) => SubmitPage(page, id, now)
    case List(click) => page.(app := page.app.(store := HandleListClick(page.app.store, click)))
    case MarkerClick(id) => page.(app := page.app.(store := SetSelectedId(page.app.store, Some(id))))
    case ToggleLayer => page.(app := ToggleWms(page.app))
  }

  /** What every reachable page keeps: distinct ids, a selection that names
      a record, and a first coordinate on every record for the list to show. */
  predicate PageInvariant(page: Page) {
    && UniqueIds(page.app.store.aois)
    && SelectionValid(page.app.store)
    && AllHaveCoordinates(page.app.store.aois)
  }

  /** The ids an event refers to come from the page: a fresh one for a
      submit, a listed record's for a click on an entry or a marker. */
  predicate EventFits(page: Page, e: Event) {
    var aois := page.app.store.aois;
    && (e.Submit? ==> !HasId(aois, e.id))
    && (e.List? ==> HasId(aois, e.click.id))
    && (e.MarkerClick? ==> HasId(aois, e.id))
  }

  /* ------------------------------------------------------------- lemmas */

  /** Toggling the layer `n` times from the initial page shows it exactly
      when `n` is even. */
  lemma {:induction false} ToggleParity(loaded: seq<Aoi>, n: nat)
    ensures ToggleTimes(InitialApp(loaded), n).wmsVisible <==> n % 2 == 0
  {
    if n > 0 {
      ToggleParity(loaded, n - 1);
    }
  }

  /** An accepted submit adds one point AOI at the draft point, named by the
      trimmed, non-blank name, selects it, clears the draft and resets the
      form; a turned-away submit changes nothing. */
  lemma SubmitCreatesPointAoi(page: Page, id: string, now: string)
    ensures var r := SubmitPage(page, id, now);
      var n := |page.app.store.aois|;
      if SaveDisabled(page.app.draft, page.form) then r == page
      else
        && |r.app.store.aois| == n + 1
        && r.app.store.aois[..n] == page.app.store.aois
        && r.app.store.aois[n].id == id
        && r.app.store.aois[n].name == Trim(page.form.name)
        && r.app.store.aois[n].name != ""
        && r.app.store.aois[n].geometry == Geometry(Point, [page.app.draft.value])
        && r.app.store.selected == Some(id)
        && r.app.draft.None?
        && r.form == EmptyForm
  {
  }

  /** Every event that fits the page keeps the page invariant. */
  lemma StepKeepsInvariant(page: Page, e: Event)
    requires PageInvariant(page) && EventFits(page, e)
    ensures PageInvariant(Step(page, e))
  {
    var s := page.app.store;
    match e
    case Submit(id, now) =>
      var submitted := HandleSubmit(page.app.draft, page.form);
      if submitted.request.Some? {
        var req := submitted.request.value;
        var p := page.app.draft.value;
        var fields := NewAoi(req.name, req.description, Geometry(Point, [LatLng(p.lat, p.lng)]));
        AddKeepsIdsUnique(s, fields, id, now);
        ApplyKeepsSelectionValid(s, Add(fields, id, now));
        var r := AddAoi(s, fields, id, now);
        forall i | 0 <= i < |r.aois|
          ensures |r.aois[i].geometry.coordinates| > 0
        {
          if i < |s.aois| {
            assert r.aois[i] == s.aois[i];
          }
        }
      }
    case List(click) =>
      if click.DeleteEntry? {
        WithoutKeepsIdsUnique(s.aois, click.id);
        ApplyKeepsSelectionValid(s, Remove(click.id));
        var kept := Without(s.aois, click.id);
        forall i | 0 <= i < |kept|
          ensures |kept[i].geometry.coordinates| > 0
        {
          assert kept[i] in s.aois;
        }
      }
    case MarkerClick(id) =>
    case _ =>
  }

  /** The page starts in the invariant when the loaded list has distinct ids
      and coordinates everywhere; storage contents are not checked on load. */
  lemma InitialPageInvariant(loaded: seq<Aoi>)
    requires UniqueIds(loaded) && AllHaveCoordinates(loaded)
    ensures PageInvariant(Page(InitialApp(loaded), EmptyForm))
  {
  }
}
