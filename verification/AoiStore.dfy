/**
 The AOI store hook: the list of AOIs, the selected id, the operations that
 change them, the derived selected AOI, and the synchronisation of the list
 with browser storage. Each operation is one atomic transition; the fresh id
 and the current time are inputs.
 */
module AoiStore {
  import opened AoiTypes

  /** The storage key the list is kept under. */
  const StorageKey: string := "aoi-map::aois"

  /** The hook's two pieces of state. The selection is a plain id, looked up
      in the list on every read. */
  datatype StoreState = StoreState(aois: seq<Aoi>, selected: Option<string>)

  /* ---------------------------------------------------------------- add */

  /** The record `addAoi` builds from the caller's fields. */
  function NewRecord(fields: NewAoi, id: string, now: string): Aoi {
    Aoi(id, fields.name, fields.description, fields.geometry, now, now)
  }

  /** `addAoi`: append a record with the fresh id and select it. */
  function AddAoi(s: StoreState, fields: NewAoi, id: string, now: string): (r: StoreState)
    ensures |r.aois| == |s.aois| + 1
    ensures r.aois[..|s.aois|] == s.aois
    ensures var a := r.aois[|s.aois|];
      && a.id == id && a.name == fields.name && a.description == fields.description
      && a.geometry == fields.geometry && a.createdAt == now && a.updatedAt == now
    ensures r.selected == Some(id)
  {
    StoreState(s.aois + [NewRecord(fields, id, now)], Some(id))
  }

  /* ------------------------------------------------------------- update */

  /** A record with every field the patch supplies taken from the patch,
      its id kept, and its update time set to `now`. */
  function Merge(a: Aoi, patch: AoiPatch, now: string): (r: Aoi)
    ensures r.id == a.id
    ensures r.updatedAt == now
  {
    Aoi(
      a.id,
      patch.name.GetOr(a.name),
      patch.description.GetOr(a.description),
      patch.geometry.GetOr(a.geometry),
      patch.createdAt.GetOr(a.createdAt),
      now)
  }

  /** The list after mapping `Merge` over the records whose id is `id`. */
  function UpdateAll(aois: seq<Aoi>, id: string, patch: AoiPatch, now: string): (r: seq<Aoi>)
    ensures |r| == |aois|
    ensures forall i :: 0 <= i < |aois| && aois[i].id != id ==> r[i] == aois[i]
    ensures forall i :: 0 <= i < |aois| && aois[i].id == id ==> r[i] == Merge(aois[i], patch, now)
  {
    if |aois| == 0 then []
    else
      var head := if aois[0].id == id then Merge(aois[0], patch, now) else aois[0];
      [head] + UpdateAll(aois[1..], id, patch, now)
  }

  /** `updateAoi`: merge the patch into every record with a matching id. */
  function UpdateAoi(s: StoreState, id: string, patch: AoiPatch, now: string): (r: StoreState)
    ensures r.selected == s.selected
    ensures |r.aois| == |s.aois|
    ensures forall i :: 0 <= i < |s.aois| ==> r.aois[i].id == s.aois[i].id
    ensures forall i :: 0 <= i < |s.aois| && s.aois[i].id != id ==> r.aois[i] == s.aois[i]
    ensures forall i :: 0 <= i < |s.aois| && s.aois[i].id == id ==> r.aois[i].updatedAt == now
    ensures !HasId(s.aois, id) ==> r == s
  {
    StoreState(UpdateAll(s.aois, id, patch, now), s.selected)
  }

  /* ------------------------------------------------------------- remove */

  /** The list without the records whose id is `id`. */
  function Without(aois: seq<Aoi>, id: string): (r: seq<Aoi>)
    ensures |r| <= |aois|
    ensures forall a :: a in r <==> a in aois && a.id != id
    ensures !HasId(aois, id) ==> r == aois
  {
    if |aois| == 0 then []
    else if aois[0].id == id then Without(aois[1..], id)
    else [aois[0]] + Without(aois[1..], id)
  }

  /** `removeAoi`: drop the records with that id, and clear the selection if
      it pointed there. */
  function RemoveAoi(s: StoreState, id: string): (r: StoreState)
    ensures r.aois == Without(s.aois, id)
    ensures !HasId(r.aois, id)
    ensures r.selected.Some? ==> r.selected == s.selected && r.selected != Some(id)
    ensures s.selected.Some? && s.selected != Some(id) ==> r.selected == s.selected
    ensures !HasId(s.aois, id) && s.selected != Some(id) ==> r == s
  {
    StoreState(Without(s.aois, id), if s.selected == Some(id) then None else s.selected)
  }

  /* ---------------------------------------------------------- selection */

  /** The index of the first record carrying `id`, or `|aois|` if none does. */
  function FirstIndexOf(aois: seq<Aoi>, id: string): (k: nat)
    ensures k <= |aois|
    ensures forall j :: 0 <= j < k ==> aois[j].id != id
    ensures k < |aois| ==> aois[k].id == id
  {
    if |aois| == 0 || aois[0].id == id then 0
    else 1 + FirstIndexOf(aois[1..], id)
  }

  /** The first record of the list whose id is `id`, if there is one. */
  function FindById(aois: seq<Aoi>, id: string): (r: Option<Aoi>)
    ensures r.None? <==> !HasId(aois, id)
    ensures r.Some? ==> exists k :: 0 <= k < |aois| && aois[k] == r.value && r.value.id == id
                          && forall j :: 0 <= j < k ==> aois[j].id != id
  {
    var k := FirstIndexOf(aois, id);
    if k < |aois| then Some(aois[k]) else None
  }

  /** `setSelectedId`: any id, or none, is accepted without a lookup. */
  function SetSelectedId(s: StoreState, id: Option<string>): (r: StoreState)
    ensures r.aois == s.aois
    ensures r.selected == id
  {
    s.(selected := id)
  }

  /** The derived `selectedAoi`: the first record whose id is the selection. */
  function SelectedAoi(s: StoreState): (r: Option<Aoi>)
    ensures r.Some? ==> s.selected == Some(r.value.id) && r.value in s.aois
    ensures r.None? <==> s.selected.None? || !HasId(s.aois, s.selected.value)
    ensures s.selected.Some? ==> r == FindById(s.aois, s.selected.value)
  {
    match s.selected
    case None => None
    case Some(id) => FindById(s.aois, id)
  }

  /** The selection, when set, names a record of the list. */
  predicate SelectionValid(s: StoreState) {
    s.selected.Some? ==> HasId(s.aois, s.selected.value)
  }

  /* -------------------------------------------------------- persistence */

  /** The storage codec (`JSON.stringify` / `JSON.parse`); `decode` yields
      `None` where parsing throws. */
  datatype Codec = Codec(encode: seq<Aoi> -> string, decode: string -> Option<seq<Aoi>>)

  /** The codec encodes `xs` to a non-empty string that decodes back to
      `xs`. This is asked of one list at a time: JSON cannot round-trip every
      list of reals, so no codec does it for all of them. */
  ghost predicate RoundTrips(codec: Codec, xs: seq<Aoi>) {
    codec.encode(xs) != "" && codec.decode(codec.encode(xs)) == Some(xs)
  }

  /** `loadFromStorage`: the decoded list, or the empty list when the key is
      absent, holds the empty string, or does not decode. */
  function LoadFromStorage(storage: map<string, string>, codec: Codec): (r: seq<Aoi>)
    ensures StorageKey !in storage ==> r == []
    ensures StorageKey in storage && storage[StorageKey] == "" ==> r == []
    ensures StorageKey in storage && codec.decode(storage[StorageKey]).None? ==> r == []
    ensures r != [] ==> StorageKey in storage && codec.decode(storage[StorageKey]) == Some(r)
    ensures StorageKey in storage && storage[StorageKey] != "" && codec.decode(storage[StorageKey]).Some?
            ==> r == codec.decode(storage[StorageKey]).value
  {
    if StorageKey !in storage || storage[StorageKey] == "" then []
    else codec.decode(storage[StorageKey]).GetOr([])
  }

  /** The persistence effect: the whole list, encoded, under the key. */
  function Persist(storage: map<string, string>, codec: Codec, aois: seq<Aoi>): map<string, string> {
    storage[StorageKey := codec.encode(aois)]
  }

  /** A mounted store together with the storage it writes to. */
  datatype Mounted = Mounted(state: StoreState, storage: map<string, string>)

  /** The stored value is the encoding of the current list. */
  ghost predicate InSync(m: Mounted, codec: Codec) {
    StorageKey in m.storage && m.storage[StorageKey] == codec.encode(m.state.aois)
  }

  /** Mounting: load the list, select nothing, and run the effect once. */
  function Mount(storage: map<string, string>, codec: Codec): (m: Mounted)
    ensures m.state.selected.None?
    ensures m.state.aois == LoadFromStorage(storage, codec)
    ensures InSync(m, codec)
    ensures m.storage - {StorageKey} == storage - {StorageKey}
  {
    var aois := LoadFromStorage(storage, codec);
    Mounted(StoreState(aois, None), Persist(storage, codec, aois))
  }

  /** The operations a caller can invoke on the store. */
  datatype Command =
    | Add(fields: NewAoi, id: string, now: string)
    | Update(id: string, patch: AoiPatch, now: string)
    | Remove(id: string)
    | Select(selection: Option<string>)

  function Apply(s: StoreState, c: Command): StoreState {
    match c
    case Add(fields, id, now) => AddAoi(s, fields, id, now)
    case Update(id, patch, now) => UpdateAoi(s, id, patch, now)
    case Remove(id) => RemoveAoi(s, id)
    case Select(selection) => SetSelectedId(s, selection)
  }

  /** Apply a command; every command except a selection replaces the list
      and so re-runs the persistence effect. */
  function Dispatch(m: Mounted, c: Command, codec: Codec): (r: Mounted)
    ensures r.state == Apply(m.state, c)
    ensures c.Select? ==> r.storage == m.storage
    ensures r.storage - {StorageKey} == m.storage - {StorageKey}
  {
    var s := Apply(m.state, c);
    if c.Select? then Mounted(s, m.storage)
    else Mounted(s, Persist(m.storage, codec, s.aois))
  }

  /** Apply commands left to right. */
  function Run(s: StoreState, cmds: seq<Command>): StoreState
    decreases |cmds|
  {
    if |cmds| == 0 then s else Run(Apply(s, cmds[0]), cmds[1..])
  }

  /** The records a sequence of `Add` commands creates, in order. */
  function Created(cmds: seq<Command>): (r: seq<Aoi>)
    requires forall i :: 0 <= i < |cmds| ==> cmds[i].Add?
    ensures |r| == |cmds|
  {
    if |cmds| == 0 then []
    else [NewRecord(cmds[0].fields, cmds[0].id, cmds[0].now)] + Created(cmds[1..])
  }

  /* ------------------------------------------------------------- lemmas */

  /** After adding a record whose id was not in use, the selected AOI is
      that record. */
  lemma AddSelectsNewRecord(s: StoreState, fields: NewAoi, id: string, now: string)
    requires !HasId(s.aois, id)
    ensures SelectedAoi(AddAoi(s, fields, id, now)) == Some(NewRecord(fields, id, now))
  {
    var r := AddAoi(s, fields, id, now);
    assert r.aois[|s.aois|].id == id;
    var found := SelectedAoi(r);
    var k :| 0 <= k < |r.aois| && r.aois[k] == found.value && found.value.id == id
             && forall j :: 0 <= j < k ==> r.aois[j].id != id;
  }

  /** Adding with a fresh id keeps the ids pairwise distinct. */
  lemma AddKeepsIdsUnique(s: StoreState, fields: NewAoi, id: string, now: string)
    requires UniqueIds(s.aois) && !HasId(s.aois, id)
    ensures UniqueIds(AddAoi(s, fields, id, now).aois)
  {
    var r := AddAoi(s, fields, id, now).aois;
    forall i, j | 0 <= i < j < |r|
      ensures r[i].id != r[j].id
    {
      assert r[i] == s.aois[i];
      if j < |s.aois| {
        assert r[j] == s.aois[j];
      }
    }
  }

  /** Updating never touches ids, so it keeps them pairwise distinct. */
  lemma UpdateKeepsIdsUnique(s: StoreState, id: string, patch: AoiPatch, now: string)
    requires UniqueIds(s.aois)
    ensures UniqueIds(UpdateAoi(s, id, patch, now).aois)
  {
  }

  /** Merging the same patch twice at the same time is merging it once. */
  lemma {:induction false} UpdateIdempotent(aois: seq<Aoi>, id: string, patch: AoiPatch, now: string)
    ensures UpdateAll(UpdateAll(aois, id, patch, now), id, patch, now) == UpdateAll(aois, id, patch, now)
  {
    if |aois| > 0 {
      UpdateIdempotent(aois[1..], id, patch, now);
    }
  }

  /** A patch that supplies only a name changes only the name and the
      update time of the matching records. */
  lemma RenameChangesOnlyName(s: StoreState, id: string, name: string, now: string)
    ensures var r := UpdateAoi(s, id, NoChanges.(name := Some(name)), now);
      forall i :: 0 <= i < |s.aois| && s.aois[i].id == id ==>
        r.aois[i] == s.aois[i].(name := name, updatedAt := now)
  {
  }

  /** A patch that supplies `updatedAt` is still overridden by the time of
      the update, while a supplied `createdAt` is taken. */
  lemma UpdateStampsTime(a: Aoi, created: string, stamp: string, now: string)
    ensures Merge(a, NoChanges.(createdAt := Some(created), updatedAt := Some(stamp)), now)
            == a.(createdAt := created, updatedAt := now)
  {
  }

  /** Removal commutes with concatenation: the kept records stay in their
      original order. */
  lemma {:induction false} WithoutConcat(a: seq<Aoi>, b: seq<Aoi>, id: string)
    ensures Without(a + b, id) == Without(a, id) + Without(b, id)
  {
    if |a| > 0 {
      assert (a + b)[1..] == a[1..] + b;
      WithoutConcat(a[1..], b, id);
    } else {
      assert a + b == b;
    }
  }

  /** Removal only filters, so it keeps the ids pairwise distinct. */
  lemma {:induction false} WithoutKeepsIdsUnique(aois: seq<Aoi>, id: string)
    requires UniqueIds(aois)
    ensures UniqueIds(Without(aois, id))
  {
    if |aois| > 0 {
      var rest := aois[1..];
      WithoutKeepsIdsUnique(rest, id);
      if aois[0].id != id {
        var t := Without(rest, id);
        forall k | 0 <= k < |t|
          ensures t[k].id != aois[0].id
        {
          assert t[k] in rest;
          var m :| 0 <= m < |rest| && rest[m] == t[k];
          assert aois[m + 1] == t[k];
        }
        UniqueCons(aois[0], t);
      }
    }
  }

  /** A record whose id is new to a list with distinct ids may be put in
      front of it. */
  lemma UniqueCons(a: Aoi, t: seq<Aoi>)
    requires UniqueIds(t)
    requires forall k :: 0 <= k < |t| ==> t[k].id != a.id
    ensures UniqueIds([a] + t)
  {
    var r := [a] + t;
    forall i, j | 0 <= i < j < |r|
      ensures r[i].id != r[j].id
    {
      assert r[j] == t[j - 1];
      if i > 0 {
        assert r[i] == t[i - 1];
      }
    }
  }

  /** With distinct ids the selected AOI is the only record with the
      selected id. */
  lemma SelectedIsTheOnlyMatch(s: StoreState, i: nat)
    requires UniqueIds(s.aois) && i < |s.aois|
    ensures SelectedAoi(s) == Some(s.aois[i]) <==> s.selected == Some(s.aois[i].id)
  {
    if s.selected == Some(s.aois[i].id) {
      var found := SelectedAoi(s);
      var id := s.aois[i].id;
      assert HasId(s.aois, id);
      var k :| 0 <= k < |s.aois| && s.aois[k] == found.value && found.value.id == id
               && forall j :: 0 <= j < k ==> s.aois[j].id != id;
      assert k == i;
    }
  }

  /** Selecting an id no record carries is accepted, and then no AOI is
      selected. */
  lemma DanglingSelectionShowsNothing(s: StoreState, id: string)
    requires !HasId(s.aois, id)
    ensures var r := SetSelectedId(s, Some(id));
      r.selected == Some(id) && SelectedAoi(r).None? && !SelectionValid(r)
  {
  }

  /** Every command except a selection of an unknown id keeps the selection
      pointing at a record. */
  lemma ApplyKeepsSelectionValid(s: StoreState, c: Command)
    requires SelectionValid(s)
    requires c.Select? && c.selection.Some? ==> HasId(s.aois, c.selection.value)
    ensures SelectionValid(Apply(s, c))
  {
    var r := Apply(s, c);
    match c
    case Add(fields, id, now) =>
      assert r.aois[|s.aois|].id == id;
    case Update(id, patch, now) =>
      if s.selected.Some? {
        var k :| 0 <= k < |s.aois| && s.aois[k].id == s.selected.value;
        assert r.aois[k].id == s.selected.value;
      }
    case Remove(id) =>
      if r.selected.Some? {
        var k :| 0 <= k < |s.aois| && s.aois[k].id == s.selected.value;
        assert s.aois[k] in r.aois;
      }
    case Select(selection) =>
  }

  /** Commands applied one after another keep the list in sync with storage;
      the selection is never written. */
  lemma DispatchKeepsInSync(m: Mounted, c: Command, codec: Codec)
    requires InSync(m, codec)
    ensures InSync(Dispatch(m, c, codec), codec)
  {
  }

  /** What is stored depends on the list alone: two mounted stores that differ
      only in their selection store the same thing after any command. */
  lemma SelectionNeverStored(m1: Mounted, m2: Mounted, c: Command, codec: Codec)
    requires m1.state.aois == m2.state.aois && m1.storage == m2.storage
    ensures Dispatch(m1, c, codec).storage == Dispatch(m2, c, codec).storage
    ensures Dispatch(m1, c, codec).state.aois == Dispatch(m2, c, codec).state.aois
  {
  }

  /** Reloading from the storage a store keeps in sync restores its list in
      order and with every field, and resets the selection. */
  lemma ReloadRestoresList(m: Mounted, codec: Codec)
    requires RoundTrips(codec, m.state.aois) && InSync(m, codec)
    ensures Mount(m.storage, codec).state == StoreState(m.state.aois, None)
  {
  }

  /** A run of `Add` commands appends their records in call order and leaves
      the last one selected. */
  lemma {:induction false} AddsAppendInOrder(s: StoreState, cmds: seq<Command>)
    requires forall i :: 0 <= i < |cmds| ==> cmds[i].Add?
    ensures Run(s, cmds).aois == s.aois + Created(cmds)
    ensures |cmds| > 0 ==> Run(s, cmds).selected == Some(cmds[|cmds| - 1].id)
    decreases |cmds|
  {
    if |cmds| > 0 {
      var c := cmds[0];
      var rec := NewRecord(c.fields, c.id, c.now);
      var s' := Apply(s, c);
      assert s' == StoreState(s.aois + [rec], Some(c.id));
      AddsAppendInOrder(s', cmds[1..]);
      assert Run(s, cmds) == Run(s', cmds[1..]);
      assert Created(cmds) == [rec] + Created(cmds[1..]);
      assert s.aois + Created(cmds) == (s.aois + [rec]) + Created(cmds[1..]);
      if |cmds| > 1 {
        assert cmds[1..][|cmds| - 2] == cmds[|cmds| - 1];
      }
    } else {
      assert s.aois + Created(cmds) == s.aois;
    }
  }

  /** A run of `Add` commands with pairwise distinct ids, none already in
      use, keeps the ids pairwise distinct. */
  lemma {:induction false} AddsKeepIdsUnique(s: StoreState, cmds: seq<Command>)
    requires UniqueIds(s.aois)
    requires forall i :: 0 <= i < |cmds| ==> cmds[i].Add? && !HasId(s.aois, cmds[i].id)
    requires forall i, j :: 0 <= i < j < |cmds| ==> cmds[i].id != cmds[j].id
    ensures UniqueIds(Run(s, cmds).aois)
    decreases |cmds|
  {
    if |cmds| > 0 {
      var c := cmds[0];
      AddKeepsIdsUnique(s, c.fields, c.id, c.now);
      var s' := Apply(s, c);
      var rest := cmds[1..];
      forall i | 0 <= i < |rest|
        ensures rest[i].Add? && !HasId(s'.aois, rest[i].id)
      {
        assert rest[i] == cmds[i + 1];
      }
      AddsKeepIdsUnique(s', rest);
    }
  }

  /** Start empty, add "Field 1" at (51.5, 7.5), then remove it: the list is
      empty again and nothing is selected. */
  lemma AddThenRemoveScenario(id: string, now: string)
    ensures var fields := NewAoi("Field 1", None, Geometry(Point, [LatLng(51.5, 7.5)]));
      var added := AddAoi(StoreState([], None), fields, id, now);
      && |added.aois| == 1
      && SelectedAoi(added).Some? && SelectedAoi(added).value.name == "Field 1"
      && RemoveAoi(added, id) == StoreState([], None)
      && SelectedAoi(RemoveAoi(added, id)).None?
  {
    var fields := NewAoi("Field 1", None, Geometry(Point, [LatLng(51.5, 7.5)]));
    AddSelectsNewRecord(StoreState([], None), fields, id, now);
  }
}
