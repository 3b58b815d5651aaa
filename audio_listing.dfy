/**
  One entry of the episode list, components/AudioListing/AudioListing.tsx:
  the favourite toggle, a read-modify-write of the id list stored under
  "favoriteItems"; the load effect that reads that list and the entry's stored
  progress; the remaining-time label and its visibility; and the selection of
  the entry for the main player.

  The entry reads its progress as `{ playedSeconds, duration }`, while the
  players write `{ currentTime, duration }` under the same key.
*/
module AudioListing {
  import opened Wrappers
  import opened JsText
  import opened Numbers
  import opened JsonText
  import opened JsArray
  import opened BrowserStorage
  import opened AppContext
  import opened PlayerProgress

  const FavoritesKey := "favoriteItems"

  /** The progress field this component reads. */
  const ProgressField := "playedSeconds"

  // ---------------------------------------------------------------- the favourites list

  /** `JSON.parse(localStorage.getItem("favoriteItems") || "[]")`. */
  function ReadFavorites(items: map<string, string>): (r: Result<Json, JsError>)
    ensures !Truthy(GetItem(items, FavoritesKey)) ==> r == Ok(JArr([]))
    ensures Truthy(GetItem(items, FavoritesKey)) ==>
      (r.Ok? <==> Parse(items[FavoritesKey]).Some?) && (r.Ok? ==> Some(r.value) == Parse(items[FavoritesKey]))
    ensures r.Err? ==> r.error == SyntaxError
  {
    if !Truthy(GetItem(items, FavoritesKey)) then EmptyListParses(); Ok(JArr([]))
    else
      match Parse(items[FavoritesKey])
      case Some(v) => Ok(v)
      case None => Err(SyntaxError)
  }

  lemma EmptyListParses()
    ensures Parse("[]") == Some(JArr([]))
  {
    ParseSerialise(JArr([]));
  }

  /** `favoriteItems.includes(id)`: an array compares its elements with the id, a
      string looks for the id's text in it, and any other value has no `includes`. */
  function IncludesId(favorites: Json, id: ItemId): (r: Result<bool, JsError>)
    ensures r.Ok? <==> favorites.JArr? || favorites.JStr?
    ensures favorites.JArr? ==> r == Ok(IdJson(id) in favorites.items)
    ensures r.Err? ==> r.error == TypeError
  {
    match favorites
    case JArr(xs) => Ok(IdJson(id) in xs)
    case JStr(s) => Ok(Includes(s, IdText(id)))
    case _ => Err(TypeError)
  }

  /** `item => item !== id`. */
  function NotId(idJson: Json): (r: Json -> bool)
    ensures !r(idJson)
    ensures forall x :: x != idJson ==> r(x)
  {
    item => item != idJson
  }

  /** The list `toggleFavorite` writes: an id that is present is filtered out
      wherever it occurs, a missing one is pushed on the end. */
  function Toggled(list: seq<Json>, idJson: Json): (r: seq<Json>)
    ensures (idJson in r) <==> idJson !in list
    ensures forall x :: x != idJson ==> (x in r <==> x in list)
  {
    if idJson in list then Filter(list, NotId(idJson)) else list + [idJson]
  }

  /** Every other id keeps its place: with the toggled id taken out, the list is
      the same before and after. */
  lemma ToggledKeepsOthers(list: seq<Json>, idJson: Json)
    ensures Filter(Toggled(list, idJson), NotId(idJson)) == Filter(list, NotId(idJson))
  {
    if idJson in list {
      FilterIdempotent(list, NotId(idJson));
    } else {
      FilterAppend(list, [idJson], NotId(idJson));
      assert Filter([idJson], NotId(idJson)) == [];
    }
  }

  /** Toggling twice restores membership: a new id leaves the list as it was,
      and an id that was present comes back once, at the end. */
  lemma ToggledTwice(list: seq<Json>, idJson: Json)
    ensures idJson !in list ==> Toggled(Toggled(list, idJson), idJson) == list
    ensures idJson in list ==> Toggled(Toggled(list, idJson), idJson) == Filter(list, NotId(idJson)) + [idJson]
    ensures (idJson in Toggled(Toggled(list, idJson), idJson)) <==> idJson in list
  {
    if idJson !in list {
      assert idJson in list + [idJson];
      FilterAppend(list, [idJson], NotId(idJson));
      assert Filter([idJson], NotId(idJson)) == [];
      FilterAll(list, NotId(idJson));
    }
  }

  /** What a toggle leaves behind: the list written back and the new flag. */
  datatype ToggleResult = ToggleResult(written: seq<Json>, favorite: bool)

  /** `toggleFavorite`: parse the list, look the id up, then filter or push. A
      stored string passes `includes` but has neither `filter` nor `push`. */
  function ToggleOutcome(items: map<string, string>, id: ItemId): (r: Result<ToggleResult, JsError>)
    ensures r.Ok? <==> ReadFavorites(items).Ok? && ReadFavorites(items).value.JArr?
    ensures r.Ok? ==> r.value.written == Toggled(ReadFavorites(items).value.items, IdJson(id))
    ensures r.Ok? ==> r.value.favorite == (IdJson(id) in r.value.written)
  {
    match ReadFavorites(items)
    case Err(e) => Err(e)
    case Ok(favorites) =>
      match IncludesId(favorites, id)
      case Err(e) => Err(e)
      case Ok(isFavorite) =>
        if !favorites.JArr? then Err(TypeError)
        else
          Ok(ToggleResult(Toggled(favorites.items, IdJson(id)), !isFavorite))
  }

  /** The flag the load effect computes: `favoriteItems.includes(id)`. Nothing
      stored is not a favourite; a stored array answers membership; a stored
      string also has `includes`; text that does not parse is a SyntaxError and
      any other value a TypeError. */
  function FavoriteFlag(items: map<string, string>, id: ItemId): (r: Result<bool, JsError>)
    ensures !Truthy(GetItem(items, FavoritesKey)) ==> r == Ok(false)
    ensures r.Ok? <==> ReadFavorites(items).Ok? && (ReadFavorites(items).value.JArr? || ReadFavorites(items).value.JStr?)
    ensures r.Ok? && ReadFavorites(items).value.JArr? ==> r.value == (IdJson(id) in ReadFavorites(items).value.items)
    ensures r.Err? ==> (r.error == SyntaxError <==> ReadFavorites(items).Err?)
  {
    match ReadFavorites(items)
    case Err(e) => Err(e)
    case Ok(favorites) => IncludesId(favorites, id)
  }

  /** After a toggle, the next load of any entry with the same id shows the new flag. */
  lemma ToggleThenLoad(items: map<string, string>, id: ItemId)
    requires ToggleOutcome(items, id).Ok?
    ensures var t := ToggleOutcome(items, id).value;
      FavoriteFlag(items[FavoritesKey := Serialise(JArr(t.written))], id) == Ok(t.favorite)
  {
    var t := ToggleOutcome(items, id).value;
    assert |Serialise(JArr(t.written))| > 0;
    ParseSerialise(JArr(t.written));
  }

  /** A second toggle, after the first was written, restores membership of the id. */
  lemma ToggleTwiceRestores(items: map<string, string>, id: ItemId)
    requires ToggleOutcome(items, id).Ok?
    ensures var t := ToggleOutcome(items, id).value;
      var second := ToggleOutcome(items[FavoritesKey := Serialise(JArr(t.written))], id);
      second.Ok? && second.value.favorite == (IdJson(id) in ReadFavorites(items).value.items)
  {
    var t := ToggleOutcome(items, id).value;
    assert |Serialise(JArr(t.written))| > 0;
    ParseSerialise(JArr(t.written));
    ToggledTwice(ReadFavorites(items).value.items, IdJson(id));
  }

  // ---------------------------------------------------------------- progress display

  /** The label as written: it reads `playedSeconds`. */
  function RemainingText(progress: Json): (r: Result<string, JsError>)
    ensures r.Err? <==> progress.JNull?
  {
    RemainingLabel(progress, ProgressField)
  }

  /** `progress.playedSeconds != 0`: an object without that member shows the
      block, since `undefined != 0`. */
  function ShowsProgress(progress: Json): (r: Result<bool, JsError>)
    ensures r.Err? <==> progress.JNull?
    ensures progress.JObj? && LastMember(progress.members, ProgressField).None? ==> r == Ok(true)
  {
    ProgressVisible(progress, ProgressField)
  }

  /** A record the players stored has no `playedSeconds`: the entry shows its
      progress block, whatever the position, with the label "NaNm NaNs left". */
  lemma ListingMisreadsPlayerRecord(currentTime: int, duration: int)
    ensures RemainingText(TimeRecord(currentTime, duration)) == Ok("NaNm NaNs left")
    ensures ShowsProgress(TimeRecord(currentTime, duration)) == Ok(true)
  {
    var record := TimeRecord(currentTime, duration);
    assert LastMember(record.members, "duration") == Some(JNum(duration));
    assert LastMember(record.members, ProgressField) == None;
    assert GetProp(record, ProgressField) == Some(Undefined);
    assert Sub(Finite(duration), NaN) == NaN;
    assert RemainingLabel(record, ProgressField) == Ok(LabelText(NaN));
    assert LooseNotZero(Undefined);
  }

  /** The label and the visibility test reading the field the players write. */
  function CorrectedRemainingText(progress: Json): (r: Result<string, JsError>)
    ensures r.Err? <==> progress.JNull?
  {
    RemainingLabel(progress, "currentTime")
  }

  function CorrectedShowsProgress(progress: Json): (r: Result<bool, JsError>)
    ensures r.Err? <==> progress.JNull?
    ensures progress.JObj? && LastMember(progress.members, "currentTime") == Some(JNum(0)) ==> r == Ok(false)
  {
    ProgressVisible(progress, "currentTime")
  }

  /** Read with the field the players write, a stored record shows the label of
      its remaining time (`LabelText` states its digits), and shows it only
      once playback has moved. */
  lemma CorrectedListingReadsRecord(currentTime: int, duration: int)
    ensures CorrectedRemainingText(TimeRecord(currentTime, duration)) == Ok(LabelText(Finite(duration - currentTime)))
    ensures CorrectedShowsProgress(TimeRecord(currentTime, duration)) == Ok(currentTime != 0)
  {
    RemainingOfRecord(currentTime, duration);
    VisibleOfRecord(currentTime, duration, ProgressField);
  }

  // ---------------------------------------------------------------- the component

  class Listing {
    const id: ItemId
    const title: string
    const date: string
    const src: string
    /** `typeof favoriteCallback === "function"`. */
    const hasCallback: bool
    const store: Storage
    var progress: Json
    var favorite: bool
    /** The ids `favoriteCallback` has been called with, in order. */
    var callbackCalls: seq<ItemId>

    constructor (id: ItemId, title: string, date: string, src: string, hasCallback: bool, store: Storage)
      ensures this.id == id && this.title == title && this.date == date && this.src == src
      ensures this.hasCallback == hasCallback && this.store == store
      ensures progress == InitialProgress(ProgressField) && !favorite && callbackCalls == []
    {
      this.id := id;
      this.title := title;
      this.date := date;
      this.src := src;
      this.hasCallback := hasCallback;
      this.store := store;
      progress := InitialProgress(ProgressField);
      favorite := false;
      callbackCalls := [];
    }

    /** `toggleFavorite(id)`: on success only "favoriteItems" is written, the
        callback is told, and the flag becomes the new membership; an error
        leaves everything as it was. */
    method ToggleFavorite() returns (error: Option<JsError>)
      modifies this, store
      ensures progress == old(progress)
      ensures ToggleOutcome(old(store.items), id).Err? ==>
        error == Some(ToggleOutcome(old(store.items), id).error)
        && store.items == old(store.items) && favorite == old(favorite) && callbackCalls == old(callbackCalls)
      ensures ToggleOutcome(old(store.items), id).Ok? ==>
        var t := ToggleOutcome(old(store.items), id).value;
        && error == None
        && store.items == old(store.items)[FavoritesKey := Serialise(JArr(t.written))]
        && favorite == t.favorite
        && favorite == !(IdJson(id) in ReadFavorites(old(store.items)).value.items)
        && callbackCalls == old(callbackCalls) + (if hasCallback then [id] else [])
    {
      var outcome := ToggleOutcome(store.items, id);
      if outcome.Err? {
        return Some(outcome.error);
      }
      store.SetItem(FavoritesKey, Serialise(JArr(outcome.value.written)));
      if hasCallback {
        callbackCalls := callbackCalls + [id];
      }
      favorite := outcome.value.favorite;
      error := None;
    }

    /** The load effect: the flag from the favourites list, then the stored
        progress record when there is one. A list that does not parse or has no
        `includes` stops it before anything is set; a record that does not parse
        stops it after the flag is set. */
    method Load() returns (error: Option<JsError>)
      modifies this
      ensures callbackCalls == old(callbackCalls)
      ensures FavoriteFlag(store.items, id).Err? ==>
        error == Some(FavoriteFlag(store.items, id).error) && favorite == old(favorite) && progress == old(progress)
      ensures FavoriteFlag(store.items, id).Ok? ==> favorite == FavoriteFlag(store.items, id).value
      ensures FavoriteFlag(store.items, id).Ok? ==>
        var stored := StoredProgress(store.items, ProgressKey(IdText(id)));
        && (stored.Err? ==> error == Some(SyntaxError) && progress == old(progress))
        && (stored == Ok(None) ==> error == None && progress == old(progress))
        && (stored.Ok? && stored.value.Some? ==> error == None && progress == stored.value.value)
    {
      var flag := FavoriteFlag(store.items, id);
      if flag.Err? {
        return Some(flag.error);
      }
      favorite := flag.value;
      var stored := StoredProgress(store.items, ProgressKey(IdText(id)));
      match stored
      case Err(e) =>
        error := Some(e);
      case Ok(None) =>
        error := None;
      case Ok(Some(v)) =>
        progress := v;
        error := None;
    }

    /** A click on the entry selects it for the main player. */
    function Select(context: GlobalContext): (next: GlobalContext)
      reads this
      ensures next.selectedItem == SelectedItem(title, date, src, id)
      ensures next.isModalActive == context.isModalActive
    {
      SelectItem(context, SelectedItem(title, date, src, id))
    }
  }
}
