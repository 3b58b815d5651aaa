/**
  The episode card of components/Player/Player.tsx: it loads the progress
  record stored under "<id>-progress" whenever its source, its id or the page
  context changes, shows the remaining time and the progress bar once
  playback has moved, and hands its item to `selectAudio` when clicked. It
  reads local storage and never writes it.
*/
module PlayerCard {
  import opened Wrappers
  import opened Numbers
  import opened JsonText
  import opened BrowserStorage
  import opened AppContext
  import opened PlayerProgress

  class Card {
    const src: string
    const id: ItemId
    const title: string
    const date: string
    /** `selectAudio !== undefined`. */
    const hasSelectAudio: bool
    const store: Storage
    var progress: Json
    /** The items `selectAudio` has been called with, in order. */
    var selections: seq<SelectedItem>

    constructor (src: string, id: ItemId, title: string, date: string, hasSelectAudio: bool, store: Storage)
      ensures this.src == src && this.id == id && this.title == title && this.date == date
      ensures this.hasSelectAudio == hasSelectAudio && this.store == store
      ensures progress == InitialProgress("currentTime") && selections == []
    {
      this.src := src;
      this.id := id;
      this.title := title;
      this.date := date;
      this.hasSelectAudio := hasSelectAudio;
      this.store := store;
      progress := InitialProgress("currentTime");
      selections := [];
    }

    /** The load effect: a stored record replaces the progress; with nothing
        stored the progress stays; a record that does not parse, or is `null`,
        throws before anything is set. Storage is only read. */
    method Load() returns (error: Option<JsError>)
      modifies this
      ensures unchanged(store)
      ensures selections == old(selections)
      ensures var r := RestoredRecord(store.items, ProgressKey(IdText(id)));
        && (r == Ok(None) ==> error == None && progress == old(progress))
        && (r.Err? ==> error == Some(r.error) && progress == old(progress))
        && (r.Ok? && r.value.Some? ==> error == None && progress == r.value.value.0)
    {
      match RestoredRecord(store.items, ProgressKey(IdText(id)))
      case Err(e) =>
        error := Some(e);
      case Ok(None) =>
        error := None;
      case Ok(Some((record, _))) =>
        progress := record;
        error := None;
    }

    /** The remaining-time label, from `duration - currentTime`. */
    function RemainingText(): (r: Result<string, JsError>)
      reads this
      ensures r.Err? <==> progress.JNull?
    {
      RemainingLabel(progress, "currentTime")
    }

    /** `progress.currentTime != 0`: whether the progress bar is rendered. */
    function ShowsProgress(): (r: Result<bool, JsError>)
      reads this
      ensures r.Err? <==> progress.JNull?
    {
      ProgressVisible(progress, "currentTime")
    }

    /** A click: `transferParam({ title, date, src, id })` calls `selectAudio`
        with the card's item when it is defined, and does nothing otherwise. */
    method Click()
      modifies this
      ensures progress == old(progress)
      ensures hasSelectAudio ==> selections == old(selections) + [SelectedItem(title, date, src, id)]
      ensures !hasSelectAudio ==> selections == old(selections)
    {
      if hasSelectAudio {
        selections := selections + [SelectedItem(title, date, src, id)];
      }
    }
  }

  /** A card whose id has a record written by a player shows that record: the
      label of its remaining time, and the bar exactly when its position is
      not 0. */
  method LoadPlayerRecord(c: Card, currentTime: int, duration: int) returns (error: Option<JsError>)
    requires ProgressKey(IdText(c.id)) in c.store.items
    requires c.store.items[ProgressKey(IdText(c.id))] == Serialise(TimeRecord(currentTime, duration))
    modifies c
    ensures error == None
    ensures c.progress == TimeRecord(currentTime, duration)
    ensures c.RemainingText() == Ok(LabelText(Finite(duration - currentTime)))
    ensures c.ShowsProgress() == Ok(currentTime != 0)
  {
    var key := ProgressKey(IdText(c.id));
    var record := TimeRecord(currentTime, duration);
    RestoreAfterWrite(c.store.items, key, currentTime, duration);
    assert c.store.items[key := Serialise(record)] == c.store.items;
    error := c.Load();
    CardShowsRecord(c, currentTime, duration);
  }

  /** A card holding a record shows the label of its remaining time, and its
      bar exactly when the position is not 0. */
  lemma CardShowsRecord(c: Card, currentTime: int, duration: int)
    requires c.progress == TimeRecord(currentTime, duration)
    ensures c.RemainingText() == Ok(LabelText(Finite(duration - currentTime)))
    ensures c.ShowsProgress() == Ok(currentTime != 0)
  {
    RemainingOfRecord(currentTime, duration);
    VisibleOfRecord(currentTime, duration, "currentTime");
  }
}
