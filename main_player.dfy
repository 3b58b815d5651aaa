/**
  The main player of components/MainPlayer/MainPlayer.tsx. It receives the
  selected item of the page context as its props, keeps a progress record and
  an open flag, writes the record under "<id>-progress" on every time update,
  restores it when the source changes, and opens and plays when an item with a
  title and a source is selected.
*/
module MainPlayer {
  import opened Wrappers
  import opened JsonText
  import opened BrowserStorage
  import opened AppContext
  import opened PlayerProgress

  class Player {
    var title: string
    var src: string
    var id: ItemId
    const store: Storage
    /** `audioRef.current`: null until the element is attached. */
    const audio: AudioElement?
    var progress: Json
    var isOpen: bool

    /** The first render: closed, with the progress `{ currentTime: 0, duration: 0 }`. */
    constructor (title: string, src: string, id: ItemId, store: Storage, audio: AudioElement?)
      ensures this.title == title && this.src == src && this.id == id
      ensures this.store == store && this.audio == audio
      ensures progress == InitialProgress("currentTime") && !isOpen
    {
      this.title := title;
      this.src := src;
      this.id := id;
      this.store := store;
      this.audio := audio;
      progress := InitialProgress("currentTime");
      isOpen := false;
    }

    /** `${id}-progress`. */
    function Key(): string
      reads this
    {
      ProgressKey(IdText(id))
    }

    /** `handleTimeUpdate`: the record of the element's position and duration
        becomes the progress and is written under the key of this id, and
        under no other key. */
    method HandleTimeUpdate(currentTime: int, duration: int)
      modifies this, store
      ensures progress == TimeRecord(currentTime, duration)
      ensures store.items == old(store.items)[Key() := Serialise(TimeRecord(currentTime, duration))]
      ensures forall k :: k in old(store.items) && k != Key() ==> k in store.items && store.items[k] == old(store.items)[k]
      ensures title == old(title) && src == old(src) && id == old(id) && isOpen == old(isOpen)
    {
      var key := Key();
      var record := TimeRecord(currentTime, duration);
      progress := record;
      store.SetItem(key, Serialise(record));
      assert Key() == key;
    }

    /** The restore effect: a stored record becomes the progress and its
        `currentTime` the element's position. Nothing stored changes nothing;
        a record that does not parse, or is `null`, throws before anything is
        set; a position that is not a finite number throws after the progress
        is set. */
    method RestoreProgress() returns (error: Option<JsError>)
      modifies this, audio
      ensures title == old(title) && src == old(src) && id == old(id) && isOpen == old(isOpen)
      ensures audio != null ==> audio.paused == old(audio.paused)
      ensures RestoredRecord(store.items, Key()) == Ok(None) ==>
        error == None && progress == old(progress)
        && (audio != null ==> audio.currentTime == old(audio.currentTime))
      ensures RestoredRecord(store.items, Key()).Err? ==>
        error == Some(RestoredRecord(store.items, Key()).error) && progress == old(progress)
        && (audio != null ==> audio.currentTime == old(audio.currentTime))
      ensures RestoredRecord(store.items, Key()).Ok? && RestoredRecord(store.items, Key()).value.Some? ==>
        var (record, position) := RestoredRecord(store.items, Key()).value.value;
        && progress == record
        && (audio == null ==> error == None)
        && (audio != null && SeekTarget(position).Ok? ==> error == None && audio.currentTime == SeekTarget(position).value)
        && (audio != null && SeekTarget(position).Err? ==> error == Some(TypeError) && audio.currentTime == old(audio.currentTime))
    {
      var restored := RestoredRecord(store.items, Key());
      match restored
      case Err(e) =>
        error := Some(e);
      case Ok(None) =>
        error := None;
      case Ok(Some((record, position))) =>
        progress := record;
        error := None;
        if audio != null {
          match SeekTarget(position)
          case Ok(t) =>
            audio.currentTime := t;
          case Err(e) =>
            error := Some(e);
        }
    }

    method HandleOpen()
      modifies this
      ensures isOpen
      ensures title == old(title) && src == old(src) && id == old(id) && progress == old(progress)
    {
      isOpen := true;
    }

    /** `handleClose`: closed and paused; the progress and the stored records
        stay as they were. */
    method HandleClose()
      modifies this, audio
      ensures !isOpen
      ensures title == old(title) && src == old(src) && id == old(id) && progress == old(progress)
      ensures store.items == old(store.items)
      ensures audio != null ==> audio.paused && audio.currentTime == old(audio.currentTime)
    {
      isOpen := false;
      if audio != null {
        audio.paused := true;
      }
    }

    /** The open-on-selection effect: an item with both a title and a source
        opens the player and starts playback; otherwise nothing happens. */
    method OpenOnSelection()
      modifies this, audio
      ensures title == old(title) && src == old(src) && id == old(id) && progress == old(progress)
      ensures audio != null ==> audio.currentTime == old(audio.currentTime)
      ensures title != "" && src != "" ==> isOpen && (audio != null ==> !audio.paused)
      ensures !(title != "" && src != "") ==> isOpen == old(isOpen)
      ensures !(title != "" && src != "") && audio != null ==> audio.paused == old(audio.paused)
    {
      if title != "" && src != "" {
        HandleOpen();
        if audio != null {
          audio.paused := false;
        }
      }
    }

    /** The effects after the first render, in their order: the restore, then
        the open-on-selection effect; an error in the first stops the second. */
    method Mount() returns (error: Option<JsError>)
      modifies this, audio
      ensures title == old(title) && src == old(src) && id == old(id)
      ensures error == None && title != "" && src != "" ==> isOpen
      ensures error.Some? ==> isOpen == old(isOpen)
      ensures RestoredRecord(store.items, Key()).Err? ==>
        error == Some(RestoredRecord(store.items, Key()).error) && progress == old(progress)
        && (audio != null ==> audio.currentTime == old(audio.currentTime))
      ensures RestoredRecord(store.items, Key()) == Ok(None) ==>
        error == None && progress == old(progress)
        && (audio != null ==> audio.currentTime == old(audio.currentTime))
      ensures RestoredRecord(store.items, Key()).Ok? && RestoredRecord(store.items, Key()).value.Some? ==>
        var (record, position) := RestoredRecord(store.items, Key()).value.value;
        && progress == record
        && (audio == null ==> error == None)
        && (audio != null && SeekTarget(position).Ok? ==> error == None && audio.currentTime == SeekTarget(position).value)
        && (audio != null && SeekTarget(position).Err? ==> error == Some(TypeError) && audio.currentTime == old(audio.currentTime))
    {
      error := RestoreProgress();
      if error == None {
        OpenOnSelection();
      }
    }

    /** A new selected item: the restore effect depends on the source only, the
        open effect on the title and the source; the effects whose dependencies
        changed run in order, and an error stops the rest. */
    method ReceiveProps(newTitle: string, newSrc: string, newId: ItemId) returns (error: Option<JsError>)
      modifies this, audio
      ensures title == newTitle && src == newSrc && id == newId
      ensures old(src) == newSrc ==> error == None && progress == old(progress)
      ensures old(src) == newSrc && audio != null ==> audio.currentTime == old(audio.currentTime)
      ensures old(src) != newSrc && RestoredRecord(store.items, Key()).Err? ==>
        error == Some(RestoredRecord(store.items, Key()).error) && progress == old(progress)
        && (audio != null ==> audio.currentTime == old(audio.currentTime))
      ensures old(src) != newSrc && RestoredRecord(store.items, Key()) == Ok(None) ==>
        error == None && progress == old(progress)
        && (audio != null ==> audio.currentTime == old(audio.currentTime))
      ensures old(src) != newSrc && RestoredRecord(store.items, Key()).Ok? && RestoredRecord(store.items, Key()).value.Some? ==>
        var (record, position) := RestoredRecord(store.items, Key()).value.value;
        && progress == record
        && (audio == null ==> error == None)
        && (audio != null && SeekTarget(position).Ok? ==> error == None && audio.currentTime == SeekTarget(position).value)
        && (audio != null && SeekTarget(position).Err? ==> error == Some(TypeError) && audio.currentTime == old(audio.currentTime))
      ensures error == None && (old(title) != newTitle || old(src) != newSrc) && newTitle != "" && newSrc != "" ==> isOpen
      ensures old(title) == newTitle && old(src) == newSrc ==> isOpen == old(isOpen)
      ensures error.Some? ==> isOpen == old(isOpen)
    {
      var sourceChanged := newSrc != src;
      var selectionChanged := newTitle != title || sourceChanged;
      title, src, id := newTitle, newSrc, newId;
      error := None;
      if sourceChanged {
        error := RestoreProgress();
      }
      if error == None && selectionChanged {
        OpenOnSelection();
      }
    }
  }

  /** A time update and then a restore for the same id bring back the record
      just written, and the element's position is its `currentTime`. */
  method TimeUpdateThenRestore(p: Player, currentTime: int, duration: int) returns (error: Option<JsError>)
    modifies p, p.store, p.audio
    ensures error == None
    ensures p.progress == TimeRecord(currentTime, duration)
    ensures p.audio != null ==> p.audio.currentTime == currentTime
  {
    ghost var before := p.store.items;
    ghost var key := p.Key();
    p.HandleTimeUpdate(currentTime, duration);
    RecordAfterUpdate(p, before, key, currentTime, duration);
    error := RestoreWritten(p, currentTime, duration);
  }

  /** The restore of a player whose storage holds a record under its key. */
  method RestoreWritten(p: Player, currentTime: int, duration: int) returns (error: Option<JsError>)
    requires RestoredRecord(p.store.items, p.Key()) == Ok(Some((TimeRecord(currentTime, duration), Defined(JNum(currentTime)))))
    modifies p, p.audio
    ensures error == None
    ensures p.progress == TimeRecord(currentTime, duration)
    ensures p.audio != null ==> p.audio.currentTime == currentTime
  {
    assert SeekTarget(Defined(JNum(currentTime))) == Ok(currentTime);
    error := p.RestoreProgress();
  }

  /** After a time update, the restore finds the record just written. */
  lemma RecordAfterUpdate(p: Player, before: map<string, string>, key: string, currentTime: int, duration: int)
    requires p.Key() == key && p.store.items == before[key := Serialise(TimeRecord(currentTime, duration))]
    ensures RestoredRecord(p.store.items, p.Key()) == Ok(Some((TimeRecord(currentTime, duration), Defined(JNum(currentTime)))))
  {
    RestoreAfterWrite(before, key, currentTime, duration);
  }
}
