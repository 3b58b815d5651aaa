/**
  The stand-alone audio player of components/Player.tsx. It keys its progress
  record by the audio source, "<src>-progress": every time update writes the
  record, a change of source restores it, and the position and duration are
  shown rounded down to whole seconds. The title and date are only rendered.
*/
module InlinePlayer {
  import opened Wrappers
  import opened JsText
  import opened Numbers
  import opened JsonText
  import opened BrowserStorage
  import opened PlayerProgress

  /** `Math.floor(progress.currentTime)` and `Math.floor(progress.duration)` as
      rendered text; times are whole seconds, so rounding down keeps them. */
  function DisplayedTimes(progress: Json): (r: Result<(string, string), JsError>)
    ensures r.Err? <==> progress.JNull?
  {
    match (GetProp(progress, "currentTime"), GetProp(progress, "duration"))
    case (Some(p), Some(d)) => Ok((NumberToString(ToNumber(p)), NumberToString(ToNumber(d))))
    case _ => Err(TypeError)
  }

  /** A record shows its position and duration; the initial state shows "0" twice. */
  lemma DisplayOfRecord(currentTime: int, duration: int)
    ensures DisplayedTimes(TimeRecord(currentTime, duration)) == Ok((IntToDecimal(currentTime), IntToDecimal(duration)))
    ensures DisplayedTimes(InitialProgress("currentTime")) == Ok(("0", "0"))
  {
    var record := TimeRecord(currentTime, duration);
    assert LastMember(record.members, "currentTime") == Some(JNum(currentTime));
    assert LastMember(record.members, "duration") == Some(JNum(duration));
    var initial := InitialProgress("currentTime");
    assert LastMember(initial.members, "currentTime") == Some(JNum(0));
    assert LastMember(initial.members, "duration") == Some(JNum(0));
  }

  class Player {
    var src: string
    const store: Storage
    /** `audioRef.current`: null until the element is attached. */
    const audio: AudioElement?
    var progress: Json

    /** The first render, with the progress `{ currentTime: 0, duration: 0 }`. */
    constructor (src: string, store: Storage, audio: AudioElement?)
      ensures this.src == src && this.store == store && this.audio == audio
      ensures progress == InitialProgress("currentTime")
    {
      this.src := src;
      this.store := store;
      this.audio := audio;
      progress := InitialProgress("currentTime");
    }

    /** `${src}-progress`. */
    function Key(): string
      reads this
    {
      ProgressKey(src)
    }

    /** `handleTimeUpdate`: the record becomes the progress and is written
        under the key of the source, and under no other key. */
    method HandleTimeUpdate(currentTime: int, duration: int)
      modifies this, store
      ensures src == old(src)
      ensures progress == TimeRecord(currentTime, duration)
      ensures store.items == old(store.items)[Key() := Serialise(TimeRecord(currentTime, duration))]
      ensures forall k :: k in old(store.items) && k != Key() ==> k in store.items && store.items[k] == old(store.items)[k]
    {
      var key := Key();
      var record := TimeRecord(currentTime, duration);
      progress := record;
      store.SetItem(key, Serialise(record));
      assert Key() == key;
    }

    /** The restore effect: a stored record becomes the progress and its
        `currentTime` the element's position; nothing stored changes nothing;
        a record that does not parse, or is `null`, throws before anything is
        set; a position that is not a finite number throws after the progress
        is set. */
    method RestoreProgress() returns (error: Option<JsError>)
      modifies this, audio
      ensures src == old(src)
      ensures audio != null ==> audio.paused == old(audio.paused)
      ensures RestoredRecord(store.items, Key()) == Ok(None) ==>
        error == None && progress == old(progress)
        && (audio != null ==> audio.currentTime == old(audio.currentTime))
      ensures RestoredRecord(store.items, Key()).Err? ==>
        error == Some(RestoredRecord(store.items, Key()).error) && progress == old(progress)
        && (audio != null ==> audio.currentTime == old(audio.currentTime))
      ensures RestoredRecord(store.items, Key()).Ok? && RestoredRecord(store.items, Key()).value.Some? ==>
        var (record, position) := RestoredRecord(store.items, Key()).value.value;
        && progress == record
        && (audio == null ==> error == None)
        && (audio != null && SeekTarget(position).Ok? ==> error == None && audio.currentTime == SeekTarget(position).value)
        && (audio != null && SeekTarget(position).Err? ==> error == Some(TypeError) && audio.currentTime == old(audio.currentTime))
    {
      var restored := RestoredRecord(store.items, Key());
      match restored
      case Err(e) =>
        error := Some(e);
      case Ok(None) =>
        error := None;
      case Ok(Some((record, position))) =>
        progress := record;
        error := None;
        if audio != null {
          match SeekTarget(position)
          case Ok(t) =>
            audio.currentTime := t;
          case Err(e) =>
            error := Some(e);
        }
    }

    /** A new source: the restore effect runs only when the source changed. */
    method ReceiveSource(newSrc: string) returns (error: Option<JsError>)
      modifies this, audio
      ensures src == newSrc
      ensures old(src) == newSrc ==> error == None && progress == old(progress)
      ensures old(src) == newSrc && audio != null ==> audio.currentTime == old(audio.currentTime)
      ensures old(src) != newSrc && RestoredRecord(store.items, Key()).Err? ==>
        error == Some(RestoredRecord(store.items, Key()).error) && progress == old(progress)
        && (audio != null ==> audio.currentTime == old(audio.currentTime))
      ensures old(src) != newSrc && RestoredRecord(store.items, Key()) == Ok(None) ==>
        error == None && progress == old(progress)
        && (audio != null ==> audio.currentTime == old(audio.currentTime))
      ensures old(src) != newSrc && RestoredRecord(store.items, Key()).Ok? && RestoredRecord(store.items, Key()).value.Some? ==>
        var (record, position) := RestoredRecord(store.items, Key()).value.value;
        && progress == record
        && (audio == null ==> error == None)
        && (audio != null && SeekTarget(position).Ok? ==> error == None && audio.currentTime == SeekTarget(position).value)
        && (audio != null && SeekTarget(position).Err? ==> error == Some(TypeError) && audio.currentTime == old(audio.currentTime))
    {
      var changed := newSrc != src;
      src := newSrc;
      error := None;
      if changed {
        error := RestoreProgress();
      }
    }

    /** What the player shows. */
    function Displayed(): (r: Result<(string, string), JsError>)
      reads this
      ensures r.Err? <==> progress.JNull?
    {
      DisplayedTimes(progress)
    }
  }

  /** A time update and then a restore for the same source bring back the
      record just written; the element's position and the displayed position
      are its `currentTime`. */
  method TimeUpdateThenRestore(p: Player, currentTime: int, duration: int) returns (error: Option<JsError>)
    modifies p, p.store, p.audio
    ensures error == None
    ensures p.progress == TimeRecord(currentTime, duration)
    ensures p.audio != null ==> p.audio.currentTime == currentTime
    ensures p.Displayed() == Ok((IntToDecimal(currentTime), IntToDecimal(duration)))
  {
    ghost var before := p.store.items;
    ghost var key := p.Key();
    p.HandleTimeUpdate(currentTime, duration);
    RecordAfterUpdate(p, before, key, currentTime, duration);
    error := RestoreWritten(p, currentTime, duration);
  }

  /** The restore of a player whose storage holds a record under its key. */
  method RestoreWritten(p: Player, currentTime: int, duration: int) returns (error: Option<JsError>)
    requires RestoredRecord(p.store.items, p.Key()) == Ok(Some((TimeRecord(currentTime, duration), Defined(JNum(currentTime)))))
    modifies p, p.audio
    ensures error == None
    ensures p.progress == TimeRecord(currentTime, duration)
    ensures p.audio != null ==> p.audio.currentTime == currentTime
    ensures p.Displayed() == Ok((IntToDecimal(currentTime), IntToDecimal(duration)))
  {
    assert SeekTarget(Defined(JNum(currentTime))) == Ok(currentTime);
    error := p.RestoreProgress();
    DisplayOfRecord(currentTime, duration);
  }

  /** After a time update, the restore finds the record just written. */
  lemma RecordAfterUpdate(p: Player, before: map<string, string>, key: string, currentTime: int, duration: int)
    requires p.Key() == key && p.store.items == before[key := Serialise(TimeRecord(currentTime, duration))]
    ensures RestoredRecord(p.store.items, p.Key()) == Ok(Some((TimeRecord(currentTime, duration), Defined(JNum(currentTime)))))
  {
    RestoreAfterWrite(before, key, currentTime, duration);
  }
}
