// pkg/cursor.go: the persisted poll state and its file.
module Cursors {
  import opened Strings
  import opened TaskIds

  /** Nanoseconds since the Unix epoch. */
  type Time = int

  /** Go's zero time, which a JSON document without last_updated_at decodes to. */
  const ZERO_TIME: Time := -62135596800 * 1_000_000_000

  datatype Cursor = Cursor(
    lastUpdatedAt: Time,
    headSHAs: map<TaskId, string>,
    queuedMarkers: map<string, TaskId>)

  /** A JSON document field by field; a missing or null field is None. */
  datatype CursorDoc = CursorDoc(
    lastUpdatedAt: Option<Time>,
    headShas: Option<map<TaskId, string>>,
    queuedMarkers: Option<map<string, TaskId>>)

  /** Corrupt is whatever does not decode, a partly written file among it. */
  datatype FileContent = Corrupt | Json(doc: CursorDoc)

  /** The cursor path and the path with ".tmp" behind it. */
  datatype Disk = Disk(file: Option<FileContent>, tmp: Option<FileContent>)

  function NewCursor(startTime: Time): Cursor { Cursor(startTime, map[], map[]) }

  /** json.Marshal: queued_markers is omitted when empty. */
  function Marshal(c: Cursor): CursorDoc {
    CursorDoc(Some(c.lastUpdatedAt), Some(c.headSHAs),
              if c.queuedMarkers == map[] then None else Some(c.queuedMarkers))
  }

  function OrElse<T>(o: Option<T>, default: T): T {
    match o case None => default case Some(v) => v
  }

  /** What a readable cursor path loads as. */
  function Loaded(file: Option<FileContent>, startTime: Time): Cursor {
    match file
    case None => NewCursor(startTime)
    case Some(Corrupt) => NewCursor(startTime)
    case Some(Json(d)) =>
      Cursor(OrElse(d.lastUpdatedAt, ZERO_TIME), OrElse(d.headShas, map[]), OrElse(d.queuedMarkers, map[]))
  }

  /** How a save may go wrong; Truncated leaves a partly written temp file. */
  datatype SaveFault = Fine | CannotOpenTmp | Truncated | CannotRename

  /** The effects of a save in order, with no other save at the temp path: the temp file
      opened, and so emptied; the temp file completely written; the temp file renamed over
      the cursor path, which fails without one. */
  function OpenTmp(d: Disk): Disk { d.(tmp := Some(Corrupt)) }

  function FillTmp(d: Disk, c: Cursor): Disk { d.(tmp := Some(Json(Marshal(c)))) }

  function RenameTmp(d: Disk): Disk { if d.tmp.None? then d else Disk(d.tmp, None) }

  function AfterSaveSteps(d: Disk, c: Cursor, k: nat): Disk {
    if k == 0 then d
    else if k == 1 then OpenTmp(d)
    else if k == 2 then FillTmp(OpenTmp(d), c)
    else RenameTmp(FillTmp(OpenTmp(d), c))
  }

  function StepsDone(fault: SaveFault): nat {
    match fault
    case Fine => 3
    case CannotOpenTmp => 0
    case Truncated => 1
    case CannotRename => 2
  }

  /** At whatever step a save stops, the next load sees the saved state or what it would
      have seen without the save: never a mixture, never a nil map, never the temp file. */
  lemma SaveIsAllOrNothing(d: Disk, c: Cursor, k: nat, startTime: Time)
    ensures Loaded(AfterSaveSteps(d, c, k).file, startTime)
         == if k < 3 then Loaded(d.file, startTime) else c
  {
  }

  class FileSystem {
    var disk: Disk

    constructor (disk: Disk)
      ensures this.disk == disk
    {
      this.disk := disk;
    }

    /** os.WriteFile(path + ".tmp", ...) */
    method WriteTmp(content: FileContent, fault: SaveFault) returns (ok: bool)
      modifies this
      ensures ok <==> fault.Fine? || fault.CannotRename?
      ensures disk.file == old(disk.file)
      ensures disk.tmp == if ok then Some(content) else if fault.Truncated? then Some(Corrupt) else old(disk.tmp)
    {
      if fault.CannotOpenTmp? {
        return false;
      }
      disk := disk.(tmp := Some(Corrupt));
      if fault.Truncated? {
        return false;
      }
      disk := disk.(tmp := Some(content));
      return true;
    }

    /** os.Rename(path + ".tmp", path) */
    method Rename(fault: SaveFault) returns (ok: bool)
      modifies this
      ensures ok <==> fault.Fine? && old(disk).tmp.Some?
      ensures disk == if ok then Disk(old(disk.tmp), None) else old(disk)
    {
      if !fault.Fine? || disk.tmp.None? {
        return false;
      }
      disk := Disk(disk.tmp, None);
      return true;
    }
  }

  /** The Cursor struct in memory. */
  class CursorState {
    var lastUpdatedAt: Time
    var headSHAs: map<TaskId, string>
    var queuedMarkers: map<string, TaskId>

    constructor (c: Cursor)
      ensures Value() == c
    {
      lastUpdatedAt, headSHAs, queuedMarkers := c.lastUpdatedAt, c.headSHAs, c.queuedMarkers;
    }

    function Value(): Cursor
      reads this
    {
      Cursor(lastUpdatedAt, headSHAs, queuedMarkers)
    }
  }

  /** unreadable stands for a read error other than a missing file. */
  method LoadCursor(fs: FileSystem, unreadable: bool, startTime: Time) returns (r: Option<CursorState>)
    ensures r.None? <==> unreadable
    ensures r.Some? ==> fresh(r.value) && r.value.Value() == Loaded(fs.disk.file, startTime)
    ensures r.Some? && (fs.disk.file.None? || fs.disk.file.value.Corrupt?) ==>
              r.value.lastUpdatedAt == startTime && r.value.headSHAs == map[] && r.value.queuedMarkers == map[]
    ensures r.Some? && fs.disk.file.Some? && fs.disk.file.value.Json? ==>
              var doc := fs.disk.file.value.doc;
              && (if doc.headShas.Some? then r.value.headSHAs == doc.headShas.value else r.value.headSHAs == map[])
              && (if doc.queuedMarkers.Some? then r.value.queuedMarkers == doc.queuedMarkers.value
                  else r.value.queuedMarkers == map[])
              && (doc.lastUpdatedAt.Some? ==> r.value.lastUpdatedAt == doc.lastUpdatedAt.value)
  {
    if unreadable {
      return None;
    }
    if fs.disk.file.None? || fs.disk.file.value.Corrupt? {
      var cold := new CursorState(NewCursor(startTime));
      return Some(cold);
    }
    var doc := fs.disk.file.value.doc;
    if doc.headShas.None? {
      doc := doc.(headShas := Some(map[]));
    }
    if doc.queuedMarkers.None? {
      doc := doc.(queuedMarkers := Some(map[]));
    }
    var state := new CursorState(
      Cursor(OrElse(doc.lastUpdatedAt, ZERO_TIME), doc.headShas.value, doc.queuedMarkers.value));
    return Some(state);
  }

  method SaveCursor(fs: FileSystem, state: CursorState, fault: SaveFault) returns (ok: bool)
    modifies fs
    ensures ok <==> fault.Fine?
    ensures fs.disk == AfterSaveSteps(old(fs.disk), state.Value(), StepsDone(fault))
  {
    var data := Json(Marshal(state.Value()));
    ok := fs.WriteTmp(data, fault);
    if !ok {
      return;
    }
    ok := fs.Rename(fault);
  }
}
