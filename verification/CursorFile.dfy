/** The cursor file: written aside, synced, renamed into place, its directory synced. */
module CursorFile {
  import opened Prelude
  import opened Errors
  import opened Protocol
  import opened Environment
  import Messages

  /**
   `_save_cursor_to_file`. It returns normally only when the cursor is in place, durably where directories can be
   fsynced; `stage` is how far it got otherwise. It raises only if some call fails, and an fsync of the directory that
   the file system does not support is no failure. Wherever it stops, what is in place, and what a power loss can bring
   back, is what was there before or the whole new cursor.
   */
  method Save(world: World, configured: bool, c: Cursor) returns (r: Outcome<()>, ghost stage: SaveStage)
    modifies world`disk, world`faults
    ensures world.faults >= old(world.faults) && (r.Err? ==> world.faults > old(world.faults))
    ensures world.disk == SavedDisk(old(world.disk), c, stage)
    ensures !configured ==> r.Ok? && stage.Untouched? && world.disk == old(world.disk)
    ensures configured && r.Ok? ==> stage.Durable? || (stage.Renamed? && !world.cfg.dirSync)
    ensures r.Err? ==> r.error.FileError?
    ensures stage.Durable? ==> world.cfg.dirSync
    ensures world.disk.path == old(world.disk).path || world.disk.path == Some(Whole(c))
    ensures forall x :: x in world.disk.survivors ==> x in old(world.disk).survivors || x == Some(Whole(c))
    ensures configured && r.Ok? ==>
      && world.disk.path == Some(Whole(c))
      && (world.cfg.dirSync ==> world.disk.survivors == {Some(Whole(c))})
  {
    ghost var d := world.disk;
    stage := Untouched;
    if !configured {
      return Ok(()), stage;
    }
    var ok := world.WriteFile(c);
    stage := if world.disk == d then Untouched else if world.disk == SavedDisk(d, c, Partial) then Partial else Written;
    if !ok {
      return Err(FileError), stage;
    }
    stage := Written;
    ok := world.SyncFile();
    stage := if world.disk == SavedDisk(d, c, Written) then Written else Synced;
    if !ok {
      return Err(FileError), stage;
    }
    stage := Synced;
    ok := world.Replace();
    stage := if world.disk == SavedDisk(d, c, Synced) then Synced else Renamed;
    if !ok {
      return Err(FileError), stage;
    }
    stage := Renamed;
    assert world.disk == SavedDisk(d, c, Renamed);
    var unsupported;
    ok, unsupported := world.SyncDirectory();
    stage := if world.cfg.dirSync && world.disk == SavedDisk(d, c, Durable) then Durable else Renamed;
    if !ok && !unsupported {
      return Err(FileError), stage;
    }
    return Ok(()), stage;
  }

  /**
   `_load_cursor_from_file`: nothing where there is no file, the cursor of this stream where there is one, and an error
   for a file that is cut off or belongs to another stream.
   */
  method Load(world: World, configured: bool, streamName: Messages.Name) returns (r: Outcome<Option<Cursor>>)
    modifies world`faults
    ensures world.faults >= old(world.faults) && (r == Err(FileError) ==> world.faults > old(world.faults))
    ensures r.Err? ==> r.error.FileError? || r.error.ValueError?
    ensures r.Ok? ==> (r.value.None? <==> !configured || world.disk.path.None?)
    ensures r.Ok? && r.value.Some? ==> && world.disk.path == Some(Whole(r.value.value))
                                       && r.value.value.streamName == streamName
    ensures r == Err(ValueError) <==>
      && r != Err(FileError) && configured && world.disk.path.Some?
      && (world.disk.path.value.Torn? || world.disk.path.value.cursor.streamName != streamName)
  {
    if !configured {
      return Ok(None);
    }
    var content := world.ReadFile();
    if content.Err? {
      return Err(content.error);
    }
    match content.value {
      case None => return Ok(None);
      case Some(Torn) => return Err(ValueError);
      case Some(Whole(c)) =>
        return if c.streamName != streamName then Err(ValueError) else Ok(Some(c));
    }
  }
}
