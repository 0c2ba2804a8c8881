// What both tape front ends do with the tables once they are read: load and
// unload tapes, rewind, write a folder with tar and read files back, and the
// composite load_tape, load_empty_tape and write_buffer_to_tape built on them.

module TapeOps {
  import opened Wrappers
  import opened Strs
  import opened TapeTables

  // ---- load_tape, load_empty_tape, write_buffer_to_tape ----

  /** What load_tape returns: the slot and drive it loaded, or the drive
      already holding the requested tape. */
  datatype Loaded = LoadedFrom(slot: int, drive: int) | AlreadyIn(drive: int)

  /** load_empty_tape: the empty tape of least slot goes into the drive;
      the (tape, slot) row is returned. */
  function LoadEmptyTapeStep(l: Library, limit: int, drive: int): (r: (Library, Result<(string, int)>))
  {
    match FirstEmptyTape(l.tables, limit)
    case None => (l, Err(NO_EMPTY_TAPES))
    case Some(row) =>
      var (l1, r1) := LoadStep(l, row.1, drive);
      (l1, if r1.Err? then Err(r1.error) else Ok(row))
  }

  lemma LoadEmptyTapeOutcome(l: Library, limit: int, drive: int)
    requires drive in l.tables.drives
    ensures var (l1, r) := LoadEmptyTapeStep(l, limit, drive);
      (r.Err? <==> EmptyTapes(l.tables, limit) == {}) &&
      (r.Err? ==> r.error == NO_EMPTY_TAPES && l1 == l) &&
      (r.Ok? ==> (r.value.0 in EmptyTapes(l.tables, limit) &&
                  (forall id <- EmptyTapes(l.tables, limit) :: r.value.1 <= l.tables.tapes[id].slotId) &&
                  TapeOfDrive(l1.tables, drive) == TapeInSlot(l.tables, r.value.1) &&
                  l1.tables.drives[drive].state == Idle &&
                  l1.issued == l.issued + [MtxLoad(r.value.1, drive)]))
  {
  }

  /** The drive load_tape works with: the one given, or the first free
      drive. */
  function ChosenDrive(t: Tables, limit: int, driveId: Option<int>): (r: Result<int>)
    ensures driveId.Some? ==> r == Ok(driveId.value)
    ensures driveId.None? ==> (r.Err? <==> FreeDrives(t, limit) == {})
    ensures driveId.None? && r.Ok? ==> Some(r.value) == FirstFreeDrive(t, limit)
  {
    if driveId.Some? then Ok(driveId.value)
    else match FirstFreeDrive(t, limit)
      case None => Err(NO_FREE_DRIVES)
      case Some(d) => Ok(d)
  }

  /** The slot load_tape loads from, once the drive is settled: where a
      requested tape is (unless a drive holds it), the slot given, or the
      slot of the first empty tape. */
  function LoadTapeRest(l: Library, limit: int, drive: int, tapeId: Option<string>, slotId: Option<int>): (r: (Library, Result<Loaded>))
  {
    var slot: Result<Loaded> :=
      if tapeId.Some? then
        match LocationOfTape(l.tables, tapeId.value)
        case None => Err(NONE_SUBSCRIPT)
        case Some(loc) => if loc.1.Some? then Ok(AlreadyIn(loc.1.value)) else Ok(LoadedFrom(loc.0, drive))
      else if slotId.Some? then Ok(LoadedFrom(slotId.value, drive))
      else match FirstEmptyTape(l.tables, limit)
        case None => Err(NO_EMPTY_TAPES)
        case Some(row) => Ok(LoadedFrom(row.1, drive));
    if slot.Err? || slot.value.AlreadyIn? then (l, slot)
    else
      var (l1, r1) := LoadStep(l, slot.value.slot, drive);
      (l1, if r1.Err? then Err(r1.error) else slot)
  }

  /** load_tape, with the drive emptied first whenever it holds a tape, as
      its documentation promises, and a requested tape looked up where it
      is. */
  function LoadTapeStep(l: Library, limit: int, driveId: Option<int>, tapeId: Option<string>, slotId: Option<int>): (r: (Library, Result<Loaded>))
  {
    match ChosenDrive(l.tables, limit, driveId)
    case Err(e) => (l, Err(e))
    case Ok(drive) =>
      var (l1, _) := if TapeOfDrive(l.tables, drive).Some? then UnloadStep(l, drive) else (l, Ok(()));
      LoadTapeRest(l1, limit, drive, tapeId, slotId)
  }

  /** load_tape as written: only a drive whose state reads 'FULL' is
      unloaded first, and the free-drive query never returns that state;
      with a tape id the code indexes a variable that is still None. */
  function LoadTapeAsWritten(l: Library, limit: int, driveId: Option<int>, tapeId: Option<string>, slotId: Option<int>): (r: (Library, Result<Loaded>))
  {
    match ChosenDrive(l.tables, limit, driveId)
    case Err(e) => (l, Err(e))
    case Ok(drive) =>
      if tapeId.Some? then (l, Err(NONE_SUBSCRIPT))
      else LoadTapeRest(l, limit, drive, tapeId, slotId)
  }

  /** With no drive left free, load_tape raises "No Free Drives" and
      changes nothing; with a drive and nothing requested, "No empty tapes"
      exactly when no tape is below the limit once the drive is emptied. */
  lemma LoadTapeErrors(l: Library, limit: int, driveId: Option<int>)
    ensures driveId.None? && FreeDrives(l.tables, limit) == {} ==>
      LoadTapeStep(l, limit, driveId, None, None) == (l, Err(NO_FREE_DRIVES))
    ensures driveId.Some? && TapeOfDrive(l.tables, driveId.value).None? ==>
      (LoadTapeStep(l, limit, driveId, None, None).1 == Err(NO_EMPTY_TAPES) <==> EmptyTapes(l.tables, limit) == {})
  {
  }

  /** Asking for a tape by id: a tape in a slot is loaded from that slot
      into the drive; a tape already in a drive is reported there; an
      unknown tape raises. */
  lemma LoadTapeById(l: Library, limit: int, drive: int, id: string)
    requires drive in l.tables.drives && TapeOfDrive(l.tables, drive).None?
    ensures var (l1, r) := LoadTapeStep(l, limit, Some(drive), Some(id), None);
      (id !in l.tables.tapes ==> r == Err(NONE_SUBSCRIPT)) &&
      (id in l.tables.tapes && LocationOfTape(l.tables, id).value.1.Some? ==>
         r == Ok(AlreadyIn(LocationOfTape(l.tables, id).value.1.value)) && l1 == l) &&
      (id in l.tables.tapes && LocationOfTape(l.tables, id).value.1.None? ==>
         var slot := l.tables.tapes[id].slotId;
         r == Ok(LoadedFrom(slot, drive)) && l1.issued == l.issued + [MtxLoad(slot, drive)] &&
         TapeOfDrive(l1.tables, drive) == TapeInSlot(l.tables, slot) && l1.tables.drives[drive].state == Idle)
  {
  }

  /** As written, a tape asked for by id is never loaded. */
  lemma LoadTapeByIdAsWritten(l: Library, limit: int, drive: int, id: string)
    ensures LoadTapeAsWritten(l, limit, Some(drive), Some(id), None) == (l, Err(NONE_SUBSCRIPT))
  {
  }

  /** A drive chosen because its tape is full: as written the new tape is
      loaded over the old one, with no unload; corrected, the old tape goes
      back to its slot first. */
  lemma FullDriveReloaded(l: Library, limit: int, slot: int)
    requires FreeDrives(l.tables, limit) != {}
    requires var d := FirstFreeDrive(l.tables, limit).value; HoldsFullTape(l.tables, limit, d)
    requires TapeInSlot(l.tables, slot).Some?
    ensures var d := FirstFreeDrive(l.tables, limit).value;
      var old_slot := l.tables.tapes[l.tables.drives[d].tapeId.value].slotId;
      LoadTapeAsWritten(l, limit, None, None, Some(slot)).0.issued == l.issued + [MtxLoad(slot, d)] &&
      LoadTapeStep(l, limit, None, None, Some(slot)).0.issued == l.issued + [MtxUnload(old_slot, d), MtxLoad(slot, d)]
  {
    var d := FirstFreeDrive(l.tables, limit).value;
    var (l1, _) := UnloadStep(l, d);
    assert l1.tables.tapes == l.tables.tapes;
    assert TapeInSlot(l1.tables, slot).Some?;
  }

  /** write_buffer_to_tape: an unattached drive is refused; a drive
      without a tape gets the first empty tape, and a drive whose tape has
      bytes on it is emptied and gets the first empty tape; then rewind, tar
      the buffer directory, unload. Returns the (tape, slot) loaded, if any. */
  function WriteBufferStep(l: Library, cnf: Config, dir: string, drive: int, size: nat): (r: (Library, Result<Option<(string, int)>>))
  {
    var t := l.tables;
    if drive !in t.drives then (l, Err(NONE_SUBSCRIPT))
    else if t.drives[drive].attached == 0 then (l, Err(NOT_ATTACHED))
    else if t.drives[drive].tapeId.None? then WriteLoaded(LoadEmptyTapeStep(l, cnf.limit, drive), true, cnf, dir, drive, size)
    else if TapeOfDrive(t, drive).Some? && t.tapes[TapeOfDrive(t, drive).value].bytesWritten > 0 then
      WriteLoaded(LoadEmptyTapeStep(UnloadStep(l, drive).0, cnf.limit, drive), true, cnf, dir, drive, size)
    else WriteLoaded((l, Ok(("", 0))), false, cnf, dir, drive, size)
  }

  /** The rest of write_buffer_to_tape once the drive holds the tape to
      write on: rewind, tar, unload, the first error ending it.  `load` is
      the library and (tape, slot) after loading, and `loaded` whether a
      tape was loaded, whose row is then returned. */
  function WriteLoaded(load: (Library, Result<(string, int)>), loaded: bool, cnf: Config, dir: string, drive: int, size: nat)
    : (r: (Library, Result<Option<(string, int)>>))
  {
    var (l1, tape) := load;
    if tape.Err? then (l1, Err(tape.error))
    else
      var (l2, r2) := RewindStep(l1, cnf, drive);
      if r2.Err? then (l2, Err(r2.error))
      else
        var (l3, r3) := TarStep(l2, cnf, dir, drive, size);
        if r3.Err? then (l3, Err(r3.error))
        else
          var (l4, r4) := UnloadStep(l3, drive);
          if r4.Err? then (l4, Err(r4.error))
          else (l4, Ok(if loaded then Some(tape.value) else None))
  }

  /** Past the attachment test no step fails with the not-attached error. */
  lemma WriteLoadedNotAttached(load: (Library, Result<(string, int)>), loaded: bool, cnf: Config, dir: string, drive: int, size: nat)
    requires load.1.Err? ==> load.1.error != NOT_ATTACHED
    ensures WriteLoaded(load, loaded, cnf, dir, drive, size).1 != Err(NOT_ATTACHED)
  {
    assert NO_DEVICE != NOT_ATTACHED && NO_DEVICE_NAME != NOT_ATTACHED;
    assert NONE_SUBSCRIPT != NOT_ATTACHED && NONE_LEN != NOT_ATTACHED;
  }

  lemma LoadEmptyNotAttached(l: Library, limit: int, drive: int)
    ensures LoadEmptyTapeStep(l, limit, drive).1.Err? ==> LoadEmptyTapeStep(l, limit, drive).1.error != NOT_ATTACHED
  {
    assert NO_EMPTY_TAPES != NOT_ATTACHED && NONE_SUBSCRIPT != NOT_ATTACHED;
  }

  /** An unattached drive is refused before anything happens. */
  lemma WriteBufferNotAttached(l: Library, cnf: Config, dir: string, drive: int, size: nat)
    requires drive in l.tables.drives
    ensures (WriteBufferStep(l, cnf, dir, drive, size).1 == Err(NOT_ATTACHED)) <==> l.tables.drives[drive].attached == 0
    ensures l.tables.drives[drive].attached == 0 ==> WriteBufferStep(l, cnf, dir, drive, size).0 == l
  {
    var t := l.tables;
    if t.drives[drive].attached != 0 {
      if t.drives[drive].tapeId.None? {
        LoadEmptyNotAttached(l, cnf.limit, drive);
        WriteLoadedNotAttached(LoadEmptyTapeStep(l, cnf.limit, drive), true, cnf, dir, drive, size);
      } else if TapeOfDrive(t, drive).Some? && t.tapes[TapeOfDrive(t, drive).value].bytesWritten > 0 {
        LoadEmptyNotAttached(UnloadStep(l, drive).0, cnf.limit, drive);
        WriteLoadedNotAttached(LoadEmptyTapeStep(UnloadStep(l, drive).0, cnf.limit, drive), true, cnf, dir, drive, size);
      } else {
        WriteLoadedNotAttached((l, Ok(("", 0))), false, cnf, dir, drive, size);
      }
    }
  }

  /** An attached drive with no tape: the first empty tape is loaded,
      written, and put back in its slot, `size` fuller. */
  lemma WriteBufferFreshTape(l: Library, cnf: Config, dir: string, drive: int, size: nat)
    requires drive in l.tables.drives && l.tables.drives[drive].attached == 1 && l.tables.drives[drive].tapeId.None?
    requires drive in cnf.devices && cnf.devices[drive] != []
    requires EmptyTapes(l.tables, cnf.limit) != {}
    ensures var (l1, r) := WriteBufferStep(l, cnf, dir, drive, size);
      var row := FirstEmptyTape(l.tables, cnf.limit).value;
      var id := TapeInSlot(l.tables, row.1).value;
      var dev := cnf.devices[drive][0];
      r == Ok(Some(row)) &&
      l1.tables.tapes == l.tables.tapes[id := l.tables.tapes[id].(bytesWritten := l.tables.tapes[id].bytesWritten + size)] &&
      l1.tables.drives[drive].state == Empty && l1.tables.drives[drive].tapeId.None? &&
      l1.tables.drives[drive].numWrites == l.tables.drives[drive].numWrites + 1 &&
      l1.issued == l.issued + [MtxLoad(row.1, drive), MtRewind(dev), TarWrite(dev, LastComponent(dir)), MtxUnload(row.1, drive)]
  {
    var row := FirstEmptyTape(l.tables, cnf.limit).value;
    var (la, _) := LoadStep(l, row.1, drive);
    var id := TapeInSlot(l.tables, row.1).value;
    assert la.tables.tapes == l.tables.tapes && la.tables.drives[drive].tapeId == Some(id);
    var (lb, _) := RewindStep(la, cnf, drive);
    var (lc, _) := TarStep(lb, cnf, dir, drive, size);
    assert lc.tables.tapes[id].slotId == row.1;
  }

  /** An attached drive whose tape has bytes on it: that tape is unloaded
      first, so the buffer always goes to a tape below the limit when the
      drive started in use. */
  lemma WriteBufferUsedTape(l: Library, cnf: Config, dir: string, drive: int, size: nat)
    requires drive in l.tables.drives && l.tables.drives[drive].attached == 1
    requires TapeOfDrive(l.tables, drive).Some? && l.tables.tapes[TapeOfDrive(l.tables, drive).value].bytesWritten > 0
    requires drive in cnf.devices && cnf.devices[drive] != []
    ensures var (l1, r) := WriteBufferStep(l, cnf, dir, drive, size);
      var used := TapeOfDrive(l.tables, drive).value;
      |l1.issued| > |l.issued| && l1.issued[|l.issued|] == MtxUnload(l.tables.tapes[used].slotId, drive) &&
      (r.Err? <==> EmptyTapes(UnloadStep(l, drive).0.tables, cnf.limit) == {})
  {
    var used := TapeOfDrive(l.tables, drive).value;
    var lu := UnloadStep(l, drive).0;
    assert lu.issued == l.issued + [MtxUnload(l.tables.tapes[used].slotId, drive)];
    LoadEmptyTapeOutcome(lu, cnf.limit, drive);
    var (la, ra) := LoadEmptyTapeStep(lu, cnf.limit, drive);
    if ra.Ok? {
      var (lb, rb) := RewindStep(la, cnf, drive);
      var (lc, rc) := TarStep(lb, cnf, dir, drive, size);
      assert rb.Ok? && rc.Ok?;
      assert TapeOfDrive(lc.tables, drive).Some?;
      var (ld, rd) := UnloadStep(lc, drive);
      assert lu.issued == ld.issued[..|lu.issued|];
    }
  }

  /** An attached drive holding a blank tape writes on it where it is, and
      nothing is returned. */
  lemma WriteBufferBlankTape(l: Library, cnf: Config, dir: string, drive: int, size: nat)
    requires drive in l.tables.drives && l.tables.drives[drive].attached == 1
    requires TapeOfDrive(l.tables, drive).Some? && l.tables.tapes[TapeOfDrive(l.tables, drive).value].bytesWritten <= 0
    requires drive in cnf.devices && cnf.devices[drive] != []
    ensures var (l1, r) := WriteBufferStep(l, cnf, dir, drive, size);
      var id := TapeOfDrive(l.tables, drive).value;
      var dev := cnf.devices[drive][0];
      r == Ok(None) &&
      l1.tables.tapes[id].bytesWritten == l.tables.tapes[id].bytesWritten + size &&
      l1.issued == l.issued + [MtRewind(dev), TarWrite(dev, LastComponent(dir)), MtxUnload(l.tables.tapes[id].slotId, drive)]
  {
  }

  // ---- the database ----

  /** The tape library's database as both front ends use it: the tape,
      drive, slot and magazine tables, the commands sent to the robot and
      the drives, and the configuration (the tape size limit and each
      drive's device names). */
  class TapeDatabase {
    var tapes: map<string, Tape>
    var drives: map<int, Drive>
    var slots: map<int, Slot>
    var magazines: map<int, string>
    var issued: seq<Command>
    const cnf: Config

    function Db(): Tables
      reads this
    {
      Tables(tapes, drives, slots, magazines)
    }

    function State(): Library
      reads this
    {
      Library(Db(), issued)
    }

    /** Opens the database with the tables it already holds. */
    constructor (db: Tables, cnf: Config)
      ensures Db() == db && issued == [] && this.cnf == cnf
    {
      tapes, drives, slots, magazines := db.tapes, db.drives, db.slots, db.magazines;
      issued := [];
      this.cnf := cnf;
    }

    /** load */
    method Load(slot: int, drive: int) returns (r: Result<()>)
      modifies this
      ensures (State(), r) == LoadStep(old(State()), slot, drive)
    {
      var id := TapeInSlot(Db(), slot);
      if id.None? {
        return Err(NONE_SUBSCRIPT);
      }
      if drive in drives {
        drives := drives[drive := drives[drive].(state := Loading, tapeId := id)];
      }
      issued := issued + [MtxLoad(slot, drive)];
      if drive in drives {
        drives := drives[drive := drives[drive].(state := Idle)];
        assert drives == old(drives)[drive := old(drives)[drive].(state := Idle, tapeId := id)];
      }
      r := Ok(());
    }

    /** unload */
    method Unload(drive: int) returns (r: Result<()>)
      modifies this
      ensures (State(), r) == UnloadStep(old(State()), drive)
    {
      var id := TapeOfDrive(Db(), drive);
      if drive in drives {
        drives := drives[drive := drives[drive].(state := Unloading)];
      }
      if id.None? {
        return Err(NONE_LEN);
      }
      issued := issued + [MtxUnload(tapes[id.value].slotId, drive)];
      drives := drives[drive := drives[drive].(state := Empty, tapeId := None)];
      assert drives == old(drives)[drive := old(drives)[drive].(state := Empty, tapeId := None)];
      r := Ok(());
    }

    /** rewind_drive */
    method RewindDrive(drive: int) returns (r: Result<()>)
      modifies this
      ensures (State(), r) == RewindStep(old(State()), cnf, drive)
    {
      if drive in drives {
        drives := drives[drive := drives[drive].(state := Rewinding)];
      }
      var dev := Device(cnf, drive);
      if dev.Err? {
        return Err(dev.error);
      }
      issued := issued + [MtRewind(dev.value)];
      if drive in drives {
        drives := drives[drive := drives[drive].(state := Idle)];
      }
      r := Ok(());
    }

    /** tar_folder_to_tape; `size` is what du reports for the folder. */
    method TarFolderToTape(folder: string, drive: int, size: nat) returns (r: Result<()>)
      modifies this
      ensures (State(), r) == TarStep(old(State()), cnf, folder, drive, size)
    {
      if drive !in drives {
        return Err(NONE_SUBSCRIPT);
      }
      var d := drives[drive];
      if d.attached != 1 || d.tapeId.None? {
        return Ok(());
      }
      drives := drives[drive := d.(state := Writing, numWrites := d.numWrites + 1)];
      var dev := Device(cnf, drive);
      if dev.Err? {
        return Err(dev.error);
      }
      issued := issued + [TarWrite(dev.value, LastComponent(folder))];
      drives := drives[drive := drives[drive].(state := Idle)];
      assert drives == old(drives)[drive := d.(state := Idle, numWrites := d.numWrites + 1)];
      var id := d.tapeId.value;
      if id in tapes {
        tapes := tapes[id := tapes[id].(bytesWritten := tapes[id].bytesWritten + size)];
      }
      r := Ok(());
    }

    /** read_file: rewind, skip tarNum archives, extract the named files. */
    method ReadFile(drive: int, files: string, tarNum: nat) returns (r: Result<()>)
      modifies this
      ensures (State(), r) == ReadStep(old(State()), cnf, drive, files, tarNum)
    {
      r := RewindDrive(drive);
      if r.Err? {
        return;
      }
      Extract(cnf.devices[drive][0], drive, files, tarNum);
    }

    /** The READING part of read_file: skip tarNum archives with mt fsf,
        extract the files, back to IDLE with one read more. */
    method Extract(dev: string, drive: int, files: string, tarNum: nat)
      modifies this
      ensures State() == ExtractStep(old(State()), dev, drive, files, tarNum)
    {
      if drive in drives {
        drives := drives[drive := drives[drive].(state := Reading)];
      }
      ghost var reading := Db();
      var i := 0;
      while i < tarNum
        invariant 0 <= i <= tarNum
        invariant issued == old(issued) + Forward(dev, i)
        invariant Db() == reading
      {
        issued := issued + [MtForward(dev)];
        i := i + 1;
      }
      issued := issued + [TarExtract(dev, files)];
      if drive in drives {
        drives := drives[drive := drives[drive].(state := Idle, numReads := drives[drive].numReads + 1)];
        assert drives == old(drives)[drive := old(drives)[drive].(state := Idle, numReads := old(drives)[drive].numReads + 1)];
      }
    }

    /** load_empty_tape */
    method LoadEmptyTape(drive: int) returns (r: Result<(string, int)>)
      modifies this
      ensures (State(), r) == LoadEmptyTapeStep(old(State()), cnf.limit, drive)
    {
      var row := FirstEmptyTape(Db(), cnf.limit);
      if row.None? {
        return Err(NO_EMPTY_TAPES);
      }
      var loaded := Load(row.value.1, drive);
      if loaded.Err? {
        return Err(loaded.error);
      }
      r := Ok(row.value);
    }

    /** load_tape */
    method LoadTape(driveId: Option<int>, tapeId: Option<string>, slotId: Option<int>) returns (r: Result<Loaded>)
      modifies this
      ensures (State(), r) == LoadTapeStep(old(State()), cnf.limit, driveId, tapeId, slotId)
    {
      var drive := ChosenDrive(Db(), cnf.limit, driveId);
      if drive.Err? {
        return Err(drive.error);
      }
      if TapeOfDrive(Db(), drive.value).Some? {
        var _ := Unload(drive.value);
      }
      r := LoadTapeFrom(drive.value, tapeId, slotId);
    }

    /** The rest of load_tape once the drive is settled. */
    method LoadTapeFrom(drive: int, tapeId: Option<string>, slotId: Option<int>) returns (r: Result<Loaded>)
      modifies this
      ensures (State(), r) == LoadTapeRest(old(State()), cnf.limit, drive, tapeId, slotId)
    {
      var slot: int;
      if tapeId.Some? {
        var loc := LocationOfTape(Db(), tapeId.value);
        if loc.None? {
          return Err(NONE_SUBSCRIPT);
        }
        if loc.value.1.Some? {
          return Ok(AlreadyIn(loc.value.1.value));
        }
        slot := loc.value.0;
      } else if slotId.Some? {
        slot := slotId.value;
      } else {
        var row := FirstEmptyTape(Db(), cnf.limit);
        if row.None? {
          return Err(NO_EMPTY_TAPES);
        }
        slot := row.value.1;
      }
      var loaded := Load(slot, drive);
      if loaded.Err? {
        return Err(loaded.error);
      }
      r := Ok(LoadedFrom(slot, drive));
    }

    /** write_buffer_to_tape; `size` is what du reports for the buffer. */
    method WriteBufferToTape(dir: string, drive: int, size: nat) returns (r: Result<Option<(string, int)>>)
      modifies this
      ensures (State(), r) == WriteBufferStep(old(State()), cnf, dir, drive, size)
    {
      if drive !in drives {
        return Err(NONE_SUBSCRIPT);
      }
      if drives[drive].attached == 0 {
        return Err(NOT_ATTACHED);
      }
      var tape: Option<(string, int)> := None;
      var used := TapeOfDrive(Db(), drive);
      if drives[drive].tapeId.None? || (used.Some? && tapes[used.value].bytesWritten > 0) {
        if drives[drive].tapeId.Some? {
          var _ := Unload(drive);
        }
        var row := LoadEmptyTape(drive);
        if row.Err? {
          return Err(row.error);
        }
        tape := Some(row.value);
      }
      var step := RewindDrive(drive);
      if step.Err? {
        return Err(step.error);
      }
      step := TarFolderToTape(dir, drive, size);
      if step.Err? {
        return Err(step.error);
      }
      step := Unload(drive);
      if step.Err? {
        return Err(step.error);
      }
      r := Ok(tape);
    }
  }
}
