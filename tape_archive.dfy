// The older front end of the tape library: its get_state writes the robot's
// status report into tables it expects to be empty, with plain INSERTs, so a
// row that is already there stops the pass with an IntegrityError. What it
// does with the tables afterwards is the shared TapeDatabase.

module TapeArchive {
  import opened Wrappers
  import opened Strs
  import opened TapeTables
  import opened TapeOps
  import opened TapeInterface

  /** What sqlite raises when an INSERT repeats a primary key. */
  const INTEGRITY := "IntegrityError: UNIQUE constraint failed"

  /** An INSERT-only pass keeps every tape, slot and magazine row as it
      was. The drive table has no primary key, so its INSERTs never fail;
      these tables hold one row per drive, the last one inserted. */
  ghost predicate Keeps(t: Tables, u: Tables)
  {
    (forall id <- t.tapes :: id in u.tapes && u.tapes[id] == t.tapes[id]) &&
    (forall s <- t.slots :: s in u.slots && u.slots[s] == t.slots[s]) &&
    (forall m <- t.magazines :: m in u.magazines && u.magazines[m] == t.magazines[m])
  }

  lemma KeepsTrans(t: Tables, u: Tables, v: Tables)
    requires Keeps(t, u) && Keeps(u, v)
    ensures Keeps(t, v)
  {
  }

  // ---- the storage elements ----

  /** Whether a storage element's rows can all be inserted: it has a
      number, that slot has no row, the tape it holds (if Full) has no row,
      and the magazine it opens (if it is a magazine's first slot) has no
      row. */
  predicate SlotInsertable(t: Tables, count: nat, line: string)
  {
    FirstNumber(line).Some? &&
    var n := FirstNumber(line).value;
    n !in t.slots &&
    (Contains(line, "Full") ==> TapeName(line, count).0 !in t.tapes) &&
    ((n - 1) % 30 == 0 ==> SlotMagazine(n) !in t.magazines)
  }

  /** One storage element: the tape row of a Full slot (bytes_written 0,
      the size limit, this slot) is inserted first, then the slot row, then
      the row of the magazine whose first slot this is, LOCKED. The first
      INSERT that meets an existing key raises, and the rows inserted
      before it stay. */
  function InsertSlot(p: SlotPass, limit: int, line: string): (r: SlotPass)
    requires p.failed.None?
    ensures r.tables.drives == p.tables.drives
    ensures r.failed.Some? ==> r.failed == Some(if FirstNumber(line).None? then LIST_INDEX else INTEGRITY)
  {
    match FirstNumber(line)
    case None => p.(failed := Some(LIST_INDEX))
    case Some(n) =>
      var (name, count) := TapeName(line, p.count);
      InsertRows(p.tables, n, Contains(line, "Full"), name, count, Slot(SlotKind(line), SlotMagazine(n)), limit)
  }

  /** The three INSERTs of a storage element numbered n, once its line is
      read: the tape row when full, the slot row, and the magazine row when
      n opens a magazine; `count` is the unlabelled-tape count afterwards. */
  function InsertRows(t: Tables, n: int, full: bool, name: string, count: nat, slot: Slot, limit: int): (r: SlotPass)
    ensures r.tables.drives == t.drives && r.count == count
    ensures r.failed.Some? ==> r.failed == Some(INTEGRITY)
  {
    if full && name in t.tapes then SlotPass(t, count, Some(INTEGRITY))
    else
      var t1 := if full then t.(tapes := t.tapes[name := Tape(0, limit, n)]) else t;
      var (t3, failed) := SlotRows(t1, n, slot);
      SlotPass(t3, count, failed)
  }

  /** The slot row, then the magazine row when n opens a magazine. */
  function SlotRows(t1: Tables, n: int, slot: Slot): (r: (Tables, Option<string>))
    ensures r.0.drives == t1.drives && r.0.tapes == t1.tapes
    ensures r.1.Some? ==> r.1 == Some(INTEGRITY)
  {
    if n in t1.slots then (t1, Some(INTEGRITY))
    else
      var t2 := t1.(slots := t1.slots[n := slot]);
      if (n - 1) % 30 == 0 && SlotMagazine(n) in t2.magazines then (t2, Some(INTEGRITY))
      else
        var t3 := if (n - 1) % 30 == 0 then t2.(magazines := t2.magazines[SlotMagazine(n) := "LOCKED"]) else t2;
        (t3, None)
  }

  /** The rows go in exactly when none of them exists yet, and then each
      table gains its row and nothing else changes. */
  lemma InsertRowsOutcome(t: Tables, n: int, full: bool, name: string, count: nat, slot: Slot, limit: int)
    ensures var r := InsertRows(t, n, full, name, count, slot, limit);
      (r.failed.None? <==> n !in t.slots && (full ==> name !in t.tapes) && ((n - 1) % 30 == 0 ==> SlotMagazine(n) !in t.magazines)) &&
      (r.failed.None? ==>
        r.tables.slots == t.slots[n := slot] &&
        r.tables.tapes == (if full then t.tapes[name := Tape(0, limit, n)] else t.tapes) &&
        r.tables.magazines == (if (n - 1) % 30 == 0 then t.magazines[SlotMagazine(n) := "LOCKED"] else t.magazines))
  {
  }

  /** A storage element only adds rows: every tape, slot and magazine row
      before it is still there, unchanged. */
  lemma InsertSlotKeeps(p: SlotPass, limit: int, line: string)
    requires p.failed.None?
    ensures Keeps(p.tables, InsertSlot(p, limit, line).tables)
  {
    if FirstNumber(line).Some? {
      InsertSlotStages(p, limit, line);
      var n, t := FirstNumber(line).value, p.tables;
      var name := TapeName(line, p.count).0;
      var u := InsertSlot(p, limit, line).tables;
      if !(Contains(line, "Full") && name in t.tapes) {
        assert Contains(line, "Full") ==> u.tapes == t.tapes[name := Tape(0, limit, n)] || u.tapes == t.tapes;
        assert u.slots == t.slots || u.slots == t.slots[n := Slot(SlotKind(line), SlotMagazine(n))];
        assert u.magazines == t.magazines || SlotMagazine(n) !in t.magazines;
      }
    }
  }

  /** A numbered storage element, stage by stage. */
  lemma InsertSlotStages(p: SlotPass, limit: int, line: string)
    requires p.failed.None? && FirstNumber(line).Some?
    ensures var n, t := FirstNumber(line).value, p.tables;
      var name, count := TapeName(line, p.count).0, TapeName(line, p.count).1;
      var t1 := if Contains(line, "Full") then t.(tapes := t.tapes[name := Tape(0, limit, n)]) else t;
      var t2 := t1.(slots := t1.slots[n := Slot(SlotKind(line), SlotMagazine(n))]);
      InsertSlot(p, limit, line) ==
        if Contains(line, "Full") && name in t.tapes then SlotPass(t, count, Some(INTEGRITY))
        else if n in t1.slots then SlotPass(t1, count, Some(INTEGRITY))
        else if (n - 1) % 30 == 0 && SlotMagazine(n) in t2.magazines then SlotPass(t2, count, Some(INTEGRITY))
        else SlotPass(if (n - 1) % 30 == 0 then t2.(magazines := t2.magazines[SlotMagazine(n) := "LOCKED"]) else t2, count, None)
  {
  }

  /** A storage element goes in exactly when all its rows are new, and
      then it adds its slot, its tape when Full (named by TapeName), and
      its magazine when it is the magazine's first slot. */
  lemma InsertSlotOutcome(p: SlotPass, limit: int, line: string)
    requires p.failed.None?
    ensures var r := InsertSlot(p, limit, line);
      (r.failed.None? <==> SlotInsertable(p.tables, p.count, line)) &&
      (r.failed.None? ==>
        var n := FirstNumber(line).value;
        r.tables.slots.Keys == p.tables.slots.Keys + {n} && r.tables.slots[n] == Slot(SlotKind(line), SlotMagazine(n)) &&
        r.count == TapeName(line, p.count).1 &&
        (Contains(line, "Full") ==> r.tables.tapes.Keys == p.tables.tapes.Keys + {TapeName(line, p.count).0} &&
                                    r.tables.tapes[TapeName(line, p.count).0] == Tape(0, limit, n)) &&
        (!Contains(line, "Full") ==> r.tables.tapes == p.tables.tapes) &&
        ((n - 1) % 30 == 0 ==> r.tables.magazines == p.tables.magazines[SlotMagazine(n) := "LOCKED"]) &&
        ((n - 1) % 30 != 0 ==> r.tables.magazines == p.tables.magazines))
  {
    InsertSlotFails(p, limit, line);
    if InsertSlot(p, limit, line).failed.None? {
      InsertSlotAddsSlot(p, limit, line);
      InsertSlotAddsTape(p, limit, line);
      InsertSlotAddsMagazine(p, limit, line);
    }
  }

  /** A numbered storage element is its three INSERTs. */
  lemma InsertSlotIsRows(p: SlotPass, limit: int, line: string)
    requires p.failed.None? && FirstNumber(line).Some?
    ensures var n := FirstNumber(line).value;
      InsertSlot(p, limit, line) ==
        InsertRows(p.tables, n, Contains(line, "Full"), TapeName(line, p.count).0, TapeName(line, p.count).1,
          Slot(SlotKind(line), SlotMagazine(n)), limit)
  {
  }

  lemma InsertSlotFails(p: SlotPass, limit: int, line: string)
    requires p.failed.None?
    ensures InsertSlot(p, limit, line).failed.None? <==> SlotInsertable(p.tables, p.count, line)
  {
    if FirstNumber(line).Some? {
      var n := FirstNumber(line).value;
      InsertSlotIsRows(p, limit, line);
      InsertRowsOutcome(p.tables, n, Contains(line, "Full"), TapeName(line, p.count).0, TapeName(line, p.count).1,
        Slot(SlotKind(line), SlotMagazine(n)), limit);
    }
  }

  lemma InsertSlotAddsSlot(p: SlotPass, limit: int, line: string)
    requires p.failed.None? && InsertSlot(p, limit, line).failed.None?
    ensures FirstNumber(line).Some?
    ensures var r, n := InsertSlot(p, limit, line), FirstNumber(line).value;
      r.tables.slots.Keys == p.tables.slots.Keys + {n} && r.tables.slots[n] == Slot(SlotKind(line), SlotMagazine(n)) &&
      r.count == TapeName(line, p.count).1
  {
    var n := FirstNumber(line).value;
    InsertSlotIsRows(p, limit, line);
    InsertRowsOutcome(p.tables, n, Contains(line, "Full"), TapeName(line, p.count).0, TapeName(line, p.count).1,
      Slot(SlotKind(line), SlotMagazine(n)), limit);
  }

  lemma InsertSlotAddsTape(p: SlotPass, limit: int, line: string)
    requires p.failed.None? && InsertSlot(p, limit, line).failed.None?
    ensures FirstNumber(line).Some?
    ensures var r, n, name := InsertSlot(p, limit, line), FirstNumber(line).value, TapeName(line, p.count).0;
      (Contains(line, "Full") ==> r.tables.tapes.Keys == p.tables.tapes.Keys + {name} && r.tables.tapes[name] == Tape(0, limit, n)) &&
      (!Contains(line, "Full") ==> r.tables.tapes == p.tables.tapes)
  {
    var n := FirstNumber(line).value;
    InsertSlotIsRows(p, limit, line);
    InsertRowsOutcome(p.tables, n, Contains(line, "Full"), TapeName(line, p.count).0, TapeName(line, p.count).1,
      Slot(SlotKind(line), SlotMagazine(n)), limit);
  }

  lemma InsertSlotAddsMagazine(p: SlotPass, limit: int, line: string)
    requires p.failed.None? && InsertSlot(p, limit, line).failed.None?
    ensures FirstNumber(line).Some?
    ensures var r, n := InsertSlot(p, limit, line), FirstNumber(line).value;
      ((n - 1) % 30 == 0 ==> r.tables.magazines == p.tables.magazines[SlotMagazine(n) := "LOCKED"]) &&
      ((n - 1) % 30 != 0 ==> r.tables.magazines == p.tables.magazines)
  {
    var n := FirstNumber(line).value;
    InsertSlotIsRows(p, limit, line);
    InsertRowsOutcome(p.tables, n, Contains(line, "Full"), TapeName(line, p.count).0, TapeName(line, p.count).1,
      Slot(SlotKind(line), SlotMagazine(n)), limit);
  }

  /** The storage-element loop over the lines read so far. */
  function InsertSlots(t: Tables, limit: int, lines: seq<string>): (r: SlotPass)
    ensures Keeps(t, r.tables) && r.tables.drives == t.drives
  {
    if lines == [] then SlotPass(t, 0, None)
    else
      var p := InsertSlots(t, limit, lines[..|lines| - 1]);
      if p.failed.Some? then p else
        InsertSlotKeeps(p, limit, lines[|lines| - 1]);
        KeepsTrans(t, p.tables, InsertSlot(p, limit, lines[|lines| - 1]).tables);
        InsertSlot(p, limit, lines[|lines| - 1])
  }

  // ---- the data transfer elements ----

  /** Whether a data transfer element's rows can be inserted: it has a
      number with a configuration entry, and if it holds a tape a storage
      element was seen, a free slot is left and the tape's label has no
      row. */
  predicate DriveInsertable(p: DrivePass, cnf: Config, slotSeen: bool, line: string)
  {
    FirstNumber(line).Some? && FirstNumber(line).value in cnf.devices &&
    (Contains(line, "Full") ==> slotSeen && p.free != {} && TagOf(line) !in p.tables.tapes)
  }

  /** One data transfer element, inserted with zeroed counters and
      the attached flag from lsscsi. A Full drive first takes the last free
      slot for its tape's row (a failed pop raises before any INSERT) and is
      IDLE with that tape; any other drive is EMPTY. */
  function InsertDrive(p: DrivePass, cnf: Config, lsscsi: string, slotSeen: bool, line: string): (r: DrivePass)
    requires p.failed.None?
    ensures Keeps(p.tables, r.tables) && r.free <= p.free
    ensures r.tables.slots == p.tables.slots && r.tables.magazines == p.tables.magazines
    ensures r.failed.None? <==> DriveInsertable(p, cnf, slotSeen, line)
    ensures r.failed.Some? ==> r.tables == p.tables
    ensures r.failed.None? ==>
      var id := FirstNumber(line).value;
      r.tables.drives.Keys == p.tables.drives.Keys + {id} &&
      (forall d <- p.tables.drives :: d != id ==> r.tables.drives[d] == p.tables.drives[d]) &&
      r.tables.drives[id].attached == Attached(cnf, id, lsscsi) &&
      r.tables.drives[id].numWrites == r.tables.drives[id].numReads == r.tables.drives[id].numCleans == 0 &&
      (Contains(line, "Full") ==>
        r.tables.drives[id].state == Idle && r.tables.drives[id].tapeId == Some(TagOf(line)) &&
        r.tables.tapes.Keys == p.tables.tapes.Keys + {TagOf(line)} &&
        r.tables.tapes[TagOf(line)] == Tape(0, cnf.limit, Greatest(p.free)) &&
        r.free == p.free - {Greatest(p.free)}) &&
      (!Contains(line, "Full") ==>
        r.tables.drives[id].state == Empty && r.tables.drives[id].tapeId.None? &&
        r.tables.tapes == p.tables.tapes && r.free == p.free)
  {
    match FirstNumber(line)
    case None => p.(failed := Some(LIST_INDEX))
    case Some(id) =>
      if id !in cnf.devices then p.(failed := Some(NO_DEVICE))
      else
        var t := p.tables;
        var attached := Attached(cnf, id, lsscsi);
        if !Contains(line, "Full") then
          DrivePass(t.(drives := t.drives[id := Drive(0, 0, 0, id / 2, Empty, attached, None)]), p.free, None)
        else if !slotSeen then p.(failed := Some(NO_SLOT_SEEN))
        else if p.free == {} then p.(failed := Some(POP_EMPTY))
        else
          var slot := Greatest(p.free);
          var name := TagOf(line);
          if name in t.tapes then p.(failed := Some(INTEGRITY))
          else
            DrivePass(t.(tapes := t.tapes[name := Tape(0, cnf.limit, slot)],
                         drives := t.drives[id := Drive(0, 0, 0, id / 2, Idle, attached, Some(name))]),
                      p.free - {slot}, None)
  }

  /** The data-transfer-element loop over the lines read so far, starting
      from the free slots. */
  function InsertDrives(t: Tables, free: set<int>, cnf: Config, lsscsi: string, slotSeen: bool, lines: seq<string>): (r: DrivePass)
    ensures Keeps(t, r.tables) && r.free <= free
    ensures r.tables.slots == t.slots && r.tables.magazines == t.magazines
  {
    if lines == [] then DrivePass(t, free, None)
    else
      var p := InsertDrives(t, free, cnf, lsscsi, slotSeen, lines[..|lines| - 1]);
      if p.failed.Some? then p else
        var q := InsertDrive(p, cnf, lsscsi, slotSeen, lines[|lines| - 1]);
        KeepsTrans(t, p.tables, q.tables);
        q
  }

  /** get_state of the archive: the storage elements, then the drives from
      the slots left free; an error leaves the rows inserted before it. */
  function GetStateInsert(t: Tables, cnf: Config, report: Report): (r: (Tables, Result<()>))
    ensures Keeps(t, r.0)
  {
    var sp := InsertSlots(t, cnf.limit, report.storage);
    if sp.failed.Some? then (sp.tables, Err(sp.failed.value))
    else
      var dp := InsertDrives(sp.tables, FreeSlots(sp.tables), cnf, report.lsscsi, report.storage != [], report.transfer);
      KeepsTrans(t, sp.tables, dp.tables);
      (dp.tables, if dp.failed.Some? then Err(dp.failed.value) else Ok(()))
  }

  // ---- the passes, line by line ----

  lemma {:induction false} InsertSlotsFailureStays(t: Tables, limit: int, lines: seq<string>, k: nat)
    requires k <= |lines| && InsertSlots(t, limit, lines[..k]).failed.Some?
    ensures InsertSlots(t, limit, lines) == InsertSlots(t, limit, lines[..k])
    decreases |lines|
  {
    if k < |lines| {
      assert lines[..|lines| - 1][..k] == lines[..k];
      InsertSlotsFailureStays(t, limit, lines[..|lines| - 1], k);
    } else {
      assert lines[..k] == lines;
    }
  }

  lemma {:induction false} InsertDrivesFailureStays(t: Tables, free: set<int>, cnf: Config, lsscsi: string, slotSeen: bool,
                                                    lines: seq<string>, k: nat)
    requires k <= |lines| && InsertDrives(t, free, cnf, lsscsi, slotSeen, lines[..k]).failed.Some?
    ensures InsertDrives(t, free, cnf, lsscsi, slotSeen, lines) == InsertDrives(t, free, cnf, lsscsi, slotSeen, lines[..k])
    decreases |lines|
  {
    if k < |lines| {
      assert lines[..|lines| - 1][..k] == lines[..k];
      InsertDrivesFailureStays(t, free, cnf, lsscsi, slotSeen, lines[..|lines| - 1], k);
    } else {
      assert lines[..k] == lines;
    }
  }

  lemma InsertSlotsPrefixStep(t: Tables, limit: int, lines: seq<string>, i: nat)
    requires i < |lines| && InsertSlots(t, limit, lines[..i]).failed.None?
    ensures InsertSlots(t, limit, lines[..i + 1]) == InsertSlot(InsertSlots(t, limit, lines[..i]), limit, lines[i])
  {
    assert lines[..i + 1][..i] == lines[..i];
  }

  lemma InsertDrivesPrefixStep(t: Tables, free: set<int>, cnf: Config, lsscsi: string, slotSeen: bool, lines: seq<string>, i: nat)
    requires i < |lines| && InsertDrives(t, free, cnf, lsscsi, slotSeen, lines[..i]).failed.None?
    ensures InsertDrives(t, free, cnf, lsscsi, slotSeen, lines[..i + 1]) ==
            InsertDrive(InsertDrives(t, free, cnf, lsscsi, slotSeen, lines[..i]), cnf, lsscsi, slotSeen, lines[i])
  {
    assert lines[..i + 1][..i] == lines[..i];
  }

  // ---- get_state works only on an empty database ----

  /** The pass over a first line is that line's step. */
  lemma InsertSlotsFirst(t: Tables, limit: int, lines: seq<string>)
    requires |lines| >= 1
    ensures InsertSlots(t, limit, lines[..1]) == InsertSlot(SlotPass(t, 0, None), limit, lines[0])
  {
    var one := lines[..1];
    assert one[..|one| - 1] == [];
  }

  /** A second get_state with the same report, after one that succeeded,
      stops at its first storage element: the slot is already there. */
  lemma SecondRunFails(t: Tables, cnf: Config, report: Report)
    requires report.storage != [] && GetStateInsert(t, cnf, report).1.Ok?
    ensures GetStateInsert(GetStateInsert(t, cnf, report).0, cnf, report).1 == Err(INTEGRITY)
  {
    var lines := report.storage;
    var u := GetStateInsert(t, cnf, report).0;
    var sp := InsertSlots(t, cnf.limit, lines);
    if InsertSlots(t, cnf.limit, lines[..1]).failed.Some? {
      InsertSlotsFailureStays(t, cnf.limit, lines, 1);
    }
    InsertSlotsFirst(t, cnf.limit, lines);
    InsertSlotOutcome(SlotPass(t, 0, None), cnf.limit, lines[0]);
    var n := FirstNumber(lines[0]).value;
    InsertSlotsKeep(t, cnf.limit, lines, 1);
    assert n in u.slots;
    InsertSlotsFirst(u, cnf.limit, lines);
    InsertSlotsFailureStays(u, cnf.limit, lines, 1);
  }

  /** A longer pass keeps what its prefix inserted. */
  lemma {:induction false} InsertSlotsKeep(t: Tables, limit: int, lines: seq<string>, k: nat)
    requires k <= |lines|
    ensures Keeps(InsertSlots(t, limit, lines[..k]).tables, InsertSlots(t, limit, lines).tables)
    decreases |lines|
  {
    if k == |lines| {
      assert lines[..k] == lines;
    } else {
      var init := lines[..|lines| - 1];
      assert init[..k] == lines[..k];
      InsertSlotsKeep(t, limit, init, k);
      var p := InsertSlots(t, limit, init);
      if p.failed.None? {
        InsertSlotKeeps(p, limit, lines[|lines| - 1]);
        KeepsTrans(InsertSlots(t, limit, lines[..k]).tables, p.tables, InsertSlot(p, limit, lines[|lines| - 1]).tables);
      }
    }
  }

  // ---- the tables get_state leaves are consistent ----

  /** Every tape has a slot row to return to and no two tapes share one;
      every drive's tape has a row and no two drives hold the same tape;
      a drive is EMPTY without a tape or IDLE with one. */
  ghost predicate Consistent(t: Tables)
  {
    (forall id <- t.tapes :: t.tapes[id].slotId in t.slots) &&
    (forall a <- t.tapes, b <- t.tapes :: t.tapes[a].slotId == t.tapes[b].slotId ==> a == b) &&
    (forall d <- t.drives :: t.drives[d].tapeId.Some? ==> t.drives[d].tapeId.value in t.tapes) &&
    (forall d <- t.drives, e <- t.drives :: t.drives[d].tapeId.Some? && t.drives[d].tapeId == t.drives[e].tapeId ==> d == e) &&
    (forall d <- t.drives :: (t.drives[d].state == Empty && t.drives[d].tapeId.None?) ||
                             (t.drives[d].state == Idle && t.drives[d].tapeId.Some?))
  }

  /** The slots still to hand out have rows and no tape points to them. */
  ghost predicate FreeOk(t: Tables, free: set<int>)
  {
    forall s <- free :: s in t.slots && forall id <- t.tapes :: t.tapes[id].slotId != s
  }

  /** A new slot row, or a new magazine row, keeps the tables consistent. */
  lemma AddSlotConsistent(t: Tables, n: int, row: Slot, m: map<int, string>)
    requires Consistent(t)
    ensures Consistent(t.(slots := t.slots[n := row], magazines := m))
  {
  }

  /** So does a new tape row for a slot no tape points to. */
  lemma AddTapeConsistent(t: Tables, name: string, tape: Tape)
    requires Consistent(t) && name !in t.tapes && tape.slotId in t.slots
    requires forall id <- t.tapes :: t.tapes[id].slotId != tape.slotId
    ensures Consistent(t.(tapes := t.tapes[name := tape]))
  {
    var u := t.(tapes := t.tapes[name := tape]);
    forall a <- u.tapes, b <- u.tapes | u.tapes[a].slotId == u.tapes[b].slotId
      ensures a == b
    {
    }
  }

  lemma InsertSlotShape(p: SlotPass, limit: int, line: string)
    requires p.failed.None? && InsertSlot(p, limit, line).failed.None?
    ensures var t, n, name := p.tables, FirstNumber(line).value, TapeName(line, p.count).0;
      n !in t.slots && (Contains(line, "Full") ==> name !in t.tapes) &&
      InsertSlot(p, limit, line).tables ==
      t.(tapes := if Contains(line, "Full") then t.tapes[name := Tape(0, limit, n)] else t.tapes,
         slots := t.slots[n := Slot(SlotKind(line), SlotMagazine(n))],
         magazines := InsertSlot(p, limit, line).tables.magazines)
  {
    assert FirstNumber(line).Some?;
    InsertSlotStages(p, limit, line);
  }

  lemma InsertSlotConsistent(p: SlotPass, limit: int, line: string)
    requires p.failed.None? && Consistent(p.tables) && InsertSlot(p, limit, line).failed.None?
    ensures Consistent(InsertSlot(p, limit, line).tables)
  {
    InsertSlotShape(p, limit, line);
    var t, u := p.tables, InsertSlot(p, limit, line).tables;
    var n := FirstNumber(line).value;
    var t1 := t.(slots := u.slots, magazines := u.magazines);
    AddSlotConsistent(t, n, Slot(SlotKind(line), SlotMagazine(n)), u.magazines);
    if Contains(line, "Full") {
      AddTapeConsistent(t1, TapeName(line, p.count).0, Tape(0, limit, n));
    }
  }

  lemma {:induction false} InsertSlotsConsistent(t: Tables, limit: int, lines: seq<string>)
    requires Consistent(t) && InsertSlots(t, limit, lines).failed.None?
    ensures Consistent(InsertSlots(t, limit, lines).tables)
  {
    if lines != [] {
      var init := lines[..|lines| - 1];
      InsertSlotsConsistent(t, limit, init);
      InsertSlotConsistent(InsertSlots(t, limit, init), limit, lines[|lines| - 1]);
    }
  }

  lemma InsertDriveShape(p: DrivePass, cnf: Config, lsscsi: string, slotSeen: bool, line: string)
    requires p.failed.None? && InsertDrive(p, cnf, lsscsi, slotSeen, line).failed.None?
    ensures var t, id, r := p.tables, FirstNumber(line).value, InsertDrive(p, cnf, lsscsi, slotSeen, line);
      id in cnf.devices &&
      (Contains(line, "Full") ==>
        p.free != {} && TagOf(line) !in t.tapes &&
        r == DrivePass(t.(tapes := t.tapes[TagOf(line) := Tape(0, cnf.limit, Greatest(p.free))],
                          drives := t.drives[id := Drive(0, 0, 0, id / 2, Idle, Attached(cnf, id, lsscsi), Some(TagOf(line)))]),
                       p.free - {Greatest(p.free)}, None)) &&
      (!Contains(line, "Full") ==>
        r == DrivePass(t.(drives := t.drives[id := Drive(0, 0, 0, id / 2, Empty, Attached(cnf, id, lsscsi), None)]), p.free, None))
  {
  }

  /** A new drive row, EMPTY without a tape or IDLE with a tape that has a
      row and is in no other drive, keeps the tables consistent. */
  lemma AddDriveConsistent(t: Tables, id: int, row: Drive)
    requires Consistent(t)
    requires (row.state == Empty && row.tapeId.None?) || (row.state == Idle && row.tapeId.Some?)
    requires row.tapeId.Some? ==> row.tapeId.value in t.tapes && forall d <- t.drives :: d != id ==> t.drives[d].tapeId != row.tapeId
    ensures Consistent(t.(drives := t.drives[id := row]))
  {
  }

  lemma InsertDriveConsistent(p: DrivePass, cnf: Config, lsscsi: string, slotSeen: bool, line: string)
    requires p.failed.None? && Consistent(p.tables) && FreeOk(p.tables, p.free)
    requires InsertDrive(p, cnf, lsscsi, slotSeen, line).failed.None?
    ensures Consistent(InsertDrive(p, cnf, lsscsi, slotSeen, line).tables)
    ensures FreeOk(InsertDrive(p, cnf, lsscsi, slotSeen, line).tables, InsertDrive(p, cnf, lsscsi, slotSeen, line).free)
  {
    InsertDriveShape(p, cnf, lsscsi, slotSeen, line);
    var t, id := p.tables, FirstNumber(line).value;
    if Contains(line, "Full") {
      var name, slot := TagOf(line), Greatest(p.free);
      var tape := Tape(0, cnf.limit, slot);
      AddTapeConsistent(t, name, tape);
      var t1 := t.(tapes := t.tapes[name := tape]);
      AddDriveConsistent(t1, id, Drive(0, 0, 0, id / 2, Idle, Attached(cnf, id, lsscsi), Some(name)));
    } else {
      AddDriveConsistent(t, id, Drive(0, 0, 0, id / 2, Empty, Attached(cnf, id, lsscsi), None));
    }
  }

  lemma {:induction false} InsertDrivesConsistent(t: Tables, free: set<int>, cnf: Config, lsscsi: string, slotSeen: bool,
                                                  lines: seq<string>)
    requires Consistent(t) && FreeOk(t, free) && InsertDrives(t, free, cnf, lsscsi, slotSeen, lines).failed.None?
    ensures Consistent(InsertDrives(t, free, cnf, lsscsi, slotSeen, lines).tables)
    ensures FreeOk(InsertDrives(t, free, cnf, lsscsi, slotSeen, lines).tables, InsertDrives(t, free, cnf, lsscsi, slotSeen, lines).free)
  {
    if lines != [] {
      var init := lines[..|lines| - 1];
      InsertDrivesConsistent(t, free, cnf, lsscsi, slotSeen, init);
      InsertDriveConsistent(InsertDrives(t, free, cnf, lsscsi, slotSeen, init), cnf, lsscsi, slotSeen, lines[|lines| - 1]);
    }
  }

  /** A get_state that succeeds on consistent tables (the empty ones
      among them) leaves them consistent, and every drive without a tape
      is one the load queries count as free. */
  lemma GetStateConsistent(t: Tables, cnf: Config, report: Report)
    requires Consistent(t) && GetStateInsert(t, cnf, report).1.Ok?
    ensures Consistent(GetStateInsert(t, cnf, report).0)
    ensures var u := GetStateInsert(t, cnf, report).0;
      forall d <- u.drives :: u.drives[d].tapeId.None? ==> d in FreeDrives(u, cnf.limit)
  {
    InsertSlotsConsistent(t, cnf.limit, report.storage);
    var sp := InsertSlots(t, cnf.limit, report.storage);
    InsertDrivesConsistent(sp.tables, FreeSlots(sp.tables), cnf, report.lsscsi, report.storage != [], report.transfer);
  }

  lemma EmptyConsistent()
    ensures Consistent(NO_TABLES)
  {
  }

  /** After a successful get_state every reported slot has its row, and
      the first slot of a magazine has left that magazine LOCKED. */
  lemma {:induction false} InsertSlotsReported(t: Tables, limit: int, lines: seq<string>)
    requires InsertSlots(t, limit, lines).failed.None?
    ensures forall line <- lines :: SlotReported(InsertSlots(t, limit, lines).tables, line)
  {
    if lines != [] {
      var init := lines[..|lines| - 1];
      var last := lines[|lines| - 1];
      InsertSlotsReported(t, limit, init);
      var p := InsertSlots(t, limit, init);
      InsertSlotOutcome(p, limit, last);
      var u := InsertSlot(p, limit, last).tables;
      assert InsertSlots(t, limit, lines).tables == u;
      assert SlotReported(u, last);
      InsertSlotKeeps(p, limit, last);
      forall line <- lines
        ensures SlotReported(u, line)
      {
        if line != last {
          assert line in init;
          ReportedKept(p.tables, u, line);
        }
      }
    }
  }

  /** Rows that stay keep a reported slot reported. */
  lemma ReportedKept(t: Tables, u: Tables, line: string)
    requires Keeps(t, u) && SlotReported(t, line)
    ensures SlotReported(u, line)
  {
  }

  lemma GetStateReportsSlots(t: Tables, cnf: Config, report: Report)
    requires GetStateInsert(t, cnf, report).1.Ok?
    ensures forall line <- report.storage :: SlotReported(GetStateInsert(t, cnf, report).0, line)
  {
    InsertSlotsReported(t, cnf.limit, report.storage);
  }

  // ---- the object ----

  /** TapeArchive: the database, filled from the robot's report once. */
  class TapeArchive {
    const db: TapeDatabase

    constructor (db: TapeDatabase)
      ensures this.db == db
    {
      this.db := db;
    }

    method InsertStorageElement(line: string, count: nat) returns (count': nat, failed: Option<string>)
      modifies db
      ensures SlotPass(db.Db(), count', failed) == InsertSlot(SlotPass(old(db.Db()), count, None), db.cnf.limit, line)
      ensures db.issued == old(db.issued)
    {
      var n := FirstNumber(line);
      if n.None? {
        return count, Some(LIST_INDEX);
      }
      var slot: int := n.value;
      var name;
      name, count' := TapeName(line, count).0, TapeName(line, count).1;
      assert InsertSlot(SlotPass(db.Db(), count, None), db.cnf.limit, line) ==
        InsertRows(db.Db(), slot, Contains(line, "Full"), name, count', Slot(SlotKind(line), SlotMagazine(slot)), db.cnf.limit);
      if Contains(line, "Full") {
        if name in db.tapes {
          return count', Some(INTEGRITY);
        }
        db.tapes := db.tapes[name := Tape(0, db.cnf.limit, slot)];
      }
      failed := InsertSlotRow(slot, line);
    }

    /** The slot and magazine inserts of one storage element. */
    method InsertSlotRow(slot: int, line: string) returns (failed: Option<string>)
      modifies db
      ensures (db.Db(), failed) == SlotRows(old(db.Db()), slot, Slot(SlotKind(line), SlotMagazine(slot)))
      ensures db.issued == old(db.issued)
    {
      if slot in db.slots {
        return Some(INTEGRITY);
      }
      db.slots := db.slots[slot := Slot(SlotKind(line), SlotMagazine(slot))];
      if (slot - 1) % 30 == 0 {
        if SlotMagazine(slot) in db.magazines {
          return Some(INTEGRITY);
        }
        db.magazines := db.magazines[SlotMagazine(slot) := "LOCKED"];
      }
      failed := None;
    }

    method InsertDataTransferElement(line: string, free: set<int>, lsscsi: string, slotSeen: bool) returns (free': set<int>, failed: Option<string>)
      modifies db
      ensures DrivePass(db.Db(), free', failed) == InsertDrive(DrivePass(old(db.Db()), free, None), db.cnf, lsscsi, slotSeen, line)
      ensures db.issued == old(db.issued)
    {
      var n := FirstNumber(line);
      if n.None? {
        return free, Some(LIST_INDEX);
      }
      var id := n.value;
      if id !in db.cnf.devices {
        return free, Some(NO_DEVICE);
      }
      var attached := Attached(db.cnf, id, lsscsi);
      if !Contains(line, "Full") {
        db.drives := db.drives[id := Drive(0, 0, 0, id / 2, Empty, attached, None)];
        return free, None;
      }
      if !slotSeen {
        return free, Some(NO_SLOT_SEEN);
      }
      if free == {} {
        return free, Some(POP_EMPTY);
      }
      var slot := Greatest(free);
      var name := TagOf(line);
      if name in db.tapes {
        return free, Some(INTEGRITY);
      }
      db.tapes := db.tapes[name := Tape(0, db.cnf.limit, slot)];
      db.drives := db.drives[id := Drive(0, 0, 0, id / 2, Idle, attached, Some(name))];
      free', failed := free - {slot}, None;
    }

    /** The storage-element loop of get_state. */
    method InsertStorageElements(lines: seq<string>) returns (count: nat, failed: Option<string>)
      modifies db
      ensures InsertSlots(old(db.Db()), db.cnf.limit, lines) == SlotPass(db.Db(), count, failed)
      ensures db.issued == old(db.issued)
    {
      count := 0;
      var i := 0;
      while i < |lines|
        invariant 0 <= i <= |lines|
        invariant InsertSlots(old(db.Db()), db.cnf.limit, lines[..i]) == SlotPass(db.Db(), count, None)
        invariant db.issued == old(db.issued)
      {
        InsertSlotsPrefixStep(old(db.Db()), db.cnf.limit, lines, i);
        count, failed := InsertStorageElement(lines[i], count);
        if failed.Some? {
          InsertSlotsFailureStays(old(db.Db()), db.cnf.limit, lines, i + 1);
          return;
        }
        i := i + 1;
      }
      assert lines[..i] == lines;
      failed := None;
    }

    /** One more turn of the data-transfer-element loop. */
    method InsertNextDataTransferElement(ghost start: Tables, ghost free0: set<int>, lines: seq<string>, i: nat,
                                         free: set<int>, lsscsi: string, slotSeen: bool) returns (free': set<int>, failed: Option<string>)
      requires i < |lines| && InsertDrives(start, free0, db.cnf, lsscsi, slotSeen, lines[..i]) == DrivePass(db.Db(), free, None)
      modifies db
      ensures InsertDrives(start, free0, db.cnf, lsscsi, slotSeen, lines[..i + 1]) == DrivePass(db.Db(), free', failed)
      ensures db.issued == old(db.issued)
    {
      InsertDrivesPrefixStep(start, free0, db.cnf, lsscsi, slotSeen, lines, i);
      free', failed := InsertDataTransferElement(lines[i], free, lsscsi, slotSeen);
    }

    /** The data-transfer-element loop of get_state. */
    method InsertDataTransferElements(lines: seq<string>, free: set<int>, lsscsi: string, slotSeen: bool)
      returns (free': set<int>, failed: Option<string>)
      modifies db
      ensures InsertDrives(old(db.Db()), free, db.cnf, lsscsi, slotSeen, lines) == DrivePass(db.Db(), free', failed)
      ensures db.issued == old(db.issued)
    {
      free' := free;
      ghost var start := db.Db();
      var i := 0;
      while i < |lines|
        invariant 0 <= i <= |lines|
        invariant InsertDrives(start, free, db.cnf, lsscsi, slotSeen, lines[..i]) == DrivePass(db.Db(), free', None)
        invariant db.issued == old(db.issued)
      {
        free', failed := InsertNextDataTransferElement(start, free, lines, i, free', lsscsi, slotSeen);
        if failed.Some? {
          InsertDrivesFailureStays(start, free, db.cnf, lsscsi, slotSeen, lines, i + 1);
          return;
        }
        i := i + 1;
      }
      assert lines[..i] == lines;
      failed := None;
    }

    /** get_state: the storage elements, then the drives, inserted into
        tables expected to be empty. */
    method GetState(report: Report) returns (r: Result<()>)
      modifies db
      ensures (db.Db(), r) == GetStateInsert(old(db.Db()), db.cnf, report)
      ensures db.issued == old(db.issued)
    {
      var _, failed := InsertStorageElements(report.storage);
      if failed.Some? {
        return Err(failed.value);
      }
      var free := FreeSlots(db.Db());
      free, failed := InsertDataTransferElements(report.transfer, free, report.lsscsi, report.storage != []);
      if failed.Some? {
        return Err(failed.value);
      }
      r := Ok(());
    }

    // The queries and operations below are the TapeDatabase steps, which
    // this front end runs without refreshing the tables first.

    /** get_free_drives */
    function GetFreeDrives(): (r: set<int>)
      reads db
      ensures forall d :: d in r <==> d in db.drives && (db.drives[d].state == Empty || HoldsFullTape(db.Db(), db.cnf.limit, d))
    {
      FreeDrives(db.Db(), db.cnf.limit)
    }

    /** get_empty_tapes */
    function GetEmptyTapes(): (r: set<string>)
      reads db
      ensures forall id :: id in r <==> id in db.tapes && IsEmptyTape(db.Db(), db.cnf.limit, id)
    {
      EmptyTapes(db.Db(), db.cnf.limit)
    }

    /** get_free_slots */
    function GetFreeSlots(): (r: set<int>)
      reads db
      ensures forall s :: s in r <==> s in db.slots && forall id <- db.tapes :: db.tapes[id].slotId != s
    {
      FreeSlots(db.Db())
    }

    /** load: the slot's tape ends in the drive, which is IDLE. */
    method Load(slot: int, drive: int) returns (r: Result<()>)
      modifies db
      ensures (db.State(), r) == LoadStep(old(db.State()), slot, drive)
      ensures drive in old(db.drives) && TapeInSlot(old(db.Db()), slot).Some? ==>
        r.Ok? && db.drives[drive].state == Idle && db.drives[drive].tapeId == TapeInSlot(old(db.Db()), slot)
    {
      ghost var l := db.State();
      if drive in l.tables.drives && TapeInSlot(l.tables, slot).Some? {
        LoadThenUnload(l, db.cnf.limit, slot, drive);
      }
      r := db.Load(slot, drive);
    }

    /** unload: it succeeds exactly when the drive holds a tape, and then
        leaves the drive free and without one. */
    method Unload(drive: int) returns (r: Result<()>)
      modifies db
      ensures (db.State(), r) == UnloadStep(old(db.State()), drive)
      ensures r.Ok? <==> TapeOfDrive(old(db.Db()), drive).Some?
      ensures r.Ok? ==> drive in GetFreeDrives() && TapeOfDrive(db.Db(), drive).None?
    {
      UnloadOutcome(db.State(), db.cnf.limit, drive);
      r := db.Unload(drive);
    }

    /** rewind_drive */
    method RewindDrive(drive: int) returns (r: Result<()>)
      modifies db
      ensures (db.State(), r) == RewindStep(old(db.State()), db.cnf, drive)
    {
      r := db.RewindDrive(drive);
    }

    /** tar_folder_to_tape: an attached drive with a tape gains one write
        and its tape the folder's size; any other drive is left alone. */
    method TarFolderToTape(folder: string, drive: int, size: nat) returns (r: Result<()>)
      modifies db
      ensures (db.State(), r) == TarStep(old(db.State()), db.cnf, folder, drive, size)
      ensures drive in old(db.drives) && drive in db.cnf.devices && db.cnf.devices[drive] != [] ==>
        var d := old(db.drives[drive]);
        if d.attached == 1 && d.tapeId.Some? then
          db.drives[drive].numWrites == d.numWrites + 1 && db.drives[drive].state == Idle
        else db.State() == old(db.State())
    {
      ghost var l := db.State();
      if drive in l.tables.drives && drive in db.cnf.devices && db.cnf.devices[drive] != [] {
        TarWritesOnlyWhenReady(l, db.cnf, folder, drive, size);
      }
      r := db.TarFolderToTape(folder, drive, size);
    }

    /** read_file: the drive ends IDLE with one more read. */
    method ReadFile(drive: int, files: string, tarNum: nat) returns (r: Result<()>)
      modifies db
      ensures (db.State(), r) == ReadStep(old(db.State()), db.cnf, drive, files, tarNum)
      ensures drive in old(db.drives) && drive in db.cnf.devices && db.cnf.devices[drive] != [] ==>
        r.Ok? && db.drives[drive] == old(db.drives[drive]).(state := Idle, numReads := old(db.drives[drive]).numReads + 1)
    {
      ghost var l := db.State();
      if drive in l.tables.drives && drive in db.cnf.devices && db.cnf.devices[drive] != [] {
        ReadCountsOnce(l, db.cnf, drive, files, tarNum);
      }
      r := db.ReadFile(drive, files, tarNum);
    }

    /** load_empty_tape: it fails exactly when no tape is empty. */
    method LoadEmptyTape(drive: int) returns (r: Result<(string, int)>)
      modifies db
      ensures (db.State(), r) == LoadEmptyTapeStep(old(db.State()), db.cnf.limit, drive)
      ensures drive in old(db.drives) ==> (r.Err? <==> old(GetEmptyTapes()) == {})
    {
      if drive in db.drives {
        LoadEmptyTapeOutcome(db.State(), db.cnf.limit, drive);
      }
      r := db.LoadEmptyTape(drive);
    }

    /** load_tape */
    method LoadTape(driveId: Option<int>, tapeId: Option<string>, slotId: Option<int>) returns (r: Result<Loaded>)
      modifies db
      ensures (db.State(), r) == LoadTapeStep(old(db.State()), db.cnf.limit, driveId, tapeId, slotId)
      ensures driveId.None? && old(GetFreeDrives()) == {} ==> r == Err(NO_FREE_DRIVES) && db.State() == old(db.State())
    {
      LoadTapeErrors(db.State(), db.cnf.limit, driveId);
      r := db.LoadTape(driveId, tapeId, slotId);
    }

    /** write_buffer_to_tape: an unattached drive is refused, changing nothing. */
    method WriteBufferToTape(dir: string, drive: int, size: nat) returns (r: Result<Option<(string, int)>>)
      modifies db
      ensures (db.State(), r) == WriteBufferStep(old(db.State()), db.cnf, dir, drive, size)
      ensures drive in old(db.drives) ==> (r == Err(NOT_ATTACHED) <==> old(db.drives[drive].attached) == 0)
    {
      if drive in db.drives {
        WriteBufferNotAttached(db.State(), db.cnf, dir, drive, size);
      }
      r := db.WriteBufferToTape(dir, drive, size);
    }
  }
}
