// The tape library front end of the archive: it reads the robot's status
// report into the tape, drive, slot and magazine tables, moves tapes between
// slots and drives, writes a buffer directory to tape with tar and reads
// files back, and serves the buffer directory to swap to over katcp.

module TapeInterface {
  import opened Wrappers
  import opened Strs
  import opened TapeTables
  import opened TapeOps

  // ---- get_state: reading the report into the tables ----

  /** A refresh keeps every drive's counters and its attached flag: the
      COALESCE of each INSERT OR REPLACE reads them back from the old row. */
  ghost predicate DriveRowsKept(t: Tables, u: Tables)
  {
    t.drives.Keys <= u.drives.Keys &&
    forall d <- t.drives :: u.drives[d].numWrites == t.drives[d].numWrites && u.drives[d].numReads == t.drives[d].numReads &&
                            u.drives[d].numCleans == t.drives[d].numCleans && u.drives[d].attached == t.drives[d].attached
  }

  /** COALESCE((SELECT bytes_written FROM tape WHERE id = ?), 0) */
  function BytesOf(t: Tables, id: string): int
  {
    if id in t.tapes then t.tapes[id].bytesWritten else 0
  }

  /** The name a Full storage element's tape is given, and the count of
      unlabelled tapes after it: the label read from the line, or the next
      "NO LABEL - n" when the label field says Full. */
  function TapeName(line: string, count: nat): (r: (string, nat))
    ensures Contains(line, "Full") && Contains(TagOf(line), "Full") ==> r == (NoLabel(count), count + 1)
    ensures !(Contains(line, "Full") && Contains(TagOf(line), "Full")) ==> r.1 == count
  {
    if Contains(TagOf(line), "Full") then (NoLabel(count), if Contains(line, "Full") then count + 1 else count)
    else (TagOf(line), count)
  }

  /** One storage element: its slot row, its tape row when the slot is
      Full (read from its label, or named "NO LABEL - n" when the label
      field says Full), and the magazine row for the first slot of a
      magazine. A line without a number stops the pass. */
  function RefreshSlot(p: SlotPass, limit: int, line: string): (r: SlotPass)
    requires p.failed.None?
    ensures Extends(p.tables, r.tables) && r.tables.drives == p.tables.drives
    ensures r.failed.Some? <==> FirstNumber(line).None?
    ensures r.failed.Some? ==> r.tables == p.tables
  {
    match FirstNumber(line)
    case None => p.(failed := Some(LIST_INDEX))
    case Some(n) =>
      var t := p.tables;
      var row := Slot(SlotKind(line), SlotMagazine(n));
      var (name, count) := TapeName(line, p.count);
      var t1 := if Contains(line, "Full") then t.(tapes := t.tapes[name := Tape(BytesOf(t, name), limit, n)]) else t;
      var t2 := t1.(slots := t1.slots[n := row]);
      var t3 := if (n - 1) % 30 == 0 then t2.(magazines := t2.magazines[SlotMagazine(n) := "LOCKED"]) else t2;
      SlotPass(t3, count, None)
  }

  /** A numbered storage element adds its rows and nothing else. */
  lemma RefreshSlotShape(p: SlotPass, limit: int, line: string)
    requires p.failed.None? && FirstNumber(line).Some?
    ensures var n := FirstNumber(line).value;
      var t := p.tables;
      var name := TapeName(line, p.count).0;
      RefreshSlot(p, limit, line) ==
        SlotPass(Tables(if Contains(line, "Full") then t.tapes[name := Tape(BytesOf(t, name), limit, n)] else t.tapes,
                        t.drives,
                        t.slots[n := Slot(SlotKind(line), SlotMagazine(n))],
                        if (n - 1) % 30 == 0 then t.magazines[SlotMagazine(n) := "LOCKED"] else t.magazines),
                 TapeName(line, p.count).1, None)
  {
  }

  /** The storage-element loop of get_state over the lines read so far. */
  function RefreshSlots(t: Tables, limit: int, lines: seq<string>): (r: SlotPass)
    ensures Extends(t, r.tables) && r.tables.drives == t.drives
  {
    if lines == [] then SlotPass(t, 0, None)
    else
      var p := RefreshSlots(t, limit, lines[..|lines| - 1]);
      if p.failed.Some? then p else
        ExtendsTrans(t, p.tables, RefreshSlot(p, limit, lines[|lines| - 1]).tables);
        RefreshSlot(p, limit, lines[|lines| - 1])
  }

  /** One data transfer element: the drive row keeps its counters and its
      attached flag (a new row is attached when lsscsi shows one of the
      drive's device names); a Full drive takes the tape named by its
      label and hands it the last free slot, any other drive gets
      `tapeless` and no tape. */
  function RefreshDrive(p: DrivePass, cnf: Config, lsscsi: string, slotSeen: bool, tapeless: DriveState, line: string): (r: DrivePass)
    requires p.failed.None?
    ensures Extends(p.tables, r.tables) && DriveRowsKept(p.tables, r.tables) && r.free <= p.free
    ensures r.tables.slots == p.tables.slots && r.tables.magazines == p.tables.magazines
    ensures r.failed.Some? ==> r.tables == p.tables
  {
    match FirstNumber(line)
    case None => p.(failed := Some(LIST_INDEX))
    case Some(id) =>
      if id !in cnf.devices then p.(failed := Some(NO_DEVICE))
      else
        var t := p.tables;
        var known := id in t.drives;
        var numWrite := if known then t.drives[id].numWrites else 0;
        var numRead := if known then t.drives[id].numReads else 0;
        var numClean := if known then t.drives[id].numCleans else 0;
        var attached := if known then t.drives[id].attached else Attached(cnf, id, lsscsi);
        if !Contains(line, "Full") then
          DrivePass(t.(drives := t.drives[id := Drive(numWrite, numRead, numClean, id / 2, tapeless, attached, None)]), p.free, None)
        else if !slotSeen then p.(failed := Some(NO_SLOT_SEEN))
        else if p.free == {} then p.(failed := Some(POP_EMPTY))
        else
          var slot := Greatest(p.free);
          var name := TagOf(line);
          DrivePass(t.(tapes := t.tapes[name := Tape(BytesOf(t, name), cnf.limit, slot)],
                       drives := t.drives[id := Drive(numWrite, numRead, numClean, id / 2, Idle, attached, Some(name))]),
                    p.free - {slot}, None)
  }

  /** The data-transfer-element loop of get_state over the lines read so
      far, starting from the free slots. */
  function RefreshDrives(t: Tables, free: set<int>, cnf: Config, lsscsi: string, slotSeen: bool, tapeless: DriveState,
                         lines: seq<string>): (r: DrivePass)
    ensures Extends(t, r.tables) && DriveRowsKept(t, r.tables) && r.free <= free
    ensures r.tables.slots == t.slots && r.tables.magazines == t.magazines
  {
    if lines == [] then DrivePass(t, free, None)
    else
      var p := RefreshDrives(t, free, cnf, lsscsi, slotSeen, tapeless, lines[..|lines| - 1]);
      if p.failed.Some? then p else
        var q := RefreshDrive(p, cnf, lsscsi, slotSeen, tapeless, lines[|lines| - 1]);
        ExtendsTrans(t, p.tables, q.tables);
        q
  }

  /** get_state, with the free slots computed from the tables the storage
      elements were written into and tapeless drives recorded as
      `tapeless`; an error leaves the rows written before it. */
  function Refresh(t: Tables, cnf: Config, report: Report, tapeless: DriveState): (r: (Tables, Result<()>))
    ensures Extends(t, r.0) && DriveRowsKept(t, r.0)
  {
    var sp := RefreshSlots(t, cnf.limit, report.storage);
    if sp.failed.Some? then (sp.tables, Err(sp.failed.value))
    else
      var dp := RefreshDrives(sp.tables, FreeSlots(sp.tables), cnf, report.lsscsi, report.storage != [], tapeless, report.transfer);
      ExtendsTrans(t, sp.tables, dp.tables);
      (dp.tables, if dp.failed.Some? then Err(dp.failed.value) else Ok(()))
  }

  /** get_state, corrected: tapeless drives are EMPTY, as the other copy of
      this code records them, and the free slots are read without a fresh
      get_state. */
  function GetStateStep(t: Tables, cnf: Config, report: Report): (Tables, Result<()>)
  {
    Refresh(t, cnf, report, Empty)
  }

  /** Once a pass has failed, later lines change nothing. */
  lemma {:induction false} SlotFailureStays(t: Tables, limit: int, lines: seq<string>, k: nat)
    requires k <= |lines| && RefreshSlots(t, limit, lines[..k]).failed.Some?
    ensures RefreshSlots(t, limit, lines) == RefreshSlots(t, limit, lines[..k])
    decreases |lines|
  {
    if k < |lines| {
      assert lines[..|lines| - 1][..k] == lines[..k];
      SlotFailureStays(t, limit, lines[..|lines| - 1], k);
    } else {
      assert lines[..k] == lines;
    }
  }

  lemma {:induction false} DriveFailureStays(t: Tables, free: set<int>, cnf: Config, lsscsi: string, slotSeen: bool,
                                             tapeless: DriveState, lines: seq<string>, k: nat)
    requires k <= |lines| && RefreshDrives(t, free, cnf, lsscsi, slotSeen, tapeless, lines[..k]).failed.Some?
    ensures RefreshDrives(t, free, cnf, lsscsi, slotSeen, tapeless, lines) ==
            RefreshDrives(t, free, cnf, lsscsi, slotSeen, tapeless, lines[..k])
    decreases |lines|
  {
    if k < |lines| {
      assert lines[..|lines| - 1][..k] == lines[..k];
      DriveFailureStays(t, free, cnf, lsscsi, slotSeen, tapeless, lines[..|lines| - 1], k);
    } else {
      assert lines[..k] == lines;
    }
  }

  /** The pass over one more line is one more step. */
  lemma DrivesPrefixStep(t: Tables, free: set<int>, cnf: Config, lsscsi: string, slotSeen: bool,
                         tapeless: DriveState, lines: seq<string>, i: nat)
    requires i < |lines| && RefreshDrives(t, free, cnf, lsscsi, slotSeen, tapeless, lines[..i]).failed.None?
    ensures RefreshDrives(t, free, cnf, lsscsi, slotSeen, tapeless, lines[..i + 1]) ==
            RefreshDrive(RefreshDrives(t, free, cnf, lsscsi, slotSeen, tapeless, lines[..i]), cnf, lsscsi, slotSeen, tapeless, lines[i])
  {
    assert lines[..i + 1][..i] == lines[..i];
  }

  lemma SlotsPrefixStep(t: Tables, limit: int, lines: seq<string>, i: nat)
    requires i < |lines| && RefreshSlots(t, limit, lines[..i]).failed.None?
    ensures RefreshSlots(t, limit, lines[..i + 1]) == RefreshSlot(RefreshSlots(t, limit, lines[..i]), limit, lines[i])
  {
    assert lines[..i + 1][..i] == lines[..i];
  }

  /** Every reported slot has a row in its magazine, and the first slot of a
      magazine leaves that magazine LOCKED. */
  predicate SlotReported(t: Tables, line: string)
  {
    match FirstNumber(line)
    case None => true
    case Some(n) =>
      n in t.slots && t.slots[n].magazineId == SlotMagazine(n) &&
      ((n - 1) % 30 == 0 ==> SlotMagazine(n) in t.magazines && t.magazines[SlotMagazine(n)] == "LOCKED")
  }

  /** A storage element reports its own slot and keeps what the earlier
      ones reported. */
  lemma SlotReportedStep(p: SlotPass, limit: int, line: string, other: string)
    requires p.failed.None? && SlotReported(p.tables, other)
    ensures SlotReported(RefreshSlot(p, limit, line).tables, other)
    ensures SlotReported(RefreshSlot(p, limit, line).tables, line)
  {
  }

  lemma {:induction false} SlotsReported(t: Tables, limit: int, lines: seq<string>)
    requires RefreshSlots(t, limit, lines).failed.None?
    ensures forall i :: 0 <= i < |lines| ==> SlotReported(RefreshSlots(t, limit, lines).tables, lines[i])
  {
    if lines != [] {
      var init := lines[..|lines| - 1];
      var p := RefreshSlots(t, limit, init);
      SlotsReported(t, limit, init);
      var last := lines[|lines| - 1];
      var q := RefreshSlot(p, limit, last);
      forall i | 0 <= i < |lines| ensures SlotReported(q.tables, lines[i]) {
        if i < |lines| - 1 {
          assert lines[i] == init[i];
          SlotReportedStep(p, limit, last, init[i]);
        } else {
          SlotReportedStep(p, limit, last, "");
        }
      }
    }
  }

  /** The storage elements that are Full with a label field saying Full. */
  function Unlabelled(lines: seq<string>): nat
  {
    if lines == [] then 0
    else
      var line := lines[|lines| - 1];
      Unlabelled(lines[..|lines| - 1]) + if Contains(line, "Full") && Contains(TagOf(line), "Full") then 1 else 0
  }

  /** The first n unlabelled names are all in the tape table. */
  ghost predicate NamedUpTo(tapes: map<string, Tape>, n: nat)
  {
    forall k: nat :: k < n ==> NoLabel(k) in tapes
  }

  /** A storage element names one more unlabelled tape exactly when it is
      Full with a label field saying Full. */
  lemma UnlabelledStep(p: SlotPass, limit: int, line: string)
    requires p.failed.None? && NamedUpTo(p.tables.tapes, p.count)
    ensures var q := RefreshSlot(p, limit, line);
      q.failed.None? ==>
        q.count == p.count + (if Contains(line, "Full") && Contains(TagOf(line), "Full") then 1 else 0) &&
        NamedUpTo(q.tables.tapes, q.count)
  {
    var q := RefreshSlot(p, limit, line);
    if q.failed.None? {
      RefreshSlotNamed(p, limit, line);
      NamedUpToGrows(p.tables.tapes, q.tables.tapes, p.count, q.count);
    }
  }

  lemma NamedUpToGrows(a: map<string, Tape>, b: map<string, Tape>, m: nat, n: nat)
    requires NamedUpTo(a, m) && a.Keys <= b.Keys
    requires n == m || (n == m + 1 && NoLabel(m) in b)
    ensures NamedUpTo(b, n)
  {
    forall k: nat | k < n ensures NoLabel(k) in b {
      if k < m {
        assert NoLabel(k) in a;
      } else {
        assert k == m;
      }
    }
  }

  lemma RefreshSlotNamed(p: SlotPass, limit: int, line: string)
    requires p.failed.None? && FirstNumber(line).Some?
    ensures var q := RefreshSlot(p, limit, line);
      q.count == TapeName(line, p.count).1 &&
      (Contains(line, "Full") ==> TapeName(line, p.count).0 in q.tables.tapes)
  {
  }

  /** The unlabelled tapes are named "NO LABEL - 000", "NO LABEL - 001", ...
      in the order they are reported, one name per unlabelled tape. */
  lemma {:induction false} UnlabelledNamed(t: Tables, limit: int, lines: seq<string>)
    requires RefreshSlots(t, limit, lines).failed.None?
    ensures RefreshSlots(t, limit, lines).count == Unlabelled(lines)
    ensures NamedUpTo(RefreshSlots(t, limit, lines).tables.tapes, Unlabelled(lines))
  {
    if lines != [] {
      var init := lines[..|lines| - 1];
      UnlabelledNamed(t, limit, init);
      UnlabelledStep(RefreshSlots(t, limit, init), limit, lines[|lines| - 1]);
    }
  }

  /** A refresh never loses what was written on a tape, nor a drive's
      counters or attached flag. */
  lemma RefreshKeepsHistory(t: Tables, cnf: Config, report: Report)
    ensures var (u, _) := GetStateStep(t, cnf, report);
      (forall id <- t.tapes :: id in u.tapes && u.tapes[id].bytesWritten == t.tapes[id].bytesWritten) &&
      (forall d <- t.drives :: d in u.drives && u.drives[d].numWrites == t.drives[d].numWrites &&
                               u.drives[d].numReads == t.drives[d].numReads && u.drives[d].attached == t.drives[d].attached)
  {
  }

  // ---- the finding about tapeless drives ----

  /** A drive reported without a tape: recorded IDLE, as this class
      writes it, it is not free; recorded EMPTY it is. */
  lemma TapelessDriveFree(p: DrivePass, cnf: Config, lsscsi: string, slotSeen: bool, line: string, id: nat)
    requires p.failed.None? && FirstNumber(line) == Some(id) && id in cnf.devices && !Contains(line, "Full")
    ensures var asWritten := RefreshDrive(p, cnf, lsscsi, slotSeen, Idle, line).tables;
      id !in FreeDrives(asWritten, cnf.limit)
    ensures var corrected := RefreshDrive(p, cnf, lsscsi, slotSeen, Empty, line).tables;
      id in FreeDrives(corrected, cnf.limit)
  {
  }

  // ---- the finding about get_state and get_free_slots ----

  const RECURSION := "RuntimeError: maximum recursion depth exceeded"

  /** get_state as written: after the storage elements it asks
      get_free_slots, which calls get_state again before its query; `depth`
      is the room left on Python's stack. */
  function GetStateAsWritten(t: Tables, cnf: Config, report: Report, depth: nat): (r: (Tables, Result<()>))
    decreases depth, 1
  {
    var sp := RefreshSlots(t, cnf.limit, report.storage);
    if sp.failed.Some? then (sp.tables, Err(sp.failed.value))
    else
      var (t1, free) := GetFreeSlotsAsWritten(sp.tables, cnf, report, depth);
      if free.Err? then (t1, Err(free.error))
      else
        var dp := RefreshDrives(t1, free.value, cnf, report.lsscsi, report.storage != [], Idle, report.transfer);
        (dp.tables, if dp.failed.Some? then Err(dp.failed.value) else Ok(()))
  }

  /** get_free_slots as written: get_state first, then the query. */
  function GetFreeSlotsAsWritten(t: Tables, cnf: Config, report: Report, depth: nat): (r: (Tables, Result<set<int>>))
    decreases depth, 0
  {
    if depth == 0 then (t, Err(RECURSION))
    else
      var (t1, s) := GetStateAsWritten(t, cnf, report, depth - 1);
      if s.Err? then (t1, Err(s.error)) else (t1, Ok(FreeSlots(t1)))
  }

  /** As written get_state never returns: whatever the stack allows, it
      ends in an error and writes no drive row. */
  lemma GetStateNeverReturns(t: Tables, cnf: Config, report: Report, depth: nat)
    ensures GetStateAsWritten(t, cnf, report, depth).1.Err?
    ensures GetStateAsWritten(t, cnf, report, depth).0.drives == t.drives
    ensures GetFreeSlotsAsWritten(t, cnf, report, depth).1.Err?
    ensures GetFreeSlotsAsWritten(t, cnf, report, depth).0.drives == t.drives
  {
    StateNeverReturns(t, cnf, report, depth);
    FreeSlotsNeverReturns(t, cnf, report, depth);
  }

  lemma {:induction false} StateNeverReturns(t: Tables, cnf: Config, report: Report, depth: nat)
    decreases depth, 1
    ensures GetStateAsWritten(t, cnf, report, depth).1.Err?
    ensures GetStateAsWritten(t, cnf, report, depth).0.drives == t.drives
  {
    FreeSlotsNeverReturns(RefreshSlots(t, cnf.limit, report.storage).tables, cnf, report, depth);
  }

  lemma {:induction false} FreeSlotsNeverReturns(t: Tables, cnf: Config, report: Report, depth: nat)
    decreases depth, 0
    ensures GetFreeSlotsAsWritten(t, cnf, report, depth).1.Err?
    ensures GetFreeSlotsAsWritten(t, cnf, report, depth).0.drives == t.drives
  {
    if depth > 0 {
      StateNeverReturns(t, cnf, report, depth - 1);
    }
  }

  // ---- the object ----

  /** TapeMachineInterface: the database it keeps up to date from the
      robot's status report. */
  class TapeMachineInterface {
    const db: TapeDatabase

    /** Opens the database; the status report is read by GetState. */
    constructor (db: TapeDatabase)
      ensures this.db == db
    {
      this.db := db;
    }

    method AddStorageElement(line: string, count: nat) returns (count': nat, failed: Option<string>)
      modifies db
      ensures SlotPass(db.Db(), count', failed) == RefreshSlot(SlotPass(old(db.Db()), count, None), db.cnf.limit, line)
      ensures db.issued == old(db.issued)
    {
      var n := FirstNumber(line);
      if n.None? {
        return count, Some(LIST_INDEX);
      }
      var slot: int := n.value;
      RefreshSlotShape(SlotPass(db.Db(), count, None), db.cnf.limit, line);
      count' := count;
      if Contains(line, "Full") {
        var name := TagOf(line);
        if Contains(name, "Full") {
          name := NoLabel(count);
          count' := count + 1;
        }
        db.tapes := db.tapes[name := Tape(BytesOf(db.Db(), name), db.cnf.limit, slot)];
      }
      db.slots := db.slots[slot := Slot(SlotKind(line), SlotMagazine(slot))];
      if (slot - 1) % 30 == 0 {
        db.magazines := db.magazines[SlotMagazine(slot) := "LOCKED"];
      }
      failed := None;
    }

    /** The body of the data-transfer-element loop. */
    method AddDataTransferElement(line: string, free: set<int>, lsscsi: string, slotSeen: bool) returns (free': set<int>, failed: Option<string>)
      modifies db
      ensures DrivePass(db.Db(), free', failed) == RefreshDrive(DrivePass(old(db.Db()), free, None), db.cnf, lsscsi, slotSeen, Empty, line)
      ensures db.issued == old(db.issued)
    {
      var n := FirstNumber(line);
      if n.None? {
        return free, Some(LIST_INDEX);
      }
      var id := n.value;
      if id !in db.cnf.devices {
        return free, Some(NO_DEVICE);
      }
      var row := Drive(0, 0, 0, id / 2, Empty, 0, None);
      if id in db.drives {
        row := row.(numWrites := db.drives[id].numWrites, numReads := db.drives[id].numReads,
                    numCleans := db.drives[id].numCleans, attached := db.drives[id].attached);
      } else {
        row := row.(attached := Attached(db.cnf, id, lsscsi));
      }
      if !Contains(line, "Full") {
        db.drives := db.drives[id := row];
        return free, None;
      }
      if !slotSeen {
        return free, Some(NO_SLOT_SEEN);
      }
      if free == {} {
        return free, Some(POP_EMPTY);
      }
      var slot := Greatest(free);
      var name := TagOf(line);
      db.tapes := db.tapes[name := Tape(BytesOf(db.Db(), name), db.cnf.limit, slot)];
      db.drives := db.drives[id := row.(state := Idle, tapeId := Some(name))];
      free', failed := free - {slot}, None;
    }

    /** The storage-element loop of get_state. */
    method AddStorageElements(lines: seq<string>) returns (count: nat, failed: Option<string>)
      modifies db
      ensures RefreshSlots(old(db.Db()), db.cnf.limit, lines) == SlotPass(db.Db(), count, failed)
      ensures db.issued == old(db.issued)
    {
      count := 0;
      var i := 0;
      while i < |lines|
        invariant 0 <= i <= |lines|
        invariant RefreshSlots(old(db.Db()), db.cnf.limit, lines[..i]) == SlotPass(db.Db(), count, None)
        invariant db.issued == old(db.issued)
      {
        SlotsPrefixStep(old(db.Db()), db.cnf.limit, lines, i);
        count, failed := AddStorageElement(lines[i], count);
        if failed.Some? {
          SlotFailureStays(old(db.Db()), db.cnf.limit, lines, i + 1);
          return;
        }
        i := i + 1;
      }
      assert lines[..i] == lines;
      failed := None;
    }

    /** One more turn of the data-transfer-element loop. */
    method AddNextDataTransferElement(ghost start: Tables, ghost free0: set<int>, lines: seq<string>, i: nat,
                                      free: set<int>, lsscsi: string, slotSeen: bool) returns (free': set<int>, failed: Option<string>)
      requires i < |lines| && RefreshDrives(start, free0, db.cnf, lsscsi, slotSeen, Empty, lines[..i]) == DrivePass(db.Db(), free, None)
      modifies db
      ensures RefreshDrives(start, free0, db.cnf, lsscsi, slotSeen, Empty, lines[..i + 1]) == DrivePass(db.Db(), free', failed)
      ensures db.issued == old(db.issued)
    {
      DrivesPrefixStep(start, free0, db.cnf, lsscsi, slotSeen, Empty, lines, i);
      free', failed := AddDataTransferElement(lines[i], free, lsscsi, slotSeen);
    }

    /** The data-transfer-element loop of get_state. */
    method AddDataTransferElements(lines: seq<string>, free: set<int>, lsscsi: string, slotSeen: bool)
      returns (free': set<int>, failed: Option<string>)
      modifies db
      ensures RefreshDrives(old(db.Db()), free, db.cnf, lsscsi, slotSeen, Empty, lines) == DrivePass(db.Db(), free', failed)
      ensures db.issued == old(db.issued)
    {
      free' := free;
      ghost var start := db.Db();
      var i := 0;
      while i < |lines|
        invariant 0 <= i <= |lines|
        invariant RefreshDrives(start, free, db.cnf, lsscsi, slotSeen, Empty, lines[..i]) == DrivePass(db.Db(), free', None)
        invariant db.issued == old(db.issued)
      {
        free', failed := AddNextDataTransferElement(start, free, lines, i, free', lsscsi, slotSeen);
        if failed.Some? {
          DriveFailureStays(start, free, db.cnf, lsscsi, slotSeen, Empty, lines, i + 1);
          return;
        }
        i := i + 1;
      }
      assert lines[..i] == lines;
      failed := None;
    }

    /** get_state: the storage elements, then the drives, from the robot's
        status report and what lsscsi lists. */
    method GetState(report: Report) returns (r: Result<()>)
      modifies db
      ensures (db.Db(), r) == GetStateStep(old(db.Db()), db.cnf, report)
      ensures db.issued == old(db.issued)
    {
      var _, failed := AddStorageElements(report.storage);
      if failed.Some? {
        return Err(failed.value);
      }
      var free := FreeSlots(db.Db());
      free, failed := AddDataTransferElements(report.transfer, free, report.lsscsi, report.storage != []);
      if failed.Some? {
        return Err(failed.value);
      }
      r := Ok(());
    }
  }

  // ---- the katcp server's buffer directories ----

  const BUFFER_DIRS: seq<string> := ["/var/kat/data/tape_buffer1", "/var/kat/data/tape_buffer2"]

  /** The buffer the next swap selects. */
  function NextBuffer(i: nat): (j: nat)
    requires i < 2
    ensures j < 2 && j != i
  {
    (i + 1) % 2
  }

  /** Two swaps come back to the same buffer. */
  lemma SwapTwice(i: nat)
    requires i < 2
    ensures NextBuffer(NextBuffer(i)) == i
  {
  }

  class TapeDeviceServer {
    var bufferIndex: nat
    /** The buffer_dir sensor. */
    var bufferDir: string

    predicate Valid()
      reads this
    {
      bufferIndex < 2
    }

    /** __init__ and setup_sensors: the first buffer, shown on the sensor. */
    constructor ()
      ensures Valid() && bufferIndex == 0 && bufferDir == BUFFER_DIRS[0]
    {
      bufferIndex := 0;
      bufferDir := BUFFER_DIRS[0];
    }

    /** request_swap_buffer: toggle between the two buffer directories. */
    method SwapBuffer() returns (r: (string, string))
      requires Valid()
      modifies this
      ensures Valid() && bufferIndex == NextBuffer(old(bufferIndex))
      ensures bufferDir == BUFFER_DIRS[bufferIndex] && bufferDir != old(BUFFER_DIRS[bufferIndex])
      ensures r == ("ok", "buffer_dir_set_to_" + bufferDir)
    {
      bufferIndex := NextBuffer(bufferIndex);
      bufferDir := BUFFER_DIRS[bufferIndex];
      r := ("ok", "buffer_dir_set_to_" + bufferDir);
    }

    /** request_set_buffer_dir */
    method SetBufferDir(dir: string) returns (r: (string, string))
      modifies this
      ensures bufferDir == dir && bufferIndex == old(bufferIndex)
      ensures r == ("ok", "buffer_dir_set_to_" + dir)
    {
      bufferDir := dir;
      r := ("ok", "buffer_dir_set_to_" + dir);
    }
  }
}
