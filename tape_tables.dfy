// The state database of the tape library: magazines, tapes, drives and
// slots as tables keyed by their ids, the queries that pick free drives,
// empty tapes and free slots, and the table updates of loading, unloading,
// rewinding, writing and reading a tape. Both tape library front ends keep
// these tables; the robot and drive commands they run are recorded in the
// order they are issued.

module TapeTables {
  import opened Wrappers
  import opened Strs

  // ---- rows ----

  /** The states a drive row takes. */
  datatype DriveState = Loading | Idle | Unloading | Empty | Writing | Rewinding | Reading

  function StateName(s: DriveState): string
  {
    match s
    case Loading => "LOADING"
    case Idle => "IDLE"
    case Unloading => "UNLOADING"
    case Empty => "EMPTY"
    case Writing => "WRITING"
    case Rewinding => "REWINDING"
    case Reading => "READING"
  }

  /** The place of a state's name in the order ORDER BY drive.state sorts. */
  function StateRank(s: DriveState): int
  {
    match s
    case Empty => 0
    case Idle => 1
    case Loading => 2
    case Reading => 3
    case Rewinding => 4
    case Unloading => 5
    case Writing => 6
  }

  /** The ranks sort the states as their names sort. */
  lemma StateRankOrdersNames(a: DriveState, b: DriveState)
    ensures StateRank(a) < StateRank(b) <==> StrLt(StateName(a), StateName(b))
  {
    var x, y := StateName(a), StateName(b);
    if a == b {
      StrLtIrreflexive(x);
    } else if x[0] == y[0] {
      assert "READING"[1..] == "EADING" && "EADING"[1..] == "ADING";
      assert "REWINDING"[1..] == "EWINDING" && "EWINDING"[1..] == "WINDING";
      assert StrLt("READING", "REWINDING") && !StrLt("REWINDING", "READING");
    }
  }

  /** A tape row; its use column is never written and is left out. */
  datatype Tape = Tape(bytesWritten: int, size: int, slotId: int)

  datatype Drive = Drive(numWrites: int, numReads: int, numCleans: int, magazineId: int,
                         state: DriveState, attached: int, tapeId: Option<string>)

  datatype Slot = Slot(kind: string, magazineId: int)

  /** The four tables, each keyed by its primary key; a magazine row holds
      its state. */
  datatype Tables = Tables(tapes: map<string, Tape>, drives: map<int, Drive>,
                           slots: map<int, Slot>, magazines: map<int, string>)

  const NO_TABLES := Tables(map[], map[], map[], map[])

  /** The commands run against the robot (mtx) and the drives (mt, tar). */
  datatype Command =
    | MtxLoad(slot: int, drive: int)
    | MtxUnload(slot: int, drive: int)
    | MtRewind(device: string)
    | MtForward(device: string)
    | TarWrite(device: string, folder: string)
    | TarExtract(device: string, files: string)

  /** The database together with the commands issued so far. */
  datatype Library = Library(tables: Tables, issued: seq<Command>)

  /** The configuration: the tape size limit, and per drive number the
      device names of that drive (the first is its tape device). */
  datatype Config = Config(limit: int, devices: map<int, seq<string>>)

  const NONE_SUBSCRIPT := "TypeError: 'NoneType' object has no attribute '__getitem__'"
  const NONE_LEN := "TypeError: object of type 'NoneType' has no len()"
  const NO_DEVICE := "KeyError: the drive has no configuration entry"
  const NO_DEVICE_NAME := "IndexError: list index out of range"
  const NO_FREE_DRIVES := "No Free Drives"
  const NO_EMPTY_TAPES := "No empty tapes"
  const NOT_ATTACHED := "Drive not attached for writing"

  /** cnf["drive%s" % drive][0] */
  function Device(cnf: Config, drive: int): (r: Result<string>)
    ensures r.Ok? <==> drive in cnf.devices && cnf.devices[drive] != []
    ensures r.Ok? ==> r.value == cnf.devices[drive][0]
  {
    if drive !in cnf.devices then Err(NO_DEVICE)
    else if cnf.devices[drive] == [] then Err(NO_DEVICE_NAME)
    else Ok(cnf.devices[drive][0])
  }

  // ---- least elements, for the first row of an ordered query ----

  lemma HasInt(s: set<int>)
    requires s != {}
    ensures exists x :: x in s
  {
    if forall x :: x !in s {
      assert false;
    }
  }

  lemma HasString(s: set<string>)
    requires s != {}
    ensures exists x :: x in s
  {
    if forall x :: x !in s {
      assert false;
    }
  }

  lemma {:induction false} LeastExists(s: set<int>)
    requires s != {}
    ensures exists m :: m in s && forall x <- s :: m <= x
  {
    HasInt(s);
    var x :| x in s;
    if s != {x} {
      LeastExists(s - {x});
      var m :| m in s - {x} && forall y <- s - {x} :: m <= y;
      forall y <- s ensures x <= y || m <= y {
        if y != x { assert y in s - {x}; }
      }
      if x < m {
        assert forall y <- s :: x <= y;
      } else {
        assert forall y <- s :: m <= y;
      }
    }
  }

  function Least(s: set<int>): (m: int)
    requires s != {}
    ensures m in s && forall x <- s :: m <= x
  {
    LeastExists(s);
    var m :| m in s && forall x <- s :: m <= x;
    m
  }

  lemma {:induction false} GreatestExists(s: set<int>)
    requires s != {}
    ensures exists m :: m in s && forall x <- s :: x <= m
  {
    HasInt(s);
    var x :| x in s;
    if s != {x} {
      GreatestExists(s - {x});
      var m :| m in s - {x} && forall y <- s - {x} :: y <= m;
      forall y <- s ensures y <= x || y <= m {
        if y != x { assert y in s - {x}; }
      }
      if m < x {
        assert forall y <- s :: y <= x;
      } else {
        assert forall y <- s :: y <= m;
      }
    }
  }

  function Greatest(s: set<int>): (m: int)
    requires s != {}
    ensures m in s && forall x <- s :: x <= m
  {
    GreatestExists(s);
    var m :| m in s && forall x <- s :: x <= m;
    m
  }

  lemma StrLtAsymmetric()
    ensures forall a: string, b: string :: StrLt(a, b) ==> !StrLt(b, a)
  {
    forall a: string, b: string | StrLt(a, b) ensures !StrLt(b, a) {
      if StrLt(b, a) {
        StrLtTrans(a, b, a);
        StrLtIrreflexive(a);
      }
    }
  }

  lemma {:induction false} LeastStringExists(s: set<string>)
    requires s != {}
    ensures exists m :: m in s && forall x <- s :: StrLe(m, x)
  {
    HasString(s);
    var x :| x in s;
    if s != {x} {
      LeastStringExists(s - {x});
      var m :| m in s - {x} && forall y <- s - {x} :: StrLe(m, y);
      if StrLt(x, m) {
        forall y <- s ensures StrLe(x, y) {
          if y != x && y != m { assert y in s - {x}; StrLtTrans(x, m, y); }
        }
      } else {
        StrLtTotal(x, m);
        forall y <- s ensures StrLe(m, y) {
          if y != x { assert y in s - {x}; }
        }
      }
    }
  }

  /** The least string in Python's order. */
  function LeastString(s: set<string>): (m: string)
    requires s != {}
    ensures m in s && forall x <- s :: StrLe(m, x)
  {
    LeastStringExists(s);
    StrLtAsymmetric();
    var m :| m in s && forall x <- s :: StrLe(m, x);
    m
  }

  // ---- queries ----

  /** The drive holds a tape whose row records more than the limit. */
  predicate HoldsFullTape(t: Tables, limit: int, d: int)
    requires d in t.drives
  {
    var id := t.drives[d].tapeId;
    id.Some? && id.value in t.tapes && t.tapes[id.value].bytesWritten > limit
  }

  /** get_free_drives: EMPTY drives and drives whose tape is full. */
  function FreeDrives(t: Tables, limit: int): (r: set<int>)
    ensures forall d :: d in r <==> d in t.drives && (t.drives[d].state == Empty || HoldsFullTape(t, limit, d))
  {
    set d | d in t.drives && (t.drives[d].state == Empty || HoldsFullTape(t, limit, d))
  }

  /** free_drives[0]: the query orders by state name; among drives in the
      same state the one of least id is taken. */
  function FirstFreeDrive(t: Tables, limit: int): (r: Option<int>)
    ensures r.None? <==> FreeDrives(t, limit) == {}
    ensures r.Some? ==> (r.value in FreeDrives(t, limit) &&
      forall d <- FreeDrives(t, limit) ::
        StateRank(t.drives[r.value].state) < StateRank(t.drives[d].state) ||
        (StateRank(t.drives[r.value].state) == StateRank(t.drives[d].state) && r.value <= d))
  {
    var free := FreeDrives(t, limit);
    if free == {} then None
    else
      HasInt(free);
      var d0 :| d0 in free;
      var ranks := set d <- free :: StateRank(t.drives[d].state);
      assert StateRank(t.drives[d0].state) in ranks;
      var rank := Least(ranks);
      var lowest := set d <- free | StateRank(t.drives[d].state) == rank;
      var d1 :| d1 in free && StateRank(t.drives[d1].state) == rank;
      assert d1 in lowest;
      var first := Least(lowest);
      assert forall d <- free :: StateRank(t.drives[d].state) in ranks;
      assert forall d <- free :: StateRank(t.drives[d].state) == rank ==> d in lowest;
      Some(first)
  }

  /** An EMPTY drive is always chosen before a drive holding a full tape. */
  lemma EmptyDriveFirst(t: Tables, limit: int, d: int)
    requires d in t.drives && t.drives[d].state == Empty
    ensures FirstFreeDrive(t, limit).Some?
    ensures t.drives[FirstFreeDrive(t, limit).value].state == Empty
  {
    assert d in FreeDrives(t, limit);
  }

  predicate IsEmptyTape(t: Tables, limit: int, id: string)
    requires id in t.tapes
  {
    t.tapes[id].bytesWritten < limit && t.tapes[id].slotId in t.slots
  }

  /** get_empty_tapes: tapes below the limit whose slot row exists. */
  function EmptyTapes(t: Tables, limit: int): (r: set<string>)
    ensures forall id :: id in r <==> id in t.tapes && IsEmptyTape(t, limit, id)
  {
    set id | id in t.tapes && IsEmptyTape(t, limit, id)
  }

  /** tapes[0]: the empty tape of least slot id (among tapes recorded in
      one slot, the least id). */
  function FirstEmptyTape(t: Tables, limit: int): (r: Option<(string, int)>)
    ensures r.None? <==> EmptyTapes(t, limit) == {}
    ensures r.Some? ==> (r.value.0 in EmptyTapes(t, limit) && r.value.1 == t.tapes[r.value.0].slotId &&
      forall id <- EmptyTapes(t, limit) :: r.value.1 <= t.tapes[id].slotId)
  {
    var empty := EmptyTapes(t, limit);
    if empty == {} then None
    else
      HasString(empty);
      var id0 :| id0 in empty;
      var slotIds := set id <- empty :: t.tapes[id].slotId;
      assert t.tapes[id0].slotId in slotIds;
      var slot := Least(slotIds);
      var inSlot := set id <- empty | t.tapes[id].slotId == slot;
      var id1 :| id1 in empty && t.tapes[id1].slotId == slot;
      assert id1 in inSlot;
      assert forall id <- empty :: t.tapes[id].slotId in slotIds;
      Some((LeastString(inSlot), slot))
  }

  /** get_free_slots: slots no tape row points to. */
  function FreeSlots(t: Tables): (r: set<int>)
    ensures forall s :: s in r <==> s in t.slots && forall id <- t.tapes :: t.tapes[id].slotId != s
  {
    set s | s in t.slots && forall id <- t.tapes :: t.tapes[id].slotId != s
  }

  /** SELECT tape.id FROM tape WHERE slot_id = slot, first row. */
  function TapeInSlot(t: Tables, slot: int): (r: Option<string>)
    ensures r.None? <==> forall id <- t.tapes :: t.tapes[id].slotId != slot
    ensures r.Some? ==> r.value in t.tapes && t.tapes[r.value].slotId == slot
  {
    var ids := set id <- t.tapes | t.tapes[id].slotId == slot;
    assert forall id <- t.tapes :: t.tapes[id].slotId == slot ==> id in ids;
    if ids == {} then None
    else Some(LeastString(ids))
  }

  /** The tape a drive holds, as the inner join of drive and tape finds it. */
  function TapeOfDrive(t: Tables, d: int): (r: Option<string>)
    ensures r.Some? <==> d in t.drives && t.drives[d].tapeId.Some? && t.drives[d].tapeId.value in t.tapes
    ensures r.Some? ==> r == t.drives[d].tapeId
  {
    if d in t.drives && t.drives[d].tapeId.Some? && t.drives[d].tapeId.value in t.tapes then t.drives[d].tapeId
    else None
  }

  /** get_location_of_tape: the tape's slot and the drive holding it, or
      None for an unknown tape. */
  function LocationOfTape(t: Tables, id: string): (r: Option<(int, Option<int>)>)
    ensures r.None? <==> id !in t.tapes
    ensures r.Some? ==> r.value.0 == t.tapes[id].slotId
    ensures r.Some? ==> (r.value.1.Some? <==> exists d <- t.drives :: t.drives[d].tapeId == Some(id))
    ensures r.Some? && r.value.1.Some? ==> r.value.1.value in t.drives && t.drives[r.value.1.value].tapeId == Some(id)
  {
    if id !in t.tapes then None
    else
      var holders := set d <- t.drives | t.drives[d].tapeId == Some(id);
      assert forall d <- t.drives :: t.drives[d].tapeId == Some(id) ==> d in holders;
      Some((t.tapes[id].slotId, if holders == {} then None else Some(Least(holders))))
  }

  // ---- table updates ----

  /** No drive row disappears and no counter goes down. */
  ghost predicate CountersKept(t: Tables, u: Tables)
  {
    t.drives.Keys <= u.drives.Keys &&
    forall d <- t.drives :: u.drives[d].numWrites >= t.drives[d].numWrites && u.drives[d].numReads >= t.drives[d].numReads &&
                            u.drives[d].numCleans == t.drives[d].numCleans
  }


  /** UPDATE drive SET state = s WHERE id = d: a drive without a row is
      left alone. */
  function SetState(t: Tables, d: int, s: DriveState): (r: Tables)
    ensures r.tapes == t.tapes && r.slots == t.slots && r.magazines == t.magazines
    ensures r.drives.Keys == t.drives.Keys
    ensures forall e <- t.drives :: r.drives[e] == if e == d then t.drives[e].(state := s) else t.drives[e]
  {
    if d in t.drives then t.(drives := t.drives[d := t.drives[d].(state := s)]) else t
  }

  /** load: the drive takes the tape recorded in the slot (the LOADING row
      becomes IDLE once mtx load has run); a slot without a tape gives a
      None row. */
  function LoadStep(l: Library, slot: int, drive: int): (r: (Library, Result<()>))
    ensures CountersKept(l.tables, r.0.tables) && |l.issued| <= |r.0.issued| && r.0.issued[..|l.issued|] == l.issued
  {
    match TapeInSlot(l.tables, slot)
    case None => (l, Err(NONE_SUBSCRIPT))
    case Some(id) =>
      var t := l.tables;
      var t' := if drive in t.drives then t.(drives := t.drives[drive := t.drives[drive].(state := Idle, tapeId := Some(id))]) else t;
      (Library(t', l.issued + [MtxLoad(slot, drive)]), Ok(()))
  }

  /** unload: the tape goes back to the slot its row records and the drive
      ends EMPTY with no tape. For a drive without a tape the row is left
      UNLOADING and the length check of the None row raises. */
  function UnloadStep(l: Library, drive: int): (r: (Library, Result<()>))
    ensures CountersKept(l.tables, r.0.tables) && |l.issued| <= |r.0.issued| && r.0.issued[..|l.issued|] == l.issued
  {
    var t := l.tables;
    match TapeOfDrive(t, drive)
    case None => (Library(SetState(t, drive, Unloading), l.issued), Err(NONE_LEN))
    case Some(id) =>
      var d := t.drives[drive];
      (Library(t.(drives := t.drives[drive := d.(state := Empty, tapeId := None)]),
               l.issued + [MtxUnload(t.tapes[id].slotId, drive)]), Ok(()))
  }

  /** rewind_drive: REWINDING, mt rewind on the drive's device, then IDLE. */
  function RewindStep(l: Library, cnf: Config, drive: int): (r: (Library, Result<()>))
    ensures CountersKept(l.tables, r.0.tables) && |l.issued| <= |r.0.issued| && r.0.issued[..|l.issued|] == l.issued
  {
    var t := SetState(l.tables, drive, Rewinding);
    match Device(cnf, drive)
    case Err(e) => (Library(t, l.issued), Err(e))
    case Ok(dev) => (Library(SetState(t, drive, Idle), l.issued + [MtRewind(dev)]), Ok(()))
  }

  /** The last component of a path, as path.split("/")[-1]. */
  function LastComponent(p: string): string
  {
    var parts := Split(p, '/');
    parts[|parts| - 1]
  }

  /** tar_folder_to_tape: a drive that is attached and holds a tape is
      marked WRITING with one more write, the folder is written with tar,
      and the drive returns to IDLE with `size` (what du reports) added to
      its tape; any other drive is left alone. A drive without a row gives
      a None row. */
  function TarStep(l: Library, cnf: Config, folder: string, drive: int, size: nat): (r: (Library, Result<()>))
    ensures CountersKept(l.tables, r.0.tables) && |l.issued| <= |r.0.issued| && r.0.issued[..|l.issued|] == l.issued
  {
    var t := l.tables;
    if drive !in t.drives then (l, Err(NONE_SUBSCRIPT))
    else
      var d := t.drives[drive];
      if d.attached != 1 || d.tapeId.None? then (l, Ok(()))
      else
        var writing := t.(drives := t.drives[drive := d.(state := Writing, numWrites := d.numWrites + 1)]);
        match Device(cnf, drive)
        case Err(e) => (Library(writing, l.issued), Err(e))
        case Ok(dev) =>
          var id := d.tapeId.value;
          var tapes := if id in t.tapes then t.tapes[id := t.tapes[id].(bytesWritten := t.tapes[id].bytesWritten + size)] else t.tapes;
          var done := writing.(drives := t.drives[drive := d.(state := Idle, numWrites := d.numWrites + 1)], tapes := tapes);
          (Library(done, l.issued + [TarWrite(dev, LastComponent(folder))]), Ok(()))
  }

  /** n forward skips over a tar archive. */
  function Forward(dev: string, n: nat): (r: seq<Command>)
    ensures |r| == n && forall c <- r :: c == MtForward(dev)
  {
    if n == 0 then [] else Forward(dev, n - 1) + [MtForward(dev)]
  }

  /** read_file: rewind, READING, skip tarNum archives, extract the files,
      then IDLE with one more read. */
  function ReadStep(l: Library, cnf: Config, drive: int, files: string, tarNum: nat): (r: (Library, Result<()>))
    ensures CountersKept(l.tables, r.0.tables) && |l.issued| <= |r.0.issued| && r.0.issued[..|l.issued|] == l.issued
  {
    var (l1, r1) := RewindStep(l, cnf, drive);
    if r1.Err? then (l1, r1)
    else (ExtractStep(l1, Device(cnf, drive).value, drive, files, tarNum), Ok(()))
  }

  /** What read_file does once the tape is rewound. */
  function ExtractStep(l: Library, dev: string, drive: int, files: string, tarNum: nat): (r: Library)
    ensures CountersKept(l.tables, r.tables) && |l.issued| <= |r.issued| && r.issued[..|l.issued|] == l.issued
  {
    var t := l.tables;
    var t' := if drive in t.drives then t.(drives := t.drives[drive := t.drives[drive].(state := Idle, numReads := t.drives[drive].numReads + 1)]) else t;
    Library(t', l.issued + Forward(dev, tarNum) + [TarExtract(dev, files)])
  }

  // ---- what the updates promise ----

  lemma CountersKeptTrans(t: Tables, u: Tables, v: Tables)
    requires CountersKept(t, u) && CountersKept(u, v)
    ensures CountersKept(t, v)
  {
  }

  /** A loaded drive holds the slot's tape and is IDLE, so it is free only
      if that tape is full; unloading it sends the tape back to that slot
      and leaves the drive EMPTY, and free again, with its counters. */
  lemma LoadThenUnload(l: Library, limit: int, slot: int, drive: int)
    requires drive in l.tables.drives && TapeInSlot(l.tables, slot).Some?
    ensures var (l1, r1) := LoadStep(l, slot, drive);
      var id := TapeInSlot(l.tables, slot).value;
      r1.Ok? && TapeOfDrive(l1.tables, drive) == Some(id) && l1.tables.drives[drive].state == Idle &&
      (drive in FreeDrives(l1.tables, limit) <==> l.tables.tapes[id].bytesWritten > limit) &&
      var (l2, r2) := UnloadStep(l1, drive);
      r2.Ok? && l2.tables.drives == l.tables.drives[drive := l.tables.drives[drive].(state := Empty, tapeId := None)] &&
      l2.tables.tapes == l.tables.tapes && l2.tables.slots == l.tables.slots &&
      l2.issued == l.issued + [MtxLoad(slot, drive), MtxUnload(slot, drive)] &&
      FreeSlots(l2.tables) == FreeSlots(l.tables) &&
      drive in FreeDrives(l2.tables, limit)
  {
  }

  /** A drive that holds no tape cannot be unloaded; one that does ends up
      EMPTY and free. */
  lemma UnloadOutcome(l: Library, limit: int, drive: int)
    ensures var (l1, r) := UnloadStep(l, drive);
      (r.Ok? <==> TapeOfDrive(l.tables, drive).Some?) &&
      (r.Ok? ==> drive in FreeDrives(l1.tables, limit) && TapeOfDrive(l1.tables, drive).None? &&
                 l1.issued == l.issued + [MtxUnload(l.tables.tapes[TapeOfDrive(l.tables, drive).value].slotId, drive)]) &&
      (r.Err? ==> l1.issued == l.issued && (drive in l.tables.drives ==> l1.tables.drives[drive].state == Unloading))
  {
  }

  /** tar writes only on an attached drive that holds a tape: then one
      write more, `size` more on its tape, IDLE again; otherwise nothing
      changes. */
  lemma TarWritesOnlyWhenReady(l: Library, cnf: Config, folder: string, drive: int, size: nat)
    requires drive in l.tables.drives && drive in cnf.devices && cnf.devices[drive] != []
    ensures var (l1, r) := TarStep(l, cnf, folder, drive, size);
      var d, d1 := l.tables.drives[drive], l1.tables.drives[drive];
      var ready := d.attached == 1 && d.tapeId.Some?;
      r.Ok? && d1.tapeId == d.tapeId && d1.numReads == d.numReads &&
      (ready ==> d1.numWrites == d.numWrites + 1 && d1.state == Idle &&
                 (d.tapeId.value in l.tables.tapes ==>
                    l1.tables.tapes == l.tables.tapes[d.tapeId.value := l.tables.tapes[d.tapeId.value].(bytesWritten := l.tables.tapes[d.tapeId.value].bytesWritten + size)]) &&
                 l1.issued == l.issued + [TarWrite(cnf.devices[drive][0], LastComponent(folder))]) &&
      (!ready ==> l1 == l)
  {
  }

  /** read_file leaves the drive IDLE with one read more and the same tape,
      after skipping tarNum archives and extracting. */
  lemma ReadCountsOnce(l: Library, cnf: Config, drive: int, files: string, tarNum: nat)
    requires drive in l.tables.drives && drive in cnf.devices && cnf.devices[drive] != []
    ensures var (l1, r) := ReadStep(l, cnf, drive, files, tarNum);
      var d, d1 := l.tables.drives[drive], l1.tables.drives[drive];
      var dev := cnf.devices[drive][0];
      r.Ok? && d1 == d.(state := Idle, numReads := d.numReads + 1) &&
      l1.tables.tapes == l.tables.tapes &&
      l1.issued == l.issued + [MtRewind(dev)] + Forward(dev, tarNum) + [TarExtract(dev, files)]
  {
  }

  // ---- reading the robot's status report ----

  /** The value of a string of decimal digits. */
  function DigitsValue(s: string): nat
    requires AllDigits(s)
  {
    if s == [] then 0 else 10 * DigitsValue(s[..|s| - 1]) + (s[|s| - 1] as int - '0' as int)
  }

  /** The run of at most k digits at the head of s. */
  function DigitRun(s: string, k: nat): (r: string)
    ensures |r| <= k && |r| <= |s| && AllDigits(r) && r == s[..|r|]
    ensures |r| < k && |r| < |s| ==> !IsDigit(s[|r|])
  {
    if k == 0 || s == [] || !IsDigit(s[0]) then "" else [s[0]] + DigitRun(s[1..], k - 1)
  }

  /** Where the first digit of s is. */
  function FirstDigit(s: string): (r: Option<nat>)
    ensures r.None? <==> forall i :: 0 <= i < |s| ==> !IsDigit(s[i])
    ensures r.Some? ==> r.value < |s| && IsDigit(s[r.value]) && forall i :: 0 <= i < r.value ==> !IsDigit(s[i])
  {
    if s == [] then None
    else if IsDigit(s[0]) then Some(0)
    else match FirstDigit(s[1..])
      case None => None
      case Some(i) => Some(i + 1)
  }

  /** int(re.findall("\d{1,3}", s)[0]): the first run of digits, read at
      most three at a time; None where findall finds nothing and [0]
      raises. */
  function FirstNumber(s: string): (r: Option<nat>)
    ensures r.None? <==> forall i :: 0 <= i < |s| ==> !IsDigit(s[i])
  {
    match FirstDigit(s)
    case None => None
    case Some(i) => Some(DigitsValue(DigitRun(s[i..], 3)))
  }

  /** The digit str() prints for d is the one whose value is d. */
  lemma DigitStringValue(d: nat)
    requires d < 10
    ensures |DigitString(d)| == 1 && IsDigit(DigitString(d)[0])
    ensures DigitString(d)[0] as int - '0' as int == d
  {
    var ds := "0123456789";
    assert forall i :: 0 <= i < 10 ==> ds[i] as int == '0' as int + i;
  }

  /** str(n) reads back as n. */
  lemma {:induction false} NatToStringDigits(n: nat)
    ensures AllDigits(NatToString(n)) && 1 <= |NatToString(n)|
    ensures DigitsValue(NatToString(n)) == n
  {
    var s := NatToString(n);
    if n < 10 {
      DigitStringValue(n);
      assert s[..0] == [];
    } else {
      NatToStringDigits(n / 10);
      DigitStringValue(n % 10);
      assert s[..|s| - 1] == NatToString(n / 10);
    }
  }

  lemma {:induction false} NatToStringShort(n: nat)
    requires n < 1000
    ensures |NatToString(n)| <= 3
  {
    if n >= 10 {
      NatToStringShort(n / 10);
      if n >= 100 {
        NatToStringShort(n / 100);
        assert |NatToString(n / 10)| <= 2;
      }
    }
  }

  /** A run of digits followed by something else is read whole. */
  lemma {:induction false} DigitRunOf(d: string, rest: string, k: nat)
    requires AllDigits(d) && |d| <= k
    requires rest == [] || !IsDigit(rest[0])
    ensures DigitRun(d + rest, k) == d
  {
    if d == [] {
      assert d + rest == rest;
    } else {
      assert d + rest == [d[0]] + (d[1..] + rest);
      DigitRunCons(d[0], d[1..] + rest, k);
      DigitRunOf(d[1..], rest, k - 1);
      assert [d[0]] + d[1..] == d;
    }
  }

  lemma DigitRunCons(c: char, t: string, k: nat)
    requires IsDigit(c) && k > 0
    ensures DigitRun([c] + t, k) == [c] + DigitRun(t, k - 1)
  {
    assert ([c] + t)[0] == c && ([c] + t)[1..] == t;
  }

  /** The element number of a status line is the number printed after
      text without digits. */
  lemma {:induction false} FirstNumberOfLine(prefix: string, n: nat, rest: string)
    requires n < 1000 && forall i :: 0 <= i < |prefix| ==> !IsDigit(prefix[i])
    requires rest == [] || !IsDigit(rest[0])
    ensures FirstNumber(prefix + NatToString(n) + rest) == Some(n)
  {
    var d := NatToString(n);
    var s := prefix + d + rest;
    NatToStringDigits(n);
    NatToStringShort(n);
    assert s[|prefix|] == d[0];
    assert s[|prefix|..] == d + rest;
    FirstDigitAt(s, |prefix|);
    DigitRunOf(d, rest, 3);
  }

  lemma FirstDigitAt(s: string, i: nat)
    requires i < |s| && IsDigit(s[i]) && forall j :: 0 <= j < i ==> !IsDigit(s[j])
    ensures FirstDigit(s) == Some(i)
  {
  }

  /** Leading zeros do not change the value. */
  lemma {:induction false} LeadingZeros(z: string, s: string)
    requires AllDigits(s) && forall i :: 0 <= i < |z| ==> z[i] == '0'
    ensures AllDigits(z + s) && DigitsValue(z + s) == DigitsValue(s)
    decreases |z| + |s|
  {
    if s == [] {
      assert z + s == z;
      if z != [] {
        LeadingZeros(z[..|z| - 1], []);
        assert (z + s)[..|z + s| - 1] == z[..|z| - 1] + [];
      }
    } else {
      LeadingZeros(z, s[..|s| - 1]);
      assert (z + s)[..|z + s| - 1] == z + s[..|s| - 1];
    }
  }

  /** "%03d" % n */
  function Pad3(n: nat): (r: string)
  {
    var s := NatToString(n);
    if |s| >= 3 then s else "000"[..3 - |s|] + s
  }

  /** Reading back a zero-padded number gives the number. */
  lemma Pad3RoundTrip(n: nat)
    ensures AllDigits(Pad3(n)) && DigitsValue(Pad3(n)) == n && |Pad3(n)| >= 3
  {
    NatToStringDigits(n);
    var s := NatToString(n);
    if |s| < 3 {
      LeadingZeros("000"[..3 - |s|], s);
    }
  }

  /** The name an unlabelled tape gets: "NO LABEL - %03d" % count. */
  function NoLabel(count: nat): string
  {
    "NO LABEL - " + Pad3(count)
  }

  /** Unlabelled tapes get distinct names. */
  lemma NoLabelInjective(j: nat, k: nat)
    requires NoLabel(j) == NoLabel(k)
    ensures j == k
  {
    Pad3RoundTrip(j);
    Pad3RoundTrip(k);
    assert Pad3(j) == NoLabel(j)[11..];
    assert Pad3(k) == NoLabel(k)[11..];
  }

  /** s_e[-7:-1]: the six characters before the line's last one. */
  function TagOf(line: string): (r: string)
    ensures |r| <= 6
    ensures |line| >= 7 ==> r == line[|line| - 7..|line| - 1]
  {
    var lo := if |line| >= 7 then |line| - 7 else 0;
    var hi := if |line| >= 1 then |line| - 1 else 0;
    line[lo..hi]
  }

  /** A read tag is never taken for an unlabelled tape's name. */
  lemma TagIsNoNoLabel(line: string, k: nat)
    ensures TagOf(line) != NoLabel(k)
  {
    Pad3RoundTrip(k);
    assert |NoLabel(k)| >= 14;
  }

  /** A storage element is the mail slot when it says IMPORT. */
  function SlotKind(line: string): string
  {
    if Contains(line, "IMPORT") then "MAIL" else "MAGAZINE"
  }

  /** (slot_id - 1) / 30: Python's floor division agrees with Dafny's for
      a positive divisor. */
  function SlotMagazine(n: int): int
  {
    (n - 1) / 30
  }

  /** Slots 1-30 are magazine 0, 31-60 magazine 1, and so on; the first
      slot of each magazine is the one that adds the magazine row. */
  lemma SlotMagazineRange(n: int)
    ensures 30 * SlotMagazine(n) + 1 <= n <= 30 * SlotMagazine(n) + 30
    ensures (n - 1) % 30 == 0 <==> n == 30 * SlotMagazine(n) + 1
  {
  }

  /** What a pass over the storage-element lines has done: the tables, the
      unlabelled tapes named so far, and the error that stopped it. */
  datatype SlotPass = SlotPass(tables: Tables, count: nat, failed: Option<string>)

  /** What a pass over the data-transfer-element lines has done: the
      tables, the free slots not yet handed to a drive's tape, and the
      error that stopped it. */
  datatype DrivePass = DrivePass(tables: Tables, free: set<int>, failed: Option<string>)

  /** The lines the status command prints, as the two regular expressions
      pick them out, and what lsscsi prints. */
  datatype Report = Report(storage: seq<string>, transfer: seq<string>, lsscsi: string)

  const LIST_INDEX := "IndexError: list index out of range"
  const POP_EMPTY := "IndexError: pop from empty list"
  const NO_SLOT_SEEN := "UnboundLocalError: local variable 'slot_id' referenced before assignment"

  /** any(s in out for s in names) */
  function AnyShown(names: seq<string>, out: string): bool
  {
    if names == [] then false else Contains(out, names[0]) || AnyShown(names[1..], out)
  }

  lemma {:induction false} AnyShownMeans(names: seq<string>, out: string)
    ensures AnyShown(names, out) <==> exists i :: 0 <= i < |names| && Contains(out, names[i])
  {
    if names != [] {
      AnyShownMeans(names[1..], out);
      if !Contains(out, names[0]) && exists i :: 0 <= i < |names| && Contains(out, names[i]) {
        var i :| 0 <= i < |names| && Contains(out, names[i]);
        assert names[1..][i - 1] == names[i];
      }
    }
  }

  /** A drive is attached when lsscsi lists one of its device names. */
  function Attached(cnf: Config, id: int, lsscsi: string): int
    requires id in cnf.devices
  {
    if AnyShown(cnf.devices[id], lsscsi) then 1 else 0
  }

  /** The tables only grow and keep the bytes written on every tape. */
  ghost predicate Extends(t: Tables, u: Tables)
  {
    t.tapes.Keys <= u.tapes.Keys && t.slots.Keys <= u.slots.Keys && t.magazines.Keys <= u.magazines.Keys &&
    t.drives.Keys <= u.drives.Keys &&
    forall id <- t.tapes :: u.tapes[id].bytesWritten == t.tapes[id].bytesWritten
  }

  lemma ExtendsTrans(t: Tables, u: Tables, v: Tables)
    requires Extends(t, u) && Extends(u, v)
    ensures Extends(t, v)
  {
  }
}
