// The flag writer's fragment cache: flag fragments of one dump of one
// capture block are counted in a FlagItem kept under the key
// '<capture block>_<dump index>'; a dump whose fragments have all arrived
// (one per receiving endpoint) is saved and dropped from the cache, and the
// cache is held to FLAG_CACHE_SIZE dumps by saving the oldest early.
//
// The flag arrays themselves, the SPEAD receiver and the sensors are not
// modelled; a saved dump is the name of the .npy file written for it.

module FlagWriter {
  import opened Wrappers
  import opened Strs

  const FLAG_CACHE_SIZE := 10

  /** The flags of one dump, filled fragment by fragment. */
  class FlagItem {
    var fragmentCount: nat
    const completedFragmentCount: nat
    const started: int

    constructor (completedFragmentCount: nat, started: int)
      ensures fragmentCount == 0
      ensures this.completedFragmentCount == completedFragmentCount && this.started == started
    {
      fragmentCount := 0;
      this.completedFragmentCount := completedFragmentCount;
      this.started := started;
    }

    predicate IsComplete()
      reads this
    {
      fragmentCount >= completedFragmentCount
    }

    /** add_fragment: one more fragment, and whether the dump is now whole. */
    method AddFragment() returns (complete: bool)
      modifies this
      ensures fragmentCount == old(fragmentCount) + 1
      ensures complete == IsComplete()
    {
      fragmentCount := fragmentCount + 1;
      complete := IsComplete();
    }
  }

  // ---------------------------------------------------------------------
  // Keys and file names
  // ---------------------------------------------------------------------

  /** The cache key of a dump. */
  function FlagKey(cbid: string, dump: nat): string
  {
    cbid + "_" + NatToString(dump)
  }

  /** The digits of str(n). */
  lemma {:induction false} NatToStringDigits(n: nat)
    ensures |NatToString(n)| > 0 && AllDigits(NatToString(n))
  {
    if n >= 10 {
      NatToStringDigits(n / 10);
      var s := NatToString(n / 10) + DigitString(n % 10);
      assert forall i :: 0 <= i < |s| ==> i < |NatToString(n / 10)| || s[i] == "0123456789"[n % 10];
    }
  }

  function DigitValue(c: char): nat
    requires IsDigit(c)
  {
    (c as int - '0' as int) as nat
  }

  /** int() of a digit string. */
  function ParseDigits(s: string): nat
    requires AllDigits(s)
  {
    if s == [] then 0
    else
      assert AllDigits(s[..|s| - 1]) by {
        assert forall i :: 0 <= i < |s| - 1 ==> s[..|s| - 1][i] == s[i];
      }
      ParseDigits(s[..|s| - 1]) * 10 + DigitValue(s[|s| - 1])
  }

  /** int(str(n)) == n. */
  lemma {:induction false} ParseNatToString(n: nat)
    ensures AllDigits(NatToString(n)) && ParseDigits(NatToString(n)) == n
  {
    NatToStringDigits(n);
    var s := NatToString(n);
    if n < 10 {
      assert s == ["0123456789"[n]];
      assert s[..0] == [];
      assert DigitValue(s[0]) == n;
    } else {
      ParseNatToString(n / 10);
      assert s[..|s| - 1] == NatToString(n / 10);
      assert DigitValue(s[|s| - 1]) == n % 10;
    }
  }

  const SPLIT_ERROR := "ValueError: wrong number of values to unpack"
  const INT_ERROR := "ValueError: invalid literal for int() with base 10"

  /** (capture_block_id, dump_index) = flag_key.split("_"), then
      int(dump_index); the signs and spaces int() accepts are not
      modelled. */
  function SplitKey(key: string): (r: Result<(string, nat)>)
    ensures r.Ok? ==> |Split(key, '_')| == 2 && r.value.0 == Split(key, '_')[0]
  {
    var parts := Split(key, '_');
    if |parts| != 2 then Err(SPLIT_ERROR)
    else if parts[1] == [] || !AllDigits(parts[1]) then Err(INT_ERROR)
    else Ok((parts[0], ParseDigits(parts[1])))
  }

  lemma {:induction false} SplitNoSep(s: string, sep: char)
    requires sep !in s
    ensures Split(s, sep) == [s]
  {
    if s != [] {
      SplitNoSep(s[1..], sep);
      assert [s[0]] + s[1..] == s;
    }
  }

  lemma {:induction false} SplitAtFirst(a: string, b: string, sep: char)
    requires sep !in a
    ensures Split(a + [sep] + b, sep) == [a] + Split(b, sep)
  {
    if a == [] {
      assert a + [sep] + b == [sep] + b;
      assert ([sep] + b)[1..] == b;
    } else {
      assert (a + [sep] + b)[1..] == a[1..] + [sep] + b;
      SplitAtFirst(a[1..], b, sep);
      assert [a[0]] + a[1..] == a;
    }
  }

  /** A key made from a capture block id without '_' splits back into that
      id and the dump index. */
  lemma SplitFlagKey(cbid: string, dump: nat)
    requires '_' !in cbid
    ensures SplitKey(FlagKey(cbid, dump)) == Ok((cbid, dump))
  {
    var d := NatToString(dump);
    ParseNatToString(dump);
    assert '_' !in d by {
      assert forall i :: 0 <= i < |d| ==> IsDigit(d[i]);
    }
    assert FlagKey(cbid, dump) == cbid + ['_'] + d;
    SplitAtFirst(cbid, d, '_');
    SplitNoSep(d, '_');
  }

  /** '{:05d}'.format of a number's digits. */
  function Pad5(s: string): (r: string)
    ensures |r| == if |s| < 5 then 5 else |s|
    ensures EndsWith(r, s)
  {
    if |s| < 5 then
      var r := seq(5 - |s|, _ => '0') + s;
      assert r[|r| - |s|..] == s;
      r
    else s
  }

  /** The .npy file of a dump: a chunk-store name under the capture
      stream's directory. */
  function DumpFileName(npyPath: string, cbid: string, flagsName: string, dump: nat): string
  {
    PathJoin(PathJoin(npyPath, cbid + "_" + flagsName), "flags/" + Pad5(NatToString(dump)) + "_00000_00000.npy")
  }

  // ---------------------------------------------------------------------
  // The cache as a value
  // ---------------------------------------------------------------------

  /** A cached dump: the fragments counted and the number expected. */
  datatype Entry = Entry(count: nat, expected: nat)

  /** The cache: its keys in insertion order, their entries, the files
      saved, and the partial-dumps count. */
  datatype Cache = Cache(order: seq<string>, entries: map<string, Entry>, saved: seq<string>, partial: nat)

  ghost predicate CacheValid(c: Cache)
  {
    NoDup(c.order) && forall k :: k in c.order <==> k in c.entries
  }

  /** The order with one key taken out. */
  function Remove(order: seq<string>, key: string): (r: seq<string>)
    ensures forall k :: k in r <==> k in order && k != key
    ensures NoDup(order) ==> NoDup(r)
    ensures |r| <= |order|
  {
    if order == [] then []
    else
      var rest := Remove(order[1..], key);
      assert NoDup(order) ==> NoDup(order[1..]) && order[0] !in order[1..] by {
        if NoDup(order) {
          assert forall i, j :: 0 <= i < j < |order[1..]| ==> order[1..][i] == order[i + 1] && order[1..][j] == order[j + 1];
        }
      }
      if order[0] == key then rest else [order[0]] + rest
  }

  /** _store_flags: the key is split before anything else (so a malformed
      key raises with the cache unchanged), then the dump is popped, counted
      as partial when incomplete, and saved. */
  function StoreSpec(c: Cache, key: string, npyPath: string, flagsName: string): (r: (Cache, Result<()>))
    ensures r.1.Ok? <==> SplitKey(key).Ok? && key in c.entries
    ensures r.1.Err? ==> r.0 == c
    ensures r.1.Ok? ==> key !in r.0.entries && |r.0.saved| == |c.saved| + 1
    ensures CacheValid(c) ==> CacheValid(r.0)
  {
    var parts := SplitKey(key);
    if parts.Err? then (c, Err(parts.error))
    else if key !in c.entries then (c, Err("KeyError: " + key))
    else (Pop(c, key, DumpFileName(npyPath, parts.value.0, flagsName, parts.value.1)), Ok(()))
  }

  /** Popping a cached dump and saving it to `file`. */
  function Pop(c: Cache, key: string, file: string): (r: Cache)
    requires key in c.entries
    ensures key !in r.entries && |r.saved| == |c.saved| + 1
    ensures CacheValid(c) ==> CacheValid(r)
  {
    var e := c.entries[key];
    var r := Cache(Remove(c.order, key), c.entries - {key}, c.saved + [file],
                   c.partial + if e.count >= e.expected then 0 else 1);
    assert CacheValid(c) ==> CacheValid(r) by {
      if CacheValid(c) {
        forall k ensures k in r.order <==> k in r.entries {
          assert k in r.order <==> k in c.order && k != key;
        }
      }
    }
    r
  }

  /** Storing the keys in turn, stopping at the first error. */
  function FlushSpec(c: Cache, keys: seq<string>, npyPath: string, flagsName: string): (r: (Cache, Result<()>))
    decreases |keys|
  {
    if keys == [] then (c, Ok(()))
    else
      var (c1, r1) := StoreSpec(c, keys[0], npyPath, flagsName);
      if r1.Err? then (c1, r1) else FlushSpec(c1, keys[1..], npyPath, flagsName)
  }

  /** The keys _check_cache stores: all of them on store_all, otherwise the
      oldest beyond FLAG_CACHE_SIZE (the insertion order is the start-time
      order). */
  function FlushList(order: seq<string>, storeAll: bool): (r: seq<string>)
    ensures storeAll ==> r == order
    ensures !storeAll ==> |r| == if |order| > FLAG_CACHE_SIZE then |order| - FLAG_CACHE_SIZE else 0
    ensures !storeAll ==> r == order[..|r|]
  {
    if storeAll then order
    else if |order| > FLAG_CACHE_SIZE then order[..|order| - FLAG_CACHE_SIZE]
    else []
  }

  const UNBOUND := "UnboundLocalError: local variable 'to_flush' referenced before assignment"

  /** _check_cache's to_flush as written: below FLAG_CACHE_SIZE entries
      nothing assigns it, and at or above it the slice [FLAG_CACHE_SIZE:]
      of the start-time order takes the newest keys. */
  function FlushListAsWritten(order: seq<string>, storeAll: bool): (r: Result<seq<string>>)
    ensures storeAll ==> r == Ok(order)
    ensures !storeAll ==> (r.Err? <==> |order| < FLAG_CACHE_SIZE)
    ensures r.Ok? && !storeAll ==> r.value == order[FLAG_CACHE_SIZE..]
  {
    if storeAll then Ok(order)
    else if |order| >= FLAG_CACHE_SIZE then Ok(order[FLAG_CACHE_SIZE..])
    else Err(UNBOUND)
  }

  /** As written, adding one fragment to an empty cache raises, and with
      eleven dumps cached the newest is flushed and the oldest kept. */
  lemma FlushAsWrittenCounterexample(order: seq<string>)
    requires |order| == FLAG_CACHE_SIZE + 1
    ensures FlushListAsWritten(["1234567890_0"], false) == Err(UNBOUND)
    ensures FlushListAsWritten(order, false) == Ok([order[FLAG_CACHE_SIZE]])
    ensures FlushList(order, false) == [order[0]]
    ensures FlushList(["1234567890_0"], false) == []
  {
    assert order[FLAG_CACHE_SIZE..] == [order[FLAG_CACHE_SIZE]];
    assert order[..1] == [order[0]];
  }

  lemma RemoveHead(order: seq<string>)
    requires order != [] && NoDup(order)
    ensures Remove(order, order[0]) == order[1..]
  {
    assert order[0] !in order[1..];
    RemoveAbsent(order[1..], order[0]);
  }

  lemma {:induction false} RemoveAbsent(order: seq<string>, key: string)
    requires key !in order
    ensures Remove(order, key) == order
  {
    if order != [] {
      RemoveAbsent(order[1..], key);
      assert [order[0]] + order[1..] == order;
    }
  }

  /** Storing the oldest dump takes it off the front of the order. */
  lemma StoreHead(c: Cache, npyPath: string, flagsName: string)
    requires CacheValid(c) && c.order != [] && SplitKey(c.order[0]).Ok?
    ensures var (c1, r1) := StoreSpec(c, c.order[0], npyPath, flagsName);
      r1.Ok? && c1.order == c.order[1..] && CacheValid(c1) && |c1.saved| == |c.saved| + 1
  {
    var key := c.order[0];
    RemoveHead(c.order);
    var (c1, r1) := StoreSpec(c, key, npyPath, flagsName);
    forall k ensures k in c1.order <==> k in c1.entries {
      assert k in c1.order <==> k in c.order && k != key;
    }
  }

  /** Flushing a prefix of the order stores exactly those dumps, oldest
      first, and leaves the rest of the cache in order. */
  lemma {:induction false} FlushPrefix(c: Cache, n: nat, npyPath: string, flagsName: string)
    requires CacheValid(c) && n <= |c.order|
    requires forall k :: k in c.order[..n] ==> SplitKey(k).Ok?
    decreases n
    ensures var res := FlushSpec(c, c.order[..n], npyPath, flagsName);
      res.1.Ok? && CacheValid(res.0) && res.0.order == c.order[n..] && |res.0.saved| == |c.saved| + n
  {
    if n == 0 {
      assert c.order[..0] == [] && c.order[0..] == c.order;
    } else {
      StoreHead(c, npyPath, flagsName);
      var (c1, r1) := StoreSpec(c, c.order[0], npyPath, flagsName);
      assert c.order[..n][0] == c.order[0] && c.order[..n][1..] == c1.order[..n - 1];
      assert FlushSpec(c, c.order[..n], npyPath, flagsName) == FlushSpec(c1, c1.order[..n - 1], npyPath, flagsName);
      FlushPrefix(c1, n - 1, npyPath, flagsName);
      var res := FlushSpec(c1, c1.order[..n - 1], npyPath, flagsName);
      assert res.0.order == c.order[n..] by {
        assert c1.order[n - 1..] == c.order[n..];
      }
    }
  }

  /** store_all empties the cache; otherwise at most FLAG_CACHE_SIZE dumps,
      the newest, remain. */
  lemma CheckCacheBounds(c: Cache, storeAll: bool, npyPath: string, flagsName: string)
    requires CacheValid(c) && forall k :: k in c.order ==> SplitKey(k).Ok?
    ensures var res := FlushSpec(c, FlushList(c.order, storeAll), npyPath, flagsName);
      res.1.Ok? && CacheValid(res.0) &&
      (storeAll ==> res.0.order == [] && res.0.entries == map[]) &&
      (!storeAll ==> |res.0.order| <= FLAG_CACHE_SIZE && res.0.order == c.order[|c.order| - |res.0.order|..]) &&
      (!storeAll && |c.order| <= FLAG_CACHE_SIZE ==> res.0 == c)
  {
    var res := FlushSpec(c, FlushList(c.order, storeAll), npyPath, flagsName);
    if storeAll {
      FlushEverything(c, npyPath, flagsName);
      assert res == FlushSpec(c, FlushList(c.order, true), npyPath, flagsName);
    } else {
      FlushOverflow(c, npyPath, flagsName);
      assert res == FlushSpec(c, FlushList(c.order, false), npyPath, flagsName);
    }
  }

  /** Storing every key empties a valid cache. */
  lemma FlushEverything(c: Cache, npyPath: string, flagsName: string)
    requires CacheValid(c) && forall k :: k in c.order ==> SplitKey(k).Ok?
    ensures var (c', r) := FlushSpec(c, FlushList(c.order, true), npyPath, flagsName);
      r.Ok? && CacheValid(c') && c'.order == [] && c'.entries == map[]
  {
    var n := |c.order|;
    assert FlushList(c.order, true) == c.order[..n];
    FlushPrefix(c, n, npyPath, flagsName);
    var (c', r) := FlushSpec(c, c.order[..n], npyPath, flagsName);
    assert c.order[n..] == [];
    assert c'.entries.Keys == {};
  }

  /** Storing the overflow leaves at most FLAG_CACHE_SIZE keys, the newest. */
  lemma FlushOverflow(c: Cache, npyPath: string, flagsName: string)
    requires CacheValid(c) && forall k :: k in c.order ==> SplitKey(k).Ok?
    ensures var (c', r) := FlushSpec(c, FlushList(c.order, false), npyPath, flagsName);
      r.Ok? && CacheValid(c') &&
      |c'.order| <= FLAG_CACHE_SIZE && c'.order == c.order[|c.order| - |c'.order|..] &&
      (|c.order| <= FLAG_CACHE_SIZE ==> c' == c)
  {
    var n := |FlushList(c.order, false)|;
    assert FlushList(c.order, false) == c.order[..n];
    FlushPrefix(c, n, npyPath, flagsName);
    var c' := FlushSpec(c, c.order[..n], npyPath, flagsName).0;
    assert c'.order == c.order[n..] && |c'.order| == |c.order| - n;
    if |c.order| <= FLAG_CACHE_SIZE {
      assert c.order[..n] == [];
    }
  }

  /** The counting half of _add_flags: a new key gets an entry expecting
      one fragment per endpoint, appended to the order, and the fragment is
      counted. */
  function Counted(c: Cache, key: string, endpoints: nat): (r: Cache)
    ensures key in r.entries && r.entries[key].count >= 1
    ensures key in c.entries ==> r.entries[key] == c.entries[key].(count := c.entries[key].count + 1) && r.order == c.order
    ensures key !in c.entries ==> r.entries[key] == Entry(1, endpoints) && r.order == c.order + [key]
    ensures CacheValid(c) ==> CacheValid(r)
  {
    var c0 := if key in c.entries then c else Cache(c.order + [key], c.entries[key := Entry(0, endpoints)], c.saved, c.partial);
    assert CacheValid(c) ==> CacheValid(c0) by {
      if CacheValid(c) && key !in c.entries {
        assert forall i :: 0 <= i < |c.order| ==> (c.order + [key])[i] == c.order[i];
      }
    }
    var e := c0.entries[key];
    c0.(entries := c0.entries[key := e.(count := e.count + 1)])
  }

  /** _add_flags on the cache: the fragment is counted, a whole dump is
      stored, then the cache is checked. */
  function AddSpec(c: Cache, key: string, endpoints: nat, npyPath: string, flagsName: string): (r: (Cache, Result<()>))
  {
    var c1 := Counted(c, key, endpoints);
    AfterCount(c1, c1.entries[key].count >= c1.entries[key].expected, key, npyPath, flagsName)
  }

  /** What _add_flags does once the fragment is counted. */
  function AfterCount(c1: Cache, complete: bool, key: string, npyPath: string, flagsName: string): (Cache, Result<()>)
  {
    var (c2, r2) := if complete then StoreSpec(c1, key, npyPath, flagsName) else (c1, Ok(()));
    if r2.Err? then (c2, r2) else FlushSpec(c2, FlushList(c2.order, false), npyPath, flagsName)
  }

  /** Key 'cbid_dump' is created once, expecting one fragment per endpoint;
      once that many fragments arrived the dump is saved and leaves the
      cache. */
  lemma AddSpecCompletes(c: Cache, cbid: string, dump: nat, endpoints: nat, npyPath: string, flagsName: string)
    requires CacheValid(c) && '_' !in cbid
    requires |c.order| <= FLAG_CACHE_SIZE
    requires var key := FlagKey(cbid, dump); key in c.entries ==> c.entries[key].count + 1 >= c.entries[key].expected
    requires FlagKey(cbid, dump) !in c.entries ==> endpoints <= 1
    ensures var (c', r) := AddSpec(c, FlagKey(cbid, dump), endpoints, npyPath, flagsName);
      r.Ok? && CacheValid(c') && FlagKey(cbid, dump) !in c'.entries &&
      c'.saved == c.saved + [DumpFileName(npyPath, cbid, flagsName, dump)]
  {
    var key := FlagKey(cbid, dump);
    SplitFlagKey(cbid, dump);
    var c1 := Counted(c, key, endpoints);
    var (c2, r2) := StoreSpec(c1, key, npyPath, flagsName);
    assert |c2.order| <= FLAG_CACHE_SIZE by {
      RemoveLength(c1.order, key);
    }
    assert FlushList(c2.order, false) == [];
  }

  lemma {:induction false} RemoveLength(order: seq<string>, key: string)
    requires key in order
    ensures |Remove(order, key)| < |order|
  {
    if order[0] != key {
      RemoveLength(order[1..], key);
    }
  }

  // ---------------------------------------------------------------------
  // Capture block states
  // ---------------------------------------------------------------------

  datatype BlockState = Capturing | Complete

  /** _set_capture_block_state: COMPLETE removes the block, any other state
      is stored. */
  function SetBlockState(m: map<string, BlockState>, cbid: string, st: BlockState): (r: map<string, BlockState>)
    ensures st == Complete ==> cbid !in r && forall k :: k in m && k != cbid ==> k in r && r[k] == m[k]
    ensures st != Complete ==> r == m[cbid := st]
    ensures r.Keys <= m.Keys + {cbid}
  {
    if st == Complete then map k | k in m && k != cbid :: m[k] else m[cbid := st]
  }

  /** COMPLETE is never stored, so do_capture's test for a completed block
      never holds: a fragment that arrives after capture-done finds no state
      and the block is marked CAPTURING again. */
  lemma CompleteNeverStored(m: map<string, BlockState>, cbid: string, st: BlockState)
    requires forall k :: k in m ==> m[k] == Capturing
    ensures var r := SetBlockState(m, cbid, st); forall k :: k in r ==> r[k] == Capturing
  {
  }

  // ---------------------------------------------------------------------
  // The server
  // ---------------------------------------------------------------------

  /** Each key has its own FlagItem, whose counts are its entry. */
  ghost predicate Linked(flags: map<string, FlagItem>, entries: map<string, Entry>)
    reads flags.Values
  {
    entries.Keys == flags.Keys &&
    (forall k :: k in flags ==> entries[k] == Entry(flags[k].fragmentCount, flags[k].completedFragmentCount)) &&
    (forall k1, k2 :: k1 in flags && k2 in flags && k1 != k2 ==> flags[k1] != flags[k2])
  }

  lemma LinkedRemove(flags: map<string, FlagItem>, entries: map<string, Entry>, key: string)
    requires Linked(flags, entries)
    ensures Linked(flags - {key}, entries - {key})
  {
  }

  lemma LinkedAdd(flags: map<string, FlagItem>, entries: map<string, Entry>, key: string, item: FlagItem)
    requires Linked(flags, entries) && key !in flags && item !in flags.Values
    ensures Linked(flags[key := item], entries[key := Entry(item.fragmentCount, item.completedFragmentCount)])
  {
  }

  /** A new key appended to the order, with its entry, keeps the cache valid. */
  lemma AdmitValid(c: Cache, key: string, e: Entry)
    requires CacheValid(c) && key !in c.entries
    ensures CacheValid(Cache(c.order + [key], c.entries[key := e], c.saved, c.partial))
  {
    var o := c.order + [key];
    assert forall i :: 0 <= i < |c.order| ==> o[i] == c.order[i];
    assert forall k :: k in o <==> k in c.order || k == key;
  }

  class FlagWriterServer {
    const endpoints: nat
    const npyPath: string
    const flagsName: string
    var flags: map<string, FlagItem>
    /** The dictionary's key order. */
    var order: seq<string>
    var saved: seq<string>
    var partialDumps: nat
    var blockState: map<string, BlockState>
    /** The *_complete files touched. */
    var touched: seq<string>
    /** The counts the cached FlagItems hold. */
    ghost var entries: map<string, Entry>

    constructor (endpoints: nat, npyPath: string, flagsName: string)
      ensures this.endpoints == endpoints && this.npyPath == npyPath && this.flagsName == flagsName
      ensures flags == map[] && order == [] && saved == [] && partialDumps == 0
      ensures blockState == map[] && touched == []
      ensures Valid() && View() == Cache([], map[], [], 0)
    {
      this.endpoints := endpoints;
      this.npyPath := npyPath;
      this.flagsName := flagsName;
      flags := map[];
      order := [];
      saved := [];
      partialDumps := 0;
      blockState := map[];
      touched := [];
      entries := map[];
    }

    /** The cache the objects stand for. */
    ghost function View(): Cache
      reads this`order, this`entries, this`saved, this`partialDumps
    {
      Cache(order, entries, saved, partialDumps)
    }

    /** Each key has its own FlagItem, whose counts are its entry. */
    ghost predicate Valid()
      reads this`flags, this`order, this`entries, this`saved, this`partialDumps, flags.Values
    {
      CacheValid(View()) && Linked(flags, entries)
    }

    /** _store_flags. */
    method StoreFlags(key: string) returns (r: Result<()>)
      requires Valid()
      modifies this
      ensures Valid()
      ensures View() == StoreSpec(old(View()), key, npyPath, flagsName).0 && r == StoreSpec(old(View()), key, npyPath, flagsName).1
      ensures blockState == old(blockState) && touched == old(touched)
    {
      var parts := SplitKey(key);
      if parts.Err? {
        return Err(parts.error);
      }
      if key !in flags {
        return Err("KeyError: " + key);
      }
      PopFlags(key, DumpFileName(npyPath, parts.value.0, flagsName, parts.value.1));
      r := Ok(());
    }

    /** The pop and the save of _store_flags. */
    method PopFlags(key: string, file: string)
      requires Valid() && key in flags
      modifies this
      ensures Valid()
      ensures key in old(View()).entries && View() == Pop(old(View()), key, file)
      ensures blockState == old(blockState) && touched == old(touched)
    {
      ghost var c := View();
      LinkedRemove(flags, entries, key);
      var item := flags[key];
      var partial := if item.IsComplete() then partialDumps else partialDumps + 1;
      var f := flags - {key};
      ghost var e := entries - {key};
      assert Linked(f, e);
      flags, order, saved, partialDumps := f, Remove(order, key), saved + [file], partial;
      entries := e;
      assert Linked(f, e);
      assert View() == Pop(c, key, file);
    }

    /** _check_cache, with to_flush empty below FLAG_CACHE_SIZE and the
        oldest dumps flushed above it. */
    method CheckCache(storeAll: bool) returns (r: Result<()>)
      requires Valid()
      modifies this
      ensures Valid()
      ensures View() == FlushSpec(old(View()), FlushList(old(order), storeAll), npyPath, flagsName).0 && r == FlushSpec(old(View()), FlushList(old(order), storeAll), npyPath, flagsName).1
      ensures blockState == old(blockState) && touched == old(touched)
    {
      var toFlush := FlushList(order, storeAll);
      var i := 0;
      while i < |toFlush|
        invariant 0 <= i <= |toFlush|
        invariant Valid()
        invariant FlushSpec(old(View()), toFlush, npyPath, flagsName) == FlushSpec(View(), toFlush[i..], npyPath, flagsName)
        invariant blockState == old(blockState) && touched == old(touched)
      {
        assert toFlush[i..][0] == toFlush[i] && toFlush[i..][1..] == toFlush[i + 1..];
        var ri := StoreFlags(toFlush[i]);
        if ri.Err? {
          return ri;
        }
        i := i + 1;
      }
      r := Ok(());
    }

    /** _add_flags, with the corrected cache check. */
    method AddFlags(cbid: string, dump: nat, now: int) returns (r: Result<()>)
      requires Valid()
      modifies this, flags.Values
      ensures Valid()
      ensures View() == AddSpec(old(View()), FlagKey(cbid, dump), endpoints, npyPath, flagsName).0
      ensures r == AddSpec(old(View()), FlagKey(cbid, dump), endpoints, npyPath, flagsName).1
      ensures blockState == old(blockState) && touched == old(touched)
    {
      var key := FlagKey(cbid, dump);
      var complete := CountFragment(key, now);
      if complete {
        r := StoreFlags(key);
        if r.Err? {
          return;
        }
      }
      r := CheckCache(false);
    }

    /** The counting half of _add_flags. */
    method CountFragment(key: string, now: int) returns (complete: bool)
      requires Valid()
      modifies this, flags.Values
      ensures Valid()
      ensures View() == Counted(old(View()), key, endpoints)
      ensures complete == (View().entries[key].count >= View().entries[key].expected)
      ensures blockState == old(blockState) && touched == old(touched)
    {
      ghost var c := View();
      if key !in flags {
        Admit(key, now);
      }
      complete := Bump(key);
    }

    /** One more fragment for a cached dump. */
    method Bump(key: string) returns (complete: bool)
      requires Valid() && key in flags
      modifies this, flags[key]
      ensures Valid() && key in entries
      ensures View() == old(View()).(entries := old(entries)[key := old(entries)[key].(count := old(entries)[key].count + 1)])
      ensures complete == (entries[key].count >= entries[key].expected)
      ensures blockState == old(blockState) && touched == old(touched)
    {
      var item := flags[key];
      ghost var e := entries[key := entries[key].(count := entries[key].count + 1)];
      complete := item.AddFragment();
      forall k | k in flags && k != key
        ensures flags[k].fragmentCount == old(flags[k].fragmentCount)
      {
        assert flags[k] != item;
      }
      entries := e;
    }

    /** A FlagItem for a dump not yet cached, expecting one fragment per
        endpoint. */
    method Admit(key: string, now: int)
      requires Valid() && key !in flags
      modifies this
      ensures Valid() && key in flags && fresh(flags[key])
      ensures View() == Cache(old(order) + [key], old(entries)[key := Entry(0, endpoints)], old(saved), old(partialDumps))
      ensures blockState == old(blockState) && touched == old(touched)
    {
      var item := new FlagItem(endpoints, now);
      Insert(key, item);
    }

    /** A new FlagItem, with no fragment yet, cached under its key. */
    method Insert(key: string, item: FlagItem)
      requires Valid() && key !in flags && item !in flags.Values
      requires item.fragmentCount == 0 && item.completedFragmentCount == endpoints
      modifies this
      ensures Valid() && flags == old(flags)[key := item]
      ensures View() == Cache(old(order) + [key], old(entries)[key := Entry(0, endpoints)], old(saved), old(partialDumps))
      ensures blockState == old(blockState) && touched == old(touched)
    {
      ghost var c := View();
      LinkedAdd(flags, entries, key, item);
      AdmitValid(c, key, Entry(0, endpoints));
      flags, order := flags[key := item], order + [key];
      entries := entries[key := Entry(0, endpoints)];
    }

    /** request_capture_init: an active block is refused. */
    method CaptureInit(cbid: string) returns (r: Result<()>)
      modifies this
      ensures r.Err? <==> cbid in old(blockState)
      ensures r.Err? ==> blockState == old(blockState)
      ensures r.Ok? ==> blockState == SetBlockState(old(blockState), cbid, Capturing)
      ensures flags == old(flags) && order == old(order) && saved == old(saved) && partialDumps == old(partialDumps)
      ensures touched == old(touched)
    {
      if cbid in blockState {
        return Err("FailReply: Capture block ID " + cbid + " is already active");
      }
      blockState := SetBlockState(blockState, cbid, Capturing);
      r := Ok(());
    }

    /** request_capture_done: an unknown block is refused; otherwise the whole
        cache is stored, the complete file is touched and the block removed. */
    method CaptureDone(cbid: string) returns (r: Result<()>)
      requires Valid()
      modifies this
      ensures Valid()
      ensures cbid !in old(blockState) ==> r.Err? && View() == old(View()) && blockState == old(blockState)
      ensures cbid in old(blockState) ==>
        var (c', rc) := FlushSpec(old(View()), old(order), npyPath, flagsName);
        (rc.Err? ==> r == rc && View() == c' && blockState == old(blockState)) &&
        (rc.Ok? ==> (r.Ok? && View() == c' && blockState == SetBlockState(old(blockState), cbid, Complete) &&
           touched == old(touched) + [PathJoin(PathJoin(npyPath, cbid + "_" + flagsName), flagsName + "_complete")]))
    {
      if cbid !in blockState {
        return Err("FailReply: Specified capture block ID " + cbid + " is unknown.");
      }
      r := CheckCache(true);
      if r.Err? {
        return;
      }
      touched := touched + [PathJoin(PathJoin(npyPath, cbid + "_" + flagsName), flagsName + "_complete")];
      blockState := SetBlockState(blockState, cbid, Complete);
    }
  }
}
