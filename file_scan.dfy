// The classification a trawler applies to every file it finds while walking a
// product directory: files still being written are skipped first, files with
// the wanted extension are collected, and the complete token is noted.

module FileScan {
  import opened Strs

  /** One file reported by os.walk: the directory it is in and its name. */
  datatype WalkEntry = WalkEntry(root: string, name: string)

  /** The matching files, in walk order, and whether the complete token was seen. */
  datatype Scan = Scan(matches: seq<string>, complete: bool)

  /** The decision for one file name, in the order the source tests them. */
  datatype Verdict = Writing | Match | Token | Other

  function Judge(name: string, fileExt: string, writeExt: string, token: string): (v: Verdict)
    ensures v == Writing <==> EndsWith(name, writeExt)
    ensures v == Match <==> !EndsWith(name, writeExt) && EndsWith(name, fileExt)
    ensures v == Token <==> !EndsWith(name, writeExt) && !EndsWith(name, fileExt) && EndsWith(name, token)
  {
    if EndsWith(name, writeExt) then Writing
    else if EndsWith(name, fileExt) then Match
    else if EndsWith(name, token) then Token
    else Other
  }

  /** The result of scanning `entries` in order, starting from nothing. */
  function Classify(entries: seq<WalkEntry>, fileExt: string, writeExt: string, token: string): Scan
  {
    if entries == [] then Scan([], false)
    else Step(Classify(entries[..|entries| - 1], fileExt, writeExt, token),
              entries[|entries| - 1], fileExt, writeExt, token)
  }

  function Step(sc: Scan, e: WalkEntry, fileExt: string, writeExt: string, token: string): Scan
  {
    match Judge(e.name, fileExt, writeExt, token)
    case Match => Scan(sc.matches + [PathJoin(e.root, e.name)], sc.complete)
    case Token => Scan(sc.matches, true)
    case _ => sc
  }

  /** The collected files are exactly the joined paths of the entries judged
      as matches, in walk order: nothing being written is ever collected. */
  lemma {:induction false} ClassifyMatches(entries: seq<WalkEntry>, fileExt: string, writeExt: string, token: string, x: string)
    ensures x in Classify(entries, fileExt, writeExt, token).matches <==>
      exists i :: 0 <= i < |entries| && Judge(entries[i].name, fileExt, writeExt, token) == Match
        && x == PathJoin(entries[i].root, entries[i].name)
  {
    if entries != [] {
      var init := entries[..|entries| - 1];
      ClassifyMatches(init, fileExt, writeExt, token, x);
      var e := entries[|entries| - 1];
      if x in Classify(entries, fileExt, writeExt, token).matches {
        if x in Classify(init, fileExt, writeExt, token).matches {
          var i :| 0 <= i < |init| && Judge(init[i].name, fileExt, writeExt, token) == Match
            && x == PathJoin(init[i].root, init[i].name);
          assert entries[i] == init[i];
        } else {
          assert x == PathJoin(e.root, e.name);
        }
      } else {
        forall i | 0 <= i < |entries| && Judge(entries[i].name, fileExt, writeExt, token) == Match
          ensures x != PathJoin(entries[i].root, entries[i].name)
        {
          if i < |init| { assert entries[i] == init[i]; }
        }
      }
    }
  }

  /** The complete flag is set exactly when some file, neither being written
      nor a match, ends with the complete token. */
  lemma {:induction false} ClassifyComplete(entries: seq<WalkEntry>, fileExt: string, writeExt: string, token: string)
    ensures Classify(entries, fileExt, writeExt, token).complete <==>
      exists i :: 0 <= i < |entries| && Judge(entries[i].name, fileExt, writeExt, token) == Token
  {
    if entries != [] {
      var init := entries[..|entries| - 1];
      ClassifyComplete(init, fileExt, writeExt, token);
      if Classify(init, fileExt, writeExt, token).complete {
        var i :| 0 <= i < |init| && Judge(init[i].name, fileExt, writeExt, token) == Token;
        assert entries[i] == init[i];
      }
      forall i | 0 <= i < |init| ensures entries[i] == init[i] { }
    }
  }

  /** The number of matches never exceeds the number of files walked. */
  lemma {:induction false} ClassifyBound(entries: seq<WalkEntry>, fileExt: string, writeExt: string, token: string)
    ensures |Classify(entries, fileExt, writeExt, token).matches| <= |entries|
  {
    if entries != [] {
      ClassifyBound(entries[..|entries| - 1], fileExt, writeExt, token);
    }
  }

  /** A file name ending with the writing extension is always skipped, even
      when it also ends with the wanted extension ('x.writing.npy'). */
  lemma WritingWins()
    ensures Judge("a.writing.npy", ".npy", ".writing.npy", "complete") == Writing
  {
  }

  /** One more entry of the walk, by index. */
  lemma ClassifyPrefixStep(entries: seq<WalkEntry>, i: nat, fileExt: string, writeExt: string, token: string)
    requires i < |entries|
    ensures Classify(entries[..i + 1], fileExt, writeExt, token)
      == Step(Classify(entries[..i], fileExt, writeExt, token), entries[i], fileExt, writeExt, token)
  {
    assert entries[..i + 1] == entries[..i] + [entries[i]];
    ClassifySnoc(entries[..i], entries[i], fileExt, writeExt, token);
  }

  /** Scanning walks the files in order: scanning one more entry is one more step. */
  lemma ClassifySnoc(entries: seq<WalkEntry>, e: WalkEntry, fileExt: string, writeExt: string, token: string)
    ensures Classify(entries + [e], fileExt, writeExt, token)
      == Step(Classify(entries, fileExt, writeExt, token), e, fileExt, writeExt, token)
  {
    assert (entries + [e])[..|entries + [e]| - 1] == entries;
  }

  /** A capture block id followed by '_' starts at p: [0-9]{10}_ */
  predicate BlockAt(s: string, p: nat)
  {
    p + 11 <= |s| && AllDigits(s[p..p + 10]) && s[p + 10] == '_'
  }
}
