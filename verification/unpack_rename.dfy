/** `renameUnindexedFile` of unpack_data.py: the board files the DAQ wrote
    without an index get the next free index. The directory is given as
    the list of names `os.listdir` returns; the renames are returned as
    (source path, destination path) pairs in the order they are made. */
module UnpackRename {
  import opened Common
  import opened UnpackNames

  /** `os.path.join(dir, name)` with two components. */
  function Join(dir: string, name: string): (p: string)
  {
    if |name| > 0 && name[0] == '/' then name
    else if dir == [] || dir[|dir| - 1] == '/' then dir + name
    else dir + "/" + name
  }

  /** The directory part `Join` puts before a relative name. */
  function DirPrefix(dir: string): string
  {
    if dir == [] || dir[|dir| - 1] == '/' then dir else dir + "/"
  }

  /** For a name that does not start with `/`, renaming its path renames
      the name inside the same directory. */
  lemma RenameDestJoin(dir: string, name: string, idx: int)
    requires |name| >= 4 && name[0] != '/'
    ensures Join(dir, name) == DirPrefix(dir) + name
    ensures RenameDest(Join(dir, name), idx) == Join(dir, RenameDest(name, idx))
  {
    RenameDestOfPath(DirPrefix(dir), name, idx);
    if |name| > 4 {
      assert RenameDest(name, idx)[0] == name[0];
    } else {
      assert RenameDest(name, idx)[0] == '_';
    }
  }

  /** `pTarget.match(name)`: a board file without an index. */
  predicate IsTarget(name: string)
  {
    Match(TARGET, name).Some?
  }

  /** Group 4 of `pExisting` for a name that is not a target and matches
      it: the index the file already carries. */
  function ExistingIndex(name: string): Option<nat>
  {
    if IsTarget(name) then None
    else match Match(EXISTING, name)
      case None => None
      case Some(groups) =>
        MatchGroupCount(EXISTING, name);
        GroupCounts(0, 0);
        Some(groups[3])
  }

  /** `targetFileList` after the scan of `names`. */
  function Targets(names: seq<string>): seq<string>
  {
    if |names| == 0 then []
    else
      var last := names[|names| - 1];
      Targets(names[..|names| - 1]) + (if IsTarget(last) then [last] else [])
  }

  /** `indexList` after the scan of `names`. */
  function Indices(names: seq<string>): seq<nat>
  {
    if |names| == 0 then []
    else
      var last := names[|names| - 1];
      Indices(names[..|names| - 1]) + (match ExistingIndex(last) case Some(i) => [i] case None => [])
  }

  /** Python's `max` of a non-empty list. */
  function MaxOf(s: seq<nat>): (m: nat)
    requires |s| > 0
    ensures m in s && forall x :: x in s ==> x <= m
  {
    var init, last := s[..|s| - 1], s[|s| - 1];
    assert s == init + [last];
    if |init| == 0 then last
    else
      var m := MaxOf(init);
      if last > m then last else m
  }

  /** What `renameUnindexedFile` returns: -1 when there is nothing to
      rename, `ValueError` (from `max([])`) when there are unindexed files
      but no indexed one, and otherwise one more than the largest index. */
  function RenameIndex(names: seq<string>): Result<int>
  {
    NextIndex(Targets(names), Indices(names))
  }

  /** The same rule on the two lists the scan builds. */
  function NextIndex(targets: seq<string>, indices: seq<nat>): Result<int>
  {
    if |targets| == 0 then Ok(-1)
    else if |indices| == 0 then Err("ValueError")
    else Ok(MaxOf(indices) + 1)
  }

  /** The `os.rename` calls for the unindexed files, in order. */
  function RenamePairs(dir: string, targets: seq<string>, idx: int): (pairs: seq<(string, string)>)
    ensures |pairs| == |targets|
  {
    if |targets| == 0 then []
    else
      var src := Join(dir, targets[|targets| - 1]);
      RenamePairs(dir, targets[..|targets| - 1], idx) + [(src, RenameDest(src, idx))]
  }

  /** The names in a directory holding `dir` once each name of `targets`
      has been renamed, in order, to its name with index `idx`. A rename
      onto a name that is already there replaces that file. */
  function RenamedDir(dir: set<string>, targets: seq<string>, idx: int): set<string>
    decreases |targets|
  {
    if |targets| == 0 then dir
    else RenamedDir(dir - {targets[0]} + {RenameDest(targets[0], idx)}, targets[1..], idx)
  }

  /** The directory listed by `names` once `renameUnindexedFile` has moved
      its unindexed files to index `idx`. */
  function AfterRename(names: seq<string>, idx: int): set<string>
  {
    RenamedDir((set x | x in names), Targets(names), idx)
  }

  /** `listing` is what `os.listdir` may return for a directory holding
      the names `dir`: each name, in some order. */
  ghost predicate Lists(listing: seq<string>, dir: set<string>)
  {
    forall x :: x in listing <==> x in dir
  }

  /** A name no rename touches stays. */
  lemma {:induction false} RenamedDirKeeps(dir: set<string>, targets: seq<string>, idx: int, x: string)
    requires x in dir && x !in targets
    ensures x in RenamedDir(dir, targets, idx)
    decreases |targets|
  {
    if |targets| > 0 {
      assert x != targets[0];
      assert x !in targets[1..] by {
        forall k | 0 <= k < |targets[1..]| ensures targets[1..][k] != x {
          assert targets[1..][k] == targets[k + 1];
        }
      }
      RenamedDirKeeps(dir - {targets[0]} + {RenameDest(targets[0], idx)}, targets[1..], idx, x);
    }
  }

  /** A renamed file is found under its new name, unless that name is
      itself moved by a rename. */
  lemma {:induction false} RenamedDirAdds(dir: set<string>, targets: seq<string>, idx: int, t: string)
    requires t in targets && RenameDest(t, idx) !in targets
    ensures RenameDest(t, idx) in RenamedDir(dir, targets, idx)
    decreases |targets|
  {
    var next := dir - {targets[0]} + {RenameDest(targets[0], idx)};
    assert RenameDest(t, idx) !in targets[1..] by {
      forall k | 0 <= k < |targets[1..]| ensures targets[1..][k] != RenameDest(t, idx) {
        assert targets[1..][k] == targets[k + 1];
      }
    }
    if targets[0] == t {
      RenamedDirKeeps(next, targets[1..], idx, RenameDest(t, idx));
    } else {
      assert t in targets[1..] by {
        var k :| 0 <= k < |targets| && targets[k] == t;
        assert targets[1..][k - 1] == t;
      }
      RenamedDirAdds(next, targets[1..], idx, t);
    }
  }

  /** Every name after the renames was there before and is not a renamed
      file, or is the new name of a renamed file. */
  lemma {:induction false} RenamedDirFrom(dir: set<string>, targets: seq<string>, idx: int, x: string)
    requires x in RenamedDir(dir, targets, idx)
    ensures (x in dir && x !in targets) || exists k :: 0 <= k < |targets| && x == RenameDest(targets[k], idx)
    decreases |targets|
  {
    if |targets| > 0 {
      var next := dir - {targets[0]} + {RenameDest(targets[0], idx)};
      RenamedDirFrom(next, targets[1..], idx, x);
      if exists k :: 0 <= k < |targets[1..]| && x == RenameDest(targets[1..][k], idx) {
        var k :| 0 <= k < |targets[1..]| && x == RenameDest(targets[1..][k], idx);
        assert x == RenameDest(targets[k + 1], idx);
      } else if x == RenameDest(targets[0], idx) {
      } else {
        assert x in dir && x != targets[0] && x !in targets[1..];
        assert x !in targets by {
          forall k | 0 <= k < |targets| ensures targets[k] != x {
            if k > 0 { assert targets[k] == targets[1..][k - 1]; }
          }
        }
      }
    }
  }

  /** `renameUnindexedFile(srcDir)` on a directory listing `names`. */
  method RenameUnindexedFile(srcDir: string, names: seq<string>) returns (r: Result<int>, renames: seq<(string, string)>)
    ensures r == RenameIndex(names)
    ensures renames == if r.Ok? && r.value >= 0 then RenamePairs(srcDir, Targets(names), r.value) else []
  {
    var targetFileList, indexList := ScanDirectory(names);
    renames := [];
    if |targetFileList| == 0 {
      return Ok(-1), renames;
    }
    if |indexList| == 0 {
      return Err("ValueError"), renames;
    }
    var renameIndex := MaxOf(indexList) + 1;
    renames := RenameAll(srcDir, targetFileList, renameIndex);
    return Ok(renameIndex), renames;
  }

  /** The loop over the listing: unindexed files and the indices of the
      indexed ones. */
  method ScanDirectory(names: seq<string>) returns (targetFileList: seq<string>, indexList: seq<nat>)
    ensures targetFileList == Targets(names) && indexList == Indices(names)
  {
    targetFileList := [];
    indexList := [];
    for k := 0 to |names|
      invariant targetFileList == Targets(names[..k])
      invariant indexList == Indices(names[..k])
    {
      var fileName := names[k];
      assert names[..k + 1][..k] == names[..k];
      if Match(TARGET, fileName).Some? {
        targetFileList := targetFileList + [fileName];
      } else {
        var matchExisting := Match(EXISTING, fileName);
        if matchExisting.Some? {
          MatchGroupCount(EXISTING, fileName);
          GroupCounts(0, 0);
          indexList := indexList + [matchExisting.value[3]];
        }
      }
    }
    assert names[..|names|] == names;
  }

  /** The loop of `os.rename` calls. */
  method RenameAll(srcDir: string, targetFileList: seq<string>, renameIndex: int) returns (renames: seq<(string, string)>)
    ensures renames == RenamePairs(srcDir, targetFileList, renameIndex)
  {
    renames := [];
    for k := 0 to |targetFileList|
      invariant renames == RenamePairs(srcDir, targetFileList[..k], renameIndex)
    {
      assert targetFileList[..k + 1][..k] == targetFileList[..k];
      var srcFilePath := Join(srcDir, targetFileList[k]);
      var destFilePath := RenameDest(srcFilePath, renameIndex);
      renames := renames + [(srcFilePath, destFilePath)];
    }
    assert targetFileList[..|targetFileList|] == targetFileList;
  }

  // What the scan finds.

  lemma {:induction false} TargetsSpec(names: seq<string>)
    ensures forall x :: x in Targets(names) <==> x in names && IsTarget(x)
  {
    if |names| > 0 {
      var init := names[..|names| - 1];
      TargetsSpec(init);
      assert names == init + [names[|names| - 1]];
    }
  }

  lemma {:induction false} IndicesSpec(names: seq<string>)
    ensures forall i :: i in Indices(names) <==> exists k :: 0 <= k < |names| && ExistingIndex(names[k]) == Some(i)
  {
    if |names| > 0 {
      var init := names[..|names| - 1];
      IndicesSpec(init);
      forall i | (exists k :: 0 <= k < |init| && ExistingIndex(init[k]) == Some(i))
        ensures exists k :: 0 <= k < |names| && ExistingIndex(names[k]) == Some(i)
      {
        var k :| 0 <= k < |init| && ExistingIndex(init[k]) == Some(i);
        assert names[k] == init[k];
      }
      forall i | (exists k :: 0 <= k < |names| && ExistingIndex(names[k]) == Some(i))
        ensures i in Indices(names)
      {
        var k :| 0 <= k < |names| && ExistingIndex(names[k]) == Some(i);
        if k < |init| {
          assert init[k] == names[k];
        }
      }
    }
  }

  /** The outcome of the rename: -1 exactly when no name is unindexed, an
      error exactly when some is but no name carries an index, and
      otherwise an index above every index already present and one more
      than one of them. */
  lemma RenameIndexSpec(names: seq<string>)
    ensures RenameIndex(names) == Ok(-1) <==> forall k :: 0 <= k < |names| ==> !IsTarget(names[k])
    ensures RenameIndex(names).Err? <==>
      (exists k :: 0 <= k < |names| && IsTarget(names[k]))
      && forall k :: 0 <= k < |names| ==> ExistingIndex(names[k]).None?
    ensures RenameIndex(names).Ok? && RenameIndex(names).value != -1 ==>
      var idx := RenameIndex(names).value;
      && (forall k :: 0 <= k < |names| && ExistingIndex(names[k]).Some? ==> ExistingIndex(names[k]).value < idx)
      && exists k :: 0 <= k < |names| && ExistingIndex(names[k]) == Some(idx - 1)
  {
    TargetsSpec(names);
    IndicesSpec(names);
    var ts := Targets(names);
    assert forall k :: 0 <= k < |names| && IsTarget(names[k]) ==> names[k] in ts;
    if |ts| > 0 {
      assert ts[0] in ts;
    }
    var found := Indices(names);
    assert forall k :: 0 <= k < |names| && ExistingIndex(names[k]).Some? ==> ExistingIndex(names[k]).value in found;
    if |found| > 0 {
      assert found[0] in found;
    }
  }

  /** Every unindexed file is renamed to its own path with `_<idx>` before
      the extension, in the order of the listing. */
  lemma {:induction false} RenamePairsSpec(dir: string, targets: seq<string>, idx: int)
    ensures forall k :: 0 <= k < |targets| ==>
      RenamePairs(dir, targets, idx)[k] == (Join(dir, targets[k]), RenameDest(Join(dir, targets[k]), idx))
  {
    if |targets| > 0 {
      RenamePairsSpec(dir, targets[..|targets| - 1], idx);
    }
  }

  /** A board file the DAQ wrote without an index, in a directory with at
      least one indexed file, is renamed within its directory to the indexed
      name of the same board, experiment and firing count, which the scan
      then reads back with the new index. */
  lemma DaqFileRenamed(dir: string, names: seq<string>, b: nat, n: nat, tf: nat)
    requires TargetName(b, n, tf) in names
    requires RenameIndex(names).Ok?
    ensures var idx := RenameIndex(names).value;
      && idx >= 0
      && (Join(dir, TargetName(b, n, tf)), Join(dir, IndexedName(b, n, tf, idx))) in RenamePairs(dir, Targets(names), idx)
      && IndexedName(b, n, tf, idx) in AfterRename(names, idx)
      && ExistingIndex(IndexedName(b, n, tf, idx)) == Some(idx)
  {
    var name := TargetName(b, n, tf);
    TargetNameMatches(b, n, tf);
    TargetsSpec(names);
    assert name in Targets(names);
    var idx := RenameIndex(names).value;
    RenamedPair(dir, Targets(names), name, idx);
    RenameTargetName(b, n, tf, idx);
    assert name[0] == 'B';
    RenameDestJoin(dir, name, idx);
    IndexedNotTarget(b, n, tf, idx);
    RenamedEntry(names, name, idx);
    IndexedExisting(b, n, tf, idx);
  }

  lemma RenamedPair(dir: string, targets: seq<string>, name: string, idx: int)
    requires name in targets
    ensures (Join(dir, name), RenameDest(Join(dir, name), idx)) in RenamePairs(dir, targets, idx)
  {
    var k :| 0 <= k < |targets| && targets[k] == name;
    RenamePairsSpec(dir, targets, idx);
    assert RenamePairs(dir, targets, idx)[k] == (Join(dir, name), RenameDest(Join(dir, name), idx));
  }

  lemma RenamedEntry(names: seq<string>, name: string, idx: int)
    requires name in names && IsTarget(name) && !IsTarget(RenameDest(name, idx))
    ensures RenameDest(name, idx) in AfterRename(names, idx)
  {
    TargetsSpec(names);
    RenamedDirAdds((set x | x in names), Targets(names), idx, name);
  }

  /** The scan reads the index back from an indexed board file. */
  lemma IndexedExisting(b: nat, n: nat, tf: nat, idx: nat)
    ensures ExistingIndex(IndexedName(b, n, tf, idx)) == Some(idx)
  {
    IndexedNotTarget(b, n, tf, idx);
    IndexedNameMatches(b, n, tf, idx);
  }

  /** When every unindexed file has the form the DAQ writes, a second
      rename on the renamed directory, listed in any order, finds nothing
      to do. */
  lemma RenameTwiceFindsNothing(names: seq<string>, idx: nat, after: seq<string>)
    requires forall k :: 0 <= k < |names| && IsTarget(names[k]) ==>
      exists b: nat, n: nat, tf: nat :: names[k] == TargetName(b, n, tf)
    requires Lists(after, AfterRename(names, idx))
    ensures RenameIndex(after) == Ok(-1)
  {
    var targets := Targets(names);
    TargetsSpec(names);
    forall k | 0 <= k < |after|
      ensures !IsTarget(after[k])
    {
      var x := after[k];
      RenamedDirFrom((set y | y in names), targets, idx, x);
      if exists i :: 0 <= i < |targets| && x == RenameDest(targets[i], idx) {
        var i :| 0 <= i < |targets| && x == RenameDest(targets[i], idx);
        assert targets[i] in targets;
        var j :| 0 <= j < |names| && names[j] == targets[i];
        var b: nat, n: nat, tf: nat :| names[j] == TargetName(b, n, tf);
        RenameTargetName(b, n, tf, idx);
        IndexedNotTarget(b, n, tf, idx);
      }
    }
    RenameIndexSpec(after);
  }
}
