/** The index bookkeeping of `read_channel_data` in unpack_data.py: which
    acquisition indices are processed, the experiment number found for
    each, and the board files opened for it. The directory is the list of
    names `os.listdir` returns: `names` before the rename and `after`, in
    an order the model does not fix, once it is done. */
module UnpackPlan {
  import opened Common
  import opened UnpackNames
  import opened UnpackRename

  /** Group 2 of the search pattern of index `ind`, when `name` matches it. */
  function ExperimentOf(name: string, totFirings: int, ind: int): Option<nat>
  {
    match Match(IndexedPattern(totFirings, ind), name)
    case None => None
    case Some(groups) =>
      MatchGroupCount(IndexedPattern(totFirings, ind), name);
      GroupCounts(totFirings, ind);
      Some(groups[1])
  }

  /** What the search finds in each name of the listing. */
  function Experiments(names: seq<string>, totFirings: int, ind: int): (found: seq<Option<nat>>)
    ensures |found| == |names|
    ensures forall k :: 0 <= k < |names| ==> found[k] == ExperimentOf(names[k], totFirings, ind)
  {
    seq(|names|, k requires 0 <= k < |names| => ExperimentOf(names[k], totFirings, ind))
  }

  /** The last value present, scanning left to right and keeping the
      latest. */
  function LastSome(found: seq<Option<nat>>): Option<nat>
  {
    if |found| == 0 then None
    else match found[|found| - 1]
      case Some(n) => Some(n)
      case None => LastSome(found[..|found| - 1])
  }

  /** The experiment number of the last name in the listing that matches. */
  function LastExperiment(names: seq<string>, totFirings: int, ind: int): Option<nat>
  {
    LastSome(Experiments(names, totFirings, ind))
  }

  /** `numExpr` as the script holds it: -1 for "no file found". */
  function OrMinusOne(o: Option<nat>): int
  {
    match o
    case None => -1
    case Some(n) => n
  }

  /** The search loop for the experiment number of index `ind`. */
  method FindExperiment(names: seq<string>, totFirings: int, ind: int) returns (numExpr: int)
    ensures numExpr == OrMinusOne(LastExperiment(names, totFirings, ind))
  {
    numExpr := -1;
    for k := 0 to |names|
      invariant numExpr == OrMinusOne(LastSome(Experiments(names, totFirings, ind)[..k]))
    {
      ghost var found := Experiments(names, totFirings, ind);
      assert found[..k + 1][..k] == found[..k];
      var matchObj := Match(IndexedPattern(totFirings, ind), names[k]);
      if matchObj.Some? {
        MatchGroupCount(IndexedPattern(totFirings, ind), names[k]);
        GroupCounts(totFirings, ind);
        numExpr := matchObj.value[1];
      }
    }
    assert Experiments(names, totFirings, ind)[..|names|] == Experiments(names, totFirings, ind);
  }

  /** The scan keeps a present value after which none is present, and
      keeps nothing exactly when nothing is present. */
  lemma {:induction false} LastSomeSpec(found: seq<Option<nat>>)
    ensures LastSome(found).None? <==> forall k :: 0 <= k < |found| ==> found[k].None?
    ensures forall e :: LastSome(found) == Some(e) <==>
      exists k :: 0 <= k < |found| && found[k] == Some(e) && forall j :: k < j < |found| ==> found[j].None?
  {
    if |found| > 0 {
      var init, last := found[..|found| - 1], found[|found| - 1];
      LastSomeSpec(init);
      assert forall k :: 0 <= k < |init| ==> init[k] == found[k];
      if last.None? {
        forall e | (exists k :: 0 <= k < |found| && found[k] == Some(e) && forall j :: k < j < |found| ==> found[j].None?)
          ensures LastSome(init) == Some(e)
        {
          var k :| 0 <= k < |found| && found[k] == Some(e) && forall j :: k < j < |found| ==> found[j].None?;
          assert k < |init|;
        }
      }
    }
  }

  /** The search settles on the experiment number of a matching name
      after which no name matches, and finds nothing exactly when no name
      matches. */
  lemma LastExperimentSpec(names: seq<string>, totFirings: int, ind: int)
    ensures LastExperiment(names, totFirings, ind).None? <==>
      forall k :: 0 <= k < |names| ==> ExperimentOf(names[k], totFirings, ind).None?
    ensures forall e :: LastExperiment(names, totFirings, ind) == Some(e) <==>
      exists k :: 0 <= k < |names| && ExperimentOf(names[k], totFirings, ind) == Some(e)
        && forall j :: k < j < |names| ==> ExperimentOf(names[j], totFirings, ind).None?
  {
    LastSomeSpec(Experiments(names, totFirings, ind));
  }

  /** One index to process: the experiment number found for it and the
      paths of the board files read. */
  datatype Item = Item(ind: int, numExpr: nat, files: seq<string>)

  /** Either the script returns early, or it processes these items in order. */
  datatype Plan = Return | Process(items: seq<Item>)

  /** The board files of index `ind`, one per board name. */
  function BoardFiles(srcDir: string, boardNames: seq<string>, numExpr: nat, totFirings: int, ind: int): seq<string>
  {
    seq(|boardNames|, k requires 0 <= k < |boardNames| =>
      Join(srcDir, BoardFileName(boardNames[k], numExpr, totFirings, ind)))
  }

  /** The item for index `ind`, or `None` when the index is skipped. */
  function ItemFor(srcDir: string, names: seq<string>, boardNames: seq<string>, totFirings: int, ind: int): Option<Item>
  {
    match LastExperiment(names, totFirings, ind)
    case None => None
    case Some(e) => Some(Item(ind, e, BoardFiles(srcDir, boardNames, e, totFirings, ind)))
  }

  /** The items of `range(lo, hi + 1)`. */
  function Items(srcDir: string, names: seq<string>, boardNames: seq<string>, totFirings: int, lo: int, hi: int): seq<Item>
    decreases if hi < lo then 0 else hi - lo + 1
  {
    if hi < lo then []
    else
      Items(srcDir, names, boardNames, totFirings, lo, hi - 1)
      + match ItemFor(srcDir, names, boardNames, totFirings, hi) case None => [] case Some(it) => [it]
  }

  /** What `read_channel_data` does with a start and end index: a -1 for
      either means the freshly renamed files only (or an early return when
      nothing was renamed), searched in the listing `after` taken after the
      rename. */
  function ChannelPlan(srcDir: string, names: seq<string>, after: seq<string>, boardNames: seq<string>,
                       totFirings: int, startInd: int, endInd: int): Result<Plan>
  {
    if startInd == -1 || endInd == -1 then
      match RenameIndex(names)
      case Err(e) => Err(e)
      case Ok(next) =>
        if next == -1 then Ok(Return)
        else Ok(Process(Items(srcDir, after, boardNames, totFirings, next, next)))
    else Ok(Process(Items(srcDir, names, boardNames, totFirings, startInd, endInd)))
  }

  /** The control flow of `read_channel_data` up to the opening of the
      board files, with the renames it performs. `names` is the listing
      the rename scans; `after` is the listing `read_channel_data` takes
      once the files are renamed, in any order of the renamed directory. */
  method ReadChannelPlan(srcDir: string, names: seq<string>, after: seq<string>, boardNames: seq<string>,
                         totFirings: int, startInd: int, endInd: int)
    returns (r: Result<Plan>, renames: seq<(string, string)>)
    requires (startInd == -1 || endInd == -1) && RenameIndex(names).Ok? && RenameIndex(names).value >= 0 ==>
      Lists(after, AfterRename(names, RenameIndex(names).value))
    ensures r == ChannelPlan(srcDir, names, after, boardNames, totFirings, startInd, endInd)
    ensures renames ==
      if (startInd == -1 || endInd == -1) && RenameIndex(names).Ok? && RenameIndex(names).value != -1
      then RenamePairs(srcDir, Targets(names), RenameIndex(names).value)
      else []
  {
    var start, end := startInd, endInd;
    var fileNameList := names;
    renames := [];
    if startInd == -1 || endInd == -1 {
      var nextInd;
      nextInd, renames := RenameUnindexedFile(srcDir, names);
      if nextInd.Err? {
        return Err(nextInd.error), renames;
      }
      if nextInd.value == -1 {
        return Ok(Return), renames;
      }
      start, end := nextInd.value, nextInd.value;
      fileNameList := after;
    }
    var items := ProcessRange(srcDir, fileNameList, boardNames, totFirings, start, end);
    return Ok(Process(items)), renames;
  }

  /** The loop over `range(start, end + 1)`: the search for each index,
      skipped when nothing is found, and the board file names otherwise. */
  method ProcessRange(srcDir: string, fileNameList: seq<string>, boardNames: seq<string>, totFirings: int,
                      start: int, end: int)
    returns (items: seq<Item>)
    ensures items == Items(srcDir, fileNameList, boardNames, totFirings, start, end)
  {
    items := [];
    if end < start {
      return;
    }
    for ind := start to end + 1
      invariant items == Items(srcDir, fileNameList, boardNames, totFirings, start, ind - 1)
    {
      var item := ProcessIndex(srcDir, fileNameList, boardNames, totFirings, ind);
      ItemsSnoc(srcDir, fileNameList, boardNames, totFirings, start, ind);
      if item.Some? {
        items := items + [item.value];
      }
    }
  }

  /** One pass of the loop: the search, then `continue` when nothing is
      found, or the board file names. */
  method ProcessIndex(srcDir: string, fileNameList: seq<string>, boardNames: seq<string>, totFirings: int, ind: int)
    returns (item: Option<Item>)
    ensures item == ItemFor(srcDir, fileNameList, boardNames, totFirings, ind)
  {
    var numExpr := FindExperiment(fileNameList, totFirings, ind);
    if numExpr == -1 {
      return None;
    }
    var files := BoardFilePaths(srcDir, boardNames, numExpr, totFirings, ind);
    return Some(Item(ind, numExpr, files));
  }

  /** The loop over the boards of one index. */
  method BoardFilePaths(srcDir: string, boardNames: seq<string>, numExpr: nat, totFirings: int, ind: int)
    returns (files: seq<string>)
    ensures files == BoardFiles(srcDir, boardNames, numExpr, totFirings, ind)
  {
    ghost var all := BoardFiles(srcDir, boardNames, numExpr, totFirings, ind);
    files := [];
    for boardId := 0 to |boardNames|
      invariant files == all[..boardId]
    {
      var fileName := BoardFileName(boardNames[boardId], numExpr, totFirings, ind);
      assert all[..boardId + 1] == all[..boardId] + [Join(srcDir, fileName)];
      files := files + [Join(srcDir, fileName)];
    }
    assert files == all;
  }

  lemma ItemsSnoc(srcDir: string, names: seq<string>, boardNames: seq<string>, totFirings: int, lo: int, hi: int)
    requires lo <= hi
    ensures Items(srcDir, names, boardNames, totFirings, lo, hi)
         == Items(srcDir, names, boardNames, totFirings, lo, hi - 1)
            + match ItemFor(srcDir, names, boardNames, totFirings, hi) case None => [] case Some(it) => [it]
  {
  }

  /** Some item is for index `ind`. */
  ghost predicate Listed(items: seq<Item>, ind: int)
  {
    exists k :: 0 <= k < |items| && items[k].ind == ind
  }

  /** The indices processed lie in `range(lo, hi + 1)`, in increasing
      order, each with the experiment number the search settles on and
      one file per board. */
  lemma {:induction false} ItemsSpec(srcDir: string, names: seq<string>, boardNames: seq<string>, totFirings: int,
                                     lo: int, hi: int)
    ensures var items := Items(srcDir, names, boardNames, totFirings, lo, hi);
      && (forall k :: 0 <= k < |items| ==>
            && lo <= items[k].ind <= hi
            && LastExperiment(names, totFirings, items[k].ind) == Some(items[k].numExpr)
            && items[k].files == BoardFiles(srcDir, boardNames, items[k].numExpr, totFirings, items[k].ind))
      && (forall k, j :: 0 <= k < j < |items| ==> items[k].ind < items[j].ind)
    decreases if hi < lo then 0 else hi - lo + 1
  {
    if lo <= hi {
      ItemsSpec(srcDir, names, boardNames, totFirings, lo, hi - 1);
      var init := Items(srcDir, names, boardNames, totFirings, lo, hi - 1);
      var items := Items(srcDir, names, boardNames, totFirings, lo, hi);
      ItemsSnoc(srcDir, names, boardNames, totFirings, lo, hi);
      match ItemFor(srcDir, names, boardNames, totFirings, hi)
      case None =>
      case Some(it) =>
        assert items == init + [it];
        assert it.ind == hi && LastExperiment(names, totFirings, hi) == Some(it.numExpr);
    }
  }

  /** Every index of `range(lo, hi + 1)` for which a file is found is
      processed. */
  lemma {:induction false} ItemsCover(srcDir: string, names: seq<string>, boardNames: seq<string>, totFirings: int,
                                      lo: int, hi: int, ind: int)
    requires lo <= ind <= hi && LastExperiment(names, totFirings, ind).Some?
    ensures Listed(Items(srcDir, names, boardNames, totFirings, lo, hi), ind)
    decreases hi - lo
  {
    var items := Items(srcDir, names, boardNames, totFirings, lo, hi);
    ItemsSnoc(srcDir, names, boardNames, totFirings, lo, hi);
    if ind == hi {
      assert items[|items| - 1].ind == hi;
    } else {
      var init := Items(srcDir, names, boardNames, totFirings, lo, hi - 1);
      ItemsCover(srcDir, names, boardNames, totFirings, lo, hi - 1, ind);
      var k :| 0 <= k < |init| && init[k].ind == ind;
      assert items[k] == init[k];
    }
  }

  /** The search for a renamed board file's index finds it with its
      experiment number. */
  lemma IndexedNameFound(b: nat, n: nat, tf: nat, idx: nat)
    ensures ExperimentOf(IndexedName(b, n, tf, idx), tf, idx) == Some(n)
  {
    IndexedNameIsBoardFileName(b, n, tf, idx);
    BoardFileNameMatches(b, n, tf, idx);
  }

  /** With a -1 start or end and a board file the DAQ wrote without an
      index, the script processes exactly the new index, and when the
      search settles on that file's experiment number and its board is
      listed, the renamed file is one of those it reads. This holds for
      every order in which `os.listdir` may list the renamed directory;
      the order decides only which experiment number the search settles
      on when several match. */
  lemma FreshIndexProcessed(srcDir: string, names: seq<string>, after: seq<string>, boardNames: seq<string>,
                            b: nat, n: nat, tf: nat, startInd: int, endInd: int)
    requires startInd == -1 || endInd == -1
    requires TargetName(b, n, tf) in names && RenameIndex(names).Ok?
    requires RenameIndex(names).value >= 0 ==> Lists(after, AfterRename(names, RenameIndex(names).value))
    ensures var idx := RenameIndex(names).value;
      && idx >= 0
      && LastExperiment(after, tf, idx).Some?
      && var e := LastExperiment(after, tf, idx).value;
      && ChannelPlan(srcDir, names, after, boardNames, tf, startInd, endInd)
         == Ok(Process([Item(idx, e, BoardFiles(srcDir, boardNames, e, tf, idx))]))
      && (e == n && "Board" + NatToStr(b) in boardNames ==>
            Join(srcDir, IndexedName(b, n, tf, idx)) in BoardFiles(srcDir, boardNames, e, tf, idx))
  {
    var idx := RenameIndex(names).value;
    DaqFileRenamed(srcDir, names, b, n, tf);
    IndexedNameFound(b, n, tf, idx);
    FoundInListing(after, IndexedName(b, n, tf, idx), tf, idx);
    var e := LastExperiment(after, tf, idx).value;
    SingleIndexItems(srcDir, after, boardNames, tf, idx);
    if e == n && "Board" + NatToStr(b) in boardNames {
      RenamedFileRead(srcDir, boardNames, b, n, tf, idx);
    }
  }

  lemma FoundInListing(names: seq<string>, name: string, totFirings: int, ind: int)
    requires name in names && ExperimentOf(name, totFirings, ind).Some?
    ensures LastExperiment(names, totFirings, ind).Some?
  {
    var found := Experiments(names, totFirings, ind);
    LastSomeSpec(found);
    var j :| 0 <= j < |names| && names[j] == name;
    assert found[j].Some?;
  }

  lemma SingleIndexItems(srcDir: string, names: seq<string>, boardNames: seq<string>, totFirings: int, ind: int)
    requires LastExperiment(names, totFirings, ind).Some?
    ensures var e := LastExperiment(names, totFirings, ind).value;
      Items(srcDir, names, boardNames, totFirings, ind, ind) == [Item(ind, e, BoardFiles(srcDir, boardNames, e, totFirings, ind))]
  {
    ItemsSnoc(srcDir, names, boardNames, totFirings, ind, ind);
    assert Items(srcDir, names, boardNames, totFirings, ind, ind - 1) == [];
  }

  lemma RenamedFileRead(srcDir: string, boardNames: seq<string>, b: nat, n: nat, tf: nat, idx: nat)
    requires "Board" + NatToStr(b) in boardNames
    ensures Join(srcDir, IndexedName(b, n, tf, idx)) in BoardFiles(srcDir, boardNames, n, tf, idx)
  {
    var k :| 0 <= k < |boardNames| && boardNames[k] == "Board" + NatToStr(b);
    IndexedNameIsBoardFileName(b, n, tf, idx);
    assert BoardFiles(srcDir, boardNames, n, tf, idx)[k] == Join(srcDir, IndexedName(b, n, tf, idx));
  }
}
