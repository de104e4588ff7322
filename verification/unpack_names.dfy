/** The file names of unpack_data.py: Python's `str` of an integer, the
    three regular expressions the script matches directory entries
    against (with the prefix semantics of `re.match`), the name of an
    indexed board file and the destination of a rename. */
module UnpackNames {
  import opened Common

  predicate IsDigit(c: char)
  {
    '0' <= c <= '9'
  }

  predicate AllDigits(s: string)
  {
    forall k :: 0 <= k < |s| ==> IsDigit(s[k])
  }

  function DigitChar(d: nat): (c: char)
    requires d < 10
    ensures IsDigit(c)
  {
    ('0' as int + d) as char
  }

  /** `str(n)` for n >= 0: decimal digits, most significant first. */
  function NatToStr(n: nat): (s: string)
    ensures |s| > 0 && AllDigits(s)
    decreases n
  {
    if n < 10 then [DigitChar(n)] else NatToStr(n / 10) + [DigitChar(n % 10)]
  }

  /** `str(n)`: a minus sign before the digits of a negative number. */
  function IntToStr(n: int): (s: string)
    ensures |s| > 0
    ensures 0 <= n ==> AllDigits(s)
    ensures n < 0 ==> s[0] == '-' && AllDigits(s[1..])
  {
    if n < 0 then "-" + NatToStr(-n) else NatToStr(n)
  }

  /** `int(s)` of a string of decimal digits. */
  function DigitsValue(s: string): nat
    requires AllDigits(s)
  {
    if |s| == 0 then 0 else DigitsValue(s[..|s| - 1]) * 10 + (s[|s| - 1] as int - '0' as int)
  }

  /** `int(str(n)) == n`. */
  lemma {:induction false} DigitsValueOfNatToStr(n: nat)
    ensures DigitsValue(NatToStr(n)) == n
    decreases n
  {
    var s := NatToStr(n);
    if n >= 10 {
      DigitsValueOfNatToStr(n / 10);
      assert s[..|s| - 1] == NatToStr(n / 10);
    }
  }

  /** `str` is injective on integers. */
  lemma IntToStrInjective(m: int, n: int)
    requires IntToStr(m) == IntToStr(n)
    ensures m == n
  {
    if 0 <= m && 0 <= n {
      assert NatToStr(m) == NatToStr(n);
      DigitsValueOfNatToStr(m);
      DigitsValueOfNatToStr(n);
    } else if m < 0 && n < 0 {
      assert NatToStr(-m) == IntToStr(m)[1..];
      assert NatToStr(-n) == IntToStr(n)[1..];
      DigitsValueOfNatToStr(-m);
      DigitsValueOfNatToStr(-n);
    } else {
      assert false;
    }
  }

  // Regular expressions built from literals, `([0-9]+)` groups and `.`,
  // matched at the start of a name as `re.match` does.

  datatype Piece =
    | Lit(text: string)  // the characters themselves
    | Num                // `([0-9]+)`: a group of one or more digits
    | Any                // `.`: any character but a newline

  /** Length of the run of digits at the start of `s`. */
  function DigitRun(s: string): (k: nat)
    ensures k <= |s| && AllDigits(s[..k])
    ensures k < |s| ==> !IsDigit(s[k])
  {
    if |s| == 0 || !IsDigit(s[0]) then 0
    else
      var k := DigitRun(s[1..]);
      assert s[1..][..k] == s[1..k + 1];
      k + 1
  }

  /** The values of the groups when `ps` matches a prefix of `s`, or
      `None`. A group takes as many digits as it can and gives them back
      one at a time when the rest of the pattern fails (backtracking). */
  function Match(ps: seq<Piece>, s: string): Option<seq<nat>>
    decreases |ps|, |s| + 1
  {
    if |ps| == 0 then Some([])
    else match ps[0]
      case Lit(t) =>
        if t <= s then Match(ps[1..], s[|t|..]) else None
      case Any =>
        if |s| > 0 && s[0] != '\n' then Match(ps[1..], s[1..]) else None
      case Num =>
        TryDigits(ps, s, DigitRun(s))
  }

  /** The group at `ps[0]` takes `k` digits, or fewer when that fails. */
  function TryDigits(ps: seq<Piece>, s: string, k: nat): Option<seq<nat>>
    requires |ps| > 0 && ps[0].Num? && k <= |s| && AllDigits(s[..k])
    decreases |ps|, k
  {
    if k == 0 then None
    else match Match(ps[1..], s[k..])
      case Some(groups) => Some([DigitsValue(s[..k])] + groups)
      case None => TryDigits(ps, s, k - 1)
  }

  /** A literal is matched by itself. */
  lemma MatchLit(t: string, rest: seq<Piece>, u: string)
    ensures Match([Lit(t)] + rest, t + u) == Match(rest, u)
  {
    assert ([Lit(t)] + rest)[1..] == rest;
    assert (t + u)[|t|..] == u;
  }

  /** A group followed by a non-digit takes the whole number when the rest
      of the pattern then matches. */
  lemma MatchNum(n: nat, rest: seq<Piece>, u: string, groups: seq<nat>)
    requires u == [] || !IsDigit(u[0])
    requires Match(rest, u) == Some(groups)
    ensures Match([Num] + rest, NatToStr(n) + u) == Some([n] + groups)
  {
    var d := NatToStr(n);
    var s := d + u;
    var ps := [Num] + rest;
    assert ps[1..] == rest;
    DigitRunOfDigits(d, u);
    assert s[..|d|] == d && s[|d|..] == u;
    DigitsValueOfNatToStr(n);
  }

  lemma {:induction false} DigitRunOfDigits(d: string, u: string)
    requires AllDigits(d)
    requires u == [] || !IsDigit(u[0])
    ensures DigitRun(d + u) == |d|
  {
    if |d| > 0 {
      assert (d + u)[1..] == d[1..] + u;
      DigitRunOfDigits(d[1..], u);
    }
  }

  /** The pattern `l0([0-9]+)l1([0-9]+)...` of literals each followed by
      a group, then `rest`. */
  function GroupsPattern(lits: seq<string>, rest: seq<Piece>): seq<Piece>
  {
    if |lits| == 0 then rest else [Lit(lits[0]), Num] + GroupsPattern(lits[1..], rest)
  }

  /** The text `l0 + str(n0) + l1 + str(n1) + ... + tail`. */
  function GroupsText(lits: seq<string>, nums: seq<nat>, tail: string): string
    requires |nums| == |lits|
  {
    if |lits| == 0 then tail else lits[0] + (NatToStr(nums[0]) + GroupsText(lits[1..], nums[1..], tail))
  }

  /** Literals that cannot be mistaken for more digits of the group before
      them: every one after the first is non-empty and starts with a
      non-digit. */
  predicate Separating(lits: seq<string>)
  {
    forall k :: 1 <= k < |lits| ==> |lits[k]| > 0 && !IsDigit(lits[k][0])
  }

  /** A literal followed by a group, matched by the literal and a number. */
  lemma MatchLitNum(t: string, n: nat, rest: seq<Piece>, u: string, groups: seq<nat>)
    requires u == [] || !IsDigit(u[0])
    requires Match(rest, u) == Some(groups)
    ensures Match([Lit(t), Num] + rest, t + (NatToStr(n) + u)) == Some([n] + groups)
  {
    assert [Lit(t), Num] + rest == [Lit(t)] + ([Num] + rest);
    MatchLit(t, [Num] + rest, NatToStr(n) + u);
    MatchNum(n, rest, u, groups);
  }

  /** A text built from the literals of a pattern and numbers is matched
      by it, each group capturing its number, when the text after the last
      number starts with a non-digit and is matched by the rest. */
  lemma {:induction false} MatchGroups(lits: seq<string>, nums: seq<nat>, rest: seq<Piece>, tail: string, groups: seq<nat>)
    requires |nums| == |lits| && Separating(lits)
    requires tail == [] || !IsDigit(tail[0])
    requires Match(rest, tail) == Some(groups)
    ensures Match(GroupsPattern(lits, rest), GroupsText(lits, nums, tail)) == Some(nums + groups)
  {
    if |lits| == 0 {
      assert nums + groups == groups;
    } else {
      var lits', nums' := lits[1..], nums[1..];
      SeparatingTail(lits);
      MatchGroups(lits', nums', rest, tail, groups);
      var u := GroupsText(lits', nums', tail);
      if |lits'| > 0 {
        assert lits'[0] == lits[1];
      }
      GroupsTextStart(lits', nums', tail);
      var p' := GroupsPattern(lits', rest);
      MatchLitNum(lits[0], nums[0], p', u, nums' + groups);
      assert GroupsPattern(lits, rest) == [Lit(lits[0]), Num] + p';
      assert GroupsText(lits, nums, tail) == lits[0] + (NatToStr(nums[0]) + u);
      ConsAppend(nums, groups);
    }
  }

  lemma ConsAppend(s: seq<nat>, t: seq<nat>)
    requires |s| > 0
    ensures [s[0]] + (s[1..] + t) == s + t
  {
    assert s == [s[0]] + s[1..];
  }

  lemma SeparatingTail(lits: seq<string>)
    requires |lits| > 0 && Separating(lits)
    ensures Separating(lits[1..])
  {
    forall k | 1 <= k < |lits[1..]|
      ensures |lits[1..][k]| > 0 && !IsDigit(lits[1..][k][0])
    {
      assert lits[1..][k] == lits[k + 1];
    }
  }

  /** A text of separating literals starts with a non-digit, unless it is
      only the tail. */
  lemma GroupsTextStart(lits: seq<string>, nums: seq<nat>, tail: string)
    requires |nums| == |lits| && (|lits| > 0 ==> |lits[0]| > 0 && !IsDigit(lits[0][0]))
    requires tail == [] || !IsDigit(tail[0])
    ensures var u := GroupsText(lits, nums, tail); u == [] || !IsDigit(u[0])
  {
    if |lits| > 0 {
      assert GroupsText(lits, nums, tail)[0] == lits[0][0];
    }
  }

  /** Appending to the tail appends to the text. */
  lemma {:induction false} GroupsTextAppend(lits: seq<string>, nums: seq<nat>, tail: string, more: string)
    requires |nums| == |lits|
    ensures GroupsText(lits, nums, tail + more) == GroupsText(lits, nums, tail) + more
  {
    if |lits| > 0 {
      GroupsTextAppend(lits[1..], nums[1..], tail, more);
    }
  }

  /** One more literal and number at the end. */
  lemma {:induction false} GroupsTextSnoc(lits: seq<string>, nums: seq<nat>, t: string, n: nat, tail: string)
    requires |nums| == |lits|
    ensures GroupsText(lits + [t], nums + [n], tail) == GroupsText(lits, nums, t + (NatToStr(n) + tail))
  {
    if |lits| == 0 {
      assert [n] == nums + [n] && [t] == lits + [t];
      assert ([t])[1..] == [] && ([n])[1..] == [];
    } else {
      assert (lits + [t])[1..] == lits[1..] + [t];
      assert (nums + [n])[1..] == nums[1..] + [n];
      GroupsTextSnoc(lits[1..], nums[1..], t, n, tail);
    }
  }

  /** `.bin` at the end of a pattern: any character, then `bin`. */
  lemma MatchDotBin()
    ensures Match([Any, Lit("bin")], ".bin") == Some([])
  {
    assert [Any, Lit("bin")][1..] == [Lit("bin")];
    assert ".bin"[1..] == "bin";
    MatchLit("bin", [], "");
    assert [Lit("bin")] + [] == [Lit("bin")];
    assert "bin" + "" == "bin";
  }

  /** A literal, then `.bin`. */
  lemma MatchLitDotBin(t: string)
    ensures Match([Lit(t), Any, Lit("bin")], t + ".bin") == Some([])
  {
    MatchDotBin();
    MatchLit(t, [Any, Lit("bin")], ".bin");
    assert [Lit(t)] + [Any, Lit("bin")] == [Lit(t), Any, Lit("bin")];
  }

  const BOARD_LITS: seq<string> := ["Board", "Experiment", "TotalFiring"]

  /** `Board[0-9]+Experiment[0-9]+TotalFiring[0-9]+_Pack.bin`: a board
      file not yet given an index. */
  const TARGET: seq<Piece> := GroupsPattern(BOARD_LITS, [Lit("_Pack"), Any, Lit("bin")])

  /** `Board([0-9]+)Experiment([0-9]+)TotalFiring([0-9]+)_Pack_([0-9]+).bin`:
      a board file with an index, which is group 4. */
  const EXISTING: seq<Piece> := GroupsPattern(BOARD_LITS + ["_Pack_"], [Any, Lit("bin")])

  /** `'TotalFiring' + str(totFirings) + '_Pack_' + str(ind)`, the text
      after the experiment number in both the search pattern and the name
      of a board file. */
  function IndexSuffix(totFirings: int, ind: int): string
  {
    "TotalFiring" + IntToStr(totFirings) + "_Pack_" + IntToStr(ind)
  }

  /** `Board([0-9]+)Experiment([0-9]+)TotalFiring<tf>_Pack_<ind>.bin`:
      the files of index `ind`; group 2 is the experiment number. */
  function IndexedPattern(totFirings: int, ind: int): seq<Piece>
  {
    GroupsPattern(["Board", "Experiment"], [Lit(IndexSuffix(totFirings, ind)), Any, Lit("bin")])
  }

  /** The unindexed name the DAQ writes for board `b`. */
  function TargetName(b: nat, n: nat, tf: nat): string
  {
    GroupsText(BOARD_LITS, [b, n, tf], "_Pack.bin")
  }

  /** The same file once it carries index `idx`. */
  function IndexedName(b: nat, n: nat, tf: nat, idx: nat): string
  {
    GroupsText(BOARD_LITS + ["_Pack_"], [b, n, tf, idx], ".bin")
  }

  /** Every unindexed name the DAQ writes is recognised as such. */
  lemma TargetNameMatches(b: nat, n: nat, tf: nat)
    ensures Match(TARGET, TargetName(b, n, tf)) == Some([b, n, tf])
  {
    MatchLitDotBin("_Pack");
    assert "_Pack" + ".bin" == "_Pack.bin";
    MatchGroups(BOARD_LITS, [b, n, tf], [Lit("_Pack"), Any, Lit("bin")], "_Pack.bin", []);
    assert [b, n, tf] + [] == [b, n, tf];
  }

  /** Every indexed name is recognised as one, with its index as group 4. */
  lemma IndexedNameMatches(b: nat, n: nat, tf: nat, idx: nat)
    ensures Match(EXISTING, IndexedName(b, n, tf, idx)) == Some([b, n, tf, idx])
  {
    MatchDotBin();
    assert Separating(BOARD_LITS + ["_Pack_"]);
    MatchGroups(BOARD_LITS + ["_Pack_"], [b, n, tf, idx], [Any, Lit("bin")], ".bin", []);
    assert [b, n, tf, idx] + [] == [b, n, tf, idx];
  }

  /** Python's `s[:-4]`: all but the last four characters, or nothing. */
  function DropLast4(s: string): (r: string)
    ensures |s| >= 4 ==> |r| == |s| - 4 && r + s[|s| - 4..] == s
    ensures |s| < 4 ==> r == []
  {
    if |s| >= 4 then s[..|s| - 4] else []
  }

  /** The destination of a rename: `src[:-4] + '_' + str(idx) + '.bin'`. */
  function RenameDest(src: string, idx: int): string
  {
    DropLast4(src) + "_" + IntToStr(idx) + ".bin"
  }

  /** Renaming an unindexed board file with a non-negative index gives the
      indexed name of the same board, experiment and firing count, which
      the script then recognises with that index. */
  lemma RenameTargetName(b: nat, n: nat, tf: nat, idx: nat)
    ensures RenameDest(TargetName(b, n, tf), idx) == IndexedName(b, n, tf, idx)
    ensures Match(EXISTING, RenameDest(TargetName(b, n, tf), idx)) == Some([b, n, tf, idx])
  {
    var nums := [b, n, tf];
    var head := GroupsText(BOARD_LITS, nums, "_Pack");
    var digits := NatToStr(idx);
    GroupsTextAppend(BOARD_LITS, nums, "_Pack", ".bin");
    assert "_Pack" + ".bin" == "_Pack.bin";
    DropBinSuffix(head);
    GroupsTextAppend(BOARD_LITS, nums, "_Pack", "_" + (digits + ".bin"));
    GroupsTextSnoc(BOARD_LITS, nums, "_Pack_", idx, ".bin");
    assert nums + [idx] == [b, n, tf, idx];
    IndexTailAssoc(head, digits);
    IndexedNameMatches(b, n, tf, idx);
  }

  lemma DropBinSuffix(x: string)
    ensures DropLast4(x + ".bin") == x
  {
    assert (x + ".bin")[..|x|] == x;
  }

  lemma IndexTailAssoc(head: string, digits: string)
    ensures head + "_" + digits + ".bin" == head + ("_" + (digits + ".bin"))
    ensures "_Pack" + ("_" + (digits + ".bin")) == "_Pack_" + (digits + ".bin")
  {
    assert "_Pack" + "_" == "_Pack_";
  }

  /** The rename works on whole paths; it changes only the file name when
      that has at least four characters. */
  lemma RenameDestOfPath(dir: string, name: string, idx: int)
    requires |name| >= 4
    ensures RenameDest(dir + name, idx) == dir + RenameDest(name, idx)
  {
    assert DropLast4(dir + name) == dir + DropLast4(name);
  }

  /** `boardName + 'Experiment' + str(numExpr) + 'TotalFiring' +
      str(totFirings) + '_Pack_' + str(ind) + '.bin'`. */
  function BoardFileName(boardName: string, numExpr: int, totFirings: int, ind: int): string
  {
    boardName + ("Experiment" + (IntToStr(numExpr) + (IndexSuffix(totFirings, ind) + ".bin")))
  }

  /** For a board named `Board<k>`, the file the script opens for index
      `ind` is one the search for that index finds, with `numExpr` as its
      experiment number. */
  lemma BoardFileNameMatches(k: nat, numExpr: nat, totFirings: int, ind: int)
    ensures Match(IndexedPattern(totFirings, ind), BoardFileName("Board" + NatToStr(k), numExpr, totFirings, ind))
         == Some([k, numExpr])
  {
    var suffix := IndexSuffix(totFirings, ind);
    var tail := suffix + ".bin";
    assert tail[0] == suffix[0] == 'T';
    MatchLitDotBin(suffix);
    var lits := ["Board", "Experiment"];
    assert Separating(lits);
    MatchGroups(lits, [k, numExpr], [Lit(suffix), Any, Lit("bin")], tail, []);
    assert [k, numExpr] + [] == [k, numExpr];
    GroupsTextPair("Board", "Experiment", k, numExpr, tail);
    assert IntToStr(numExpr) == NatToStr(numExpr);
  }

  lemma GroupsTextPair(a: string, b: string, m: nat, n: nat, tail: string)
    ensures GroupsText([a, b], [m, n], tail) == (a + NatToStr(m)) + (b + (NatToStr(n) + tail))
  {
    assert [a, b][1..] == [b] && [m, n][1..] == [n];
    assert [b][1..] == [] && [n][1..] == [];
    assert GroupsText([b], [n], tail) == b + (NatToStr(n) + tail);
    assert GroupsText([a, b], [m, n], tail) == a + (NatToStr(m) + GroupsText([b], [n], tail));
  }

  /** A renamed board file is exactly the file the script opens for that
      board, experiment and index. */
  lemma IndexedNameIsBoardFileName(b: nat, n: nat, tf: nat, idx: nat)
    ensures IndexedName(b, n, tf, idx) == BoardFileName("Board" + NatToStr(b), n, tf, idx)
  {
    var tail := NatToStr(idx) + ".bin";
    GroupsTextSnoc(BOARD_LITS, [b, n, tf], "_Pack_", idx, ".bin");
    assert [b, n, tf] + [idx] == [b, n, tf, idx];
    var tail2 := "TotalFiring" + (NatToStr(tf) + ("_Pack_" + tail));
    assert BOARD_LITS == ["Board", "Experiment"] + ["TotalFiring"];
    GroupsTextSnoc(["Board", "Experiment"], [b, n], "TotalFiring", tf, "_Pack_" + tail);
    assert [b, n] + [tf] == [b, n, tf];
    GroupsTextPair("Board", "Experiment", b, n, tail2);
    assert IntToStr(n) == NatToStr(n) && IntToStr(tf) == NatToStr(tf) && IntToStr(idx) == NatToStr(idx);
    SuffixAssoc(NatToStr(tf), NatToStr(idx));
  }

  lemma SuffixAssoc(t: string, i: string)
    ensures "TotalFiring" + t + "_Pack_" + i + ".bin" == "TotalFiring" + (t + ("_Pack_" + (i + ".bin")))
  {
  }

  /** Number of groups in a pattern. */
  function NumCount(ps: seq<Piece>): nat
  {
    if |ps| == 0 then 0 else (if ps[0].Num? then 1 else 0) + NumCount(ps[1..])
  }

  /** A match yields one value per group. */
  lemma {:induction false} MatchGroupCount(ps: seq<Piece>, s: string)
    ensures Match(ps, s).Some? ==> |Match(ps, s).value| == NumCount(ps)
    decreases |ps|, |s| + 1
  {
    if |ps| > 0 {
      match ps[0]
      case Lit(t) =>
        if t <= s {
          MatchGroupCount(ps[1..], s[|t|..]);
        }
      case Any =>
        if |s| > 0 && s[0] != '\n' {
          MatchGroupCount(ps[1..], s[1..]);
        }
      case Num =>
        TryDigitsGroupCount(ps, s, DigitRun(s));
    }
  }

  lemma {:induction false} TryDigitsGroupCount(ps: seq<Piece>, s: string, k: nat)
    requires |ps| > 0 && ps[0].Num? && k <= |s| && AllDigits(s[..k])
    ensures TryDigits(ps, s, k).Some? ==> |TryDigits(ps, s, k).value| == NumCount(ps)
    decreases |ps|, k
  {
    if k > 0 {
      MatchGroupCount(ps[1..], s[k..]);
      if Match(ps[1..], s[k..]).None? {
        assert AllDigits(s[..k - 1]) by {
          assert forall j :: 0 <= j < k - 1 ==> s[..k - 1][j] == s[..k][j];
        }
        TryDigitsGroupCount(ps, s, k - 1);
      }
    }
  }

  lemma {:induction false} NumCountGroups(lits: seq<string>, rest: seq<Piece>)
    ensures NumCount(GroupsPattern(lits, rest)) == |lits| + NumCount(rest)
  {
    if |lits| > 0 {
      NumCountGroups(lits[1..], rest);
      var ps := GroupsPattern(lits, rest);
      assert ps[1..][1..] == GroupsPattern(lits[1..], rest);
    }
  }

  /** `pExisting` has four groups, the search pattern of an index two. */
  lemma GroupCounts(tf: int, ind: int)
    ensures NumCount(EXISTING) == 4
    ensures NumCount(IndexedPattern(tf, ind)) == 2
  {
    NumCountGroups(BOARD_LITS + ["_Pack_"], [Any, Lit("bin")]);
    assert NumCount([Any, Lit("bin")]) == 0 by {
      assert [Any, Lit("bin")][1..] == [Lit("bin")];
      assert [Lit("bin")][1..] == [];
    }
    var rest := [Lit(IndexSuffix(tf, ind)), Any, Lit("bin")];
    NumCountGroups(["Board", "Experiment"], rest);
    assert NumCount(rest) == 0 by {
      assert rest[1..] == [Any, Lit("bin")];
      assert [Any, Lit("bin")][1..] == [Lit("bin")];
      assert [Lit("bin")][1..] == [];
    }
  }

  /** A literal starting with a non-digit does not match text starting
      with a digit. */
  lemma LitMismatch(ps: seq<Piece>, s: string)
    requires |ps| > 0 && ps[0].Lit? && |ps[0].text| > 0 && !IsDigit(ps[0].text[0])
    requires |s| > 0 && IsDigit(s[0])
    ensures Match(ps, s) == None
  {
  }

  /** Giving back digits does not help a group followed by such a literal. */
  lemma {:induction false} TryDigitsShort(ps: seq<Piece>, s: string, k: nat)
    requires |ps| > 1 && ps[0].Num? && ps[1].Lit? && |ps[1].text| > 0 && !IsDigit(ps[1].text[0])
    requires k < |s| && AllDigits(s[..k + 1])
    ensures AllDigits(s[..k]) && TryDigits(ps, s, k) == None
    decreases k
  {
    assert forall j :: 0 <= j < k ==> s[..k][j] == s[..k + 1][j];
    if k > 0 {
      assert s[..k + 1][k] == s[k];
      LitMismatch(ps[1..], s[k..]);
      TryDigitsShort(ps, s, k - 1);
    }
  }

  /** The first piece of a pattern of groups, when it is a literal. */
  predicate StartsWithSeparator(ps: seq<Piece>)
  {
    |ps| > 0 && ps[0].Lit? && |ps[0].text| > 0 && !IsDigit(ps[0].text[0])
  }

  /** When the rest of the pattern fails on the text after the last
      number, the whole pattern fails: no group can take fewer digits. */
  lemma {:induction false} MatchGroupsNone(lits: seq<string>, nums: seq<nat>, rest: seq<Piece>, tail: string)
    requires |nums| == |lits| && Separating(lits) && StartsWithSeparator(rest)
    requires tail == [] || !IsDigit(tail[0])
    requires Match(rest, tail) == None
    ensures Match(GroupsPattern(lits, rest), GroupsText(lits, nums, tail)) == None
  {
    if |lits| > 0 {
      var lits', nums' := lits[1..], nums[1..];
      SeparatingTail(lits);
      MatchGroupsNone(lits', nums', rest, tail);
      var u := GroupsText(lits', nums', tail);
      if |lits'| > 0 {
        assert lits'[0] == lits[1];
      }
      GroupsTextStart(lits', nums', tail);
      var p' := GroupsPattern(lits', rest);
      assert StartsWithSeparator(p') by {
        if |lits'| > 0 {
          assert p'[0] == Lit(lits'[0]);
        }
      }
      var d := NatToStr(nums[0]);
      MatchLit(lits[0], [Num] + p', d + u);
      assert GroupsPattern(lits, rest) == [Lit(lits[0])] + ([Num] + p');
      assert GroupsText(lits, nums, tail) == lits[0] + (d + u);
      var ps, s := [Num] + p', d + u;
      assert ps[1..] == p';
      DigitRunOfDigits(d, u);
      assert s[..|d|] == d && s[|d|..] == u;
      TryDigitsShort(ps, s, |d| - 1);
    }
  }

  /** An indexed board file is never taken for an unindexed one, so a
      second rename leaves it alone. */
  lemma IndexedNotTarget(b: nat, n: nat, tf: nat, idx: nat)
    ensures Match(TARGET, IndexedName(b, n, tf, idx)) == None
  {
    var digits := NatToStr(idx);
    var tail := "_Pack_" + (digits + ".bin");
    GroupsTextSnoc(BOARD_LITS, [b, n, tf], "_Pack_", idx, ".bin");
    assert [b, n, tf] + [idx] == [b, n, tf, idx];
    var rest := [Lit("_Pack"), Any, Lit("bin")];
    assert "_Pack" + ("_" + (digits + ".bin")) == tail;
    MatchLit("_Pack", [Any, Lit("bin")], "_" + (digits + ".bin"));
    assert [Lit("_Pack")] + [Any, Lit("bin")] == rest;
    assert [Any, Lit("bin")][1..] == [Lit("bin")];
    assert ("_" + (digits + ".bin"))[1..] == digits + ".bin";
    LitMismatch([Lit("bin")], digits + ".bin");
    assert StartsWithSeparator(rest);
    MatchGroupsNone(BOARD_LITS, [b, n, tf], rest, tail);
  }
}
