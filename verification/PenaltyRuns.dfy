/**
 The penalty of one line of modules (ISO/IEC 18004:2015, section 7.8.3): long runs of one colour, and
 runs in the proportions 1:1:3:1:1 of a finder pattern.
 */
module PenaltyRuns {
  // ---------- Runs of one colour ----------

  // Runs alternate, beginning with a light one.
  predicate RunColor(i: int) { i % 2 == 1 }

  // Every run but the first is inhabited, so neighbouring runs cannot be merged.
  ghost predicate Maximal(runs: seq<nat>) {
    |runs| >= 1 && forall i | 1 <= i < |runs| :: runs[i] > 0
  }

  // The runs after one more module.
  function Grow(runs: seq<nat>, color: bool): (grown: seq<nat>)
    requires Maximal(runs)
    ensures Maximal(grown)
  {
    var last := |runs| - 1;
    if RunColor(last) == color then runs[..last] + [runs[last] + 1] else runs + [1]
  }

  // The lengths of the maximal runs of a line. The first run is light; it is empty when the line
  // begins dark.
  function Runs(line: seq<bool>): (runs: seq<nat>)
    ensures Maximal(runs)
  {
    if line == [] then [0] else Grow(Runs(line[..|line| - 1]), line[|line| - 1])
  }

  function Repeat(color: bool, n: nat): (line: seq<bool>)
    ensures |line| == n
  {
    if n == 0 then [] else Repeat(color, n - 1) + [color]
  }

  // The line made of the given runs.
  function Expand(runs: seq<nat>): seq<bool> {
    if runs == [] then []
    else Expand(runs[..|runs| - 1]) + Repeat(RunColor(|runs| - 1), runs[|runs| - 1])
  }

  lemma RunsSnoc(line: seq<bool>, color: bool)
    ensures Runs(line + [color]) == Grow(Runs(line), color)
  {
    assert (line + [color])[..|line|] == line;
  }

  lemma ExpandSnoc(runs: seq<nat>, n: nat)
    ensures Expand(runs + [n]) == Expand(runs) + Repeat(RunColor(|runs|), n)
  {
    assert (runs + [n])[..|runs|] == runs;
  }

  lemma RepeatSnoc(color: bool, n: nat)
    ensures Repeat(color, n + 1) == Repeat(color, n) + [color]
    ensures Repeat(color, 0) == []
    ensures Repeat(color, 1) == [color]
  {}

  lemma ExpandGrow(runs: seq<nat>, color: bool)
    requires Maximal(runs)
    ensures Expand(Grow(runs, color)) == Expand(runs) + [color]
  {
    hide Expand, Repeat;
    var last := |runs| - 1;
    if RunColor(last) == color {
      var closed, n := runs[..last], runs[last];
      assert runs == closed + [n];
      ExpandSnoc(closed, n);
      ExpandSnoc(closed, n + 1);
      RepeatSnoc(color, n);
      Associate(Expand(closed), Repeat(color, n), color);
    } else {
      ExpandSnoc(runs, 1);
      RepeatSnoc(color, 0);
    }
  }

  lemma Associate(a: seq<bool>, b: seq<bool>, c: bool)
    ensures a + (b + [c]) == (a + b) + [c]
    ensures a + ([c] + b) == (a + [c]) + b
  {}

  lemma {:induction false} ExpandRuns(line: seq<bool>)
    ensures Expand(Runs(line)) == line
  {
    if line != [] {
      hide Runs, Expand, Grow;
      var before, color := line[..|line| - 1], line[|line| - 1];
      assert line == before + [color];
      ExpandRuns(before);
      RunsSnoc(before, color);
      ExpandGrow(Runs(before), color);
    }
  }

  lemma {:induction false} RunsRepeat(line: seq<bool>, closed: seq<nat>, length: nat, n: nat)
    requires Runs(line) == closed + [length]
    ensures Runs(line + Repeat(RunColor(|closed|), n)) == closed + [length + n]
  {
    hide Runs, Repeat;
    var color := RunColor(|closed|);
    RepeatSnoc(color, 0);
    if n == 0 {
      assert line + [] == line;
    } else {
      RunsRepeat(line, closed, length, n - 1);
      RepeatSnoc(color, n - 1);
      Associate(line, Repeat(color, n - 1), color);
      RunsSnoc(line + Repeat(color, n - 1), color);
      assert Grow(closed + [length + n - 1], color) == closed + [length + n];
    }
  }

  lemma {:induction false} RunsExpand(runs: seq<nat>)
    requires Maximal(runs)
    ensures Runs(Expand(runs)) == runs
  {
    var last := |runs| - 1;
    var closed, n := runs[..last], runs[last];
    assert runs == closed + [n];
    ExpandSnoc(closed, n);
    if last == 0 {
      RunsRepeat([], [], 0, n);
      assert [] + Repeat(false, n) == Repeat(false, n);
    } else {
      hide Expand;
      RunsExpand(closed);
      RunsAfter(Expand(closed), closed, n);
    }
  }

  lemma RunsAfter(line: seq<bool>, closed: seq<nat>, n: nat)
    requires closed != [] && Runs(line) == closed && n > 0
    ensures Runs(line + Repeat(RunColor(|closed|), n)) == closed + [n]
  {
    hide Runs, Repeat;
    var color := RunColor(|closed|);
    RunsSnoc(line, color);
    RunsRepeat(line + [color], closed, 1, n - 1);
    RepeatCons(color, n - 1);
    Associate(line, Repeat(color, n - 1), color);
  }

  lemma {:induction false} RepeatCons(color: bool, n: nat)
    ensures Repeat(color, n + 1) == [color] + Repeat(color, n)
  {
    if n > 0 {
      RepeatCons(color, n - 1);
    }
  }

  // There is one way only to cut a line into maximal runs, and it is Runs.
  lemma RunsAreUnique(line: seq<bool>, runs: seq<nat>)
    ensures Maximal(runs) && Expand(runs) == line <==> runs == Runs(line)
  {
    ExpandRuns(line);
    if Maximal(runs) && Expand(runs) == line {
      RunsExpand(runs);
    }
  }

  // ---------- The penalties of a line ----------

  // L - 2 for each run of L >= 5 modules.
  function RunTerm(runs: seq<nat>): nat {
    if runs == [] then 0
    else
      var length := runs[|runs| - 1];
      RunTerm(runs[..|runs| - 1]) + if length >= 5 then length - 2 else 0
  }

  // The quiet zone before the line lengthens the first run.
  function Lead(runs: seq<nat>, size: nat): (led: seq<nat>)
    ensures |led| == |runs|
  {
    if runs == [] then [] else [runs[0] + size] + runs[1..]
  }

  // The runs of the line between two quiet zones, each as light as can be and size modules wide.
  function Bordered(runs: seq<nat>, size: nat): (bordered: seq<nat>)
    requires |runs| >= 1
  {
    var led := Lead(runs, size);
    var last := |runs| - 1;
    if RunColor(last) then led + [size] else led[..last] + [led[last] + size]
  }

  // The five runs that end before run k are in the proportions of a finder pattern of unit n.
  predicate FinderCore(runs: seq<nat>, k: nat, n: nat)
    requires 6 <= k < |runs|
  {
    && n > 0 && runs[k - 1] == n && runs[k - 2] == n && runs[k - 3] == 3 * n && runs[k - 4] == n
    && runs[k - 5] == n
  }

  // The finder-like patterns whose last light margin is run k, with four units of margin on one side
  // and at least one on the other.
  function FinderAt(runs: seq<nat>, k: nat): nat
    requires k < |runs|
  {
    if k < 6 then 0
    else
      var n := runs[k - 1];
      if !FinderCore(runs, k, n) then 0
      else (if runs[k] >= 4 * n && runs[k - 6] >= n then 1 else 0)
           + (if runs[k - 6] >= 4 * n && runs[k] >= n then 1 else 0)
  }

  // The number of finder-like patterns, over every light run.
  function FinderTerm(runs: seq<nat>): nat {
    if runs == [] then 0
    else
      var last := |runs| - 1;
      FinderTerm(runs[..last]) + if RunColor(last) then 0 else FinderAt(runs, last)
  }

  function LinePenalty(line: seq<bool>): nat {
    RunTerm(Runs(line)) + 40 * FinderTerm(Bordered(Runs(line), |line|))
  }

  // ---------- The single pass ----------

  type History = h: seq<nat> | |h| == 7 witness [0, 0, 0, 0, 0, 0, 0]

  function AddHistory(currentRunLength: nat, runHistory: History, size: nat): History {
    var length := currentRunLength + if runHistory[0] == 0 then size else 0;
    [length] + runHistory[..6]
  }

  function CountPatterns(runHistory: History): nat {
    var n := runHistory[1];
    var core := n > 0 && runHistory[2] == n && runHistory[3] == n * 3 && runHistory[4] == n && runHistory[5] == n;
    (if core && runHistory[0] >= n * 4 && runHistory[6] >= n then 1 else 0)
    + (if core && runHistory[6] >= n * 4 && runHistory[0] >= n then 1 else 0)
  }

  // The seven runs closed last, the latest first.
  function Latest(runs: seq<nat>): History {
    seq(7, i requires 0 <= i < 7 => if i < |runs| then runs[|runs| - 1 - i] else 0)
  }

  // The state of the pass after modules with these runs: the last run is open, the others closed.
  ghost predicate Open(runs: seq<nat>, size: nat, color: bool, length: nat, history: History) {
    var last := |runs| - 1;
    Maximal(runs) && color == RunColor(last) && length == runs[last] && history == Latest(Lead(runs[..last], size))
  }

  ghost predicate Scanned(line: seq<bool>, size: nat, color: bool, length: nat, history: History, result: int) {
    var runs := Runs(line);
    Open(runs, size, color, length, history) && result == RunTerm(runs) + 40 * FinderTerm(Lead(runs[..|runs| - 1], size))
  }

  lemma LeadSnoc(closed: seq<nat>, length: nat, size: nat)
    ensures Lead(closed + [length], size) == Lead(closed, size) + [if closed == [] then length + size else length]
  {}

  lemma CloseRun(closed: seq<nat>, length: nat, size: nat)
    requires size > 0 && (closed == [] || Maximal(closed))
    ensures AddHistory(length, Latest(Lead(closed, size)), size) == Latest(Lead(closed + [length], size))
  {
    var led := Lead(closed, size);
    LeadSnoc(closed, length, size);
    var length' := if closed == [] then length + size else length;
    assert Latest(led)[0] == 0 <==> closed == [];
    assert Latest(led + [length']) == [length'] + Latest(led)[..6];
  }

  lemma FinderSnoc(led: seq<nat>, length: nat)
    ensures FinderTerm(led + [length])
         == FinderTerm(led) + if RunColor(|led|) then 0 else FinderAt(led + [length], |led|)
  {
    assert (led + [length])[..|led|] == led;
  }

  lemma CountLatest(led: seq<nat>)
    requires led != []
    ensures CountPatterns(Latest(led)) == FinderAt(led, |led| - 1)
  {
    var h, k := Latest(led), |led| - 1;
    if k >= 6 {
      assert h[0] == led[k] && h[1] == led[k - 1] && h[2] == led[k - 2] && h[3] == led[k - 3];
      assert h[4] == led[k - 4] && h[5] == led[k - 5] && h[6] == led[k - 6];
    } else {
      assert h[6] == 0;
      assert k < 5 ==> h[5] == 0;
    }
  }

  lemma RunTermSnoc(runs: seq<nat>, length: nat)
    ensures RunTerm(runs + [length]) == RunTerm(runs) + if length >= 5 then length - 2 else 0
  {
    assert (runs + [length])[..|runs|] == runs;
  }

  // A module of the colour of the open run.
  lemma ScanSame(line: seq<bool>, size: nat, color: bool, length: nat, history: History, result: int)
    requires Scanned(line, size, color, length, history, result)
    ensures Scanned(line + [color], size, color, length + 1, history,
                    result + if length + 1 == 5 then 3 else if length + 1 > 5 then 1 else 0)
  {
    hide Latest, Lead, Runs, FinderTerm, RunTerm;
    var runs := Runs(line);
    var last := |runs| - 1;
    RunsSnoc(line, color);
    assert runs == runs[..last] + [runs[last]];
    RunTermSnoc(runs[..last], length);
    RunTermSnoc(runs[..last], length + 1);
  }

  // A module of the other colour closes the open run.
  lemma ScanOther(line: seq<bool>, size: nat, color: bool, length: nat, history: History, result: int)
    requires size > 0 && Scanned(line, size, color, length, history, result)
    ensures var closed := AddHistory(length, history, size);
      Scanned(line + [!color], size, !color, 1, closed, result + if color then 0 else CountPatterns(closed) * 40)
  {
    hide FinderAt, CountPatterns, AddHistory, Latest, Lead, Runs, FinderTerm, RunTerm;
    var runs := Runs(line);
    var last := |runs| - 1;
    var before := runs[..last];
    assert runs == before + [length];
    RunsSnoc(line, !color);
    assert Grow(runs, !color) == runs + [1];
    assert (runs + [1])[..|runs|] == runs;
    CloseRun(before, length, size);
    LeadSnoc(before, length, size);
    CountLatest(Lead(runs, size));
    FinderSnoc(Lead(before, size), if before == [] then length + size else length);
    RunTermSnoc(runs, 1);
  }

  method TerminateAndCount(currentRunColor: bool, currentRunLength: nat, runHistory: History, size: nat,
                           ghost runs: seq<nat>)
    returns (count: nat)
    requires size > 0 && Open(runs, size, currentRunColor, currentRunLength, runHistory)
    ensures FinderTerm(Lead(runs[..|runs| - 1], size)) + count == FinderTerm(Bordered(runs, size))
  {
    hide FinderAt, CountPatterns, AddHistory, Latest, Lead;
    ghost var last := |runs| - 1;
    ghost var closed := runs[..last];
    var length, history := currentRunLength, runHistory;
    assert runs == closed + [length];
    LeadSnoc(closed, length, size);
    if currentRunColor {
      CloseRun(closed, length, size);
      history := AddHistory(length, history, size);
      FinderSnoc(Lead(closed, size), if closed == [] then length + size else length);
      LeadSnoc(runs, size, size);
      CloseRun(runs, size, size);
      FinderSnoc(Lead(runs, size), size);
      length := 0;
    } else {
      LeadSnoc(closed, length + size, size);
      CloseRun(closed, length + size, size);
      FinderSnoc(Lead(closed, size), Lead(runs, size)[last] + size);
      assert Lead(runs, size)[..last] == Lead(closed, size);
    }
    length := length + size;
    history := AddHistory(length, history, size);
    CountLatest(Bordered(runs, size));
    count := CountPatterns(history);
  }

  lemma ScannedNothing(size: nat)
    ensures Scanned([], size, false, 0, [0, 0, 0, 0, 0, 0, 0], 0)
  {}
}
