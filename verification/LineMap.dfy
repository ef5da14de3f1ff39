/**
 The map from source lines to instructions that assemble builds (src/assembler/assembler.cpp), used
 to set a breakpoint on a line.
 */
module LineMap {

  const UINT_MAX: nat := 0xFFFF_FFFF

  /** An entry of instruction_number_line_number_mapping; a std::map lists them by instruction number. */
  datatype Entry = Entry(instruction: nat, line: nat)

  function Lines(entries: seq<Entry>): (lines: seq<nat>)
    ensures |lines| == |entries|
  {
    seq(|entries|, k requires 0 <= k < |entries| => entries[k].line)
  }

  function LineBefore(lines: seq<nat>, j: nat): nat
    requires j <= |lines|
  {
    if j == 0 then 0 else lines[j - 1]
  }

  /** Instruction j claims the lines after its predecessor's line up to its own. */
  predicate Claims(lines: seq<nat>, j: nat, i: nat) {
    j < |lines| && LineBefore(lines, j) < i <= lines[j]
  }

  /** The last of the first n instructions to claim a line owns it. */
  ghost predicate Built(lines: seq<nat>, n: nat, m: map<nat, nat>) {
    && (forall i, j: nat :: j < n && Claims(lines, j, i) ==> i in m && j <= m[i])
    && (forall i :: i in m ==> m[i] < n && Claims(lines, m[i], i))
  }

  method BuildLineMap(entries: seq<Entry>) returns (m: map<nat, nat>)
    requires forall k :: 0 <= k < |entries| ==> entries[k].line < UINT_MAX
    ensures Built(Lines(entries), |entries|, m)
  {
    m := map[];
    if entries == [] {
      return;
    }
    ghost var lines := Lines(entries);
    var prevInstruction, prevLine := 0, 1;
    for k := 0 to |entries|
      invariant prevInstruction == k && prevLine == LineBefore(lines, k) + 1
      invariant Built(lines, k, m)
    {
      var line := entries[k].line;
      ghost var before := m;
      var i := prevLine;
      while i <= line
        invariant prevLine <= i && (i <= line + 1 || i == prevLine)
        invariant forall x :: x in m <==> x in before || prevLine <= x < i
        invariant forall x :: x in m ==> m[x] == if prevLine <= x < i then k else before[x]
      {
        m := m[i := prevInstruction];
        i := i + 1;
      }
      prevInstruction := prevInstruction + 1;
      prevLine := line + 1;
    }
  }

  /** n is the first instruction whose line is at or after i. */
  predicate IsLeast(lines: seq<nat>, i: nat, n: nat) {
    n < |lines| && i <= lines[n] && forall j :: 0 <= j < n ==> lines[j] < i
  }

  predicate Reaches(lines: seq<nat>, i: nat) {
    exists j :: 0 <= j < |lines| && i <= lines[j]
  }

  /** Every line from 1 to the furthest one maps to the first instruction at or after it. */
  ghost predicate Faithful(lines: seq<nat>, m: map<nat, nat>) {
    && (forall i: nat :: i in m <==> i > 0 && Reaches(lines, i))
    && (forall i :: i in m ==> IsLeast(lines, i, m[i]))
  }

  /** Wherever the line number goes up, it goes up from the furthest line so far. */
  predicate ClimbsFromTop(lines: seq<nat>) {
    forall k, j :: 0 <= k < j < |lines| && LineBefore(lines, j) < lines[j] ==> lines[k] <= LineBefore(lines, j)
  }

  predicate NonDecreasing(lines: seq<nat>) {
    forall k, j :: 0 <= k <= j < |lines| ==> lines[k] <= lines[j]
  }

  lemma {:induction false} FirstReaching(lines: seq<nat>, i: nat, j: nat) returns (n: nat)
    requires j < |lines| && i <= lines[j]
    ensures n <= j && IsLeast(lines, i, n)
    decreases j
  {
    if k: nat :| k < j && i <= lines[k] {
      n := FirstReaching(lines, i, k);
    } else {
      n := j;
    }
  }

  lemma {:induction false} ClaimedIsLeast(lines: seq<nat>, i: nat, n: nat)
    requires ClimbsFromTop(lines) && Claims(lines, n, i)
    ensures IsLeast(lines, i, n)
  {
  }

  lemma {:induction false} ReachedIsClaimed(lines: seq<nat>, i: nat) returns (n: nat)
    requires i > 0 && Reaches(lines, i)
    ensures Claims(lines, n, i)
  {
    var j :| 0 <= j < |lines| && i <= lines[j];
    n := FirstReaching(lines, i, j);
  }

  lemma {:induction false} ClimbingIsFaithful(lines: seq<nat>, m: map<nat, nat>)
    requires Built(lines, |lines|, m) && ClimbsFromTop(lines)
    ensures Faithful(lines, m)
  {
    forall i: nat
      ensures i in m <==> i > 0 && Reaches(lines, i)
    {
      if i > 0 && Reaches(lines, i) {
        var n := ReachedIsClaimed(lines, i);
      }
      if i in m {
        assert Claims(lines, m[i], i);
      }
    }
    forall i | i in m
      ensures IsLeast(lines, i, m[i])
    {
      ClaimedIsLeast(lines, i, m[i]);
    }
  }

  lemma {:induction false} FaithfulClimbs(lines: seq<nat>, m: map<nat, nat>)
    requires Built(lines, |lines|, m) && Faithful(lines, m)
    ensures ClimbsFromTop(lines)
  {
    forall k, j | 0 <= k < j < |lines| && LineBefore(lines, j) < lines[j]
      ensures lines[k] <= LineBefore(lines, j)
    {
      var i := LineBefore(lines, j) + 1;
      assert Claims(lines, j, i);
      assert j <= m[i] && IsLeast(lines, i, m[i]);
    }
  }

  /** The map is faithful exactly when lines only climb from the top. */
  lemma {:induction false} FaithfulExactly(lines: seq<nat>, m: map<nat, nat>)
    requires Built(lines, |lines|, m)
    ensures Faithful(lines, m) <==> ClimbsFromTop(lines)
  {
    if ClimbsFromTop(lines) {
      ClimbingIsFaithful(lines, m);
    }
    if Faithful(lines, m) {
      FaithfulClimbs(lines, m);
    }
  }

  lemma {:induction false} OrderedClimbs(lines: seq<nat>)
    requires NonDecreasing(lines)
    ensures ClimbsFromTop(lines)
  {
    forall k, j | 0 <= k < j < |lines| && LineBefore(lines, j) < lines[j]
      ensures lines[k] <= LineBefore(lines, j)
    {
      assert lines[k] <= lines[j - 1];
    }
  }

  lemma {:induction false} OrderedReach(lines: seq<nat>, i: nat)
    requires lines != [] && NonDecreasing(lines)
    ensures Reaches(lines, i) <==> i <= lines[|lines| - 1]
  {
    if Reaches(lines, i) {
      var j :| 0 <= j < |lines| && i <= lines[j];
      assert lines[j] <= lines[|lines| - 1];
    }
  }

  lemma {:induction false} OrderedMap(lines: seq<nat>, m: map<nat, nat>, i: nat)
    requires lines != [] && Built(lines, |lines|, m) && NonDecreasing(lines)
    ensures i in m <==> 1 <= i <= lines[|lines| - 1]
    ensures i in m ==> IsLeast(lines, i, m[i])
  {
    OrderedClimbs(lines);
    ClimbingIsFaithful(lines, m);
    OrderedReach(lines, i);
  }

  /**
   For instructions numbered from 0 whose lines never decrease, each line from 1 to the last one
   maps to the number of the first instruction at or after it; of several on one line, the first.
   */
  lemma {:induction false} OrderedLinesMapToFirst(entries: seq<Entry>, m: map<nat, nat>, i: nat)
    requires entries != [] && Built(Lines(entries), |entries|, m) && NonDecreasing(Lines(entries))
    requires forall k :: 0 <= k < |entries| ==> entries[k].instruction == k
    ensures i in m <==> 1 <= i <= entries[|entries| - 1].line
    ensures i in m ==>
      exists n: nat :: n < |entries| && entries[n].instruction == m[i] && IsLeast(Lines(entries), i, n)
  {
    OrderedMap(Lines(entries), m, i);
    if i in m {
      var n := m[i];
      assert entries[n].instruction == m[i] && IsLeast(Lines(entries), i, n);
    }
  }
}
