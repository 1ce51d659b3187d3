/** The line diff (internal/artifact/diff.go): an LCS table, its backtrack, and the patch printed from it. */
module Diff {
  import opened Core
  import opened Text

  datatype Kind = Equal | Added | Removed

  datatype DiffLine = DiffLine(kind: Kind, text: string)

  datatype Summary = Summary(added: nat, removed: nat)

  // ---------------------------------------------------------------- common subsequences

  /** s can be obtained from t by leaving lines out. */
  predicate Subsequence(s: seq<string>, t: seq<string>)
    decreases |t|
  {
    || s == []
    || (t != [] && s[|s| - 1] == t[|t| - 1] && Subsequence(s[..|s| - 1], t[..|t| - 1]))
    || (t != [] && Subsequence(s, t[..|t| - 1]))
  }

  predicate Common(s: seq<string>, a: seq<string>, b: seq<string>) {
    Subsequence(s, a) && Subsequence(s, b)
  }

  /** n is the length of the longest common subsequences. */
  ghost predicate Longest(a: seq<string>, b: seq<string>, n: nat) {
    && (exists s :: Common(s, a, b) && |s| == n)
    && forall s :: Common(s, a, b) ==> |s| <= n
  }

  lemma {:induction false} DropLast(s: seq<string>, t: seq<string>)
    requires Subsequence(s, t) && s != []
    ensures t != [] && Subsequence(s[..|s| - 1], t[..|t| - 1])
    decreases |t|
  {
    if !(s[|s| - 1] == t[|t| - 1] && Subsequence(s[..|s| - 1], t[..|t| - 1])) {
      DropLast(s, t[..|t| - 1]);
      Weaken(s[..|s| - 1], t[..|t| - 1]);
    }
  }

  lemma Weaken(s: seq<string>, t: seq<string>)
    requires t != [] && Subsequence(s, t[..|t| - 1])
    ensures Subsequence(s, t)
  {
  }

  /** The value the table is meant to hold for the prefixes a[..i] and b[..j]. */
  function Cell(a: seq<string>, b: seq<string>, i: nat, j: nat): nat
    requires i <= |a| && j <= |b|
    decreases i + j
  {
    if i == 0 || j == 0 then 0
    else if a[i - 1] == b[j - 1] then Cell(a, b, i - 1, j - 1) + 1
    else if Cell(a, b, i - 1, j) >= Cell(a, b, i, j - 1) then Cell(a, b, i - 1, j)
    else Cell(a, b, i, j - 1)
  }

  /** No common subsequence beats the table. */
  lemma {:induction false} CellBounds(a: seq<string>, b: seq<string>, i: nat, j: nat, s: seq<string>)
    requires i <= |a| && j <= |b| && Common(s, a[..i], b[..j])
    ensures |s| <= Cell(a, b, i, j)
    decreases i + j
  {
    if s != [] {
      DropLast(s, a[..i]);
      DropLast(s, b[..j]);
      assert a[..i][..i - 1] == a[..i - 1] && b[..j][..j - 1] == b[..j - 1];
      if a[i - 1] == b[j - 1] {
        CellBounds(a, b, i - 1, j - 1, s[..|s| - 1]);
      } else if s[|s| - 1] != a[i - 1] {
        CellBounds(a, b, i - 1, j, s);
      } else {
        CellBounds(a, b, i, j - 1, s);
      }
    }
  }

  /** Some common subsequence attains it. */
  lemma {:induction false} CellAttained(a: seq<string>, b: seq<string>, i: nat, j: nat) returns (s: seq<string>)
    requires i <= |a| && j <= |b|
    ensures Common(s, a[..i], b[..j]) && |s| == Cell(a, b, i, j)
    decreases i + j
  {
    if i == 0 || j == 0 {
      s := [];
    } else {
      assert a[..i][..i - 1] == a[..i - 1] && b[..j][..j - 1] == b[..j - 1];
      if a[i - 1] == b[j - 1] {
        var t := CellAttained(a, b, i - 1, j - 1);
        s := t + [a[i - 1]];
        assert s[..|s| - 1] == t;
      } else if Cell(a, b, i - 1, j) >= Cell(a, b, i, j - 1) {
        s := CellAttained(a, b, i - 1, j);
        Weaken(s, a[..i]);
      } else {
        s := CellAttained(a, b, i, j - 1);
        Weaken(s, b[..j]);
      }
    }
  }

  /** The recurrence computes the maximum over all common subsequences. */
  lemma CellIsLongest(a: seq<string>, b: seq<string>, i: nat, j: nat)
    requires i <= |a| && j <= |b|
    ensures Longest(a[..i], b[..j], Cell(a, b, i, j))
  {
    var s := CellAttained(a, b, i, j);
    forall s | Common(s, a[..i], b[..j]) ensures |s| <= Cell(a, b, i, j) {
      CellBounds(a, b, i, j, s);
    }
  }

  // ---------------------------------------------------------------- the table

  ghost predicate Filled(table: array2<nat>, a: seq<string>, b: seq<string>)
    reads table
  {
    && table.Length0 == |a| + 1 && table.Length1 == |b| + 1
    && forall i, j :: 0 <= i <= |a| && 0 <= j <= |b| ==> table[i, j] == Cell(a, b, i, j)
  }

  ghost predicate RowsFilled(table: array2<nat>, a: seq<string>, b: seq<string>, rows: nat)
    requires table.Length0 == |a| + 1 && table.Length1 == |b| + 1
    reads table
  {
    && (forall i, j :: 0 <= i < rows && i <= |a| && 0 <= j <= |b| ==> table[i, j] == Cell(a, b, i, j))
    && forall i :: 0 <= i <= |a| ==> table[i, 0] == 0
  }

  /** The inner loop: row i from the row above it. */
  method FillRow(table: array2<nat>, a: seq<string>, b: seq<string>, i: nat)
    requires table.Length0 == |a| + 1 && table.Length1 == |b| + 1 && 0 < i <= |a|
    requires RowsFilled(table, a, b, i)
    modifies table
    ensures RowsFilled(table, a, b, i + 1)
  {
    for j := 1 to |b| + 1
      invariant RowsFilled(table, a, b, i)
      invariant forall q :: 0 <= q < j ==> table[i, q] == Cell(a, b, i, q)
    {
      if a[i - 1] == b[j - 1] {
        table[i, j] := table[i - 1, j - 1] + 1;
      } else if table[i - 1, j] >= table[i, j - 1] {
        table[i, j] := table[i - 1, j];
      } else {
        table[i, j] := table[i, j - 1];
      }
    }
  }

  /** lcsTable: filled row by row. */
  method LcsTable(a: seq<string>, b: seq<string>) returns (table: array2<nat>)
    ensures fresh(table) && Filled(table, a, b)
  {
    table := new nat[|a| + 1, |b| + 1]((i, j) => 0);
    for i := 1 to |a| + 1
      invariant RowsFilled(table, a, b, i)
    {
      FillRow(table, a, b, i);
    }
  }

  // ---------------------------------------------------------------- edit scripts

  /** The lines a script takes from the base: equal and removed ones. */
  function BaseOf(lines: seq<DiffLine>): seq<string> {
    if lines == [] then []
    else (if lines[0].kind == Added then [] else [lines[0].text]) + BaseOf(lines[1..])
  }

  /** The lines a script produces: equal and added ones. */
  function ProposedOf(lines: seq<DiffLine>): seq<string> {
    if lines == [] then []
    else (if lines[0].kind == Removed then [] else [lines[0].text]) + ProposedOf(lines[1..])
  }

  function Kept(lines: seq<DiffLine>): seq<string> {
    if lines == [] then []
    else (if lines[0].kind == Equal then [lines[0].text] else []) + Kept(lines[1..])
  }

  function Count(lines: seq<DiffLine>, k: Kind): nat {
    if lines == [] then 0 else (if lines[0].kind == k then 1 else 0) + Count(lines[1..], k)
  }

  /** A script from a to b. */
  predicate IsScript(lines: seq<DiffLine>, a: seq<string>, b: seq<string>) {
    BaseOf(lines) == a && ProposedOf(lines) == b
  }

  lemma {:induction false} SubsequenceCons(x: string, s: seq<string>, t: seq<string>)
    requires Subsequence(s, t)
    ensures Subsequence([x] + s, [x] + t) && Subsequence(s, [x] + t)
    decreases |t|
  {
    if s == [] {
      PrefixSubsequence([x], t);
      assert [x] + s == [x];
    } else {
      var n := |t| - 1;
      assert ([x] + t)[..n + 1] == [x] + t[..n];
      assert ([x] + s)[..|s|] == [x] + s[..|s| - 1];
      if s[|s| - 1] == t[n] && Subsequence(s[..|s| - 1], t[..n]) {
        SubsequenceCons(x, s[..|s| - 1], t[..n]);
      } else {
        SubsequenceCons(x, s, t[..n]);
      }
    }
  }

  lemma {:induction false} PrefixSubsequence(p: seq<string>, t: seq<string>)
    requires |p| == 1
    ensures Subsequence(p, p + t)
  {
    if t == [] {
      assert p + t == p;
      assert Subsequence(p[..0], p[..0]);
    } else {
      PrefixSubsequence(p, t[..|t| - 1]);
      assert (p + t)[..|p + t| - 1] == p + t[..|t| - 1];
    }
  }

  lemma KeptStep(lines: seq<DiffLine>)
    requires lines != []
    ensures var x, rest := lines[0].text, lines[1..];
            match lines[0].kind
            case Equal => Kept(lines) == [x] + Kept(rest) && BaseOf(lines) == [x] + BaseOf(rest) &&
                          ProposedOf(lines) == [x] + ProposedOf(rest)
            case Removed => Kept(lines) == Kept(rest) && BaseOf(lines) == [x] + BaseOf(rest) && ProposedOf(lines) == ProposedOf(rest)
            case Added => Kept(lines) == Kept(rest) && BaseOf(lines) == BaseOf(rest) && ProposedOf(lines) == [x] + ProposedOf(rest)
  {
  }

  /** What a script keeps is common to both sides, and its length tells how many lines it adds and removes. */
  lemma {:induction false} KeptIsCommon(lines: seq<DiffLine>)
    ensures Common(Kept(lines), BaseOf(lines), ProposedOf(lines))
    ensures |BaseOf(lines)| == |Kept(lines)| + Count(lines, Removed)
    ensures |ProposedOf(lines)| == |Kept(lines)| + Count(lines, Added)
  {
    if lines != [] {
      KeptIsCommon(lines[1..]);
      KeptStep(lines);
      SubsequenceCons(lines[0].text, Kept(lines[1..]), BaseOf(lines[1..]));
      SubsequenceCons(lines[0].text, Kept(lines[1..]), ProposedOf(lines[1..]));
    }
  }

  /** A script that keeps a longest common subsequence adds and removes as little as any script can. */
  lemma FewestEdits(lines: seq<DiffLine>, other: seq<DiffLine>, a: seq<string>, b: seq<string>)
    requires IsScript(lines, a, b) && IsScript(other, a, b) && |Kept(lines)| == Cell(a, b, |a|, |b|)
    ensures Count(lines, Added) + Count(lines, Removed) <= Count(other, Added) + Count(other, Removed)
  {
    KeptIsCommon(lines);
    KeptIsCommon(other);
    TakeAll(a);
    TakeAll(b);
    CellBounds(a, b, |a|, |b|, Kept(other));
  }

  /** The state of the backtrack: the script so far, in order, covers the lines from i and j on, and the table still
      promises the rest of a longest common subsequence. */
  ghost predicate Backtracked(a: seq<string>, b: seq<string>, i: nat, j: nat, script: seq<DiffLine>, summary: Summary) {
    && i <= |a| && j <= |b|
    && IsScript(script, a[i..], b[j..])
    && |Kept(script)| + Cell(a, b, i, j) == Cell(a, b, |a|, |b|)
    && summary == Summary(Count(script, Added), Count(script, Removed))
  }

  lemma BacktrackStep(a: seq<string>, b: seq<string>, i: nat, j: nat, script: seq<DiffLine>, summary: Summary, kind: Kind)
    requires Backtracked(a, b, i, j, script, summary)
    requires match kind
             case Equal => i > 0 && j > 0 && a[i - 1] == b[j - 1]
             case Removed => i > 0 && Cell(a, b, i, j) == Cell(a, b, i - 1, j)
             case Added => j > 0 && Cell(a, b, i, j) == Cell(a, b, i, j - 1)
    ensures match kind
            case Equal => Backtracked(a, b, i - 1, j - 1, [DiffLine(Equal, a[i - 1])] + script, summary)
            case Removed =>
              Backtracked(a, b, i - 1, j, [DiffLine(Removed, a[i - 1])] + script, summary.(removed := summary.removed + 1))
            case Added =>
              Backtracked(a, b, i, j - 1, [DiffLine(Added, b[j - 1])] + script, summary.(added := summary.added + 1))
  {
    var l := DiffLine(kind, if kind == Added then b[j - 1] else a[i - 1]);
    assert ([l] + script)[1..] == script;
    if kind != Added {
      assert a[i - 1..] == [a[i - 1]] + a[i..];
    }
    if kind != Removed {
      assert b[j - 1..] == [b[j - 1]] + b[j..];
    }
  }

  ghost predicate Mirrored(reversed: seq<DiffLine>, script: seq<DiffLine>) {
    |reversed| == |script| && forall k :: 0 <= k < |script| ==> script[k] == reversed[|reversed| - 1 - k]
  }

  lemma MirrorPush(reversed: seq<DiffLine>, script: seq<DiffLine>, l: DiffLine)
    requires Mirrored(reversed, script)
    ensures Mirrored(reversed + [l], [l] + script)
  {
  }

  /** The first backtracking loop: until one of the documents is used up. */
  method Backtrack(lcs: array2<nat>, a: seq<string>, b: seq<string>)
    returns (i: nat, j: nat, reversed: seq<DiffLine>, summary: Summary, ghost script: seq<DiffLine>)
    requires Filled(lcs, a, b)
    ensures Backtracked(a, b, i, j, script, summary) && Mirrored(reversed, script) && (i == 0 || j == 0)
  {
    summary := Summary(0, 0);
    i, j, reversed, script := |a|, |b|, [], [];
    while i > 0 && j > 0
      invariant Backtracked(a, b, i, j, script, summary) && Mirrored(reversed, script)
      decreases i + j
    {
      var l;
      if a[i - 1] == b[j - 1] {
        BacktrackStep(a, b, i, j, script, summary, Equal);
        l := DiffLine(Equal, a[i - 1]);
        i, j := i - 1, j - 1;
      } else if lcs[i - 1, j] >= lcs[i, j - 1] {
        BacktrackStep(a, b, i, j, script, summary, Removed);
        l := DiffLine(Removed, a[i - 1]);
        summary := summary.(removed := summary.removed + 1);
        i := i - 1;
      } else {
        BacktrackStep(a, b, i, j, script, summary, Added);
        l := DiffLine(Added, b[j - 1]);
        summary := summary.(added := summary.added + 1);
        j := j - 1;
      }
      MirrorPush(reversed, script, l);
      reversed, script := reversed + [l], [l] + script;
    }
  }

  /** The reversal: position k goes to position len - 1 - k. */
  method ReverseLines(reversed: seq<DiffLine>) returns (lines: seq<DiffLine>)
    ensures Mirrored(reversed, lines)
  {
    var n := |reversed|;
    var out := new DiffLine[n];
    for k := 0 to n
      invariant forall m :: n - k <= m < n ==> out[m] == reversed[n - 1 - m]
    {
      out[n - 1 - k] := reversed[k];
    }
    lines := out[..];
  }

  /** DiffLines on the two line lists: backtrack from the far corner, take what is left of either side, reverse. */
  method DiffSplit(a: seq<string>, b: seq<string>) returns (lines: seq<DiffLine>, summary: Summary)
    ensures IsScript(lines, a, b)
    ensures |Kept(lines)| == Cell(a, b, |a|, |b|)
    ensures summary == Summary(Count(lines, Added), Count(lines, Removed))
  {
    var lcs := LcsTable(a, b);
    var i, j, reversed, sum, script := Backtrack(lcs, a, b);
    summary := sum;
    while i > 0
      invariant Backtracked(a, b, i, j, script, summary) && Mirrored(reversed, script) && (i == 0 || j == 0)
    {
      BacktrackStep(a, b, i, j, script, summary, Removed);
      MirrorPush(reversed, script, DiffLine(Removed, a[i - 1]));
      script := [DiffLine(Removed, a[i - 1])] + script;
      reversed := reversed + [DiffLine(Removed, a[i - 1])];
      summary := summary.(removed := summary.removed + 1);
      i := i - 1;
    }
    while j > 0
      invariant Backtracked(a, b, i, j, script, summary) && Mirrored(reversed, script) && i == 0
    {
      BacktrackStep(a, b, i, j, script, summary, Added);
      MirrorPush(reversed, script, DiffLine(Added, b[j - 1]));
      script := [DiffLine(Added, b[j - 1])] + script;
      reversed := reversed + [DiffLine(Added, b[j - 1])];
      summary := summary.(added := summary.added + 1);
      j := j - 1;
    }
    assert a[0..] == a && b[0..] == b;
    lines := ReverseLines(reversed);
    assert lines == script;
  }

  // ---------------------------------------------------------------- whole documents

  /** splitLines: the empty document has no lines. */
  function SplitLines(s: string): seq<string> {
    if s == "" then [] else Split(s)
  }

  lemma SplitLinesJoin(s: string)
    ensures Join(SplitLines(s)) == s && AllOneLine(SplitLines(s))
  {
    SplitPieces(s);
  }

  /** DiffLines: nothing is lost, the counts are right, the kept lines are a longest common subsequence, and no script
      between the two documents is smaller. */
  method DiffLines(base: string, proposed: string) returns (lines: seq<DiffLine>, summary: Summary)
    ensures Join(BaseOf(lines)) == base && Join(ProposedOf(lines)) == proposed
    ensures IsScript(lines, SplitLines(base), SplitLines(proposed))
    ensures summary == Summary(Count(lines, Added), Count(lines, Removed))
    ensures Common(Kept(lines), SplitLines(base), SplitLines(proposed))
    ensures Longest(SplitLines(base), SplitLines(proposed), |Kept(lines)|)
    ensures forall other :: IsScript(other, SplitLines(base), SplitLines(proposed)) ==>
              summary.added + summary.removed <= Count(other, Added) + Count(other, Removed)
  {
    var a := SplitLines(base);
    var b := SplitLines(proposed);
    lines, summary := DiffSplit(a, b);
    SplitLinesJoin(base);
    SplitLinesJoin(proposed);
    KeptIsCommon(lines);
    CellIsLongest(a, b, |a|, |b|);
    TakeAll(a);
    TakeAll(b);
    forall other | IsScript(other, a, b)
      ensures summary.added + summary.removed <= Count(other, Added) + Count(other, Removed)
    {
      FewestEdits(lines, other, a, b);
    }
  }

  // ---------------------------------------------------------------- the patch

  function Mark(k: Kind): char {
    match k case Added => '+' case Removed => '-' case Equal => ' '
  }

  function Marked(lines: seq<DiffLine>): seq<string> {
    seq(|lines|, i requires 0 <= i < |lines| => [Mark(lines[i].kind)] + lines[i].text)
  }

  /** UnifiedDiff: every line after its mark. */
  method UnifiedDiff(lines: seq<DiffLine>) returns (patch: string)
    ensures patch == Terminate(Marked(lines))
  {
    patch := "";
    for i := 0 to |lines|
      invariant patch == Terminate(Marked(lines[..i]))
    {
      TakeSnoc(lines, i);
      assert Marked(lines[..i + 1]) == Marked(lines[..i]) + [[Mark(lines[i].kind)] + lines[i].text];
      TerminateSnoc(Marked(lines[..i]), [Mark(lines[i].kind)] + lines[i].text);
      match lines[i].kind
      case Added => patch := patch + "+" + lines[i].text + "\n";
      case Removed => patch := patch + "-" + lines[i].text + "\n";
      case Equal => patch := patch + " " + lines[i].text + "\n";
    }
    TakeAll(lines);
  }

  /** Reading one patch line back by its first character. */
  function ParseLine(s: string): Option<DiffLine> {
    if s == "" then None
    else if s[0] == '+' then Some(DiffLine(Added, s[1..]))
    else if s[0] == '-' then Some(DiffLine(Removed, s[1..]))
    else if s[0] == ' ' then Some(DiffLine(Equal, s[1..]))
    else None
  }

  function ParseAll(pieces: seq<string>): Option<seq<DiffLine>> {
    if pieces == [] then Some([])
    else
      match (ParseLine(pieces[0]), ParseAll(pieces[1..]))
      case (Some(l), Some(rest)) => Some([l] + rest)
      case _ => None
  }

  /** A patch text: newline-terminated lines, each marked. */
  function ParsePatch(patch: string): Option<seq<DiffLine>> {
    var pieces := Split(patch);
    if pieces[|pieces| - 1] != "" then None else ParseAll(pieces[..|pieces| - 1])
  }

  /** Applying a script checks every kept and removed line against the base. */
  function ApplyScript(lines: seq<DiffLine>, base: seq<string>): Option<seq<string>>
    decreases |lines|
  {
    if lines == [] then if base == [] then Some([]) else None
    else if lines[0].kind == Added then
      match ApplyScript(lines[1..], base) case Some(rest) => Some([lines[0].text] + rest) case None => None
    else if base == [] || base[0] != lines[0].text then None
    else
      match ApplyScript(lines[1..], base[1..])
      case Some(rest) => Some(if lines[0].kind == Equal then [lines[0].text] + rest else rest)
      case None => None
  }

  function ApplyPatch(patch: string, base: string): Option<string> {
    match ParsePatch(patch)
    case None => None
    case Some(lines) => match ApplyScript(lines, SplitLines(base)) case None => None case Some(out) => Some(Join(out))
  }

  lemma {:induction false} ParseMarked(lines: seq<DiffLine>)
    ensures ParseAll(Marked(lines)) == Some(lines)
  {
    if lines != [] {
      ParseMarked(lines[1..]);
      assert Marked(lines)[1..] == Marked(lines[1..]);
      assert lines == [lines[0]] + lines[1..];
    }
  }

  lemma {:induction false} ApplyOwnScript(lines: seq<DiffLine>)
    ensures ApplyScript(lines, BaseOf(lines)) == Some(ProposedOf(lines))
  {
    if lines != [] {
      ApplyOwnScript(lines[1..]);
      KeptStep(lines);
      if lines[0].kind != Added {
        assert BaseOf(lines)[1..] == BaseOf(lines[1..]);
      }
    }
  }

  lemma {:induction false} ScriptTexts(lines: seq<DiffLine>)
    requires AllOneLine(BaseOf(lines)) && AllOneLine(ProposedOf(lines))
    ensures AllOneLine(Marked(lines))
  {
    if lines != [] {
      KeptStep(lines);
      TailOneLine(BaseOf(lines), lines[0].text, BaseOf(lines[1..]));
      TailOneLine(ProposedOf(lines), lines[0].text, ProposedOf(lines[1..]));
      ScriptTexts(lines[1..]);
      assert Marked(lines) == [[Mark(lines[0].kind)] + lines[0].text] + Marked(lines[1..]);
    }
  }

  lemma TailOneLine(all: seq<string>, x: string, rest: seq<string>)
    requires AllOneLine(all) && (all == rest || all == [x] + rest)
    ensures AllOneLine(rest) && (all == [x] + rest ==> OneLine(x))
  {
    if all == [x] + rest {
      assert OneLine(all[0]);
      assert forall i :: 0 <= i < |rest| ==> rest[i] == all[i + 1];
    }
  }

  /** Round trip: the printed patch parses back to the script, and applying it to the base text gives the proposed text,
      for every pair of texts. */
  lemma PatchRoundTrip(lines: seq<DiffLine>, base: string, proposed: string)
    requires IsScript(lines, SplitLines(base), SplitLines(proposed))
    ensures ParsePatch(Terminate(Marked(lines))) == Some(lines)
    ensures ApplyPatch(Terminate(Marked(lines)), base) == Some(proposed)
  {
    SplitLinesJoin(base);
    SplitLinesJoin(proposed);
    ScriptTexts(lines);
    SplitTerminated(Marked(lines));
    ParseMarked(lines);
    assert (Marked(lines) + [""])[..|lines|] == Marked(lines);
    ApplyOwnScript(lines);
  }

  /** The two together: the patch of any two documents turns the one into the other. */
  method PatchOf(base: string, proposed: string) returns (patch: string)
    ensures ApplyPatch(patch, base) == Some(proposed)
  {
    var lines, _ := DiffLines(base, proposed);
    patch := UnifiedDiff(lines);
    PatchRoundTrip(lines, base, proposed);
  }
}
