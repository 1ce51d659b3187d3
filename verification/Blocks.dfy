/** Block extraction (internal/artifact/blockid.go:28-85) over lines already told apart: markers, headings, other text. */
module Blocks {
  import opened Core
  import opened Text

  type Level = n: nat | 1 <= n <= 6 witness 1

  datatype Line = Marker(id: string) | Heading(level: Level, title: string) | Plain(text: string)

  datatype Entry = Entry(level: Level, title: string)

  datatype Block = Block(path: seq<string>, content: string)

  // ---------------------------------------------------------------- what a position sees

  /** Heading k still encloses position i: no heading of its level or a smaller one came in between. */
  predicate Encloses(lines: seq<Line>, i: nat, k: nat)
    requires k < i <= |lines|
  {
    lines[k].Heading? && forall m :: k < m < i && lines[m].Heading? ==> lines[m].level > lines[k].level
  }

  /** The headings before k that enclose position i, outermost first. */
  function Outline(lines: seq<Line>, i: nat, k: nat): seq<Entry>
    requires k <= i <= |lines|
  {
    if k == 0 then []
    else Outline(lines, i, k - 1) +
         if Encloses(lines, i, k - 1) then [Entry(lines[k - 1].level, lines[k - 1].title)] else []
  }

  function Titles(stack: seq<Entry>): seq<string> {
    seq(|stack|, i requires 0 <= i < |stack| => stack[i].title)
  }

  /** The text from line k to the next marker or heading of any level. */
  function Body(lines: seq<Line>, k: nat): string
    requires k <= |lines|
    decreases |lines| - k
  {
    if k == |lines| || !lines[k].Plain? then "" else lines[k].text + "\n" + Body(lines, k + 1)
  }

  /** The block a marker at line k opens. */
  function BlockAt(lines: seq<Line>, k: nat): Block
    requires k < |lines|
  {
    Block(Titles(Outline(lines, k, k)), TrimNewlines(Body(lines, k + 1)))
  }

  ghost predicate Marks(lines: seq<Line>, k: int, id: string) {
    0 <= k < |lines| && lines[k] == Marker(id)
  }

  ghost predicate MarkedBefore(lines: seq<Line>, n: nat, id: string) {
    exists k :: k < n && Marks(lines, k, id)
  }

  /** Line k is the last marker of `id` before line n. */
  ghost predicate LastMark(lines: seq<Line>, n: nat, k: int, id: string) {
    k < n && Marks(lines, k, id) && forall m :: k < m < n ==> !Marks(lines, m, id)
  }

  /** Exactly the marked ids have a block, and the last marker of an id gives it. */
  ghost predicate Captured(blocks: map<string, Block>, lines: seq<Line>, n: nat) {
    && (forall id :: id in blocks <==> MarkedBefore(lines, n, id))
    && forall k, id :: LastMark(lines, n, k, id) ==> id in blocks && blocks[id] == BlockAt(lines, k)
  }

  // ---------------------------------------------------------------- the heading stack

  ghost predicate Increasing(stack: seq<Entry>) {
    forall i, j :: 0 <= i < j < |stack| ==> stack[i].level < stack[j].level
  }

  /** The enclosing headings' levels strictly increase inwards. */
  lemma {:induction false} OutlineIncreases(lines: seq<Line>, i: nat, k: nat)
    requires k <= i <= |lines|
    ensures Increasing(Outline(lines, i, k))
    ensures forall m :: k <= m < i && Encloses(lines, i, m) ==>
              forall p :: 0 <= p < |Outline(lines, i, k)| ==> Outline(lines, i, k)[p].level < lines[m].level
  {
    if k > 0 {
      OutlineIncreases(lines, i, k - 1);
    }
  }

  /** The entries of a level below `level`. */
  function Below(stack: seq<Entry>, level: Level): seq<Entry> {
    if stack == [] then []
    else Below(stack[..|stack| - 1], level) + if stack[|stack| - 1].level < level then [stack[|stack| - 1]] else []
  }

  /** Passing a heading leaves the enclosing headings of smaller levels. */
  lemma {:induction false} OutlinePastHeading(lines: seq<Line>, i: nat, k: nat)
    requires k <= i < |lines| && lines[i].Heading?
    ensures Outline(lines, i + 1, k) == Below(Outline(lines, i, k), lines[i].level)
  {
    if k > 0 {
      OutlinePastHeading(lines, i, k - 1);
      assert Encloses(lines, i + 1, k - 1) <==> Encloses(lines, i, k - 1) && lines[k - 1].level < lines[i].level;
      var was := Outline(lines, i, k);
      if Encloses(lines, i, k - 1) {
        assert was[..|was| - 1] == Outline(lines, i, k - 1);
      } else {
        assert was == Outline(lines, i, k - 1);
      }
    }
  }

  lemma {:induction false} OutlinePastOther(lines: seq<Line>, i: nat, k: nat)
    requires k <= i < |lines| && !lines[i].Heading?
    ensures Outline(lines, i + 1, k) == Outline(lines, i, k)
  {
    if k > 0 {
      OutlinePastOther(lines, i, k - 1);
      assert Encloses(lines, i + 1, k - 1) <==> Encloses(lines, i, k - 1);
    }
  }

  lemma {:induction false} AllBelow(stack: seq<Entry>, level: Level)
    requires forall p :: 0 <= p < |stack| ==> stack[p].level < level
    ensures Below(stack, level) == stack
  {
    if stack != [] {
      AllBelow(stack[..|stack| - 1], level);
    }
  }

  /** The popping loop: on an increasing stack, dropping entries from the end until a smaller level shows is the same as
      keeping the smaller levels. */
  method PopStack(stack: seq<Entry>, level: Level) returns (left: seq<Entry>)
    requires Increasing(stack)
    ensures left == Below(stack, level)
  {
    left := stack;
    while |left| > 0 && left[|left| - 1].level >= level
      invariant left <= stack && Below(left, level) == Below(stack, level)
    {
      left := left[..|left| - 1];
    }
    AllBelow(left, level);
  }

  // ---------------------------------------------------------------- the open block

  datatype Open = Open(id: string, path: seq<string>, content: string)

  /** The block opened at line k, with the text of the lines up to i. */
  ghost predicate Collecting(lines: seq<Line>, i: nat, k: nat, open: Open)
    requires i <= |lines|
  {
    && k < i && Marks(lines, k, open.id)
    && (forall m :: k < m < i ==> lines[m].Plain?)
    && open.path == Titles(Outline(lines, k, k))
    && Body(lines, k + 1) == open.content + Body(lines, i)
  }

  /** Where the blocks already stored reach to. */
  function Reach(i: nat, k: nat, current: Option<Open>): nat {
    if current.Some? then k else i
  }

  ghost predicate Scanning(lines: seq<Line>, i: nat, k: nat, current: Option<Open>, blocks: map<string, Block>)
    requires i <= |lines|
  {
    && (current.Some? ==> Collecting(lines, i, k, current.value))
    && Reach(i, k, current) <= |lines| && Captured(blocks, lines, Reach(i, k, current))
  }

  lemma Stored(blocks: map<string, Block>, lines: seq<Line>, k: nat, i: nat, id: string)
    requires Captured(blocks, lines, k) && k < i <= |lines| && Marks(lines, k, id)
    requires forall m :: k < m < i ==> lines[m].Plain?
    ensures Captured(blocks[id := BlockAt(lines, k)], lines, i)
  {
    var blocks' := blocks[id := BlockAt(lines, k)];
    forall x ensures x in blocks' <==> MarkedBefore(lines, i, x) {
      if MarkedBefore(lines, i, x) {
        var m :| m < i && Marks(lines, m, x);
        assert m <= k;
        assert m < k ==> MarkedBefore(lines, k, x);
      }
      if MarkedBefore(lines, k, x) {
        var m :| m < k && Marks(lines, m, x);
        assert m < i;
      }
    }
    forall m, x | LastMark(lines, i, m, x) ensures x in blocks' && blocks'[x] == BlockAt(lines, m) {
      assert m <= k;
      if m < k {
        assert LastMark(lines, k, m, x) && x != id;
      }
    }
  }

  /** flush: store the open block, if any. */
  method Flush(current: Option<Open>, blocks: map<string, Block>, ghost lines: seq<Line>, ghost i: nat, ghost k: nat)
    returns (blocks': map<string, Block>)
    requires i <= |lines| && (i < |lines| ==> !lines[i].Plain?)
    requires Scanning(lines, i, k, current, blocks)
    ensures Captured(blocks', lines, i)
  {
    if current.None? {
      return blocks;
    }
    var open := current.value;
    blocks' := blocks[open.id := Block(open.path, TrimNewlines(open.content))];
    assert open.content + "" == open.content;
    Stored(blocks, lines, k, i, open.id);
  }

  lemma MarkerOpens(blocks: map<string, Block>, lines: seq<Line>, i: nat)
    requires i < |lines| && lines[i].Marker? && Captured(blocks, lines, i)
    ensures Scanning(lines, i + 1, i, Some(Open(lines[i].id, Titles(Outline(lines, i, i)), "")), blocks)
  {
    assert "" + Body(lines, i + 1) == Body(lines, i + 1);
  }

  /** A line that is no marker marks nothing. */
  lemma OtherMarksNothing(blocks: map<string, Block>, lines: seq<Line>, i: nat)
    requires i < |lines| && !lines[i].Marker? && Captured(blocks, lines, i)
    ensures Captured(blocks, lines, i + 1)
  {
    forall id ensures MarkedBefore(lines, i + 1, id) <==> MarkedBefore(lines, i, id) {
      if MarkedBefore(lines, i + 1, id) {
        var k :| k < i + 1 && Marks(lines, k, id);
        assert k < i;
      }
      if MarkedBefore(lines, i, id) {
        var k :| k < i && Marks(lines, k, id);
        assert k < i + 1;
      }
    }
    forall k, id | LastMark(lines, i + 1, k, id) ensures id in blocks && blocks[id] == BlockAt(lines, k) {
      assert LastMark(lines, i, k, id);
    }
  }

  lemma PlainCollects(lines: seq<Line>, i: nat, k: nat, open: Open)
    requires i < |lines| && lines[i].Plain? && Collecting(lines, i, k, open)
    ensures Collecting(lines, i + 1, k, open.(content := open.content + lines[i].text + "\n"))
  {
    assert open.content + (lines[i].text + "\n" + Body(lines, i + 1)) ==
           open.content + lines[i].text + "\n" + Body(lines, i + 1);
  }

  /** ExtractBlocks: one pass with a heading stack and the block being collected. currentLevel stays 99 while a block is
      open, so every heading closes it. */
  method ExtractBlocks(lines: seq<Line>) returns (blocks: map<string, Block>)
    ensures Captured(blocks, lines, |lines|)
  {
    blocks := map[];
    var stack: seq<Entry> := [];
    var current: Option<Open> := None;
    var currentLevel := 0;
    ghost var k: nat := 0;
    for i := 0 to |lines|
      invariant stack == Outline(lines, i, i)
      invariant Scanning(lines, i, k, current, blocks)
      invariant current.Some? ==> currentLevel == 99
    {
      match lines[i]
      case Marker(id) =>
        blocks := Flush(current, blocks, lines, i, k);
        MarkerOpens(blocks, lines, i);
        OutlinePastOther(lines, i, i);
        current, k := Some(Open(id, Titles(stack), "")), i;
        currentLevel := 99;
      case Heading(level, title) =>
        if current.Some? && level <= currentLevel {
          blocks := Flush(current, blocks, lines, i, k);
          current := None;
        }
        OtherMarksNothing(blocks, lines, i);
        OutlineIncreases(lines, i, i);
        OutlinePastHeading(lines, i, i);
        stack := PopStack(stack, level);
        stack := stack + [Entry(level, title)];
        if current.Some? {
          currentLevel := level;
        }
      case Plain(text) =>
        OutlinePastOther(lines, i, i);
        if current.Some? {
          PlainCollects(lines, i, k, current.value);
          current := Some(current.value.(content := current.value.content + text + "\n"));
        } else {
          OtherMarksNothing(blocks, lines, i);
        }
    }
    blocks := Flush(current, blocks, lines, |lines|, k);
  }

  // ---------------------------------------------------------------- code and documentation

  /** A marker's nesting level: that of the innermost heading around it, 0 under no heading. */
  function Nesting(lines: seq<Line>, k: nat): nat
    requires k <= |lines|
  {
    var stack := Outline(lines, k, k);
    if stack == [] then 0 else stack[|stack| - 1].level
  }

  /** The documented extent: a heading deeper than `level` does not end the block. */
  function BodyWithin(lines: seq<Line>, k: nat, level: nat): string
    requires k <= |lines|
    decreases |lines| - k
  {
    if k == |lines| || lines[k].Marker? || (lines[k].Heading? && lines[k].level <= level) then ""
    else if lines[k].Heading? then BodyWithin(lines, k + 1, level)
    else lines[k].text + "\n" + BodyWithin(lines, k + 1, level)
  }

  /** Nothing but newlines. */
  predicate Blank(s: string) {
    forall i :: 0 <= i < |s| ==> s[i] == '\n'
  }

  /** Every plain line before the next marker or heading of level at most `level` is blank. */
  predicate AllBlank(lines: seq<Line>, k: nat, level: nat)
    requires k <= |lines|
    decreases |lines| - k
  {
    || k == |lines| || lines[k].Marker? || (lines[k].Heading? && lines[k].level <= level)
    || ((lines[k].Plain? ==> Blank(lines[k].text)) && AllBlank(lines, k + 1, level))
  }

  /** Every plain line of the documented extent that comes after a deeper heading is blank. */
  predicate BlankBelow(lines: seq<Line>, k: nat, level: nat)
    requires k <= |lines|
    decreases |lines| - k
  {
    if k == |lines| || !lines[k].Plain? then AllBlank(lines, k, level) else BlankBelow(lines, k + 1, level)
  }

  /** The part of the documented extent from the first deeper heading on. */
  function Rest(lines: seq<Line>, k: nat, level: nat): string
    requires k <= |lines|
    decreases |lines| - k
  {
    if k < |lines| && lines[k].Plain? then Rest(lines, k + 1, level) else BodyWithin(lines, k, level)
  }

  lemma BlankConcat(a: string, b: string)
    ensures Blank(a + b) <==> Blank(a) && Blank(b)
  {
    assert forall i :: 0 <= i < |a| ==> (a + b)[i] == a[i];
    assert forall i :: 0 <= i < |b| ==> (a + b)[|a| + i] == b[i];
  }

  lemma {:induction false} BlankBody(lines: seq<Line>, k: nat, level: nat)
    requires k <= |lines|
    ensures Blank(BodyWithin(lines, k, level)) <==> AllBlank(lines, k, level)
    decreases |lines| - k
  {
    if !(k == |lines| || lines[k].Marker? || (lines[k].Heading? && lines[k].level <= level)) {
      BlankBody(lines, k + 1, level);
      if lines[k].Plain? {
        BlankConcat(lines[k].text, "\n");
        BlankConcat(lines[k].text + "\n", BodyWithin(lines, k + 1, level));
      }
    }
  }

  lemma {:induction false} ExtentSplits(lines: seq<Line>, k: nat, level: nat)
    requires k <= |lines|
    ensures BodyWithin(lines, k, level) == Body(lines, k) + Rest(lines, k, level)
    ensures Blank(Rest(lines, k, level)) <==> BlankBelow(lines, k, level)
    decreases |lines| - k
  {
    if k < |lines| && lines[k].Plain? {
      ExtentSplits(lines, k + 1, level);
    } else {
      BlankBody(lines, k, level);
    }
  }

  /** Trimming takes an ending off exactly when the ending is blank. */
  lemma {:induction false} TrimsBlank(a: string, b: string)
    ensures TrimNewlines(a + b) == TrimNewlines(a) <==> Blank(b)
    decreases |b|
  {
    if b == "" {
      assert a + b == a;
    } else {
      var n := |b| - 1;
      assert a + b == a + b[..n] + [b[n]] && b == b[..n] + [b[n]];
      BlankConcat(b[..n], [b[n]]);
      if b[n] == '\n' {
        assert (a + b)[..|a + b| - 1] == a + b[..n];
        TrimsBlank(a, b[..n]);
      } else {
        TrimShortens(a);
      }
    }
  }

  lemma {:induction false} TrimShortens(s: string)
    ensures |TrimNewlines(s)| <= |s|
  {
    if s != "" {
      TrimShortens(s[..|s| - 1]);
    }
  }

  /** The content the code gives a marker's block is that of the documented extent, up to the next marker or heading at or
      above the marker's own level, exactly when every line of it that comes after a deeper heading is blank. */
  lemma DocumentedExtent(lines: seq<Line>, k: nat)
    requires k < |lines|
    ensures BlockAt(lines, k).content == TrimNewlines(BodyWithin(lines, k + 1, Nesting(lines, k))) <==>
            BlankBelow(lines, k + 1, Nesting(lines, k))
  {
    ExtentSplits(lines, k + 1, Nesting(lines, k));
    TrimsBlank(Body(lines, k + 1), Rest(lines, k + 1, Nesting(lines, k)));
  }

  /** An input where they differ: text under a subheading. */
  lemma DocumentedExtentFails()
    ensures var lines := [Heading(1, "A"), Marker("m"), Heading(2, "B"), Plain("x")];
            BlockAt(lines, 1).content == "" && TrimNewlines(BodyWithin(lines, 2, Nesting(lines, 1))) == "x"
  {
    var lines := [Heading(1, "A"), Marker("m"), Heading(2, "B"), Plain("x")];
    assert Encloses(lines, 1, 0);
    assert Outline(lines, 1, 0) == [];
    assert Outline(lines, 1, 1) == [Entry(1, "A")];
    assert BodyWithin(lines, 4, 1) == "";
    assert BodyWithin(lines, 3, 1) == "x" + "\n" + "" == "x\n";
    assert TrimNewlines("x") == "x" && "x\n"[..1] == "x";
  }
}
