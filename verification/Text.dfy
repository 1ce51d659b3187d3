/** The pieces of Go's strings package the line-oriented code uses, on sequences of characters. */
module Text {
  import opened Core

  // ---------------------------------------------------------------- lines

  /** strings.Split(s, "\n"): always at least one piece. */
  function Split(s: string): (pieces: seq<string>)
    ensures |pieces| > 0
  {
    if s == "" then [""]
    else
      var rest := Split(s[1..]);
      if s[0] == '\n' then [""] + rest else [[s[0]] + rest[0]] + rest[1..]
  }

  /** strings.Join(lines, "\n"). */
  function Join(lines: seq<string>): string {
    if lines == [] then "" else if |lines| == 1 then lines[0] else lines[0] + "\n" + Join(lines[1..])
  }

  /** Every line followed by a newline. */
  function Terminate(lines: seq<string>): string {
    if lines == [] then "" else lines[0] + "\n" + Terminate(lines[1..])
  }

  ghost predicate OneLine(s: string) {
    '\n' !in s
  }

  ghost predicate AllOneLine(lines: seq<string>) {
    forall i :: 0 <= i < |lines| ==> OneLine(lines[i])
  }

  lemma {:induction false} SplitPieces(s: string)
    ensures AllOneLine(Split(s))
    ensures Join(Split(s)) == s
  {
    if s != "" {
      SplitPieces(s[1..]);
      var rest := Split(s[1..]);
      assert s == [s[0]] + s[1..];
      if s[0] != '\n' {
        var all := Split(s);
        assert all[1..] == rest[1..];
        forall i | 0 <= i < |all| ensures OneLine(all[i]) {
          assert OneLine(rest[i]);
        }
      } else {
        assert Split(s)[1..] == rest;
      }
    }
  }

  lemma {:induction false} SplitLine(x: string, rest: string)
    requires OneLine(x)
    ensures Split(x + "\n" + rest) == [x] + Split(rest)
    ensures Split(x) == [x]
  {
    if x == "" {
      assert "" + "\n" + rest == ['\n'] + rest;
      assert (['\n'] + rest)[1..] == rest;
    } else {
      SplitLine(x[1..], rest);
      var s := x + "\n" + rest;
      assert s[1..] == x[1..] + "\n" + rest;
      assert x == [x[0]] + x[1..];
    }
  }

  lemma {:induction false} SplitJoin(lines: seq<string>)
    requires lines != [] && AllOneLine(lines)
    ensures Split(Join(lines)) == lines
  {
    if |lines| == 1 {
      SplitLine(lines[0], "");
    } else {
      SplitLine(lines[0], Join(lines[1..]));
      SplitJoin(lines[1..]);
    }
  }

  lemma {:induction false} SplitTerminated(lines: seq<string>)
    requires AllOneLine(lines)
    ensures Split(Terminate(lines)) == lines + [""]
  {
    if lines != [] {
      SplitLine(lines[0], Terminate(lines[1..]));
      SplitTerminated(lines[1..]);
    }
  }

  lemma {:induction false} JoinTerminated(lines: seq<string>)
    requires lines != []
    ensures Join(lines) + "\n" == Terminate(lines)
  {
    if |lines| > 1 {
      JoinTerminated(lines[1..]);
      assert lines[0] + "\n" + Join(lines[1..]) + "\n" == lines[0] + "\n" + (Join(lines[1..]) + "\n");
    }
  }

  lemma {:induction false} TerminateSnoc(lines: seq<string>, x: string)
    ensures Terminate(lines + [x]) == Terminate(lines) + x + "\n"
  {
    if lines == [] {
      assert [] + [x] == [x];
    } else {
      TerminateSnoc(lines[1..], x);
      assert (lines + [x])[1..] == lines[1..] + [x];
      assert lines[0] + "\n" + (Terminate(lines[1..]) + x + "\n") == (lines[0] + "\n" + Terminate(lines[1..])) + x + "\n";
    }
  }

  // ---------------------------------------------------------------- trimming

  /** unicode.IsSpace. */
  predicate IsSpace(c: char) {
    || '\t' <= c <= '\r' || c == ' ' || c == '\U{85}' || c == '\U{A0}' || c == '\U{1680}'
    || '\U{2000}' <= c <= '\U{200A}' || c == '\U{2028}' || c == '\U{2029}' || c == '\U{202F}' || c == '\U{205F}'
    || c == '\U{3000}'
  }

  function TrimLeft(s: string): (r: string)
    ensures |r| <= |s|
  {
    if s != "" && IsSpace(s[0]) then TrimLeft(s[1..]) else s
  }

  function TrimRight(s: string): (r: string)
    ensures |r| <= |s|
  {
    if s != "" && IsSpace(s[|s| - 1]) then TrimRight(s[..|s| - 1]) else s
  }

  /** strings.TrimSpace. */
  function TrimSpace(s: string): string {
    TrimRight(TrimLeft(s))
  }

  /** strings.TrimRight(s, "\n"). */
  function TrimNewlines(s: string): string {
    if s != "" && s[|s| - 1] == '\n' then TrimNewlines(s[..|s| - 1]) else s
  }

  /** A text without outer white space. */
  predicate Trimmed(s: string) {
    s == "" || (!IsSpace(s[0]) && !IsSpace(s[|s| - 1]))
  }

  lemma {:induction false} TrimRightEnds(s: string)
    ensures TrimRight(s) <= s
    ensures TrimRight(s) == "" || !IsSpace(TrimRight(s)[|TrimRight(s)| - 1])
  {
    if s != "" && IsSpace(s[|s| - 1]) {
      TrimRightEnds(s[..|s| - 1]);
    }
  }

  lemma {:induction false} TrimLeftEnds(s: string)
    ensures TrimLeft(s) == "" || !IsSpace(TrimLeft(s)[0])
    ensures TrimLeft(s) == s[|s| - |TrimLeft(s)|..]
  {
    if s != "" && IsSpace(s[0]) {
      TrimLeftEnds(s[1..]);
    }
  }

  /** TrimSpace trims, keeps trimmed texts, and takes only a slice. */
  lemma TrimSpaceTrims(s: string)
    ensures Trimmed(TrimSpace(s))
    ensures Trimmed(s) ==> TrimSpace(s) == s
    ensures forall c :: c in TrimSpace(s) ==> c in s
  {
    TrimLeftEnds(s);
    TrimRightEnds(TrimLeft(s));
    var r := TrimSpace(s);
    if r != "" {
      assert r[0] == TrimLeft(s)[0];
    }
  }
}
