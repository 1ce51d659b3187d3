/** The credential file: persistEnvValues writes it (cmd/punakawan/setup.go:255-349) and parseEnvFile reads it back
    (cmd/punakawan/doctor_cmd.go:551-577). */
module EnvFile {
  import opened Core
  import opened Text
  import opened EnvEntries

  // ---------------------------------------------------------------- one value

  predicate SafeChar(c: char) {
    'a' <= c <= 'z' || 'A' <= c <= 'Z' || '0' <= c <= '9' || c in "./-_:@"
  }

  predicate Safe(v: string) {
    forall i :: 0 <= i < |v| ==> SafeChar(v[i])
  }

  /** Backslashes and double quotes escaped. */
  function Escaped(v: string): string {
    if v == "" then ""
    else (if v[0] == '\\' || v[0] == '"' then ['\\', v[0]] else [v[0]]) + Escaped(v[1..])
  }

  function Quote(v: string): string {
    if Safe(v) then v else if '\'' !in v then "'" + v + "'" else "\"" + Escaped(v) + "\""
  }

  /** shellQuoteEnvValue: the loop stops at the first unsafe character. */
  method ShellQuote(v: string) returns (r: string)
    ensures r == Quote(v)
  {
    var safe := true;
    var i := 0;
    while i < |v| && safe
      invariant i <= |v| && (safe ==> forall k :: 0 <= k < i ==> SafeChar(v[k])) && (!safe ==> !Safe(v))
    {
      if !SafeChar(v[i]) {
        safe := false;
      }
      i := i + 1;
    }
    if safe {
      return v;
    }
    if '\'' !in v {
      return "'" + v + "'";
    }
    return "\"" + Escaped(v) + "\"";
  }

  /** One matching outer pair of quotes removed. */
  function Unquote(v: string): string {
    if |v| >= 2 && (v[0] == '\'' || v[0] == '"') && v[|v| - 1] == v[0] then v[1..|v| - 1] else v
  }

  /** What a written value reads back as. */
  function ReadBack(v: string): string {
    Unquote(TrimSpace(Quote(v)))
  }

  /** The values that survive: those that do not mix a single quote with a double quote or a backslash. */
  predicate Survives(v: string) {
    '\'' !in v || ('"' !in v && '\\' !in v)
  }

  lemma {:induction false} EscapedLength(v: string)
    ensures |Escaped(v)| >= |v|
    ensures |Escaped(v)| == |v| <==> '"' !in v && '\\' !in v
    ensures |Escaped(v)| == |v| ==> Escaped(v) == v
  {
    if v != "" {
      EscapedLength(v[1..]);
      assert v == [v[0]] + v[1..];
    }
  }

  lemma QuotedIsTrimmed(v: string)
    ensures Trimmed(Quote(v))
  {
    if Safe(v) && v != "" {
      assert SafeChar(v[0]) && SafeChar(v[|v| - 1]);
    }
  }

  lemma SafeIsPlain(v: string)
    requires Safe(v)
    ensures OneLine(v) && Survives(v) && Quote(v) == v && Unquote(v) == v
  {
    assert forall i :: 0 <= i < |v| ==> SafeChar(v[i]);
  }

  lemma UnquotePair(v: string, c: char)
    requires c == '\'' || c == '"'
    ensures Unquote([c] + v + [c]) == v
  {
    var quoted := [c] + v + [c];
    assert quoted[1..|quoted| - 1] == v;
  }

  /** Quoting round-trips exactly on the surviving values. */
  lemma ReadBackExact(v: string)
    ensures ReadBack(v) == v <==> Survives(v)
  {
    QuotedIsTrimmed(v);
    TrimSpaceTrims(Quote(v));
    EscapedLength(v);
    if Safe(v) {
      SafeIsPlain(v);
    } else if '\'' !in v {
      UnquotePair(v, '\'');
    } else {
      UnquotePair(Escaped(v), '"');
    }
  }

  // ---------------------------------------------------------------- one line

  /** strings.IndexByte(s, '='). */
  function IndexEq(s: string): int {
    if s == "" then -1 else if s[0] == '=' then 0 else var i := IndexEq(s[1..]); if i < 0 then -1 else i + 1
  }

  lemma {:induction false} IndexEqIs(s: string)
    ensures IndexEq(s) < 0 <==> '=' !in s
    ensures '=' in s ==> 0 <= IndexEq(s) < |s| && s[IndexEq(s)] == '=' && '=' !in s[..IndexEq(s)]
  {
    if s != "" && s[0] != '=' {
      IndexEqIs(s[1..]);
      assert s == [s[0]] + s[1..];
      if '=' in s {
        var i := IndexEq(s);
        assert s[..i] == [s[0]] + s[1..][..i - 1];
      }
    }
  }

  /** The key and value of a line, unless it is blank, a comment or names no key. */
  function ParseLine(line: string): Entry {
    var t := TrimSpace(line);
    if t == "" || t[0] == '#' || IndexEq(t) < 0 then None
    else IndexEqIs(t); Some((TrimSpace(t[..IndexEq(t)]), Unquote(TrimSpace(t[IndexEq(t) + 1..]))))
  }

  /** A key that can be written on one line. */
  predicate WellFormed(key: string) {
    Trimmed(key) && '=' !in key && '\n' !in key && (key == "" || key[0] != '#')
  }

  function Written(key: string, v: string): string {
    key + "=" + Quote(v)
  }

  lemma {:induction false} IndexEqAfter(key: string, rest: string)
    requires '=' !in key
    ensures IndexEq(key + "=" + rest) == |key|
  {
    if key == "" {
      assert "" + "=" + rest == ['='] + rest;
    } else {
      IndexEqAfter(key[1..], rest);
      assert (key + "=" + rest)[1..] == key[1..] + "=" + rest;
    }
  }

  /** A written line names its key and reads back its value. */
  lemma WrittenReads(key: string, v: string)
    requires WellFormed(key)
    ensures ParseLine(Written(key, v)) == Some((key, ReadBack(v)))
  {
    var line := Written(key, v);
    QuotedIsTrimmed(v);
    assert Trimmed(line) by {
      assert line[|line| - 1] == if Quote(v) == "" then '=' else Quote(v)[|Quote(v)| - 1];
      assert line[0] == if key == "" then '=' else key[0];
    }
    TrimSpaceTrims(line);
    TrimSpaceTrims(key);
    IndexEqAfter(key, Quote(v));
    assert line[..|key|] == key && line[|key| + 1..] == Quote(v);
  }

  lemma {:induction false} EscapedOneLine(v: string)
    requires OneLine(v)
    ensures OneLine(Escaped(v))
  {
    if v != "" {
      EscapedOneLine(v[1..]);
    }
  }

  lemma WrittenOneLine(key: string, v: string)
    requires WellFormed(key) && OneLine(v)
    ensures OneLine(Written(key, v))
  {
    EscapedOneLine(v);
  }

  // ---------------------------------------------------------------- reading a file

  /** The lines of a file, read one by one. */
  function Entries(lines: seq<string>): seq<Entry> {
    seq(|lines|, i requires 0 <= i < |lines| => ParseLine(lines[i]))
  }

  function Values(lines: seq<string>): map<string, string> {
    Collect(Entries(lines))
  }

  function ParseFile(text: string): map<string, string> {
    Values(Split(text))
  }

  /** The body of parseEnvFile's loop. */
  method ReadLine(raw: string) returns (entry: Entry)
    ensures entry == ParseLine(raw)
  {
    var line := TrimSpace(raw);
    if line == "" || line[0] == '#' {
      return None;
    }
    var eq := IndexEq(line);
    if eq < 0 {
      return None;
    }
    IndexEqIs(line);
    var key := TrimSpace(line[..eq]);
    var value := TrimSpace(line[eq + 1..]);
    if |value| >= 2 && (value[0] == '\'' || value[0] == '"') && value[|value| - 1] == value[0] {
      value := value[1..|value| - 1];
    }
    return Some((key, value));
  }

  /** parseEnvFile. */
  method ParseEnvFile(text: string) returns (out: map<string, string>)
    ensures out == ParseFile(text)
  {
    out := map[];
    var lines := Split(text);
    for i := 0 to |lines|
      invariant out == Collect(Entries(lines)[..i])
    {
      CollectSnoc(Entries(lines), i);
      var entry := ReadLine(lines[i]);
      if entry.Some? {
        out := out[entry.value.0 := entry.value.1];
      }
    }
    TakeAll(Entries(lines));
  }

  /** A trailing newline adds an empty line, which says nothing. */
  lemma {:induction false} SplitNewline(s: string)
    ensures Split(s + "\n") == Split(s) + [""]
  {
    if s == "" {
      assert "" + "\n" == "\n";
      assert Split("\n") == [""] + Split("");
    } else {
      SplitNewline(s[1..]);
      assert (s + "\n")[1..] == s[1..] + "\n";
    }
  }

  lemma BlankSaysNothing(lines: seq<string>)
    ensures Values(lines + [""]) == Values(lines)
  {
    assert Entries(lines + [""]) == Entries(lines) + [None];
    assert (Entries(lines) + [None])[..|lines|] == Entries(lines);
  }

  lemma {:induction false} TrailingNewlinesSayNothing(text: string)
    ensures ParseFile(TrimNewlines(text)) == ParseFile(text)
  {
    if text != "" && text[|text| - 1] == '\n' {
      var s := text[..|text| - 1];
      TrailingNewlinesSayNothing(s);
      assert text == s + "\n";
      SplitNewline(s);
      BlankSaysNothing(Split(s));
    }
  }

  // ---------------------------------------------------------------- sorted keys

  ghost predicate Sorted(keys: seq<string>) {
    forall i, j :: 0 <= i < j < |keys| ==> !StrLess(keys[j], keys[i])
  }

  /** sortedKeys' inner loop: the element at i sinks to its place among the sorted ones before it. */
  method Sink(keys: array<string>, i: nat)
    requires i < keys.Length && Sorted(keys[..i])
    modifies keys
    ensures Sorted(keys[..i + 1]) && keys[i + 1..] == old(keys[i + 1..])
    ensures multiset(keys[..]) == multiset(old(keys[..]))
  {
    var j := i;
    while j > 0 && StrLess(keys[j], keys[j - 1])
      invariant j <= i
      invariant forall p, q :: 0 <= p < q <= i && q != j ==> !StrLess(keys[q], keys[p])
      invariant forall p :: i < p < keys.Length ==> keys[p] == old(keys[p])
      invariant multiset(keys[..]) == multiset(old(keys[..]))
    {
      StrLessTotal(keys[j], keys[j - 1]);
      keys[j - 1], keys[j] := keys[j], keys[j - 1];
      j := j - 1;
    }
    forall p | 0 <= p < j ensures !StrLess(keys[j], keys[p]) {
      if StrLess(keys[j], keys[p]) && p < j - 1 {
        StrLessTotal(keys[j], keys[j - 1]);
        StrLessTotal(keys[p], keys[j - 1]);
        StrLessTotal(keys[j], keys[p]);
        if keys[p] != keys[j - 1] {
          StrLessTrans(keys[j], keys[p], keys[j - 1]);
        }
      }
    }
  }

  /** sortedKeys: collect the keys in any order, then insertion-sort them in place. */
  method SortedKeys(m: map<string, string>) returns (sorted: seq<string>)
    ensures Sorted(sorted) && NoDup(sorted) && Elems(sorted) == m.Keys
  {
    var collected: seq<string> := [];
    var todo := m.Keys;
    while todo != {}
      invariant todo <= m.Keys && NoDup(collected) && Elems(collected) == m.Keys - todo
      decreases |todo|
    {
      var k :| k in todo;
      ElemsSnoc(collected, k);
      assert k !in Elems(collected);
      collected := collected + [k];
      todo := todo - {k};
    }
    var keys := new string[|collected|](i requires 0 <= i < |collected| => collected[i]);
    assert keys[..] == collected;
    var i := 1;
    while i < keys.Length
      invariant 1 <= i && (i <= keys.Length || keys.Length == 0)
      invariant Sorted(if keys.Length == 0 then [] else keys[..i])
      invariant multiset(keys[..]) == multiset(collected)
    {
      Sink(keys, i);
      i := i + 1;
    }
    sorted := keys[..];
    assert keys.Length > 0 ==> sorted == keys[..i];
    PermutationKeepsElems(collected, sorted);
  }

  lemma PermutationKeepsElems(a: seq<string>, b: seq<string>)
    requires multiset(a) == multiset(b) && NoDup(a)
    ensures Elems(b) == Elems(a) && NoDup(b)
  {
    forall x ensures x in a <==> x in b {
      assert x in a <==> x in multiset(a);
      assert x in b <==> x in multiset(b);
    }
    assert |a| == |multiset(a)| == |multiset(b)| == |b|;
    NoDupCard(a);
    ElemsCard(b);
  }

  // ---------------------------------------------------------------- writing a file

  /** Line i after the update: the first line naming a key to be written is replaced, every other line is kept. */
  function UpdatedLine(lines: seq<string>, values: map<string, string>, i: nat): string
    requires i < |lines|
  {
    var entry := Entries(lines)[i];
    if entry.Some? && entry.value.0 in values && !NamedBefore(Entries(lines), i, entry.value.0)
    then Written(entry.value.0, values[entry.value.0])
    else lines[i]
  }

  /** The lines persistEnvValues starts from. */
  function ExistingLines(text: string): seq<string> {
    if text == "" then [] else Split(TrimNewlines(text))
  }

  /** The keys no line names, in sorted order, each once. */
  ghost predicate AppendedKeys(entries: seq<Entry>, values: map<string, string>, keys: seq<string>) {
    Sorted(keys) && NoDup(keys) && forall k :: k in keys <==> k in values && !NamedBefore(entries, |entries|, k)
  }

  function WrittenAll(keys: seq<string>, values: map<string, string>): seq<string>
    requires forall k :: k in keys ==> k in values
  {
    seq(|keys|, i requires 0 <= i < |keys| => Written(keys[i], values[keys[i]]))
  }

  /** The lines of the new file: the old ones in place, updated, then the missing keys. */
  ghost predicate NewLines(lines: seq<string>, values: map<string, string>, keys: seq<string>, out: seq<string>) {
    && AppendedKeys(Entries(lines), values, keys)
    && |out| == |lines| + |keys|
    && (forall i :: 0 <= i < |lines| ==> out[i] == UpdatedLine(lines, values, i))
    && out[|lines|..] == WrittenAll(keys, values)
  }

  /** What the loop over the existing lines has left to write. */
  ghost predicate Remaining(entries: seq<Entry>, i: nat, values: map<string, string>, remaining: map<string, string>)
    requires i <= |entries|
  {
    forall k :: (k in remaining <==> k in values && !NamedBefore(entries, i, k)) && (k in remaining ==> remaining[k] == values[k])
  }

  lemma RemainingSnoc(entries: seq<Entry>, i: nat, values: map<string, string>, remaining: map<string, string>)
    requires i < |entries| && Remaining(entries, i, values, remaining)
    ensures Remaining(entries, i + 1, values, if entries[i].Some? then remaining - {entries[i].value.0} else remaining)
  {
    forall k ensures NamedBefore(entries, i + 1, k) <==> NamedBefore(entries, i, k) || Names(entries[i], k) {
      NamedBeforeSnoc(entries, i, k);
    }
  }

  /** The loop body on one line. */
  method ReplaceLine(line: string, remaining: map<string, string>)
    returns (line': string, remaining': map<string, string>)
    ensures var entry := ParseLine(line);
            && remaining' == (if entry.Some? then remaining - {entry.value.0} else remaining)
            && line' == if entry.Some? && entry.value.0 in remaining then Written(entry.value.0, remaining[entry.value.0]) else line
  {
    line', remaining' := line, remaining;
    var trimmed := TrimSpace(line);
    if trimmed == "" || trimmed[0] == '#' {
      return;
    }
    var eq := IndexEq(trimmed);
    if eq < 0 {
      return;
    }
    IndexEqIs(trimmed);
    var key := TrimSpace(trimmed[..eq]);
    if key in remaining {
      var quoted := ShellQuote(remaining[key]);
      line' := key + "=" + quoted;
      remaining' := remaining - {key};
    } else {
      assert remaining - {key} == remaining;
    }
  }

  /** The first loop: replace in place, strike off what was written. */
  method ReplaceLines(lines: array<string>, values: map<string, string>) returns (remaining: map<string, string>)
    modifies lines
    ensures forall i :: 0 <= i < lines.Length ==> lines[i] == UpdatedLine(old(lines[..]), values, i)
    ensures Remaining(Entries(old(lines[..])), lines.Length, values, remaining)
  {
    ghost var was := lines[..];
    remaining := values;
    for i := 0 to lines.Length
      invariant forall k :: 0 <= k < i ==> lines[k] == UpdatedLine(was, values, k)
      invariant forall k :: i <= k < lines.Length ==> lines[k] == was[k]
      invariant Remaining(Entries(was), i, values, remaining)
    {
      RemainingSnoc(Entries(was), i, values, remaining);
      lines[i], remaining := ReplaceLine(lines[i], remaining);
    }
  }

  lemma KeySnoc(sorted: seq<string>, i: nat, keys: seq<string>)
    requires i < |sorted| && Sorted(sorted) && NoDup(sorted)
    requires Sorted(keys) && NoDup(keys) && forall k :: k in keys ==> k in sorted[..i]
    ensures Sorted(keys + [sorted[i]]) && NoDup(keys + [sorted[i]])
  {
    var more := keys + [sorted[i]];
    forall p, q | 0 <= p < q < |more| ensures !StrLess(more[q], more[p]) && more[p] != more[q] {
      if q == |keys| {
        assert keys[p] in sorted[..i];
        var m :| 0 <= m < i && sorted[m] == keys[p];
      }
    }
  }

  /** The keys picked so far: those of the first i sorted ones that are still to be written. */
  ghost predicate PickedKeys(sorted: seq<string>, i: nat, remaining: map<string, string>, keys: seq<string>)
    requires i <= |sorted|
  {
    Sorted(keys) && NoDup(keys) && forall k :: k in keys <==> k in sorted[..i] && k in remaining
  }

  lemma PickSnoc(sorted: seq<string>, i: nat, remaining: map<string, string>, keys: seq<string>)
    requires i < |sorted| && Sorted(sorted) && NoDup(sorted) && PickedKeys(sorted, i, remaining, keys)
    ensures PickedKeys(sorted, i + 1, remaining, if sorted[i] in remaining then keys + [sorted[i]] else keys)
  {
    TakeSnoc(sorted, i);
    if sorted[i] in remaining {
      KeySnoc(sorted, i, keys);
    }
  }

  lemma WrittenAllSnoc(keys: seq<string>, key: string, values: map<string, string>)
    requires forall k :: k in keys + [key] ==> k in values
    ensures (forall k :: k in keys ==> k in values) && key in values
    ensures WrittenAll(keys + [key], values) == WrittenAll(keys, values) + [Written(key, values[key])]
  {
    assert forall k :: k in keys ==> k in keys + [key];
    assert (keys + [key])[|keys|] == key;
  }

  /** The second loop: the keys still to be written, in sorted order. */
  method AppendMissing(sorted: seq<string>, remaining: map<string, string>)
    returns (lines: seq<string>, ghost keys: seq<string>)
    requires Sorted(sorted) && NoDup(sorted)
    ensures PickedKeys(sorted, |sorted|, remaining, keys)
    ensures lines == WrittenAll(keys, remaining)
  {
    keys, lines := [], [];
    for i := 0 to |sorted|
      invariant PickedKeys(sorted, i, remaining, keys)
      invariant lines == WrittenAll(keys, remaining)
    {
      PickSnoc(sorted, i, remaining, keys);
      if sorted[i] in remaining {
        var quoted := ShellQuote(remaining[sorted[i]]);
        WrittenAllSnoc(keys, sorted[i], remaining);
        lines := lines + [sorted[i] + "=" + quoted];
        keys := keys + [sorted[i]];
      }
    }
  }

  // ---------------------------------------------------------------- the round trip

  ghost predicate Writable(values: map<string, string>) {
    forall k :: k in values ==> WellFormed(k) && OneLine(values[k])
  }

  /** The new values as they will be read. */
  function ReadBackAll(values: map<string, string>): map<string, string> {
    map k | k in values :: ReadBack(values[k])
  }

  lemma UpdatedLineReads(lines: seq<string>, values: map<string, string>, i: nat)
    requires i < |lines| && Writable(values)
    ensures ParseLine(UpdatedLine(lines, values, i)) == Updated(Entries(lines), ReadBackAll(values), i)
  {
    var entry := Entries(lines)[i];
    if entry.Some? && entry.value.0 in values {
      WrittenReads(entry.value.0, values[entry.value.0]);
    }
  }

  lemma WrittenAllReads(keys: seq<string>, values: map<string, string>)
    requires Writable(values) && forall k :: k in keys ==> k in values
    ensures Entries(WrittenAll(keys, values)) == Appended(keys, ReadBackAll(values))
  {
    forall i | 0 <= i < |keys| ensures Entries(WrittenAll(keys, values))[i] == Appended(keys, ReadBackAll(values))[i] {
      assert keys[i] in keys;
      WrittenReads(keys[i], values[keys[i]]);
    }
  }

  lemma UpdatedLineOneLine(lines: seq<string>, values: map<string, string>, i: nat)
    requires i < |lines| && Writable(values) && AllOneLine(lines)
    ensures OneLine(UpdatedLine(lines, values, i))
  {
    var entry := Entries(lines)[i];
    if entry.Some? && entry.value.0 in values {
      WrittenOneLine(entry.value.0, values[entry.value.0]);
    }
  }

  lemma WrittenAllOneLine(keys: seq<string>, values: map<string, string>)
    requires Writable(values) && forall k :: k in keys ==> k in values
    ensures AllOneLine(WrittenAll(keys, values))
  {
    forall i | 0 <= i < |keys| ensures OneLine(WrittenAll(keys, values)[i]) {
      assert keys[i] in keys;
      WrittenOneLine(keys[i], values[keys[i]]);
    }
  }

  lemma NewLinesOneLine(lines: seq<string>, values: map<string, string>, keys: seq<string>, out: seq<string>)
    requires Writable(values) && AllOneLine(lines) && NewLines(lines, values, keys, out)
    ensures AllOneLine(out)
  {
    WrittenAllOneLine(keys, values);
    forall i | 0 <= i < |out| ensures OneLine(out[i]) {
      if i < |lines| {
        UpdatedLineOneLine(lines, values, i);
      } else {
        assert out[i] == out[|lines|..][i - |lines|];
      }
    }
  }

  /** The new lines, read, are the old entries overridden and extended. */
  lemma NewLinesRead(lines: seq<string>, values: map<string, string>, keys: seq<string>, out: seq<string>)
    requires Writable(values) && NewLines(lines, values, keys, out)
    ensures |out| >= |lines|
    ensures forall j :: 0 <= j < |lines| ==> Entries(out)[j] == Updated(Entries(lines), ReadBackAll(values), j)
    ensures (forall k :: k in keys ==> k in ReadBackAll(values))
    ensures Entries(out)[|lines|..] == Appended(keys, ReadBackAll(values))
  {
    forall j | 0 <= j < |lines| ensures Entries(out)[j] == Updated(Entries(lines), ReadBackAll(values), j) {
      UpdatedLineReads(lines, values, j);
    }
    WrittenAllReads(keys, values);
    assert Entries(out)[|lines|..] == Entries(out[|lines|..]);
  }

  /** The file written over `existing` reads as the old values overridden by the new ones exactly when every new key that
      several lines name already has its value in the last of them, and every other new value survives quoting. */
  lemma RoundTrip(existing: string, values: map<string, string>, keys: seq<string>, out: seq<string>)
    requires Writable(values) && NewLines(ExistingLines(existing), values, keys, out)
    ensures var entries := Entries(ExistingLines(existing));
            && (forall k :: Repeated(entries, |entries|, k) ==> k in ParseFile(existing))
            && (ParseFile(Join(out) + "\n") == ParseFile(existing) + values <==>
                  forall k :: k in values ==>
                    if Repeated(entries, |entries|, k) then ParseFile(existing)[k] == values[k] else Survives(values[k]))
  {
    var lines, read := ExistingLines(existing), ReadBackAll(values);
    SplitPieces(TrimNewlines(existing));
    NewLinesOneLine(lines, values, keys, out);
    NewLinesRead(lines, values, keys, out);
    ExistingValues(existing);
    FileValues(out);
    OverrideSays(Entries(lines), read, keys, Entries(out));
    OverrideExactly(Entries(lines), values, read, Collect(Entries(out)));
    forall k | k in values ensures read[k] == values[k] <==> Survives(values[k]) {
      ReadBackExact(values[k]);
    }
  }

  lemma ExistingValues(existing: string)
    ensures ParseFile(existing) == Values(ExistingLines(existing))
  {
    if existing == "" {
      BlankSaysNothing([]);
      assert Split("") == [] + [""];
    } else {
      TrailingNewlinesSayNothing(existing);
    }
  }

  lemma FileValues(out: seq<string>)
    requires AllOneLine(out)
    ensures ParseFile(Join(out) + "\n") == Values(out)
  {
    if out == [] {
      assert Join(out) + "\n" == "" + "\n";
      SplitNewline("");
      BlankSaysNothing([""]);
      BlankSaysNothing([]);
      assert [] + [""] == [""];
    } else {
      SplitJoin(out);
      SplitNewline(Join(out));
      BlankSaysNothing(out);
    }
  }

  /** The text of the file after the update. */
  ghost predicate Rewritten(existing: string, values: map<string, string>, encoded: string) {
    exists keys, out :: NewLines(ExistingLines(existing), values, keys, out) && encoded == Join(out) + "\n"
  }

  /** The update is an override. */
  ghost predicate Overrides(existing: string, values: map<string, string>) {
    var entries := Entries(ExistingLines(existing));
    forall k :: k in values ==>
      if Repeated(entries, |entries|, k) then k in ParseFile(existing) && ParseFile(existing)[k] == values[k]
      else Survives(values[k])
  }

  lemma RoundTripOf(existing: string, values: map<string, string>, encoded: string)
    requires Writable(values) && Rewritten(existing, values, encoded)
    ensures ParseFile(encoded) == ParseFile(existing) + values <==> Overrides(existing, values)
  {
    var keys, out :| NewLines(ExistingLines(existing), values, keys, out) && encoded == Join(out) + "\n";
    RoundTrip(existing, values, keys, out);
  }

  /** persistEnvValues: replace in place, then append what no line named, in sorted order. Reading the file back gives the
      old values overridden by the new ones exactly when no key is repeated with another value and every value survives. */
  method PersistEnvValues(existing: string, values: map<string, string>) returns (encoded: string)
    ensures Rewritten(existing, values, encoded)
    ensures Writable(values) ==> (ParseFile(encoded) == ParseFile(existing) + values <==> Overrides(existing, values))
  {
    var initial := ExistingLines(existing);
    var lines := new string[|initial|](i requires 0 <= i < |initial| => initial[i]);
    assert lines[..] == initial;
    var remaining := ReplaceLines(lines, values);
    var sorted := SortedKeys(values);
    var missing, keys := AppendMissing(sorted, remaining);
    TakeAll(sorted);
    forall k ensures k in keys <==> k in values && !NamedBefore(Entries(initial), |initial|, k) {
      assert k in sorted <==> k in Elems(sorted);
    }
    assert WrittenAll(keys, remaining) == WrittenAll(keys, values);
    assert NewLines(initial, values, keys, lines[..] + missing);
    encoded := Join(lines[..] + missing) + "\n";
    if Writable(values) {
      RoundTripOf(existing, values, encoded);
    }
  }

  // ---------------------------------------------------------------- where it is no override

  lemma SafeWritten(v: string)
    requires Safe(v)
    ensures Written("A", v) == "A=" + v && OneLine("A=" + v) && ParseLine("A=" + v) == Some(("A", v))
  {
    SafeIsPlain(v);
    WrittenReads("A", v);
    WrittenOneLine("A", v);
    ReadBackExact(v);
    assert "A" + "=" == "A=";
  }

  /** Two lines of one key read as the second. */
  lemma TwoLinesRead(a: string, b: string)
    requires Safe(a) && Safe(b)
    ensures Entries(["A=" + a, "A=" + b]) == [Some(("A", a)), Some(("A", b))]
    ensures ParseFile(Join(["A=" + a, "A=" + b]) + "\n") == map["A" := b]
  {
    var lines := ["A=" + a, "A=" + b];
    SafeWritten(a);
    SafeWritten(b);
    FileValues(lines);
    assert Entries(lines) == [Some(("A", a)), Some(("A", b))];
    CollectTwo(a, b);
  }

  lemma CollectTwo(a: string, b: string)
    ensures Collect([Some(("A", a)), Some(("A", b))]) == map["A" := b]
  {
    var entries: seq<Entry> := [Some(("A", a)), Some(("A", b))];
    CollectSnoc(entries, 0);
    CollectSnoc(entries, 1);
    assert entries[..0] == [] && entries[..2] == entries;
  }

  /** Trailing newlines are cut off before the file is rewritten. */
  lemma RepeatedLines(a: string, b: string)
    requires Safe(a) && Safe(b)
    ensures ExistingLines(Join(["A=" + a, "A=" + b]) + "\n") == ["A=" + a, "A=" + b]
  {
    var lines := ["A=" + a, "A=" + b];
    SafeWritten(a);
    SafeWritten(b);
    var text := Join(lines);
    assert text == "A=" + a + "\n" + Join(lines[1..]) && Join(lines[1..]) == "A=" + b;
    assert text[|text| - 1] == (if b == "" then '=' else b[|b| - 1]);
    assert text[|text| - 1] != '\n' by {
      assert b == "" || b[|b| - 1] in "A=" + b;
    }
    assert (text + "\n")[..|text|] == text;
    assert TrimNewlines(text + "\n") == TrimNewlines(text) == text;
    SplitJoin(lines);
  }

  /** A key on two lines: the first is rewritten, the second is still the one that counts, and the new value is not read. */
  lemma RepeatedKeyFails(a: string, b: string, c: string)
    requires Safe(a) && Safe(b) && Safe(c) && b != c
    ensures var existing, encoded := Join(["A=" + a, "A=" + b]) + "\n", Join(["A=" + c, "A=" + b]) + "\n";
            && Rewritten(existing, map["A" := c], encoded)
            && ParseFile(existing) == ParseFile(encoded) == map["A" := b]
            && ParseFile(encoded) != ParseFile(existing) + map["A" := c]
  {
    var lines, out, values := ["A=" + a, "A=" + b], ["A=" + c, "A=" + b], map["A" := c];
    RepeatedLines(a, b);
    TwoLinesRead(a, b);
    TwoLinesRead(c, b);
    SafeWritten(c);
    assert Names(Entries(lines)[0], "A") && NamedBefore(Entries(lines), 1, "A") && NamedBefore(Entries(lines), 2, "A");
    assert UpdatedLine(lines, values, 0) == out[0] && UpdatedLine(lines, values, 1) == out[1];
    assert out[2..] == WrittenAll([], values);
    assert NewLines(lines, values, [], out);
    assert (map["A" := b] + values)["A"] == c;
  }

  const MIXED := "'\""

  /** A value that mixes a single with a double quote comes back with a backslash in it. */
  lemma MixedValueFails()
    ensures Rewritten("", map["A" := MIXED], "A=\"'\\\"\"\n")
    ensures ParseFile("A=\"'\\\"\"\n") == map["A" := "'\\\""] && ParseFile("") == map[]
  {
    var values, line := map["A" := MIXED], "A=\"'\\\"\"";
    assert Escaped("\"") == "\\\"" && Escaped(MIXED) == "'" + Escaped("\"");
    assert !SafeChar(MIXED[0]) && MIXED[0] == '\'';
    assert Quote(MIXED) == "\"'\\\"\"" && Written("A", MIXED) == line;
    assert WrittenAll(["A"], values) == [line];
    assert NewLines([], values, ["A"], [line]) by {
      assert [line][0..] == [line];
    }
    assert Join([line]) == line;
    MixedReads(line);
    ExistingValues("");
  }

  lemma MixedReads(line: string)
    requires line == Written("A", MIXED) && Quote(MIXED) == "\"'\\\"\""
    ensures ParseFile(line + "\n") == map["A" := "'\\\""]
  {
    QuotedIsTrimmed(MIXED);
    TrimSpaceTrims(Quote(MIXED));
    assert ReadBack(MIXED) == "'\\\"";
    WrittenReads("A", MIXED);
    WrittenOneLine("A", MIXED);
    assert Join([line]) == line;
    assert MIXED[0] == '\'' && OneLine(MIXED);
    FileValues([line]);
    assert Entries([line]) == [Some(("A", ReadBack(MIXED)))];
    assert Entries([line])[..0] == [] && Collect([]) == map[];
  }
}
