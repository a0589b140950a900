/** The two text files the view model persists, as sequences of lines:
    `window_options.csv` holds one `DisplayText,Id` line per option, and
    `window_state.csv` holds the on/off flag and the selected option's Id. */
module LineFormats {
  import opened Wrappers

  const Comma: char := ','

  /** One option as it is written to and read from the options file. */
  datatype Entry = Entry(displayText: string, id: string)

  /** The fields of a split line glued back together with `sep` between them. */
  function Join(parts: seq<string>, sep: char): string
    requires |parts| >= 1
    decreases |parts|
  {
    if |parts| == 1 then parts[0] else parts[0] + [sep] + Join(parts[1..], sep)
  }

  /** `String.Split(char)`: the pieces between separators, empty pieces included,
      so that a string with n separators yields n + 1 pieces. */
  function Split(s: string, sep: char): (parts: seq<string>)
    ensures |parts| >= 1
    ensures forall i :: 0 <= i < |parts| ==> sep !in parts[i]
    ensures Join(parts, sep) == s
    decreases |s|
  {
    if |s| == 0 then [""]
    else
      var rest := Split(s[1..], sep);
      if s[0] == sep then
        assert ([""] + rest)[1..] == rest;
        [""] + rest
      else
        assert ([[s[0]] + rest[0]] + rest[1..])[1..] == rest[1..];
        assert s == [s[0]] + s[1..];
        [[s[0]] + rest[0]] + rest[1..]
  }

  /** Whenever there are two or more pieces, the separator occurs in the joined string. */
  lemma {:induction false} JoinShowsSeparator(parts: seq<string>, sep: char)
    requires |parts| >= 2
    ensures sep in Join(parts, sep)
    ensures parts[0] + [sep] + parts[1] <= Join(parts, sep)
    ensures |parts| == 2 ==> Join(parts, sep) == parts[0] + [sep] + parts[1]
    ensures |parts| > 2 ==> parts[0] + [sep] + parts[1] + [sep] <= Join(parts, sep)
  {
    var tail := parts[1..];
    if |tail| > 1 {
      assert tail[0] <= Join(tail, sep);
    }
    var j := Join(tail, sep);
    assert Join(parts, sep) == parts[0] + [sep] + j;
    assert Join(parts, sep)[|parts[0]|] == sep;
    assert parts[1] <= j;
    assert (parts[0] + [sep] + parts[1]) <= parts[0] + [sep] + j;
  }

  /** A line splits into at least two pieces exactly when it holds the separator. */
  lemma SplitHasTwoFieldsIff(s: string, sep: char)
    ensures |Split(s, sep)| >= 2 <==> sep in s
  {
    var parts := Split(s, sep);
    if |parts| >= 2 {
      JoinShowsSeparator(parts, sep);
    } else {
      assert Join(parts, sep) == parts[0];
    }
  }

  /** A string without the separator is a single piece. */
  lemma {:induction false} SplitWithoutSeparator(s: string, sep: char)
    requires sep !in s
    ensures Split(s, sep) == [s]
    decreases |s|
  {
    if |s| > 0 {
      SplitWithoutSeparator(s[1..], sep);
      assert s == [s[0]] + s[1..];
    }
  }

  /** Splitting after a separator-free first field yields that field, then the
      pieces of the remainder. */
  lemma {:induction false} SplitAfterField(a: string, b: string, sep: char)
    requires sep !in a
    ensures Split(a + [sep] + b, sep) == [a] + Split(b, sep)
    decreases |a|
  {
    var s := a + [sep] + b;
    if |a| == 0 {
      assert s[1..] == b;
    } else {
      assert s[1..] == a[1..] + [sep] + b;
      SplitAfterField(a[1..], b, sep);
      assert a == [a[0]] + a[1..];
    }
  }

  // ---- window_options.csv ------------------------------------------------

  /** The line `SaveOptions` writes for one option. It always holds the
      separator, and holds exactly two fields when neither field has a comma. */
  function EncodeOptionLine(e: Entry): (line: string)
    ensures Comma in line
    ensures |e.displayText| < |line| && line[..|e.displayText|] == e.displayText && line[|e.displayText|] == Comma
  {
    var line := e.displayText + [Comma] + e.id;
    assert line[|e.displayText|] == Comma;
    line
  }

  /** The option `LoadOptions` builds from one line: the first two comma-separated
      fields, or nothing when the line has fewer than two. */
  function ParseOptionLine(line: string): (r: Option<Entry>)
    ensures r.Some? <==> Comma in line
    ensures r.Some? ==> Comma !in r.value.displayText && Comma !in r.value.id
    ensures r.Some? ==> EncodeOptionLine(r.value) <= line
    ensures r.Some? ==> line == EncodeOptionLine(r.value) || EncodeOptionLine(r.value) + [Comma] <= line
  {
    var parts := Split(line, Comma);
    SplitHasTwoFieldsIff(line, Comma);
    if |parts| >= 2 then
      JoinShowsSeparator(parts, Comma);
      Some(Entry(parts[0], parts[1]))
    else None
  }

  /** The options `LoadOptions` builds from the whole file, in file order,
      skipping lines with fewer than two fields. */
  function ParseOptionLines(lines: seq<string>): (es: seq<Entry>)
    ensures |es| <= |lines|
    ensures (forall i :: 0 <= i < |lines| ==> Comma in lines[i]) ==> |es| == |lines|
    decreases |lines|
  {
    if lines == [] then []
    else
      var init := ParseOptionLines(lines[..|lines| - 1]);
      match ParseOptionLine(lines[|lines| - 1])
      case Some(e) => init + [e]
      case None => init
  }

  /** One more line extends the parse by the entry its first two fields make,
      or by nothing when it has fewer than two. */
  lemma ParseOptionLinesSnoc(lines: seq<string>, i: nat)
    requires i < |lines|
    ensures var parts := Split(lines[i], Comma);
            ParseOptionLines(lines[..i + 1])
            == ParseOptionLines(lines[..i])
               + (if |parts| >= 2 then [Entry(parts[0], parts[1])] else [])
  {
    assert lines[..i + 1][..i] == lines[..i];
  }

  /** The lines `SaveOptions` writes, one per option in list order; none of
      them is one `LoadOptions` skips. */
  function EncodeOptions(es: seq<Entry>): (lines: seq<string>)
    ensures |lines| == |es|
    ensures forall i :: 0 <= i < |lines| ==> Comma in lines[i]
  {
    seq(|es|, i requires 0 <= i < |es| => EncodeOptionLine(es[i]))
  }

  /** No field of any entry holds the separator. */
  ghost predicate CommaFree(es: seq<Entry>) {
    forall i :: 0 <= i < |es| ==> Comma !in es[i].displayText && Comma !in es[i].id
  }

  /** One option line reads back as the option it was written from. */
  lemma OptionLineRoundTrip(e: Entry)
    requires Comma !in e.displayText && Comma !in e.id
    ensures ParseOptionLine(EncodeOptionLine(e)) == Some(e)
  {
    SplitAfterField(e.displayText, e.id, Comma);
    SplitWithoutSeparator(e.id, Comma);
  }

  /** Reading back what `SaveOptions` wrote reproduces the option list, order
      included, provided no field holds a comma. */
  lemma {:induction false} OptionsRoundTrip(es: seq<Entry>)
    requires CommaFree(es)
    ensures ParseOptionLines(EncodeOptions(es)) == es
    decreases |es|
  {
    if es != [] {
      var n := |es| - 1;
      assert EncodeOptions(es)[..n] == EncodeOptions(es[..n]);
      OptionsRoundTrip(es[..n]);
      OptionLineRoundTrip(es[n]);
      assert es == es[..n] + [es[n]];
    }
  }

  /** A comma typed into a display text does not survive a save and reload: the
      text is cut at the comma and the rest becomes the Id. */
  lemma CommaInDisplayTextIsLost(a: string, b: string, id: string)
    requires Comma !in a && Comma !in b
    ensures ParseOptionLine(EncodeOptionLine(Entry(a + [Comma] + b, id))) == Some(Entry(a, b))
  {
    var rest := b + [Comma] + id;
    assert EncodeOptionLine(Entry(a + [Comma] + b, id)) == a + [Comma] + rest;
    SplitAfterField(a, rest, Comma);
    SplitAfterField(b, id, Comma);
  }

  // ---- window_state.csv --------------------------------------------------

  /** `bool.ToString()`: what it writes, `bool.Parse` reads back. */
  function BoolToString(b: bool): (s: string)
    ensures ParseBool(s) == Some(b)
  {
    var s := if b then "True" else "False";
    TrimKeeps(s);
    EqualsIgnoreCaseReflexive(s);
    s
  }

  /** The characters trimmed from both ends before `bool.Parse` compares: the
      ASCII white space and NUL, the subset of the characters .NET trims there
      that this model covers. */
  predicate IsTrimmed(c: char) {
    c == ' ' || c == '\t' || c == '\n' || c == '\r' || c == '\U{000B}' || c == '\U{000C}' || c == '\0'
  }

  function TrimStart(s: string): (r: string)
    ensures |r| <= |s| && r == s[|s| - |r|..]
    ensures r != [] ==> !IsTrimmed(r[0])
    ensures forall i :: 0 <= i < |s| - |r| ==> IsTrimmed(s[i])
    decreases |s|
  {
    if s != [] && IsTrimmed(s[0]) then TrimStart(s[1..]) else s
  }

  function TrimEnd(s: string): (r: string)
    ensures |r| <= |s| && r == s[..|r|]
    ensures r != [] ==> !IsTrimmed(r[|r| - 1])
    ensures forall i :: |r| <= i < |s| ==> IsTrimmed(s[i])
    decreases |s|
  {
    if s != [] && IsTrimmed(s[|s| - 1]) then TrimEnd(s[..|s| - 1]) else s
  }

  function Trim(s: string): string {
    TrimEnd(TrimStart(s))
  }

  /** ASCII upper-casing, the only case folding the two literals need. */
  function Upper(c: char): char {
    if 'a' <= c <= 'z' then (c as int - 32) as char else c
  }

  /** Equal lengths and equal characters once both are upper-cased. */
  predicate EqualsIgnoreCase(a: string, b: string)
    decreases |a|
  {
    |a| == |b| && (a == [] || (Upper(a[0]) == Upper(b[0]) && EqualsIgnoreCase(a[1..], b[1..])))
  }

  /** `bool.Parse`: "True" or "False" in any letter case, surrounding white space
      ignored; anything else is a format error, here `None`. */
  function ParseBool(s: string): (r: Option<bool>)
    ensures r.Some? ==> (r.value <==> |Trim(s)| == 4)
  {
    var t := Trim(s);
    if EqualsIgnoreCase(t, "True") then Some(true)
    else if EqualsIgnoreCase(t, "False") then Some(false)
    else None
  }

  /** What `LoadState` takes from the state file. */
  datatype SavedState = SavedState(isOn: bool, selectedId: string)

  /** The two lines `SaveState` writes: the flag, then the selected Id or "". */
  function EncodeState(isOn: bool, selectedId: Option<string>): (lines: seq<string>)
    ensures |lines| == 2
    ensures DecodeState(lines) == Some(SavedState(isOn, selectedId.GetOr("")))
  {
    [BoolToString(isOn), selectedId.GetOr("")]
  }

  /** What `LoadState` restores from the lines of the state file: nothing when
      there are fewer than two lines or the first is not a boolean. */
  function DecodeState(lines: seq<string>): (r: Option<SavedState>)
    ensures r.Some? <==> |lines| >= 2 && ParseBool(lines[0]).Some?
    ensures r.Some? ==> r.value.selectedId == lines[1] && Some(r.value.isOn) == ParseBool(lines[0])
  {
    if |lines| >= 2 then
      match ParseBool(lines[0])
      case Some(b) => Some(SavedState(b, lines[1]))
      case None => None
    else None
  }

  /** A string that starts and ends with a character `bool.Parse` keeps is
      left alone by the trimming. */
  lemma TrimKeeps(s: string)
    requires s != [] && !IsTrimmed(s[0]) && !IsTrimmed(s[|s| - 1])
    ensures Trim(s) == s
  {
    assert TrimStart(s) == s;
  }

  lemma {:induction false} EqualsIgnoreCaseReflexive(s: string)
    ensures EqualsIgnoreCase(s, s)
    decreases |s|
  {
    if s != [] {
      EqualsIgnoreCaseReflexive(s[1..]);
    }
  }
}
