/** Editing and reading `key=value` lines of a host's configuration file (backend/app/hostctl.py, _assign,
    apply_settings and read_setting). */
module HostConfig {
  import opened Numbers

  /** The lines of a text: what stands between its newlines. */
  function Split(text: string): (lines: seq<string>)
    ensures |lines| > 0 && forall i :: 0 <= i < |lines| ==> IsLine(lines[i])
  {
    if text == "" then [""]
    else if text[0] == '\n' then [""] + Split(text[1..])
    else
      var rest := Split(text[1..]);
      [[text[0]] + rest[0]] + rest[1..]
  }

  function Join(lines: seq<string>): string
    requires |lines| > 0
  {
    if |lines| == 1 then lines[0] else lines[0] + "\n" + Join(lines[1..])
  }

  predicate IsLine(s: string) {
    '\n' !in s
  }

  predicate IsKey(s: string) {
    '\n' !in s && '=' !in s
  }

  /** The line assigns the key, whatever its value. */
  predicate Assigns(line: string, key: string) {
    key + "=" <= line
  }

  function LineFor(key: string, value: string): string {
    key + "=" + value
  }

  /** The first line that assigns the key, or the number of lines. */
  function First(lines: seq<string>, key: string): (i: nat)
    ensures i <= |lines|
    ensures i < |lines| ==> Assigns(lines[i], key)
    ensures forall j :: 0 <= j < i ==> !Assigns(lines[j], key)
  {
    if lines == [] || Assigns(lines[0], key) then 0 else 1 + First(lines[1..], key)
  }

  /** Replaces the first line that assigns the key, or appends one. */
  function Assigned(text: string, key: string, value: string): string {
    var lines := Split(text);
    var i := First(lines, key);
    if i < |lines| then Join(lines[i := LineFor(key, value)]) else text + "\n" + LineFor(key, value) + "\n"
  }

  datatype Setting = Setting(key: string, value: string)

  function Applied(text: string, settings: seq<Setting>): string {
    if settings == [] then text
    else
      var s := settings[|settings| - 1];
      Assigned(Applied(text, settings[..|settings| - 1]), s.key, s.value)
  }

  method ApplySettings(text: string, settings: seq<Setting>) returns (edited: string)
    ensures edited == Applied(text, settings)
  {
    edited := text;
    for i := 0 to |settings|
      invariant edited == Applied(text, settings[..i])
    {
      assert settings[..i + 1][..i] == settings[..i];
      edited := Assigned(edited, settings[i].key, settings[i].value);
    }
    assert settings[..|settings|] == settings;
  }

  /** What the first assignment of the key says, as written. */
  function Lookup(text: string, key: string): Option<string> {
    var lines := Split(text);
    var i := First(lines, key);
    if i < |lines| then Some(lines[i][|key| + 1..]) else None
  }

  /** What `str.strip` drops. */
  predicate IsSpace(c: char) {
    || '\t' <= c <= '\r' || '\U{1C}' <= c <= ' ' || c == '\U{85}' || c == '\U{A0}' || c == '\U{1680}'
    || '\U{2000}' <= c <= '\U{200A}' || c == '\U{2028}' || c == '\U{2029}' || c == '\U{202F}'
    || c == '\U{205F}' || c == '\U{3000}'
  }

  function TrimLeft(s: string): string {
    if s != "" && IsSpace(s[0]) then TrimLeft(s[1..]) else s
  }

  function TrimRight(s: string): string {
    if s != "" && IsSpace(s[|s| - 1]) then TrimRight(s[..|s| - 1]) else s
  }

  function Trim(s: string): string {
    TrimRight(TrimLeft(s))
  }

  /** The trimmed value of a key; none when the key is absent or its value is blank. */
  function ReadSetting(text: string, key: string): Option<string> {
    var found := Lookup(text, key);
    if found.None? || Trim(found.value) == "" then None else Some(Trim(found.value))
  }

  // ---- Texts and lines ----

  lemma {:induction false} JoinSplit(text: string)
    ensures Join(Split(text)) == text
  {
    if text != "" {
      JoinSplit(text[1..]);
      var rest := Split(text[1..]);
      if text[0] == '\n' {
        assert Split(text)[1..] == rest;
      } else {
        assert Split(text)[1..] == rest[1..];
      }
    }
  }

  lemma {:induction false} SplitLine(line: string)
    requires IsLine(line)
    ensures Split(line) == [line]
  {
    if line != "" {
      assert line[0] in line;
      SplitLine(line[1..]);
      assert [line[0]] + line[1..] == line;
    }
  }

  /** A newline separates the lines before it from those after it. */
  lemma {:induction false} SplitAppend(text: string, more: string)
    ensures Split(text + "\n" + more) == Split(text) + Split(more)
  {
    var all := text + "\n" + more;
    if text == "" {
      assert all[1..] == more;
    } else {
      assert all[1..] == text[1..] + "\n" + more;
      SplitAppend(text[1..], more);
    }
  }

  lemma {:induction false} SplitJoin(lines: seq<string>)
    requires |lines| > 0 && forall i :: 0 <= i < |lines| ==> IsLine(lines[i])
    ensures Split(Join(lines)) == lines
  {
    SplitLine(lines[0]);
    if |lines| > 1 {
      SplitJoin(lines[1..]);
      SplitAppend(lines[0], Join(lines[1..]));
    }
  }

  /** The lines after one assignment. */
  lemma AssignedLines(text: string, key: string, value: string)
    requires IsKey(key) && IsLine(value)
    ensures
      var lines := Split(text);
      var i := First(lines, key);
      Split(Assigned(text, key, value)) ==
        if i < |lines| then lines[i := LineFor(key, value)] else lines + [LineFor(key, value), ""]
  {
    var lines, line := Split(text), LineFor(key, value);
    var i := First(lines, key);
    if i < |lines| {
      SplitJoin(lines[i := line]);
    } else {
      assert text + "\n" + line + "\n" == text + "\n" + (line + "\n" + "");
      SplitAppend(text, line + "\n" + "");
      SplitAppend(line, "");
      SplitLine(line);
    }
  }

  lemma FirstIs(lines: seq<string>, key: string, i: nat)
    requires i <= |lines| && (i < |lines| ==> Assigns(lines[i], key))
    requires forall j :: 0 <= j < i ==> !Assigns(lines[j], key)
    ensures First(lines, key) == i
  {
  }

  /** A line's key ends at its first equals sign. */
  lemma KeyEndsAtEquals(line: string, key: string)
    requires IsKey(key) && Assigns(line, key)
    ensures key == line[..|key|] && line[|key|] == '='
    ensures forall i :: 0 <= i < |key| ==> line[i] != '='
  {
    assert line[|key|] == (key + "=")[|key|];
    forall i | 0 <= i < |key|
      ensures line[i] != '='
    {
      assert line[i] == (key + "=")[i] == key[i];
      assert key[i] in key;
    }
  }

  lemma OneKeyPerLine(line: string, key: string, other: string)
    requires IsKey(key) && IsKey(other) && Assigns(line, key) && Assigns(line, other)
    ensures key == other
  {
    KeyEndsAtEquals(line, key);
    KeyEndsAtEquals(line, other);
  }

  // ---- One assignment ----

  lemma WrittenKeyReadsBack(text: string, key: string, value: string)
    requires IsKey(key) && IsLine(value)
    ensures Lookup(Assigned(text, key, value), key) == Some(value)
  {
    hide Split, Join, Assigned, First;
    AssignedLines(text, key, value);
    var lines, i, line := Split(text), First(Split(text), key), LineFor(key, value);
    assert line[|key| + 1..] == value;
    FirstIs(if i < |lines| then lines[i := line] else lines + [line, ""], key, i);
  }

  lemma OtherKeysReadAsBefore(text: string, key: string, value: string, other: string)
    requires IsKey(key) && IsLine(value) && IsKey(other) && other != key
    ensures Lookup(Assigned(text, key, value), other) == Lookup(text, other)
  {
    hide Split, Join, Assigned, First;
    AssignedLines(text, key, value);
    var lines, i, line := Split(text), First(Split(text), key), LineFor(key, value);
    var after := if i < |lines| then lines[i := line] else lines + [line, ""];
    if Assigns(line, other) {
      OneKeyPerLine(line, key, other);
    }
    if i < |lines| && Assigns(lines[i], other) {
      OneKeyPerLine(lines[i], key, other);
    }
    var n := First(lines, other);
    FirstIs(after, other, if n < |lines| then n else |after|);
  }

  /** Writing the value a key already has changes nothing, not even the text around it. */
  lemma SameValueSameText(text: string, key: string, value: string)
    requires Lookup(text, key) == Some(value)
    ensures Assigned(text, key, value) == text
  {
    var lines, i := Split(text), First(Split(text), key);
    assert lines[i] == key + "=" + lines[i][|key| + 1..];
    assert lines[i := LineFor(key, value)] == lines;
    JoinSplit(text);
  }

  // ---- All the settings of one edit ----

  predicate WellFormed(settings: seq<Setting>) {
    && (forall i :: 0 <= i < |settings| ==> IsKey(settings[i].key) && IsLine(settings[i].value))
    && (forall i, j :: 0 <= i < j < |settings| ==> settings[i].key != settings[j].key)
  }

  /** After an edit every key written reads as the value written, and every other key as before. */
  lemma {:induction false} EditReadsBack(text: string, settings: seq<Setting>)
    requires WellFormed(settings)
    ensures forall i :: 0 <= i < |settings| ==> Lookup(Applied(text, settings), settings[i].key) == Some(settings[i].value)
    ensures forall other :: IsKey(other) && (forall i :: 0 <= i < |settings| ==> settings[i].key != other) ==>
      Lookup(Applied(text, settings), other) == Lookup(text, other)
  {
    hide Lookup, Assigned;
    if settings != [] {
      var before, last := settings[..|settings| - 1], settings[|settings| - 1];
      EditReadsBack(text, before);
      var edited := Applied(text, before);
      WrittenKeyReadsBack(edited, last.key, last.value);
      forall other | IsKey(other) && other != last.key
        ensures Lookup(Assigned(edited, last.key, last.value), other) == Lookup(edited, other)
      {
        OtherKeysReadAsBefore(edited, last.key, last.value, other);
      }
      forall i | 0 <= i < |before|
        ensures Lookup(Applied(text, settings), settings[i].key) == Some(settings[i].value)
      {
        assert before[i] == settings[i];
      }
    }
  }

  /** Reading back: each written key gives its trimmed value, none if that is blank, and every other key reads as it
      did. */
  lemma EditRoundTrip(text: string, settings: seq<Setting>, key: string)
    requires WellFormed(settings) && IsKey(key)
    ensures ReadSetting(Applied(text, settings), key) ==
      if exists i :: 0 <= i < |settings| && settings[i].key == key then
        var i :| 0 <= i < |settings| && settings[i].key == key;
        if Trim(settings[i].value) == "" then None else Some(Trim(settings[i].value))
      else ReadSetting(text, key)
  {
    hide Lookup, Applied, Trim;
    EditReadsBack(text, settings);
  }

  lemma {:induction false} SettledTextStays(text: string, settings: seq<Setting>)
    requires forall i :: 0 <= i < |settings| ==> Lookup(text, settings[i].key) == Some(settings[i].value)
    ensures Applied(text, settings) == text
  {
    if settings != [] {
      SettledTextStays(text, settings[..|settings| - 1]);
      SameValueSameText(text, settings[|settings| - 1].key, settings[|settings| - 1].value);
    }
  }

  /** Applying the same settings twice gives the same text as applying them once. */
  lemma EditTwiceIsOnce(text: string, settings: seq<Setting>)
    requires WellFormed(settings)
    ensures Applied(Applied(text, settings), settings) == Applied(text, settings)
  {
    EditReadsBack(text, settings);
    SettledTextStays(Applied(text, settings), settings);
  }

  lemma {:induction false} TrimLeftMeans(s: string) returns (from: nat)
    ensures from <= |s| && TrimLeft(s) == s[from..]
    ensures forall i :: 0 <= i < from ==> IsSpace(s[i])
    ensures from < |s| ==> !IsSpace(s[from])
  {
    from := 0;
    if s != "" && IsSpace(s[0]) {
      var n := TrimLeftMeans(s[1..]);
      from := n + 1;
      assert forall i :: 1 <= i < from ==> s[i] == s[1..][i - 1];
    }
  }

  lemma {:induction false} TrimRightMeans(s: string) returns (to: nat)
    ensures to <= |s| && TrimRight(s) == s[..to]
    ensures forall i :: to <= i < |s| ==> IsSpace(s[i])
    ensures to > 0 ==> !IsSpace(s[to - 1])
  {
    to := |s|;
    if s != "" && IsSpace(s[|s| - 1]) {
      to := TrimRightMeans(s[..|s| - 1]);
      assert s[..|s| - 1][..to] == s[..to];
      assert forall i :: to <= i < |s| - 1 ==> s[i] == s[..|s| - 1][i];
    } else {
      assert s[..to] == s;
    }
  }

  /** Trimming keeps a stretch that neither begins nor ends with a space and leaves out nothing but spaces. */
  lemma TrimMeans(s: string) returns (from: nat, to: nat)
    ensures from <= to <= |s| && Trim(s) == s[from..to]
    ensures forall i :: 0 <= i < from || to <= i < |s| ==> IsSpace(s[i])
    ensures from < to ==> !IsSpace(s[from]) && !IsSpace(s[to - 1])
  {
    hide IsSpace;
    from := TrimLeftMeans(s);
    var n := TrimRightMeans(s[from..]);
    to := from + n;
    assert forall i :: from <= i < |s| ==> s[i] == s[from..][i - from];
  }

  /** The characters that trimming drops, one by one. */
  const Spaces: seq<char> := [
    '\U{9}', '\U{A}', '\U{B}', '\U{C}', '\U{D}', '\U{1C}', '\U{1D}', '\U{1E}', '\U{1F}', '\U{20}', '\U{85}', '\U{A0}',
    '\U{1680}', '\U{2000}', '\U{2001}', '\U{2002}', '\U{2003}', '\U{2004}', '\U{2005}', '\U{2006}', '\U{2007}',
    '\U{2008}', '\U{2009}', '\U{200A}', '\U{2028}', '\U{2029}', '\U{202F}', '\U{205F}', '\U{3000}']

  lemma SpacesAreListed(c: char)
    ensures IsSpace(c) <==> c in Spaces
  {
  }

  /** A value of spaces alone reads as none, and one that neither begins nor ends with a space reads as written. */
  lemma WrittenValueReads(text: string, key: string, value: string)
    requires IsKey(key) && IsLine(value)
    ensures (forall i :: 0 <= i < |value| ==> value[i] in Spaces) ==> ReadSetting(Assigned(text, key, value), key) == None
    ensures value != "" && value[0] !in Spaces && value[|value| - 1] !in Spaces ==>
      ReadSetting(Assigned(text, key, value), key) == Some(value)
  {
    hide Assigned, Lookup, IsSpace;
    WrittenKeyReadsBack(text, key, value);
    var from, to := TrimMeans(value);
    forall i | 0 <= i < |value|
      ensures IsSpace(value[i]) <==> value[i] in Spaces
    {
      SpacesAreListed(value[i]);
    }
  }
}
