/** Reading the lines of an .env file, and when reading undoes writing. */
module EnvText {
  import opened Wrappers
  import opened Text

  type Record = map<string, string>

  // ----- reading -----

  predicate IsQuoted(v: string) {
    v != "" && v[0] == v[|v| - 1] && (v[0] == '"' || v[0] == '\'')
  }

  function StripQuotes(v: string): (w: string)
    ensures forall c <- w :: c in v
  {
    if !IsQuoted(v) then v else if |v| == 1 then "" else v[1..|v| - 1]
  }

  /** What reading makes of the text after '='. */
  function Strip(v: string): (w: string)
    ensures forall c <- w :: c in v
  {
    StripQuotes(Trim(v))
  }

  /** The setting a line makes, if it makes one. */
  function ParseLine(line: string): (r: Option<(string, string)>)
    ensures r.Some? && '\n' !in line ==> '\n' !in r.value.1
  {
    var trimmed := Trim(line);
    if trimmed == "" || trimmed[0] == '#' then None
    else
      var cut := Cut(trimmed, '=');
      if cut.None? then None else Some((Trim(cut.value.0), Strip(cut.value.1)))
  }

  /** Assignment to a property: "__proto__" is no property of its own. */
  function Assign(r: Record, key: string, value: string): Record {
    if key == "__proto__" then r else r[key := value]
  }

  function AssignParsed(r: Record, parsed: Option<(string, string)>): Record {
    if parsed.None? then r else Assign(r, parsed.value.0, parsed.value.1)
  }

  /** Later lines win. */
  function ParseLines(lines: seq<string>): Record {
    if lines == [] then map[] else AssignParsed(ParseLines(lines[..|lines| - 1]), ParseLine(lines[|lines| - 1]))
  }

  /** None is a file that does not exist. */
  function ParseFile(content: Option<string>): Record {
    if content.None? then map[] else ParseLines(Split(content.value, '\n'))
  }

  method ParseEnvFile(content: Option<string>) returns (result: Record)
    ensures result == ParseFile(content)
  {
    result := map[];
    if content.None? {
      return;
    }
    var lines := Split(content.value, '\n');
    for i := 0 to |lines|
      invariant result == ParseLines(lines[..i])
    {
      assert lines[..i + 1][..i] == lines[..i];
      var setting := ReadSetting(lines[i]);
      if setting.Some? && setting.value.0 != "__proto__" {
        result := result[setting.value.0 := setting.value.1];
      }
    }
    assert lines[..|lines|] == lines;
  }

  /** One turn of that loop, up to the assignment. */
  method ReadSetting(line: string) returns (setting: Option<(string, string)>)
    ensures setting == ParseLine(line)
  {
    var trimmed := Trim(line);
    if trimmed == "" || trimmed[0] == '#' {
      return None;
    }
    var cut := Cut(trimmed, '=');
    if cut.None? {
      return None;
    }
    var value := Trim(cut.value.1);
    if IsQuoted(value) {
      value := if |value| == 1 then "" else value[1..|value| - 1];
    }
    return Some((Trim(cut.value.0), value));
  }

  // ----- writing -----

  datatype Line = Blank | Comment(text: string) | Setting(key: string, value: string)

  function Render(line: Line): string {
    match line
    case Blank => ""
    case Comment(text) => "# " + text
    case Setting(key, value) => key + ['='] + value
  }

  function RenderAll(lines: seq<Line>): (rendered: seq<string>)
    ensures |rendered| == |lines|
    ensures forall i :: 0 <= i < |lines| ==> rendered[i] == Render(lines[i])
  {
    seq(|lines|, i requires 0 <= i < |lines| => Render(lines[i]))
  }

  function Print(lines: seq<Line>): string
    requires lines != []
  {
    Join(RenderAll(lines), '\n')
  }

  /** What the lines say: the last setting of a key counts. */
  function Meaning(lines: seq<Line>): Record {
    if lines == [] then map[]
    else
      var before, last := Meaning(lines[..|lines| - 1]), lines[|lines| - 1];
      if last.Setting? then before[last.key := last.value] else before
  }

  predicate IsKeyLetter(c: char) {
    'A' <= c <= 'Z' || c == '_'
  }

  predicate IsKey(key: string) {
    key != "" && forall c <- key :: IsKeyLetter(c)
  }

  predicate IsWellFormed(line: Line) {
    match line
    case Blank => true
    case Comment(text) => '\n' !in text
    case Setting(key, value) => IsKey(key)
  }

  /** No key is set to two different values. */
  predicate Consistent(lines: seq<Line>) {
    forall a <- lines, b <- lines :: a.Setting? && b.Setting? && a.key == b.key ==> a.value == b.value
  }

  // ----- reading what was written -----

  lemma KeysAreTrimmed(key: string)
    requires IsKey(key)
    ensures Trim(key) == key && '=' !in key && '\n' !in key && key[0] != '#' && key != "__proto__"
    ensures !IsSpace(key[0]) && !IsSpace(key[|key| - 1])
  {
    assert forall c <- key :: !IsSpace(c);
    assert key[0] in key && key[|key| - 1] in key;
    TrimIdentity(key);
    assert "__proto__"[2] == 'p' && 'p' in "__proto__";
    assert 'p' !in key;
  }

  /** The value may hold anything, even further '=' or '#'. */
  lemma ParseSetting(key: string, value: string)
    requires IsKey(key)
    ensures ParseLine(key + ['='] + value) == Some((key, Strip(value)))
  {
    KeysAreTrimmed(key);
    var line := key + ['='] + value;
    assert TrimStart(line) == line;
    TrimEndAfter(key + ['='], value);
    CutAtFirst(key, '=', TrimEnd(value));
    TrimAfterTrimEnd(value);
  }

  lemma ParseComment(text: string)
    ensures ParseLine("# " + text).None?
  {
    var line := "# " + text;
    assert TrimStart(line) == line;
    TrimEndAfter("#", line[1..]);
    assert "#" + line[1..] == line;
  }

  function StripLine(line: Line): Line {
    if line.Setting? then line.(value := Strip(line.value)) else line
  }

  function StripAll(lines: seq<Line>): (stripped: seq<Line>)
    ensures |stripped| == |lines|
    ensures forall i :: 0 <= i < |lines| ==> stripped[i] == StripLine(lines[i])
  {
    seq(|lines|, i requires 0 <= i < |lines| => StripLine(lines[i]))
  }

  lemma {:induction false} ParseRendered(lines: seq<Line>)
    requires forall line <- lines :: IsWellFormed(line)
    ensures ParseLines(RenderAll(lines)) == Meaning(StripAll(lines))
  {
    if lines != [] {
      var n := |lines| - 1;
      var last := lines[n];
      assert IsWellFormed(last);
      ParseRendered(lines[..n]);
      assert RenderAll(lines)[..n] == RenderAll(lines[..n]);
      assert StripAll(lines)[..n] == StripAll(lines[..n]);
      match last
      case Blank =>
      case Comment(text) => ParseComment(text);
      case Setting(key, value) =>
        ParseSetting(key, value);
        KeysAreTrimmed(key);
    }
  }

  /** Read back, every value has lost its outer white space and quotes, and nothing else is lost. */
  lemma ParsePrinted(lines: seq<Line>)
    requires lines != [] && forall line <- lines :: IsWellFormed(line)
    requires forall line <- lines :: line.Setting? ==> '\n' !in line.value
    ensures ParseFile(Some(Print(lines))) == Meaning(StripAll(lines))
  {
    var rendered := RenderAll(lines);
    forall r <- rendered
      ensures '\n' !in r
    {
      var i :| 0 <= i < |lines| && r == Render(lines[i]);
      assert IsWellFormed(lines[i]);
      if lines[i].Setting? {
        KeysAreTrimmed(lines[i].key);
      }
    }
    SplitJoin(rendered, '\n');
    ParseRendered(lines);
  }

  /** What reading leaves as it is. */
  predicate IsClean(v: string) {
    '\n' !in v && IsTrimmed(v) && !IsQuoted(v)
  }

  lemma StripIdentity(v: string)
    ensures Strip(v) == v <==> IsTrimmed(v) && !IsQuoted(v)
  {
    TrimIdentity(v);
  }

  lemma {:induction false} MeaningOfSetting(lines: seq<Line>, line: Line)
    requires Consistent(lines) && line in lines && line.Setting?
    ensures line.key in Meaning(lines) && Meaning(lines)[line.key] == line.value
  {
    var n := |lines| - 1;
    var last := lines[n];
    assert last in lines;
    if !(last.Setting? && last.key == line.key) {
      assert lines == lines[..n] + [last];
      assert line in lines[..n];
      assert forall a <- lines[..n] :: a in lines;
      MeaningOfSetting(lines[..n], line);
    }
  }

  lemma {:induction false} KeysOfMeaning(lines: seq<Line>, key: string) returns (line: Line)
    requires key in Meaning(lines)
    ensures line in lines && line.Setting? && line.key == key
  {
    var n := |lines| - 1;
    var last := lines[n];
    if last.Setting? && last.key == key {
      line := last;
    } else {
      line := KeysOfMeaning(lines[..n], key);
    }
  }

  lemma {:induction false} ParsedOnOneLine(lines: seq<string>, key: string)
    requires forall line <- lines :: '\n' !in line
    requires key in ParseLines(lines)
    ensures '\n' !in ParseLines(lines)[key]
  {
    var n := |lines| - 1;
    assert lines[n] in lines;
    var parsed := ParseLine(lines[n]);
    if parsed.Some? && parsed.value.0 == key && key != "__proto__" {
    } else {
      assert forall line <- lines[..n] :: line in lines;
      ParsedOnOneLine(lines[..n], key);
    }
  }

  predicate AllClean(lines: seq<Line>) {
    forall line <- lines :: line.Setting? ==> IsClean(line.value)
  }

  lemma CleanParses(lines: seq<Line>)
    requires lines != [] && (forall line <- lines :: IsWellFormed(line)) && AllClean(lines)
    ensures ParseFile(Some(Print(lines))) == Meaning(lines)
  {
    forall i | 0 <= i < |lines|
      ensures StripAll(lines)[i] == lines[i]
    {
      assert lines[i] in lines;
      if lines[i].Setting? {
        StripIdentity(lines[i].value);
      }
    }
    assert StripAll(lines) == lines;
    ParsePrinted(lines);
  }

  lemma StripAllConsistent(lines: seq<Line>)
    requires Consistent(lines)
    ensures Consistent(StripAll(lines))
  {
    var stripped := StripAll(lines);
    forall a <- stripped, b <- stripped | a.Setting? && b.Setting? && a.key == b.key
      ensures a.value == b.value
    {
      var i :| 0 <= i < |stripped| && stripped[i] == a;
      var j :| 0 <= j < |stripped| && stripped[j] == b;
      assert lines[i] in lines && lines[j] in lines;
    }
  }

  lemma ParsedIsClean(lines: seq<Line>)
    requires lines != [] && (forall line <- lines :: IsWellFormed(line)) && Consistent(lines)
    requires forall line <- lines :: line.Setting? ==>
      line.key in ParseFile(Some(Print(lines))) && ParseFile(Some(Print(lines)))[line.key] == line.value
    ensures AllClean(lines)
  {
    forall line <- lines | line.Setting?
      ensures '\n' !in line.value
    {
      ParsedOnOneLine(Split(Print(lines), '\n'), line.key);
    }
    ParsePrinted(lines);
    StripAllConsistent(lines);
    forall line <- lines | line.Setting?
      ensures IsClean(line.value)
    {
      var i :| 0 <= i < |lines| && lines[i] == line;
      assert StripAll(lines)[i] in StripAll(lines);
      MeaningOfSetting(StripAll(lines), StripLine(line));
      StripIdentity(line.value);
    }
  }

  /**
   Reading undoes writing exactly when every value is on one line, without white space around it and
   without matching quotes around it.
   */
  lemma ReadUndoesWrite(lines: seq<Line>)
    requires lines != [] && (forall line <- lines :: IsWellFormed(line)) && Consistent(lines)
    ensures ParseFile(Some(Print(lines))) == Meaning(lines) <==> AllClean(lines)
  {
    if AllClean(lines) {
      CleanParses(lines);
    }
    if ParseFile(Some(Print(lines))) == Meaning(lines) {
      forall line <- lines | line.Setting?
        ensures line.key in Meaning(lines) && Meaning(lines)[line.key] == line.value
      {
        MeaningOfSetting(lines, line);
      }
      ParsedIsClean(lines);
    }
  }

  // ----- any line, spelled out -----

  /** White space around key and value is dropped, and one pair of equal quotes around the value. */
  lemma SettingIsRead(a: string, key: string, b: string, c: string, v: string, d: string)
    requires AllSpace(a) && AllSpace(b) && AllSpace(c) && AllSpace(d) && IsTrimmed(key) && IsTrimmed(v)
    requires key != "" && key[0] != '#' && '=' !in key
    ensures var quoted := v != "" && v[0] == v[|v| - 1] && (v[0] == '"' || v[0] == '\'');
      ParseLine(a + (key + b) + ['='] + (c + v + d)) ==
        Some((key, if !quoted then v else if |v| == 1 then "" else v[1..|v| - 1]))
  {
    NameIsRead(key, b);
    ValueIsRead(c, v, d);
    CutLine(a, key + b, c + v + d);
  }

  lemma NameIsRead(key: string, b: string)
    requires AllSpace(b) && IsTrimmed(key) && key != "" && key[0] != '#' && '=' !in key
    ensures var name := key + b; name != "" && !IsSpace(name[0]) && name[0] != '#' && '=' !in name && Trim(name) == key
  {
    SpacesHoldNoEquals(b);
    assert "" + key + b == key + b;
    TrimStrips("", key, b);
  }

  lemma ValueIsRead(c: string, v: string, d: string)
    requires AllSpace(c) && AllSpace(d) && IsTrimmed(v)
    ensures Strip(TrimEnd(c + v + d)) == StripQuotes(v)
  {
    TrimAfterTrimEnd(c + v + d);
    TrimStrips(c, v, d);
  }

  lemma TrimmedLine(a: string, start: string, value: string)
    requires AllSpace(a) && start != "" && !IsSpace(start[0]) && !IsSpace(start[|start| - 1])
    ensures Trim(a + start + value) == start + TrimEnd(value)
  {
    assert a + start + value == a + (start + value);
    TrimStartStrips(a, start + value);
    TrimEndAfter(start, value);
  }

  lemma CutLine(a: string, name: string, value: string)
    requires AllSpace(a) && name != "" && !IsSpace(name[0]) && name[0] != '#' && '=' !in name
    ensures ParseLine(a + name + ['='] + value) == Some((Trim(name), Strip(TrimEnd(value))))
  {
    assert !IsSpace('=');
    assert a + name + ['='] + value == a + (name + ['=']) + value;
    TrimmedLine(a, name + ['='], value);
    CutAtFirst(name, '=', TrimEnd(value));
  }

  lemma SpacesHoldNoEquals(b: string)
    requires AllSpace(b)
    ensures '=' !in b
  {
    assert !IsSpace('=');
  }

  /** Blank lines and comments set nothing. */
  lemma NothingIsRead(a: string, rest: string)
    requires AllSpace(a)
    ensures ParseLine(a).None?
    ensures ParseLine(a + ['#'] + rest).None?
  {
    assert a + "" == a;
    TrimStartStrips(a, "");
    assert a + ['#'] + rest == a + (['#'] + rest);
    TrimStartStrips(a, ['#'] + rest);
    TrimEndAfter(['#'], rest);
  }

  /** Nor does a line without '='. */
  lemma NoEqualsNoSetting(line: string)
    requires '=' !in line
    ensures ParseLine(line).None?
  {
  }

  /** A file is read line by line: one more line makes its setting, if any, count over all before it. */
  lemma NextLineCounts(lines: seq<string>, line: string)
    requires lines != [] && (forall l <- lines :: '\n' !in l) && '\n' !in line
    ensures var before, after := ParseFile(Some(Join(lines, '\n'))), ParseFile(Some(Join(lines + [line], '\n')));
      var setting := ParseLine(line);
      after == if setting.None? || setting.value.0 == "__proto__" then before
               else before[setting.value.0 := setting.value.1]
  {
    SplitJoin(lines, '\n');
    SplitJoin(lines + [line], '\n');
    assert (lines + [line])[..|lines|] == lines;
  }

  /** No file, and an empty one, hold nothing. */
  lemma NothingToRead()
    ensures ParseFile(None) == map[] && ParseFile(Some("")) == map[]
  {
    assert Split("", '\n') == [""];
    NothingIsRead("", "");
  }

  lemma LinesSpelled(key: string, value: string, text: string)
    ensures Render(Setting(key, value)) == key + "=" + value
    ensures Render(Comment(text)) == "# " + text
    ensures Render(Blank) == ""
  {
  }
}
