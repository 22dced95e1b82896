/**
 The setup wizard's .env file: written from a form, read back, and completed with the database fields
 that the file holds only inside DATABASE_URL.
 */
module EnvFile {
  import opened Wrappers
  import opened EnvText
  import opened EnvDefinitions
  import opened DatabaseUrl
  import Text

  // ----- writing -----

  /** `data[key] || fallback` */
  function OrDefault(data: Record, key: string, fallback: string): string {
    if key in data && data[key] != "" then data[key] else fallback
  }

  function PartsOf(data: Record): Parts {
    Parts(OrDefault(data, "DB_HOST", DEFAULT_PARTS.host),
          OrDefault(data, "DB_PORT", DEFAULT_PARTS.port),
          OrDefault(data, "DB_USER", DEFAULT_PARTS.user),
          OrDefault(data, "DB_PASSWORD", DEFAULT_PARTS.password),
          OrDefault(data, "DB_NAME", DEFAULT_PARTS.dbName))
  }

  function UrlOf(data: Record): string {
    BuildDatabaseUrl(PartsOf(data))
  }

  /** `data[key] ?? defaultValue`: an empty value is kept. */
  function Chosen(data: Record, d: Definition): string {
    if d.key in data then data[d.key] else d.defaultValue
  }

  function SettingOf(data: Record, d: Definition): Line {
    Setting(d.key, Chosen(data, d))
  }

  function DefinitionsOf(defs: seq<Definition>, g: Group): seq<Definition> {
    if defs == [] then []
    else
      var before, last := DefinitionsOf(defs[..|defs| - 1], g), defs[|defs| - 1];
      if last.group == g then before + [last] else before
  }

  function SettingsOf(data: Record, defs: seq<Definition>): seq<Line> {
    if defs == [] then []
    else
      var before, last := SettingsOf(data, defs[..|defs| - 1]), defs[|defs| - 1];
      if IsDbKey(last.key) then before else before + [SettingOf(data, last)]
  }

  function Section(data: Record, g: Group): seq<Line> {
    [Blank, Comment(GroupComment(g))] +
    if g.Database? then [Setting(URL_KEY, UrlOf(data))] else SettingsOf(data, DefinitionsOf(ENV_DEFINITIONS, g))
  }

  function Sections(data: Record, groups: seq<Group>): seq<Line> {
    if groups == [] then [] else Sections(data, groups[..|groups| - 1]) + Section(data, groups[|groups| - 1])
  }

  const TITLE := "NestJS Engine Environment Configuration"

  const STAMPED := "Generated by Setup Wizard at "

  function StampLine(stamp: string): Line {
    Comment(STAMPED + stamp)
  }

  function Header(stamp: string): seq<Line> {
    [Comment(TITLE), StampLine(stamp), Blank, Comment(GroupComment(App))]
  }

  /** The file as lines; `stamp` is the current time in ISO form. */
  function EnvLines(data: Record, stamp: string): (lines: seq<Line>)
    ensures lines != []
  {
    Header(stamp) + Sections(data, GROUP_ORDER) + [Blank]
  }

  lemma RenderConcat(a: seq<Line>, b: seq<Line>)
    ensures RenderAll(a + b) == RenderAll(a) + RenderAll(b)
  {
  }

  lemma NextSection(data: Record, head: seq<Line>, groups: seq<Group>, g: nat)
    requires g < |groups|
    ensures RenderAll(head + Sections(data, groups[..g + 1]))
      == RenderAll(head + Sections(data, groups[..g])) + RenderAll(Section(data, groups[g]))
  {
    assert groups[..g + 1][..g] == groups[..g];
    RenderConcat(head + Sections(data, groups[..g]), Section(data, groups[g]));
    assert head + Sections(data, groups[..g + 1]) == head + Sections(data, groups[..g]) + Section(data, groups[g]);
  }

  method BuildEnvContent(data: Record, stamp: string) returns (content: string)
    ensures content == Print(EnvLines(data, stamp))
  {
    var databaseUrl := UrlOf(data);
    var lines := ["# " + TITLE, "# " + (STAMPED + stamp), "", "# " + GroupComment(App)];
    ghost var head := Header(stamp);
    assert lines == RenderAll(head);
    assert head + Sections(data, GROUP_ORDER[..0]) == head;
    for g := 0 to |GROUP_ORDER|
      invariant lines == RenderAll(head + Sections(data, GROUP_ORDER[..g]))
    {
      NextSection(data, head, GROUP_ORDER, g);
      var section := PrintSection(data, GROUP_ORDER[g], databaseUrl);
      lines := lines + section;
    }
    assert GROUP_ORDER[..|GROUP_ORDER|] == GROUP_ORDER;
    lines := lines + [""];
    RenderConcat(head + Sections(data, GROUP_ORDER), [Blank]);
    assert RenderAll([Blank]) == [""];
    assert lines == RenderAll(EnvLines(data, stamp));
    content := Text.Join(lines, '\n');
  }

  /** The lines one turn of the loop over the groups pushes. */
  method PrintSection(data: Record, group: Group, databaseUrl: string) returns (lines: seq<string>)
    requires databaseUrl == UrlOf(data)
    ensures lines == RenderAll(Section(data, group))
  {
    ghost var head := [Blank, Comment(GroupComment(group))];
    lines := ["", "# " + GroupComment(group)];
    assert lines == RenderAll(head);
    if group == Database {
      lines := lines + [URL_KEY + ['='] + databaseUrl];
    } else {
      var defs := DefinitionsOf(ENV_DEFINITIONS, group);
      var settings := PrintSettings(data, defs);
      lines := lines + settings;
      RenderConcat(head, SettingsOf(data, defs));
    }
  }

  /** The loop over a group's definitions. */
  method PrintSettings(data: Record, defs: seq<Definition>) returns (lines: seq<string>)
    ensures lines == RenderAll(SettingsOf(data, defs))
  {
    lines := [];
    for i := 0 to |defs|
      invariant lines == RenderAll(SettingsOf(data, defs[..i]))
    {
      assert defs[..i + 1][..i] == defs[..i];
      var value := if defs[i].key in data then data[defs[i].key] else defs[i].defaultValue;
      if IsDbKey(defs[i].key) {
        continue;
      }
      RenderConcat(SettingsOf(data, defs[..i]), [SettingOf(data, defs[i])]);
      lines := lines + [defs[i].key + ['='] + value];
    }
    assert defs[..|defs|] == defs;
  }

  // ----- completing what was read -----

  predicate Truthy(values: Record, key: string) {
    key in values && values[key] != ""
  }

  function FillIn(values: Record, key: string, value: string): Record {
    if Truthy(values, key) then values else values[key := value]
  }

  function FillAll(values: Record, p: Parts): Record {
    FillIn(FillIn(FillIn(FillIn(FillIn(values,
      "DB_HOST", p.host), "DB_PORT", p.port), "DB_USER", p.user), "DB_PASSWORD", p.password), "DB_NAME", p.dbName)
  }

  /** None where decoding the password throws. */
  function Enriched(values: Record): Option<Record> {
    if !Truthy(values, URL_KEY) then Some(values)
    else
      var parsed := ParseDatabaseUrl(values[URL_KEY]);
      if parsed.None? then None else Some(FillAll(values, parsed.value))
  }

  ghost predicate IsFilled(before: Record, after: Record, key: string, fromUrl: string) {
    key in after && after[key] == if key in before && before[key] != "" then before[key] else fromUrl
  }

  /** A field the record already holds stays; a missing or empty one is filled in. */
  lemma FillAllFills(values: Record, p: Parts)
    ensures IsFilled(values, FillAll(values, p), "DB_HOST", p.host)
    ensures IsFilled(values, FillAll(values, p), "DB_PORT", p.port)
    ensures IsFilled(values, FillAll(values, p), "DB_USER", p.user)
    ensures IsFilled(values, FillAll(values, p), "DB_PASSWORD", p.password)
    ensures IsFilled(values, FillAll(values, p), "DB_NAME", p.dbName)
  {
  }

  /** Without a URL nothing is filled in; with one, the five fields are, each from its part of the URL. */
  lemma EnrichedFills(values: Record)
    ensures !("DATABASE_URL" in values && values["DATABASE_URL"] != "") ==> Enriched(values) == Some(values)
    ensures "DATABASE_URL" in values && values["DATABASE_URL"] != "" ==>
      Enriched(values).Some? == ParseDatabaseUrl(values["DATABASE_URL"]).Some?
    ensures "DATABASE_URL" in values && values["DATABASE_URL"] != "" && Enriched(values).Some? ==>
      var parsed := ParseDatabaseUrl(values["DATABASE_URL"]).value;
      && IsFilled(values, Enriched(values).value, "DB_HOST", parsed.host)
      && IsFilled(values, Enriched(values).value, "DB_PORT", parsed.port)
      && IsFilled(values, Enriched(values).value, "DB_USER", parsed.user)
      && IsFilled(values, Enriched(values).value, "DB_PASSWORD", parsed.password)
      && IsFilled(values, Enriched(values).value, "DB_NAME", parsed.dbName)
  {
    if "DATABASE_URL" in values && values["DATABASE_URL"] != "" && Enriched(values).Some? {
      FillAllFills(values, ParseDatabaseUrl(values["DATABASE_URL"]).value);
    }
  }

  /** The record the wizard reads a file into and completes in place. */
  class EnvRecord {
    var values: Record

    constructor (values: Record)
      ensures this.values == values
    {
      this.values := values;
    }

    /** A field the record already holds stays; a missing or empty one comes from the URL. */
    method EnrichWithDbFields() returns (ok: bool)
      modifies this
      ensures ok <==> Enriched(old(values)).Some?
      ensures values == if ok then Enriched(old(values)).value else old(values)
    {
      if Truthy(values, URL_KEY) {
        var parsed := ParseDatabaseUrl(values[URL_KEY]);
        if parsed.None? {
          return false;
        }
        if !Truthy(values, "DB_HOST") {
          values := values["DB_HOST" := parsed.value.host];
        }
        if !Truthy(values, "DB_PORT") {
          values := values["DB_PORT" := parsed.value.port];
        }
        if !Truthy(values, "DB_USER") {
          values := values["DB_USER" := parsed.value.user];
        }
        if !Truthy(values, "DB_PASSWORD") {
          values := values["DB_PASSWORD" := parsed.value.password];
        }
        if !Truthy(values, "DB_NAME") {
          values := values["DB_NAME" := parsed.value.dbName];
        }
      }
      return true;
    }
  }
}
