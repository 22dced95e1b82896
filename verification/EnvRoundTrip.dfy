/** The wizard's round trip: write a form, read the file, complete it, and write again. */
module EnvRoundTrip {
  import opened Wrappers
  import opened EnvText
  import opened EnvDefinitions
  import opened EnvFile
  import opened DatabaseUrl
  import PercentEncoding
  import Text

  // ----- the settings a file holds -----

  lemma {:induction false} SettingsOfDefinitions(data: Record, defs: seq<Definition>, line: Line)
    ensures line in SettingsOf(data, defs) <==> IsSettingIn(data, defs, line)
  {
    if defs != [] {
      var n := |defs| - 1;
      assert defs == defs[..n] + [defs[n]];
      SettingsOfDefinitions(data, defs[..n], line);
    }
  }

  lemma {:induction false} DefinitionsOfGroup(defs: seq<Definition>, g: Group, d: Definition)
    ensures d in DefinitionsOf(defs, g) <==> d in defs && d.group == g
  {
    if defs != [] {
      var n := |defs| - 1;
      assert defs == defs[..n] + [defs[n]];
      DefinitionsOfGroup(defs[..n], g, d);
    }
  }

  lemma {:induction false} LinesOfSections(data: Record, groups: seq<Group>, line: Line)
    ensures line in Sections(data, groups) <==> exists g <- groups :: line in Section(data, g)
  {
    if groups != [] {
      var n := |groups| - 1;
      assert groups == groups[..n] + [groups[n]];
      LinesOfSections(data, groups[..n], line);
    }
  }

  predicate IsSettingIn(data: Record, defs: seq<Definition>, line: Line) {
    exists d <- defs :: !IsDbKey(d.key) && line == SettingOf(data, d)
  }

  predicate IsSettingOf(data: Record, line: Line) {
    line == Setting(URL_KEY, UrlOf(data)) || IsSettingIn(data, ENV_DEFINITIONS, line)
  }

  lemma GroupSettings(data: Record, defs: seq<Definition>, g: Group, line: Line)
    requires line in SettingsOf(data, DefinitionsOf(defs, g))
    ensures IsSettingIn(data, defs, line)
  {
    SettingsOfDefinitions(data, DefinitionsOf(defs, g), line);
    var d :| d in DefinitionsOf(defs, g) && !IsDbKey(d.key) && line == SettingOf(data, d);
    DefinitionsOfGroup(defs, g, d);
  }

  lemma SectionSettings(data: Record, g: Group, line: Line)
    requires line in Section(data, g) && line.Setting?
    ensures IsSettingOf(data, line)
  {
    if g.Database? {
      assert line == Setting(URL_KEY, UrlOf(data));
    } else {
      assert line in SettingsOf(data, DefinitionsOf(ENV_DEFINITIONS, g));
      GroupSettings(data, ENV_DEFINITIONS, g, line);
    }
  }

  lemma DefinitionIsWritten(data: Record, d: Definition)
    requires d in ENV_DEFINITIONS && !IsDbKey(d.key)
    ensures SettingOf(data, d) in Section(data, d.group)
  {
    var i :| 0 <= i < |ENV_DEFINITIONS| && ENV_DEFINITIONS[i] == d;
    DbKeysAreGrouped(i);
    DefinitionsOfGroup(ENV_DEFINITIONS, d.group, d);
    SettingsOfDefinitions(data, DefinitionsOf(ENV_DEFINITIONS, d.group), SettingOf(data, d));
  }

  lemma NothingElseIsSet(data: Record, stamp: string, line: Line)
    requires line.Setting? && line in EnvLines(data, stamp)
    ensures IsSettingOf(data, line)
  {
    LinesOfSections(data, GROUP_ORDER, line);
    var g :| g in GROUP_ORDER && line in Section(data, g);
    SectionSettings(data, g, line);
  }

  lemma AllIsSet(data: Record, stamp: string, line: Line)
    requires IsSettingOf(data, line)
    ensures line in EnvLines(data, stamp)
  {
    LinesOfSections(data, GROUP_ORDER, line);
    if line == Setting(URL_KEY, UrlOf(data)) {
      EveryGroup(Database);
      assert line in Section(data, Database);
    } else {
      var d :| d in ENV_DEFINITIONS && !IsDbKey(d.key) && line == SettingOf(data, d);
      DefinitionIsWritten(data, d);
      EveryGroup(d.group);
    }
  }

  lemma SameKeySameDefinition(d: Definition, e: Definition)
    requires d in ENV_DEFINITIONS && e in ENV_DEFINITIONS && d.key == e.key
    ensures d == e
  {
    EnvKeysAreDistinct();
    SameKey(ENV_DEFINITIONS, d, e);
  }

  lemma KeyFacts(d: Definition)
    requires d in ENV_DEFINITIONS
    ensures IsKey(d.key) && d.key != URL_KEY
    ensures d.group.Database? <==> IsDbKey(d.key)
  {
    var i :| 0 <= i < |ENV_DEFINITIONS| && ENV_DEFINITIONS[i] == d;
    KeysAreKeys(i);
    DbKeysAreGrouped(i);
  }

  lemma FileIsConsistent(data: Record, stamp: string)
    ensures Consistent(EnvLines(data, stamp))
  {
    var lines := EnvLines(data, stamp);
    forall a <- lines, b <- lines | a.Setting? && b.Setting? && a.key == b.key
      ensures a.value == b.value
    {
      NothingElseIsSet(data, stamp, a);
      NothingElseIsSet(data, stamp, b);
      SettingIsItsKeys(data, a, b);
    }
  }

  lemma SettingIsItsKeys(data: Record, a: Line, b: Line)
    requires IsSettingOf(data, a) && IsSettingOf(data, b) && a.key == b.key
    ensures a == b
  {
    if a.key != URL_KEY {
      var d :| d in ENV_DEFINITIONS && !IsDbKey(d.key) && a == SettingOf(data, d);
      var e :| e in ENV_DEFINITIONS && !IsDbKey(e.key) && b == SettingOf(data, e);
      SameKeySameDefinition(d, e);
    } else {
      forall d <- ENV_DEFINITIONS
        ensures d.key != URL_KEY
      {
        KeyFacts(d);
      }
    }
  }

  lemma SettingIsWellFormed(data: Record, line: Line)
    requires IsSettingOf(data, line)
    ensures IsKey(line.key)
  {
    if line.key != URL_KEY {
      var d :| d in ENV_DEFINITIONS && !IsDbKey(d.key) && line == SettingOf(data, d);
      KeyFacts(d);
    }
  }

  lemma SectionComments(data: Record, g: Group, line: Line)
    requires line in Section(data, g) && line.Comment?
    ensures IsWellFormed(line)
  {
    if !g.Database? {
      SettingsOfDefinitions(data, DefinitionsOf(ENV_DEFINITIONS, g), line);
    }
    assert line == Comment(GroupComment(g));
  }

  lemma TitleOnOneLine()
    ensures '\n' !in TITLE
  {
  }

  lemma StampOnOneLine(stamp: string)
    requires '\n' !in stamp
    ensures IsWellFormed(StampLine(stamp))
  {
    assert '\n' !in STAMPED;
  }

  lemma HeaderIsWellFormed(stamp: string, line: Line)
    requires '\n' !in stamp && line in Header(stamp)
    ensures IsWellFormed(line)
  {
    if line == StampLine(stamp) {
      StampOnOneLine(stamp);
    } else if line == Comment(TITLE) {
      TitleOnOneLine();
    } else {
      assert line == Blank || line == Comment("App");
    }
  }

  lemma LineIsWellFormed(data: Record, stamp: string, line: Line)
    requires '\n' !in stamp && line in EnvLines(data, stamp)
    ensures IsWellFormed(line)
  {
    if line.Setting? {
      NothingElseIsSet(data, stamp, line);
      SettingIsWellFormed(data, line);
    } else if line.Comment? {
      if line in Header(stamp) {
        HeaderIsWellFormed(stamp, line);
      } else {
        LinesOfSections(data, GROUP_ORDER, line);
        var g :| g in GROUP_ORDER && line in Section(data, g);
        SectionComments(data, g, line);
      }
    }
  }

  // ----- what the round trip should give -----

  /** The URL and every key that is not a database field, as the form has them or by default. */
  predicate HoldsSettings(r: Record, data: Record) {
    && URL_KEY in r && r[URL_KEY] == UrlOf(data)
    && forall d <- ENV_DEFINITIONS :: !IsDbKey(d.key) ==>
      d.key in r && r[d.key] == if d.key in data then data[d.key] else d.defaultValue
  }

  /** The five database fields, as the form has them or, where it has nothing, by default. */
  predicate HoldsFields(r: Record, data: Record) {
    && "DB_HOST" in r && "DB_PORT" in r && "DB_USER" in r && "DB_PASSWORD" in r && "DB_NAME" in r
    && r["DB_HOST"] == (if "DB_HOST" in data && data["DB_HOST"] != "" then data["DB_HOST"] else "localhost")
    && r["DB_PORT"] == (if "DB_PORT" in data && data["DB_PORT"] != "" then data["DB_PORT"] else "3306")
    && r["DB_USER"] == (if "DB_USER" in data && data["DB_USER"] != "" then data["DB_USER"] else "root")
    && r["DB_PASSWORD"] == (if "DB_PASSWORD" in data then data["DB_PASSWORD"] else "")
    && r["DB_NAME"] == (if "DB_NAME" in data && data["DB_NAME"] != "" then data["DB_NAME"] else "nestjs_engine_db")
  }

  predicate HoldsParts(r: Record, p: Parts) {
    && "DB_HOST" in r && r["DB_HOST"] == p.host
    && "DB_PORT" in r && r["DB_PORT"] == p.port
    && "DB_USER" in r && r["DB_USER"] == p.user
    && "DB_PASSWORD" in r && r["DB_PASSWORD"] == p.password
    && "DB_NAME" in r && r["DB_NAME"] == p.dbName
  }

  predicate IsDefined(key: string) {
    exists d <- ENV_DEFINITIONS :: d.key == key
  }

  /** Every key of the form with its default filled in, the URL, and nothing else. */
  predicate IsCompletion(r: Record, data: Record) {
    && HoldsSettings(r, data)
    && HoldsFields(r, data)
    && forall k <- r.Keys :: k == URL_KEY || IsDbKey(k) || IsDefined(k)
  }

  /** What the database fields must be for the URL to hold them. */
  predicate FitUrl(user: string, host: string, port: string, dbName: string) {
    && ':' !in user && '\n' !in user
    && ':' !in host && '\n' !in host
    && (forall c <- port :: '0' <= c <= '9')
    && (forall c <- dbName :: c != '\n' && c != '\r' && c != '\U{2028}' && c != '\U{2029}')
    && dbName != "" && dbName[|dbName| - 1] !in Text.WHITE
  }

  predicate AdmissibleFields(data: Record) {
    FitUrl(if "DB_USER" in data && data["DB_USER"] != "" then data["DB_USER"] else "root",
           if "DB_HOST" in data && data["DB_HOST"] != "" then data["DB_HOST"] else "localhost",
           if "DB_PORT" in data && data["DB_PORT"] != "" then data["DB_PORT"] else "3306",
           if "DB_NAME" in data && data["DB_NAME"] != "" then data["DB_NAME"] else "nestjs_engine_db")
  }

  predicate AdmissibleSettings(data: Record) {
    forall d <- ENV_DEFINITIONS :: !IsDbKey(d.key) ==> IsUntouched(if d.key in data then data[d.key] else d.defaultValue)
  }

  /** Conditions on a form, default values included. */
  predicate AdmissibleForm(data: Record) {
    AdmissibleFields(data) && AdmissibleSettings(data)
  }

  predicate CleanSettings(data: Record) {
    forall d <- ENV_DEFINITIONS :: !IsDbKey(d.key) ==> IsClean(Chosen(data, d))
  }

  /** One line, no white space at its ends, no quotes around it. */
  predicate IsUntouched(v: string) {
    && '\n' !in v
    && (v != "" ==>
          && v[0] !in Text.WHITE && v[|v| - 1] !in Text.WHITE
          && !(v[0] == v[|v| - 1] && (v[0] == '"' || v[0] == '\'')))
  }

  function Reread(data: Record, stamp: string): Option<Record> {
    Enriched(ParseFile(Some(Print(EnvLines(data, stamp)))))
  }

  /** Written, read and completed, the form is back. */
  predicate ComesBack(data: Record, stamp: string) {
    var r := Reread(data, stamp);
    r.Some? && IsCompletion(r.value, data)
  }

  // ----- proof -----

  lemma UrlOnOneLine(p: Parts)
    requires Admissible(p)
    ensures '\n' !in BuildDatabaseUrl(p) <==> '\n' !in p.user && '\n' !in p.host
  {
    PercentEncoding.EncodedIsPlain(p.password);
    assert '\n' !in SCHEME;
    assert '\n' !in p.port && '\n' !in p.dbName;
  }

  lemma UrlIsClean(p: Parts)
    requires Admissible(p)
    ensures IsClean(BuildDatabaseUrl(p)) <==>
      '\n' !in p.user && '\n' !in p.host && !Text.IsSpace(p.dbName[|p.dbName| - 1])
  {
    var url := BuildDatabaseUrl(p);
    UrlOnOneLine(p);
    assert url[0] == 'm';
    assert url[|url| - 1] == p.dbName[|p.dbName| - 1];
  }

  lemma UntouchedIsClean(v: string)
    ensures IsUntouched(v) <==> IsClean(v)
  {
    if v != "" {
      Text.SpacesAreWhite(v[0]);
      Text.SpacesAreWhite(v[|v| - 1]);
    }
  }

  lemma FittingParts(p: Parts)
    requires p.host != "" && p.port != "" && p.user != "" && p.dbName != ""
    ensures FitUrl(p.user, p.host, p.port, p.dbName) <==>
      Admissible(p) && '\n' !in p.user && '\n' !in p.host && !Text.IsSpace(p.dbName[|p.dbName| - 1])
  {
    UrlRoundTrip(p);
    Text.SpacesAreWhite(p.dbName[|p.dbName| - 1]);
  }

  lemma AdmissibleParts(data: Record)
    ensures var p := PartsOf(data);
      AdmissibleFields(data) <==>
        Admissible(p) && '\n' !in p.user && '\n' !in p.host && !Text.IsSpace(p.dbName[|p.dbName| - 1])
  {
    PartsAreThere(data);
    FittingParts(PartsOf(data));
  }

  lemma UntouchedValues(data: Record)
    ensures AdmissibleSettings(data) <==> CleanSettings(data)
  {
    forall d: Definition
      ensures IsUntouched(Chosen(data, d)) <==> IsClean(Chosen(data, d))
    {
      UntouchedIsClean(Chosen(data, d));
    }
  }

  lemma PartsAreThere(data: Record)
    ensures var p := PartsOf(data); p.host != "" && p.port != "" && p.user != "" && p.dbName != ""
  {
  }

  lemma FieldsAreParts(r: Record, data: Record)
    ensures HoldsFields(r, data) <==> HoldsParts(r, PartsOf(data))
  {
  }

  lemma FillAllFrame(values: Record, p: Parts, k: string)
    requires !IsDbKey(k)
    ensures k in FillAll(values, p) <==> k in values
    ensures k in values ==> FillAll(values, p)[k] == values[k]
  {
  }

  lemma FillAllParts(values: Record, p: Parts)
    requires forall k <- values.Keys :: !IsDbKey(k)
    ensures HoldsParts(FillAll(values, p), p)
  {
  }

  lemma KeysOfFile(data: Record, stamp: string)
    ensures forall k <- Meaning(EnvLines(data, stamp)).Keys :: !IsDbKey(k) && (k == URL_KEY || IsDefined(k))
  {
    var lines := EnvLines(data, stamp);
    forall k <- Meaning(lines).Keys
      ensures !IsDbKey(k) && (k == URL_KEY || IsDefined(k))
    {
      var line := KeysOfMeaning(lines, k);
      NothingElseIsSet(data, stamp, line);
      SettingKey(data, line);
    }
  }

  lemma SettingKey(data: Record, line: Line)
    requires IsSettingOf(data, line)
    ensures !IsDbKey(line.key) && (line.key == URL_KEY || IsDefined(line.key))
  {
  }

  lemma MeaningOfFile(data: Record, stamp: string)
    ensures HoldsSettings(Meaning(EnvLines(data, stamp)), data)
    ensures forall k <- Meaning(EnvLines(data, stamp)).Keys :: !IsDbKey(k) && (k == URL_KEY || IsDefined(k))
  {
    var lines := EnvLines(data, stamp);
    FileIsConsistent(data, stamp);
    AllIsSet(data, stamp, Setting(URL_KEY, UrlOf(data)));
    MeaningOfSetting(lines, Setting(URL_KEY, UrlOf(data)));
    forall d <- ENV_DEFINITIONS | !IsDbKey(d.key)
      ensures d.key in Meaning(lines) && Meaning(lines)[d.key] == Chosen(data, d)
    {
      AllIsSet(data, stamp, SettingOf(data, d));
      MeaningOfSetting(lines, SettingOf(data, d));
    }
    KeysOfFile(data, stamp);
  }

  lemma AllCleanIffForm(data: Record, stamp: string)
    ensures AllClean(EnvLines(data, stamp)) <==> IsClean(UrlOf(data)) && CleanSettings(data)
  {
    var lines := EnvLines(data, stamp);
    if AllClean(lines) {
      AllIsSet(data, stamp, Setting(URL_KEY, UrlOf(data)));
      assert IsClean(Setting(URL_KEY, UrlOf(data)).value);
      forall d <- ENV_DEFINITIONS | !IsDbKey(d.key)
        ensures IsClean(Chosen(data, d))
      {
        AllIsSet(data, stamp, SettingOf(data, d));
        assert IsClean(SettingOf(data, d).value);
      }
    }
    if IsClean(UrlOf(data)) && CleanSettings(data) {
      forall line <- lines | line.Setting?
        ensures IsClean(line.value)
      {
        NothingElseIsSet(data, stamp, line);
      }
    }
  }

  lemma FileIsGood(data: Record, stamp: string)
    requires '\n' !in stamp
    ensures (forall line <- EnvLines(data, stamp) :: IsWellFormed(line)) && Consistent(EnvLines(data, stamp))
  {
    FileIsConsistent(data, stamp);
    forall line <- EnvLines(data, stamp)
      ensures IsWellFormed(line)
    {
      LineIsWellFormed(data, stamp, line);
    }
  }

  lemma CleanReread(data: Record, stamp: string)
    requires '\n' !in stamp && AllClean(EnvLines(data, stamp))
    ensures Reread(data, stamp) == Enriched(Meaning(EnvLines(data, stamp)))
  {
    FileIsGood(data, stamp);
    ReadUndoesWrite(EnvLines(data, stamp));
  }

  lemma EnrichedParts(m: Record, data: Record)
    requires HoldsSettings(m, data)
    requires forall k <- m.Keys :: !IsDbKey(k) && (k == URL_KEY || IsDefined(k))
    ensures (Enriched(m).Some? && IsCompletion(Enriched(m).value, data))
      <==> ParseDatabaseUrl(UrlOf(data)) == Some(PartsOf(data))
  {
    var parsed := ParseDatabaseUrl(UrlOf(data));
    assert |UrlOf(data)| >= |SCHEME| && Truthy(m, URL_KEY);
    if parsed.Some? {
      CompletedParts(m, parsed.value, data);
    }
  }

  /** A clean file reads back as it was meant, and then comes down to parsing the URL. */
  lemma RereadClean(data: Record, stamp: string)
    requires '\n' !in stamp && AllClean(EnvLines(data, stamp))
    ensures ComesBack(data, stamp) <==> ParseDatabaseUrl(UrlOf(data)) == Some(PartsOf(data))
  {
    CleanReread(data, stamp);
    MeaningOfFile(data, stamp);
    EnrichedParts(Meaning(EnvLines(data, stamp)), data);
  }

  lemma CompletedParts(m: Record, p: Parts, data: Record)
    requires HoldsSettings(m, data)
    requires forall k <- m.Keys :: !IsDbKey(k) && (k == URL_KEY || IsDefined(k))
    ensures IsCompletion(FillAll(m, p), data) <==> p == PartsOf(data)
  {
    CompletedSettings(m, p, data);
    CompletedFields(m, p, data);
  }

  lemma CompletedFields(m: Record, p: Parts, data: Record)
    requires forall k <- m.Keys :: !IsDbKey(k)
    ensures HoldsFields(FillAll(m, p), data) <==> p == PartsOf(data)
  {
    FillAllParts(m, p);
    FieldsAreParts(FillAll(m, p), data);
    if HoldsParts(FillAll(m, p), PartsOf(data)) {
      PartsAreHeldOnce(FillAll(m, p), p, PartsOf(data));
    }
  }

  lemma PartsAreHeldOnce(r: Record, p: Parts, q: Parts)
    requires HoldsParts(r, p) && HoldsParts(r, q)
    ensures p == q
  {
  }

  lemma CompletedSettings(m: Record, p: Parts, data: Record)
    requires HoldsSettings(m, data)
    requires forall k <- m.Keys :: !IsDbKey(k) && (k == URL_KEY || IsDefined(k))
    ensures HoldsSettings(FillAll(m, p), data)
    ensures forall k <- FillAll(m, p).Keys :: k == URL_KEY || IsDbKey(k) || IsDefined(k)
  {
    var r := FillAll(m, p);
    FillAllFrame(m, p, URL_KEY);
    forall d <- ENV_DEFINITIONS | !IsDbKey(d.key)
      ensures d.key in r && r[d.key] == Chosen(data, d)
    {
      FillAllFrame(m, p, d.key);
    }
    forall k <- r.Keys
      ensures k == URL_KEY || IsDbKey(k) || IsDefined(k)
    {
      if !IsDbKey(k) {
        FillAllFrame(m, p, k);
      }
    }
  }

  /** A reread form that is complete shows that nothing was lost on the way. */
  lemma CompleteMeansClean(data: Record, stamp: string)
    requires '\n' !in stamp && ComesBack(data, stamp)
    ensures AllClean(EnvLines(data, stamp))
  {
    var lines := EnvLines(data, stamp);
    var parsed := ParseFile(Some(Print(lines)));
    var r := Reread(data, stamp).value;
    FileIsGood(data, stamp);
    forall line <- lines | line.Setting?
      ensures line.key in parsed && parsed[line.key] == line.value
    {
      NothingElseIsSet(data, stamp, line);
      SettingKey(data, line);
      assert line.key in r && r[line.key] == line.value;
      if Truthy(parsed, URL_KEY) {
        FillAllFrame(parsed, ParseDatabaseUrl(parsed[URL_KEY]).value, line.key);
      }
    }
    ParsedIsClean(lines);
  }

  lemma AdmissibleFieldsParse(data: Record)
    ensures AdmissibleFields(data)
      <==> IsClean(UrlOf(data)) && ParseDatabaseUrl(UrlOf(data)) == Some(PartsOf(data))
  {
    var p := PartsOf(data);
    AdmissibleParts(data);
    UrlRoundTrip(p);
    if Admissible(p) {
      UrlIsClean(p);
    }
  }

  lemma AdmissibleIsCleanAndParses(data: Record, stamp: string)
    ensures AdmissibleForm(data)
      <==> AllClean(EnvLines(data, stamp)) && ParseDatabaseUrl(UrlOf(data)) == Some(PartsOf(data))
  {
    AdmissibleFieldsParse(data);
    UntouchedValues(data);
    AllCleanIffForm(data, stamp);
  }

  /**
   Writing a form, reading the file and completing it gives back every key, defaults filled in,
   exactly for the admissible forms.
   */
  lemma WizardRoundTrip(data: Record, stamp: string)
    requires '\n' !in stamp
    ensures ComesBack(data, stamp) <==> AdmissibleForm(data)
  {
    AdmissibleIsCleanAndParses(data, stamp);
    if AllClean(EnvLines(data, stamp)) {
      RereadClean(data, stamp);
    }
    if ComesBack(data, stamp) {
      CompleteMeansClean(data, stamp);
    }
  }

  lemma FieldIsHeld(r: Record, data: Record, k: string)
    requires HoldsFields(r, data) && IsDbKey(k) && k in data && data[k] != ""
    ensures k in r && r[k] == data[k]
  {
  }

  lemma SettingIsHeld(r: Record, data: Record, k: string)
    requires HoldsSettings(r, data) && IsDefined(k) && !IsDbKey(k) && k in data
    ensures k in r && r[k] == data[k]
  {
    var d :| d in ENV_DEFINITIONS && d.key == k;
  }

  /** In particular nothing the form gives is lost. */
  lemma FormComesBack(data: Record, stamp: string, k: string)
    requires '\n' !in stamp && AdmissibleForm(data) && k in data
    requires IsDefined(k) && (IsDbKey(k) ==> data[k] != "")
    ensures Reread(data, stamp).Some? && k in Reread(data, stamp).value && Reread(data, stamp).value[k] == data[k]
  {
    WizardRoundTrip(data, stamp);
    var r := Reread(data, stamp).value;
    if IsDbKey(k) {
      FieldIsHeld(r, data, k);
    } else {
      SettingIsHeld(r, data, k);
    }
  }

  /** The file sets each key that is not a database field to the form's value, or else to its default. */
  lemma FormValueIsWritten(data: Record, stamp: string, d: Definition)
    requires d in ENV_DEFINITIONS
    requires d.key != "DB_HOST" && d.key != "DB_PORT" && d.key != "DB_USER" && d.key != "DB_PASSWORD" && d.key != "DB_NAME"
    ensures Setting(d.key, if d.key in data then data[d.key] else d.defaultValue) in EnvLines(data, stamp)
  {
    AllIsSet(data, stamp, SettingOf(data, d));
  }

  /** It sets DATABASE_URL to the five fields around the URL's fixed characters, the password encoded. */
  lemma UrlIsWritten(data: Record, stamp: string)
    ensures var host := if "DB_HOST" in data && data["DB_HOST"] != "" then data["DB_HOST"] else "localhost";
      var port := if "DB_PORT" in data && data["DB_PORT"] != "" then data["DB_PORT"] else "3306";
      var user := if "DB_USER" in data && data["DB_USER"] != "" then data["DB_USER"] else "root";
      var password := if "DB_PASSWORD" in data then data["DB_PASSWORD"] else "";
      var dbName := if "DB_NAME" in data && data["DB_NAME"] != "" then data["DB_NAME"] else "nestjs_engine_db";
      Setting("DATABASE_URL",
              "mysql://" + user + ":" + PercentEncoding.Encode(password) + "@" + host + ":" + port + "/" + dbName)
        in EnvLines(data, stamp)
  {
    BuiltUrlIsFlat(PartsOf(data));
    AllIsSet(data, stamp, Setting(URL_KEY, UrlOf(data)));
  }

  /** And it sets nothing else. */
  lemma OnlyFormValuesAreWritten(data: Record, stamp: string, key: string, value: string)
    requires Setting(key, value) in EnvLines(data, stamp)
    ensures key == "DATABASE_URL" || exists d <- ENV_DEFINITIONS ::
      d.key == key && value == if d.key in data then data[d.key] else d.defaultValue
  {
    NothingElseIsSet(data, stamp, Setting(key, value));
  }

  // ----- writing again -----

  lemma {:induction false} SameSettings(data: Record, r: Record, defs: seq<Definition>)
    requires forall d <- defs :: !IsDbKey(d.key) ==> Chosen(r, d) == Chosen(data, d)
    ensures SettingsOf(r, defs) == SettingsOf(data, defs)
  {
    if defs != [] {
      assert forall d <- defs[..|defs| - 1] :: d in defs;
      assert defs[|defs| - 1] in defs;
      SameSettings(data, r, defs[..|defs| - 1]);
    }
  }

  lemma SameSection(data: Record, r: Record, g: Group)
    requires UrlOf(r) == UrlOf(data) && HoldsSettings(r, data)
    ensures Section(r, g) == Section(data, g)
  {
    var defs := DefinitionsOf(ENV_DEFINITIONS, g);
    forall d <- defs | !IsDbKey(d.key)
      ensures Chosen(r, d) == Chosen(data, d)
    {
      DefinitionsOfGroup(ENV_DEFINITIONS, g, d);
    }
    SameSettings(data, r, defs);
  }

  lemma {:induction false} SameSections(data: Record, r: Record, groups: seq<Group>)
    requires UrlOf(r) == UrlOf(data) && HoldsSettings(r, data)
    ensures Sections(r, groups) == Sections(data, groups)
  {
    if groups != [] {
      SameSections(data, r, groups[..|groups| - 1]);
      SameSection(data, r, groups[|groups| - 1]);
    }
  }

  lemma SameParts(data: Record, r: Record)
    requires HoldsFields(r, data)
    ensures PartsOf(r) == PartsOf(data)
  {
  }

  lemma LaterHeader(stamp: string, later: string, sections: seq<Line>)
    ensures Header(later) + sections + [Blank] == (Header(stamp) + sections + [Blank])[1 := StampLine(later)]
  {
  }

  /** Writing what was reread gives the same file but for the line with the time. */
  lemma RewriteIsTheSame(data: Record, r: Record, stamp: string, later: string)
    requires IsCompletion(r, data)
    ensures EnvLines(r, later) == EnvLines(data, stamp)[1 := StampLine(later)]
  {
    SameParts(data, r);
    SameSections(data, r, GROUP_ORDER);
    LaterHeader(stamp, later, Sections(data, GROUP_ORDER));
  }

  // ----- the wizard's own values -----

  lemma AppDefaults(i: nat)
    requires i < 8
    ensures IsClean(ENV_DEFINITIONS[i].defaultValue)
  {
  }

  lemma RedisAndTokenDefaults(i: nat)
    requires 8 <= i < 17
    ensures IsClean(ENV_DEFINITIONS[i].defaultValue)
  {
  }

  lemma CleanInParts(a: string, b: string)
    requires a != "" && b != "" && '\n' !in a && '\n' !in b
    requires !Text.IsSpace(a[0]) && a[0] != '"' && a[0] != '\'' && !Text.IsSpace(b[|b| - 1])
    ensures IsClean(a + b)
  {
  }

  const CALLBACK_ORIGIN := "http://localhost:3000"
  const CALLBACK_PATH := "/api/v1/auth/google/callback"

  lemma CallbackIsClean()
    ensures IsClean(CALLBACK_ORIGIN + CALLBACK_PATH)
  {
    CleanInParts(CALLBACK_ORIGIN, CALLBACK_PATH);
  }

  lemma CallbackInParts()
    ensures "http://localhost:3000/api/v1/auth/google/callback" == CALLBACK_ORIGIN + CALLBACK_PATH
  {
  }

  lemma CallbackDefault()
    ensures IsClean(ENV_DEFINITIONS[17].defaultValue)
  {
    CallbackIsClean();
    CallbackInParts();
  }

  lemma OtherDefaults(i: nat)
    requires 18 <= i < |ENV_DEFINITIONS|
    ensures IsClean(ENV_DEFINITIONS[i].defaultValue)
  {
  }

  lemma DefaultIsClean(d: Definition)
    requires d in ENV_DEFINITIONS
    ensures IsClean(d.defaultValue)
  {
    var i :| 0 <= i < |ENV_DEFINITIONS| && ENV_DEFINITIONS[i] == d;
    if i < 8 {
      AppDefaults(i);
    } else if i < 17 {
      RedisAndTokenDefaults(i);
    } else if i == 17 {
      CallbackDefault();
    } else {
      OtherDefaults(i);
    }
  }

  lemma DefaultUserAndHost()
    ensures IsName("root") && '\n' !in "root" && IsName("localhost") && '\n' !in "localhost"
  {
  }

  lemma DefaultPortAndName()
    ensures IsDigits("3306") && IsDbName("nestjs_engine_db") && !Text.IsSpace("nestjs_engine_db"[15])
  {
  }

  lemma EmptyFields()
    ensures AdmissibleFields(map[])
  {
    DefaultUserAndHost();
    DefaultPortAndName();
    Text.SpacesAreWhite("nestjs_engine_db"[15]);
  }

  lemma EmptySettings()
    ensures AdmissibleSettings(map[])
  {
    forall d <- ENV_DEFINITIONS
      ensures IsClean(Chosen(map[], d))
    {
      DefaultIsClean(d);
    }
    UntouchedValues(map[]);
  }

  /** A form left empty is admissible: the file written from it reads back as the defaults. */
  lemma EmptyFormComesBack(stamp: string)
    requires '\n' !in stamp
    ensures AdmissibleForm(map[]) && ComesBack(map[], stamp)
  {
    EmptyFields();
    EmptySettings();
    WizardRoundTrip(map[], stamp);
  }

  // ----- the file, line by line -----

  lemma {:induction false} AllOfGroup(defs: seq<Definition>, g: Group)
    requires forall d <- defs :: d.group == g
    ensures DefinitionsOf(defs, g) == defs
  {
    if defs != [] {
      assert forall d <- defs[..|defs| - 1] :: d in defs;
      assert defs[|defs| - 1] in defs;
      AllOfGroup(defs[..|defs| - 1], g);
    }
  }

  lemma {:induction false} NoneOfGroup(defs: seq<Definition>, g: Group)
    requires forall d <- defs :: d.group != g
    ensures DefinitionsOf(defs, g) == []
  {
    if defs != [] {
      assert forall d <- defs[..|defs| - 1] :: d in defs;
      assert defs[|defs| - 1] in defs;
      NoneOfGroup(defs[..|defs| - 1], g);
    }
  }

  lemma {:induction false} GroupsOfConcat(a: seq<Definition>, b: seq<Definition>, g: Group)
    ensures DefinitionsOf(a + b, g) == DefinitionsOf(a, g) + DefinitionsOf(b, g)
  {
    if b == [] {
      assert a + b == a;
    } else {
      assert (a + b)[..|a + b| - 1] == a + b[..|b| - 1];
      GroupsOfConcat(a, b[..|b| - 1], g);
    }
  }

  /** A group that stands together in a list is that part of it. */
  lemma GroupIsSlice(defs: seq<Definition>, from: nat, to: nat, g: Group)
    requires from <= to <= |defs| && forall i :: 0 <= i < |defs| ==> (defs[i].group == g <==> from <= i < to)
    ensures DefinitionsOf(defs, g) == defs[from..to]
  {
    assert defs == defs[..from] + defs[from..to] + defs[to..];
    GroupsOfConcat(defs[..from] + defs[from..to], defs[to..], g);
    GroupsOfConcat(defs[..from], defs[from..to], g);
    NoneOfGroup(defs[..from], g);
    AllOfGroup(defs[from..to], g);
    NoneOfGroup(defs[to..], g);
  }

  lemma GroupAt(i: nat)
    requires i < |ENV_DEFINITIONS|
    ensures ENV_DEFINITIONS[i].group ==
      if i < 3 then App else if i < 8 then Database else if i < 12 then Redis else if i < 19 then Auth else Etc
  {
  }

  lemma GroupSlice(from: nat, to: nat, g: Group)
    requires from <= to <= |ENV_DEFINITIONS|
    requires (from, to, g) == (0, 3, App) || (from, to, g) == (8, 12, Redis) || (from, to, g) == (12, 19, Auth)
             || (from, to, g) == (19, 25, Etc)
    ensures DefinitionsOf(ENV_DEFINITIONS, g) == ENV_DEFINITIONS[from..to]
  {
    forall i | 0 <= i < |ENV_DEFINITIONS|
      ensures ENV_DEFINITIONS[i].group == g <==> from <= i < to
    {
      GroupAt(i);
    }
    GroupIsSlice(ENV_DEFINITIONS, from, to, g);
  }

  predicate NoDbKeys(defs: seq<Definition>) {
    forall i :: 0 <= i < |defs| ==> !IsDbKey(defs[i].key)
  }

  lemma {:induction false} SettingAt(data: Record, defs: seq<Definition>, i: nat)
    requires NoDbKeys(defs) && i < |defs|
    ensures |SettingsOf(data, defs)| == |defs| && SettingsOf(data, defs)[i] == SettingOf(data, defs[i])
  {
    var n := |defs| - 1;
    if n > 0 {
      SettingAt(data, defs[..n], if i < n then i else 0);
    } else {
      assert SettingsOf(data, defs[..0]) == [];
    }
    assert !IsDbKey(defs[n].key);
  }

  /** A group's settings stand in the order of its definitions. */
  lemma SettingsInOrder(data: Record, defs: seq<Definition>, i: nat)
    requires NoDbKeys(defs) && i < |defs|
    ensures |SettingsOf(data, defs)| == |defs|
    ensures SettingsOf(data, defs)[i]
      == Setting(defs[i].key, if defs[i].key in data then data[defs[i].key] else defs[i].defaultValue)
  {
    SettingAt(data, defs, i);
  }

  lemma SectionSpelled(data: Record, from: nat, to: nat, g: Group, comment: string)
    requires from <= to <= |ENV_DEFINITIONS|
    requires || (from, to, g, comment) == (0, 3, App, "App")
             || (from, to, g, comment) == (8, 12, Redis, "Redis")
             || (from, to, g, comment) == (12, 19, Auth, "Auth / Security")
             || (from, to, g, comment) == (19, 25, Etc, "Etc")
    ensures Section(data, g) == [Blank, Comment(comment)] + SettingsOf(data, ENV_DEFINITIONS[from..to])
  {
    GroupSlice(from, to, g);
  }

  lemma SectionsSpelled(data: Record)
    ensures Sections(data, GROUP_ORDER) ==
      [Blank, Comment("App")] + SettingsOf(data, ENV_DEFINITIONS[0..3])
      + [Blank, Comment("Database"), Setting("DATABASE_URL", UrlOf(data))]
      + ([Blank, Comment("Redis")] + SettingsOf(data, ENV_DEFINITIONS[8..12]))
      + ([Blank, Comment("Auth / Security")] + SettingsOf(data, ENV_DEFINITIONS[12..19]))
      + ([Blank, Comment("Etc")] + SettingsOf(data, ENV_DEFINITIONS[19..25]))
  {
    FiveSections(data);
    SectionSpelled(data, 0, 3, App, "App");
    SectionSpelled(data, 8, 12, Redis, "Redis");
    SectionSpelled(data, 12, 19, Auth, "Auth / Security");
    SectionSpelled(data, 19, 25, Etc, "Etc");
    assert Section(data, Database) == [Blank, Comment("Database"), Setting("DATABASE_URL", UrlOf(data))];
  }

  /** A title, the time, and after a first heading five sections. */
  lemma FileSpelled(data: Record, stamp: string)
    ensures EnvLines(data, stamp) ==
      [Comment("NestJS Engine Environment Configuration"), Comment("Generated by Setup Wizard at " + stamp),
       Blank, Comment("App")]
      + Sections(data, GROUP_ORDER) + [Blank]
  {
  }

  lemma FiveSections(data: Record)
    ensures Sections(data, GROUP_ORDER)
      == Section(data, App) + Section(data, Database) + Section(data, Redis) + Section(data, Auth) + Section(data, Etc)
  {
    assert GROUP_ORDER[..4] == [App, Database, Redis, Auth];
    assert [App, Database, Redis, Auth][..3] == [App, Database, Redis];
    assert [App, Database, Redis][..2] == [App, Database];
    assert [App, Database][..1] == [App];
    assert [App][..0] == [];
    assert Sections(data, [App]) == Section(data, App);
    assert Sections(data, [App, Database]) == Section(data, App) + Section(data, Database);
    assert Sections(data, [App, Database, Redis]) == Sections(data, [App, Database]) + Section(data, Redis);
    assert Sections(data, [App, Database, Redis, Auth]) == Sections(data, [App, Database, Redis]) + Section(data, Auth);
  }
}
