/** The settings the wizard knows. */
module EnvDefinitions {
  import opened EnvText

  datatype Group = App | Database | Redis | Auth | Etc

  datatype Definition = Definition(key: string, group: Group, defaultValue: string)

  const ENV_DEFINITIONS: seq<Definition> := [
    Definition("NODE_ENV", App, "local"),
    Definition("PORT", App, "3000"),
    Definition("API_VERSION", App, "v1"),
    Definition("DB_HOST", Database, "localhost"),
    Definition("DB_PORT", Database, "3306"),
    Definition("DB_USER", Database, "root"),
    Definition("DB_PASSWORD", Database, ""),
    Definition("DB_NAME", Database, "nestjs_engine_db"),
    Definition("REDIS_MODE", Redis, "direct"),
    Definition("REDIS_HOST", Redis, "localhost"),
    Definition("REDIS_PORT", Redis, "6379"),
    Definition("REDIS_PASSWORD", Redis, ""),
    Definition("JWT_SECRET", Auth, ""),
    Definition("JWT_ACCESS_EXPIRES_IN", Auth, "1h"),
    Definition("JWT_REFRESH_EXPIRES_IN", Auth, "30d"),
    Definition("GOOGLE_CLIENT_ID", Auth, ""),
    Definition("GOOGLE_CLIENT_SECRET", Auth, ""),
    Definition("GOOGLE_CALLBACK_URL", Auth, "http://localhost:3000/api/v1/auth/google/callback"),
    Definition("MAX_DEVICES_PER_USER", Auth, "1"),
    Definition("ENCRYPTION_KEY", Etc, ""),
    Definition("DEFAULT_TIMEZONE", Etc, "Asia/Seoul"),
    Definition("CORS_ORIGINS", Etc, "*"),
    Definition("LOG_DIR", Etc, "./logs"),
    Definition("SWAGGER_ENABLED", Etc, "true"),
    Definition("SWAGGER_PATH", Etc, "/api-docs")
  ]

  const GROUP_ORDER: seq<Group> := [App, Database, Redis, Auth, Etc]

  const URL_KEY := "DATABASE_URL"

  function GroupComment(g: Group): string {
    match g
    case App => "App"
    case Database => "Database"
    case Redis => "Redis"
    case Auth => "Auth / Security"
    case Etc => "Etc"
  }

  predicate IsDbKey(key: string) {
    key == "DB_HOST" || key == "DB_PORT" || key == "DB_USER" || key == "DB_PASSWORD" || key == "DB_NAME"
  }

  // ----- the definitions -----

  lemma KeysAreDistinct(i: nat, j: nat)
    requires i < j < |ENV_DEFINITIONS|
    ensures ENV_DEFINITIONS[i].key != ENV_DEFINITIONS[j].key
  {
  }

  ghost predicate DistinctKeys(defs: seq<Definition>) {
    forall i, j :: 0 <= i < j < |defs| ==> defs[i].key != defs[j].key
  }

  lemma EnvKeysAreDistinct()
    ensures DistinctKeys(ENV_DEFINITIONS)
  {
    forall i, j | 0 <= i < j < |ENV_DEFINITIONS|
      ensures ENV_DEFINITIONS[i].key != ENV_DEFINITIONS[j].key
    {
      KeysAreDistinct(i, j);
    }
  }

  lemma SameKey(defs: seq<Definition>, d: Definition, e: Definition)
    requires DistinctKeys(defs) && d in defs && e in defs && d.key == e.key
    ensures d == e
  {
  }

  lemma EveryGroup(g: Group)
    ensures g in GROUP_ORDER
  {
    match g
    case App => assert GROUP_ORDER[0] == App;
    case Database => assert GROUP_ORDER[1] == Database;
    case Redis => assert GROUP_ORDER[2] == Redis;
    case Auth => assert GROUP_ORDER[3] == Auth;
    case Etc => assert GROUP_ORDER[4] == Etc;
  }

  lemma AppAndDatabaseKeys(i: nat, j: nat)
    requires i < 8 && j < |ENV_DEFINITIONS[i].key|
    ensures IsKeyLetter(ENV_DEFINITIONS[i].key[j])
  {
  }

  lemma RedisKeys(i: nat, j: nat)
    requires 8 <= i < 12 && j < |ENV_DEFINITIONS[i].key|
    ensures IsKeyLetter(ENV_DEFINITIONS[i].key[j])
  {
  }

  lemma TokenKeys(i: nat, j: nat)
    requires 12 <= i < 16 && j < |ENV_DEFINITIONS[i].key|
    ensures IsKeyLetter(ENV_DEFINITIONS[i].key[j])
  {
  }

  lemma OtherAuthKeys(i: nat, j: nat)
    requires 16 <= i < 19 && j < |ENV_DEFINITIONS[i].key|
    ensures IsKeyLetter(ENV_DEFINITIONS[i].key[j])
  {
  }

  lemma EtcKeys(i: nat, j: nat)
    requires 19 <= i < 25 && j < |ENV_DEFINITIONS[i].key|
    ensures IsKeyLetter(ENV_DEFINITIONS[i].key[j])
  {
  }

  lemma KeysAreKeys(i: nat)
    requires i < |ENV_DEFINITIONS|
    ensures IsKey(ENV_DEFINITIONS[i].key)
  {
    var key := ENV_DEFINITIONS[i].key;
    assert key != "";
    forall j | 0 <= j < |key|
      ensures IsKeyLetter(key[j])
    {
      if i < 8 {
        AppAndDatabaseKeys(i, j);
      } else if i < 12 {
        RedisKeys(i, j);
      } else if i < 16 {
        TokenKeys(i, j);
      } else if i < 19 {
        OtherAuthKeys(i, j);
      } else {
        EtcKeys(i, j);
      }
    }
  }

  lemma DbKeysAreGrouped(i: nat)
    requires i < |ENV_DEFINITIONS|
    ensures ENV_DEFINITIONS[i].group.Database? <==> IsDbKey(ENV_DEFINITIONS[i].key)
    ensures ENV_DEFINITIONS[i].key != URL_KEY
  {
  }
}
