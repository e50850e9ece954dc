/**
  Configuration resolution of the client constructor (`_configure`): the
  caller's fields are laid over `CONFIG_DEFAULTS`, the result is checked
  against the configuration schema, and the version string is split on `.`
  into `parsedVersion`.
 */
module Config {
  import opened Results
  import opened JsValues
  import Versions

  /** The stored, validated configuration of one client instance. */
  datatype Config = Config(
    userId: string,
    password: string,
    production: bool,
    productionBaseUrl: string,
    developmentBaseUrl: string,
    version: string,
    parsedVersion: seq<string>)

  /** The keys of the configuration schema. */
  datatype Key = UserId | Password | Production | ProductionBaseUrl | DevelopmentBaseUrl | Version

  /** Why construction throws: a schema key whose value has the wrong type, or keys the schema does not know. */
  datatype ConfigError = Invalid(key: Key) | NotAllowed(names: set<string>)

  /** The property name of a schema key in the caller's object. */
  function Name(k: Key): string {
    match k
    case UserId => "userId"
    case Password => "password"
    case Production => "production"
    case ProductionBaseUrl => "productionBaseUrl"
    case DevelopmentBaseUrl => "developmentBaseUrl"
    case Version => "version"
  }

  /** The schema key a property name denotes, if any. */
  function KeyOf(name: string): (r: Option<Key>)
    ensures r.Some? ==> Name(r.value) == name
  {
    if name == "userId" then Some(UserId)
    else if name == "password" then Some(Password)
    else if name == "production" then Some(Production)
    else if name == "productionBaseUrl" then Some(ProductionBaseUrl)
    else if name == "developmentBaseUrl" then Some(DevelopmentBaseUrl)
    else if name == "version" then Some(Version)
    else None
  }

  /**
    `CONFIG_DEFAULTS`.  The credentials default to `null`, and they are the
    only defaults the schema rejects: a caller must supply exactly those.
   */
  function Default(k: Key): (v: Value)
    ensures v == Null <==> k == UserId || k == Password
    ensures FieldOk(k, v) <==> k != UserId && k != Password
  {
    match k
    case Production => Bool(false)
    case UserId => Null
    case Password => Null
    case ProductionBaseUrl => Str("https://nami.dpsg.de")
    case DevelopmentBaseUrl => Str("https://namitest.dpsg.de")
    case Version => Str("1.1")
  }

  /** The schema keys in the order the schema checks them. */
  const SchemaOrder: seq<Key> := [UserId, Password, Production, ProductionBaseUrl, DevelopmentBaseUrl, Version]

  /** The schema order lists every key exactly once, starting with the credentials. */
  lemma SchemaOrderListsEachKeyOnce()
    ensures forall k: Key :: k in SchemaOrder
    ensures forall i, j :: 0 <= i < j < |SchemaOrder| ==> SchemaOrder[i] != SchemaOrder[j]
    ensures SchemaOrder[..2] == [UserId, Password]
  {
    forall k: Key
      ensures k in SchemaOrder
    {
      var i := IndexInOrder(k);
    }
  }

  /**
    The value a schema key has once the caller's object is laid over the
    defaults: the caller's value, unless it is absent or `null`.
   */
  function Effective(raw: map<string, Value>, k: Key): (v: Value)
    ensures v == Default(k) || (Name(k) in raw && v == raw[Name(k)])
    ensures v == Null ==> Default(k) == Null
    ensures Name(k) in raw && raw[Name(k)] != Null ==> v == raw[Name(k)]
  {
    if Name(k) in raw && raw[Name(k)] != Null then raw[Name(k)] else Default(k)
  }

  /**
    The caller's properties the schema does not know.  A `null` property is
    not copied over the defaults, so it is not among them.
   */
  function UnknownNames(raw: map<string, Value>): set<string> {
    set name | name in raw && raw[name] != Null && KeyOf(name).None?
  }

  /** `Joi.string()`: a string, and not the empty one. */
  predicate NonEmptyString(v: Value) {
    v.Str? && |v.s| > 0
  }

  /**
    The type a schema key demands: a boolean for `production`, a non-empty
    string otherwise.  Every key is required, so `null` never passes.
   */
  function FieldOk(k: Key, v: Value): (ok: bool)
    ensures ok ==> v != Null
    ensures ok ==> (v.Bool? <==> k == Production)
    ensures ok && k != Production ==> v.Str? && |v.s| > 0
    ensures k == Production && v.Bool? ==> ok
    ensures k != Production && v.Str? && |v.s| > 0 ==> ok
  {
    if k == Production then v.Bool? else NonEmptyString(v)
  }

  /** The first key of `keys`, in order, whose effective value fails its type. */
  function FirstInvalid(raw: map<string, Value>, keys: seq<Key>): (r: Option<Key>)
    ensures r.None? <==> forall i :: 0 <= i < |keys| ==> FieldOk(keys[i], Effective(raw, keys[i]))
    ensures r.Some? ==> r.value in keys && !FieldOk(r.value, Effective(raw, r.value))
    ensures r.Some? ==>
              exists j :: 0 <= j < |keys| && keys[j] == r.value &&
                          forall i :: 0 <= i < j ==> FieldOk(keys[i], Effective(raw, keys[i]))
  {
    if |keys| == 0 then None
    else if !FieldOk(keys[0], Effective(raw, keys[0])) then Some(keys[0])
    else
      var r := FirstInvalid(raw, keys[1..]);
      assert forall i :: 1 <= i < |keys| ==> keys[i] == keys[1..][i - 1];
      assert r.Some? ==>
               exists j :: 0 <= j < |keys| && keys[j] == r.value &&
                           forall i :: 0 <= i < j ==> FieldOk(keys[i], Effective(raw, keys[i])) by {
        if r.Some? {
          var j' :| 0 <= j' < |keys[1..]| && keys[1..][j'] == r.value &&
                    forall i :: 0 <= i < j' ==> FieldOk(keys[1..][i], Effective(raw, keys[1..][i]));
          assert keys[j' + 1] == r.value;
        }
      }
      r
  }

  /** Every schema key is checked: its position in the schema order. */
  function IndexInOrder(k: Key): (i: nat)
    ensures i < |SchemaOrder| && SchemaOrder[i] == k
  {
    match k
    case UserId => 0
    case Password => 1
    case Production => 2
    case ProductionBaseUrl => 3
    case DevelopmentBaseUrl => 4
    case Version => 5
  }

  /** What the schema accepts, stated key by key over the caller's object. */
  predicate Acceptable(raw: map<string, Value>) {
    && (forall k: Key :: FieldOk(k, Effective(raw, k)))
    && (forall name :: name in raw && raw[name] != Null ==> KeyOf(name).Some?)
  }

  /** Every field of `c` is the caller's value for it, or the default when the caller gave none. */
  predicate ResolvedFrom(c: Config, raw: map<string, Value>) {
    && Effective(raw, UserId) == Str(c.userId)
    && Effective(raw, Password) == Str(c.password)
    && Effective(raw, Production) == Bool(c.production)
    && Effective(raw, ProductionBaseUrl) == Str(c.productionBaseUrl)
    && Effective(raw, DevelopmentBaseUrl) == Str(c.developmentBaseUrl)
    && Effective(raw, Version) == Str(c.version)
    && c.parsedVersion == Versions.Split(c.version)
  }

  /** `_configure`: defaults, then validation (throwing on the first failure), then the version split. */
  function Configure(raw: map<string, Value>): (r: Result<Config, ConfigError>)
    ensures r.Success? <==> Acceptable(raw)
    ensures r.Success? ==> ResolvedFrom(r.value, raw)
    ensures r.Failure? && r.error.Invalid? ==> !FieldOk(r.error.key, Effective(raw, r.error.key))
    ensures r.Failure? && r.error.Invalid? ==>
              forall k: Key :: IndexInOrder(k) < IndexInOrder(r.error.key) ==> FieldOk(k, Effective(raw, k))
    ensures r.Failure? && r.error.NotAllowed? ==>
              && (forall k: Key :: FieldOk(k, Effective(raw, k)))
              && r.error.names != {}
              && forall name :: name in r.error.names <==> name in raw && raw[name] != Null && KeyOf(name).None?
  {
    match FirstInvalid(raw, SchemaOrder)
    case Some(k) =>
      assert forall k': Key :: IndexInOrder(k') < IndexInOrder(k) ==> FieldOk(k', Effective(raw, k')) by {
        var j :| 0 <= j < |SchemaOrder| && SchemaOrder[j] == k &&
                 forall i :: 0 <= i < j ==> FieldOk(SchemaOrder[i], Effective(raw, SchemaOrder[i]));
        assert IndexInOrder(k) == j;
        forall k': Key | IndexInOrder(k') < IndexInOrder(k)
          ensures FieldOk(k', Effective(raw, k'))
        {
          assert SchemaOrder[IndexInOrder(k')] == k';
        }
      }
      Failure(Invalid(k))
    case None =>
      var unknown := UnknownNames(raw);
      assert forall k: Key :: FieldOk(k, Effective(raw, k)) by {
        forall k: Key
          ensures FieldOk(k, Effective(raw, k))
        {
          var i := IndexInOrder(k);
        }
      }
      if unknown != {} then Failure(NotAllowed(unknown))
      else
        assert forall name :: name in raw && raw[name] != Null ==> KeyOf(name).Some? by {
          forall name | name in raw && raw[name] != Null
            ensures KeyOf(name).Some?
          {
            assert name !in unknown;
          }
        }
        var version := Effective(raw, Version).s;
        Success(Config(
          Effective(raw, UserId).s,
          Effective(raw, Password).s,
          Effective(raw, Production).b,
          Effective(raw, ProductionBaseUrl).s,
          Effective(raw, DevelopmentBaseUrl).s,
          version,
          Versions.Split(version)))
  }

  /** A missing or `null` credential keeps its `null` default, which the schema rejects. */
  lemma MissingCredentialRejected(raw: map<string, Value>)
    requires "userId" !in raw || raw["userId"] == Null || "password" !in raw || raw["password"] == Null
    ensures Configure(raw).Failure?
    ensures ("userId" !in raw || raw["userId"] == Null) ==> Configure(raw) == Failure(Invalid(UserId))
  {
  }

  /** Fields the caller leaves out or sets to `null` keep their defaults. */
  lemma OmittedFieldsTakeDefaults(raw: map<string, Value>)
    requires Configure(raw).Success?
    ensures ("production" !in raw || raw["production"] == Null) ==> !Configure(raw).value.production
    ensures ("productionBaseUrl" !in raw || raw["productionBaseUrl"] == Null) ==>
              Configure(raw).value.productionBaseUrl == "https://nami.dpsg.de"
    ensures ("developmentBaseUrl" !in raw || raw["developmentBaseUrl"] == Null) ==>
              Configure(raw).value.developmentBaseUrl == "https://namitest.dpsg.de"
    ensures ("version" !in raw || raw["version"] == Null) ==>
              Configure(raw).value.version == "1.1" && Configure(raw).value.parsedVersion == ["1", "1"]
  {
    Versions.DefaultVersionParts();
  }

  /** `parsedVersion` joined back with dots is the configured version string. */
  lemma ParsedVersionRoundTrip(raw: map<string, Value>)
    requires Configure(raw).Success?
    ensures Versions.Join(Configure(raw).value.parsedVersion) == Configure(raw).value.version
  {
    Versions.JoinSplit(Configure(raw).value.version);
  }

  /** With only the credentials given, every other field is its default. */
  lemma CredentialsOnly(user: string, password: string)
    requires |user| > 0 && |password| > 0
    ensures Configure(map["userId" := Str(user), "password" := Str(password)]) ==
            Success(Config(user, password, false, "https://nami.dpsg.de", "https://namitest.dpsg.de", "1.1", ["1", "1"]))
  {
    var raw := map["userId" := Str(user), "password" := Str(password)];
    assert raw.Keys == {"userId", "password"};
    assert Effective(raw, UserId) == Str(user);
    assert Effective(raw, Password) == Str(password);
    assert Effective(raw, Production) == Bool(false);
    assert Effective(raw, ProductionBaseUrl) == Str("https://nami.dpsg.de");
    assert Effective(raw, DevelopmentBaseUrl) == Str("https://namitest.dpsg.de");
    assert Effective(raw, Version) == Str("1.1");
    assert Acceptable(raw) by {
      forall name | name in raw && raw[name] != Null
        ensures KeyOf(name).Some?
      {
      }
    }
    var c := Configure(raw).value;
    assert ResolvedFrom(c, raw);
    Versions.DefaultVersionParts();
  }

  /**
    A property the schema does not know (such as a `groupId`) makes
    construction throw, even when the credentials are valid.
   */
  lemma UnknownPropertyRejected(user: string, password: string, name: string, v: Value)
    requires |user| > 0 && |password| > 0
    requires KeyOf(name).None? && v != Null
    ensures Configure(map["userId" := Str(user), "password" := Str(password), name := v]) == Failure(NotAllowed({name}))
  {
    var raw := map["userId" := Str(user), "password" := Str(password), name := v];
    assert name != "userId" && name != "password";
    assert raw.Keys == {"userId", "password", name};
    assert Effective(raw, UserId) == Str(user);
    assert Effective(raw, Password) == Str(password);
    assert Effective(raw, Production) == Bool(false);
    assert Effective(raw, ProductionBaseUrl) == Str("https://nami.dpsg.de");
    assert Effective(raw, DevelopmentBaseUrl) == Str("https://namitest.dpsg.de");
    assert Effective(raw, Version) == Str("1.1");
    assert FirstInvalid(raw, SchemaOrder).None?;
    assert UnknownNames(raw) == {name};
  }
}
