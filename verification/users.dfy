/**
 * Users: the caller's `User` and the sanitised `HackleUser` the core
 * decides for, and `HackleUserResolver`, which turns one into the other.
 */
module Users {
  import opened Wrappers
  import opened RubyValues
  import opened OrderedMaps
  import opened PropertiesBuilders
  import opened IdentifiersBuilders

  /** The caller's user: three dedicated identifier fields, an identifier hash and a property value. */
  datatype User = User(id: Value, userId: Value, deviceId: Value,
                       identifiers: seq<(Value, Value)>, properties: Value)

  /** The user the core works with: sanitised identifiers and properties. */
  datatype HackleUser = HackleUser(identifiers: seq<(string, string)>, properties: seq<(string, Value)>)

  const ID_KEY: string := "$id"
  const DEVICE_ID_KEY: string := "$deviceId"
  const USER_ID_KEY: string := "$userId"

  /** `builder.identifier(type, value) unless value.nil?` */
  function AddUnlessNil(ids: seq<(string, string)>, identifierType: string, value: Value): seq<(string, string)>
  {
    if value.Null? then ids else AddIdentifier(ids, Str(identifierType), value)
  }

  /** Adding a dedicated field keeps the hash valid, sets its type when the value is valid, and leaves other types alone. */
  lemma AddUnlessNilEffect(ids: seq<(string, string)>, identifierType: string, value: Value, other: string)
    requires IdentifiersValid(ids)
    ensures IdentifiersValid(AddUnlessNil(ids, identifierType, value))
    ensures |AddUnlessNil(ids, identifierType, value)| >= |ids|
    ensures ValidType(Str(identifierType)) && IdentifiersBuilders.SanitizeValueOrNil(value).Some? ==>
      Get(AddUnlessNil(ids, identifierType, value), identifierType) == IdentifiersBuilders.SanitizeValueOrNil(value)
    ensures other != identifierType ==> Get(AddUnlessNil(ids, identifierType, value), other) == Get(ids, other)
  {
    if !value.Null? {
      AddIdentifierEffect(ids, Str(identifierType), value, other);
    }
  }

  /**
   * The identifiers the resolver builds: the user's hash first, then each
   * non-nil dedicated field on top of it.
   */
  function ResolvedIdentifiers(user: User): seq<(string, string)>
  {
    var fromHash := AddAllIdentifiers([], user.identifiers);
    var withId := AddUnlessNil(fromHash, ID_KEY, user.id);
    var withDevice := AddUnlessNil(withId, DEVICE_ID_KEY, user.deviceId);
    AddUnlessNil(withDevice, USER_ID_KEY, user.userId)
  }

  /** The properties the resolver builds: the user's property hash through the sanitiser. */
  function ResolvedProperties(user: User): seq<(string, Value)>
  {
    if user.properties.Hash? then AddAllProperties([], user.properties.entries) else []
  }

  /** `HackleUserResolver#resolve_or_nil` as a function: nil without a user or without any identifier. */
  function Resolve(user: Option<User>): Option<HackleUser>
  {
    if user.None? then None
    else
      var ids := ResolvedIdentifiers(user.value);
      if |ids| == 0 then None
      else Some(HackleUser(ids, ResolvedProperties(user.value)))
  }

  /**
   * `HackleUserResolver#resolve_or_nil`: drives an identifiers builder and
   * a properties builder through the user's fields.
   */
  method ResolveOrNil(user: Option<User>) returns (r: Option<HackleUser>)
    ensures r == Resolve(user)
  {
    if user.None? {
      return None;
    }
    var u := user.value;
    var identifiers := new IdentifiersBuilder();
    var properties := new PropertiesBuilder();
    identifiers.AddAll(u.identifiers);
    if !u.id.Null? {
      identifiers.Add(Str(ID_KEY), u.id);
    }
    if !u.deviceId.Null? {
      identifiers.Add(Str(DEVICE_ID_KEY), u.deviceId);
    }
    if !u.userId.Null? {
      identifiers.Add(Str(USER_ID_KEY), u.userId);
    }
    properties.AddAll(u.properties);
    var hackleUser := HackleUser(identifiers.Build(), properties.Build());
    if |hackleUser.identifiers| == 0 {
      return None;
    }
    return Some(hackleUser);
  }

  /** A resolved user has at least one identifier, and both its hashes satisfy the builders' limits. */
  lemma ResolveValid(user: Option<User>)
    ensures Resolve(user).Some? ==> user.Some?
    ensures Resolve(user).Some? ==>
      |Resolve(user).value.identifiers| > 0 &&
      IdentifiersValid(Resolve(user).value.identifiers) &&
      PropertiesValid(Resolve(user).value.properties)
  {
    if user.Some? {
      var u := user.value;
      AddAllIdentifiersValid([], u.identifiers);
      var fromHash := AddAllIdentifiers([], u.identifiers);
      AddUnlessNilEffect(fromHash, ID_KEY, u.id, "");
      var withId := AddUnlessNil(fromHash, ID_KEY, u.id);
      AddUnlessNilEffect(withId, DEVICE_ID_KEY, u.deviceId, "");
      var withDevice := AddUnlessNil(withId, DEVICE_ID_KEY, u.deviceId);
      AddUnlessNilEffect(withDevice, USER_ID_KEY, u.userId, "");
      if u.properties.Hash? {
        AddAllPropertiesValid([], u.properties.entries);
      }
    }
  }

  /**
   * A valid dedicated `id` field overrides any `$id` in the identifier
   * hash, whatever the other two dedicated fields hold.
   */
  lemma DedicatedIdOverrides(user: User)
    requires IdentifiersBuilders.SanitizeValueOrNil(user.id).Some?
    ensures Resolve(Some(user)).Some?
    ensures Get(Resolve(Some(user)).value.identifiers, ID_KEY) == IdentifiersBuilders.SanitizeValueOrNil(user.id)
  {
    AddAllIdentifiersValid([], user.identifiers);
    var fromHash := AddAllIdentifiers([], user.identifiers);
    AddUnlessNilEffect(fromHash, ID_KEY, user.id, ID_KEY);
    var withId := AddUnlessNil(fromHash, ID_KEY, user.id);
    AddUnlessNilEffect(withId, DEVICE_ID_KEY, user.deviceId, ID_KEY);
    var withDevice := AddUnlessNil(withId, DEVICE_ID_KEY, user.deviceId);
    AddUnlessNilEffect(withDevice, USER_ID_KEY, user.userId, ID_KEY);
    assert ID_KEY in Keys(ResolvedIdentifiers(user));
  }

  /** A valid dedicated `user_id` field overrides any `$userId` in the identifier hash. */
  lemma DedicatedUserIdOverrides(user: User)
    requires IdentifiersBuilders.SanitizeValueOrNil(user.userId).Some?
    ensures Resolve(Some(user)).Some?
    ensures Get(Resolve(Some(user)).value.identifiers, USER_ID_KEY) == IdentifiersBuilders.SanitizeValueOrNil(user.userId)
  {
    AddAllIdentifiersValid([], user.identifiers);
    var fromHash := AddAllIdentifiers([], user.identifiers);
    AddUnlessNilEffect(fromHash, ID_KEY, user.id, "");
    var withId := AddUnlessNil(fromHash, ID_KEY, user.id);
    AddUnlessNilEffect(withId, DEVICE_ID_KEY, user.deviceId, "");
    var withDevice := AddUnlessNil(withId, DEVICE_ID_KEY, user.deviceId);
    AddUnlessNilEffect(withDevice, USER_ID_KEY, user.userId, USER_ID_KEY);
    assert USER_ID_KEY in Keys(ResolvedIdentifiers(user));
  }

  /** With all three dedicated fields nil, the identifiers are exactly the sanitised identifier hash. */
  lemma NilDedicatedFieldsKeepHash(user: User)
    requires user.id.Null? && user.deviceId.Null? && user.userId.Null?
    ensures ResolvedIdentifiers(user) == AddAllIdentifiers([], user.identifiers)
    ensures user.identifiers == [] ==> Resolve(Some(user)).None?
  {
  }
}

/**
 * `ParameterConfig`: the parameters of a variation, read with a typed
 * default.
 */
module ParameterConfigs {
  import opened RubyValues

  datatype ParameterConfig = ParameterConfig(parameters: map<string, Value>)

  /** `ParameterConfig.empty` */
  function Empty(): (r: ParameterConfig)
    ensures |r.parameters| == 0
  {
    ParameterConfig(map[])
  }

  /** Two values of the same Ruby kind among String, Numeric and true/false. */
  predicate SameKind(a: Value, b: Value)
  {
    (a.Str? && b.Str?) || (a.Num? && b.Num?) || (a.Bool? && b.Bool?)
  }

  /**
   * `ParameterConfig#get(key, default)`: the stored value when it is
   * present, not nil, and of the default's kind (any kind for a nil
   * default); otherwise the default.
   */
  function Get(config: ParameterConfig, key: string, defaultValue: Value): (r: Value)
    ensures r == defaultValue || (key in config.parameters && r == config.parameters[key])
    ensures key !in config.parameters ==> r == defaultValue
    ensures key in config.parameters && config.parameters[key].Null? ==> r == defaultValue
    ensures key in config.parameters && !config.parameters[key].Null? && defaultValue.Null? ==> r == config.parameters[key]
    ensures (defaultValue.Str? || defaultValue.Num? || defaultValue.Bool?) ==>
      SameKind(r, defaultValue) &&
      (key in config.parameters && SameKind(config.parameters[key], defaultValue) ==> r == config.parameters[key])
    ensures !defaultValue.Null? && !SameKind(defaultValue, defaultValue) ==> r == defaultValue
  {
    var parameterValue := if key in config.parameters then config.parameters[key] else defaultValue;
    if parameterValue.Null? then defaultValue
    else if defaultValue.Null? then parameterValue
    else match defaultValue
      case Str(_) => if parameterValue.Str? then parameterValue else defaultValue
      case Num(_) => if parameterValue.Num? then parameterValue else defaultValue
      case Bool(_) => if parameterValue.Bool? then parameterValue else defaultValue
      case _ => defaultValue
  }

  /** Reading the empty configuration always gives the default. */
  lemma GetOfEmpty(key: string, defaultValue: Value)
    ensures Get(Empty(), key, defaultValue) == defaultValue
  {
  }
}
