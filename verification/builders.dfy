/**
 * `PropertiesBuilder`: collects user, event and evaluation properties into
 * an ordered hash, refusing invalid keys, dropping nil and oversized
 * values, and stopping at 128 entries.
 */
module PropertiesBuilders {
  import opened Wrappers
  import opened RubyValues
  import opened OrderedMaps
  import Text

  const MAX_PROPERTIES_COUNT: nat := 128
  const MAX_PROPERTY_KEY_LENGTH: nat := 128
  const MAX_PROPERTY_VALUE_LENGTH: nat := 1024
  const SYSTEM_PROPERTY_KEY_PREFIX: string := "$"

  /** `valid_key?`: a non-empty String of at most 128 characters. */
  predicate ValidKey(key: Value)
  {
    key.Str? && 0 < |key.s| <= MAX_PROPERTY_KEY_LENGTH
  }

  /** `valid_value?`: a String of at most 1024 characters, a number or a boolean. */
  predicate ValidValue(value: Value)
  {
    match value
    case Str(s) => |s| <= MAX_PROPERTY_VALUE_LENGTH
    case Num(_) => true
    case Bool(_) => true
    case _ => false
  }

  /** `valid_element?`: an array element is a String of at most 1024 characters or a number. */
  predicate ValidElement(element: Value)
  {
    match element
    case Str(s) => |s| <= MAX_PROPERTY_VALUE_LENGTH
    case Num(_) => true
    case _ => false
  }

  /** `Array#filter` with `valid_element?`: the valid elements, in order. */
  function FilterValidElements(items: seq<Value>): (r: seq<Value>)
    ensures |r| <= |items|
    ensures forall x :: x in r <==> x in items && ValidElement(x)
    ensures forall x :: multiset(r)[x] == if ValidElement(x) then multiset(items)[x] else 0
    ensures |items| == 1 ==> r == if ValidElement(items[0]) then items else []
  {
    if |items| == 0 then []
    else
      assert items == [items[0]] + items[1..];
      if ValidElement(items[0]) then [items[0]] + FilterValidElements(items[1..])
      else FilterValidElements(items[1..])
  }

  /**
   * Filtering distributes over concatenation, so together with the
   * one-element case the filter keeps the valid elements in their order.
   */
  lemma {:induction false} FilterValidElementsAppend(a: seq<Value>, b: seq<Value>)
    ensures FilterValidElements(a + b) == FilterValidElements(a) + FilterValidElements(b)
  {
    if |a| > 0 {
      assert (a + b)[1..] == a[1..] + b;
      FilterValidElementsAppend(a[1..], b);
    } else {
      assert a + b == b;
    }
  }

  /**
   * `sanitize_value_or_nil`: nil is refused; an array keeps its valid
   * elements; a valid scalar is kept; anything else survives only under a
   * system (`$`-prefixed) key.
   */
  function SanitizeValueOrNil(key: string, value: Value): (r: Option<Value>)
    ensures r.None? <==> value.Null? || (!value.Arr? && !ValidValue(value) && !Text.StartsWith(key, SYSTEM_PROPERTY_KEY_PREFIX))
    ensures r.Some? ==> r.value != Null
    ensures r.Some? && value.Arr? ==> r.value.Arr? && forall x :: x in r.value.items <==> x in value.items && ValidElement(x)
    ensures r.Some? && !value.Arr? ==> r.value == value
  {
    if value.Null? then None
    else if value.Arr? then Some(Arr(FilterValidElements(value.items)))
    else if ValidValue(value) then Some(value)
    else if Text.StartsWith(key, SYSTEM_PROPERTY_KEY_PREFIX) then Some(value)
    else None
  }

  /** What the builder's hash always satisfies: distinct valid keys, no nil value, at most 128 entries. */
  predicate PropertiesValid(props: seq<(string, Value)>)
  {
    && DistinctKeys(props)
    && |props| <= MAX_PROPERTIES_COUNT
    && (forall i :: 0 <= i < |props| ==> ValidKey(Str(props[i].0)) && props[i].1 != Null)
  }

  /** The hash after `PropertiesBuilder#add(key, value)`. */
  function AddProperty(props: seq<(string, Value)>, key: Value, value: Value): (r: seq<(string, Value)>)
  {
    if |props| >= MAX_PROPERTIES_COUNT then props
    else if !ValidKey(key) then props
    else
      var sanitized := SanitizeValueOrNil(key.s, value);
      if sanitized.None? then props else Put(props, key.s, sanitized.value)
  }

  /**
   * `add` changes the hash only below the cap, for a valid key and a value
   * that survives sanitising; then the key maps to the sanitised value and
   * every other key keeps its value. A full builder ignores even
   * overwrites.
   */
  lemma AddPropertyEffect(props: seq<(string, Value)>, key: Value, value: Value, other: string)
    requires PropertiesValid(props)
    ensures PropertiesValid(AddProperty(props, key, value))
    ensures |AddProperty(props, key, value)| <= |props| + 1
    ensures |props| >= MAX_PROPERTIES_COUNT ==> AddProperty(props, key, value) == props
    ensures !ValidKey(key) || value.Null? ==> AddProperty(props, key, value) == props
    ensures |props| < MAX_PROPERTIES_COUNT && ValidKey(key) && SanitizeValueOrNil(key.s, value).Some? ==>
      Get(AddProperty(props, key, value), key.s) == SanitizeValueOrNil(key.s, value)
    ensures !(key.Str? && other == key.s) ==> Get(AddProperty(props, key, value), other) == Get(props, other)
  {
    if |props| < MAX_PROPERTIES_COUNT && ValidKey(key) {
      var sanitized := SanitizeValueOrNil(key.s, value);
      if sanitized.Some? {
        GetPut(props, key.s, sanitized.value, other);
        PutPropertyValid(props, key.s, sanitized.value);
      }
    }
  }

  /** Storing a non-nil value under a valid key keeps the hash valid. */
  lemma PutPropertyValid(props: seq<(string, Value)>, key: string, value: Value)
    requires PropertiesValid(props) && |props| < MAX_PROPERTIES_COUNT && ValidKey(Str(key)) && value != Null
    ensures PropertiesValid(Put(props, key, value))
  {
    PutKeepsDistinct(props, key, value);
    PutEntries(props, key, value);
    var r := Put(props, key, value);
    forall i | 0 <= i < |r|
      ensures ValidKey(Str(r[i].0)) && r[i].1 != Null
    {
      assert r[i] in r;
    }
  }

  /** The hash after `add_all`: `add` applied to each pair in order. */
  function AddAllProperties(props: seq<(string, Value)>, entries: seq<(Value, Value)>): (r: seq<(string, Value)>)
  {
    if |entries| == 0 then props
    else
      var last := entries[|entries| - 1];
      AddProperty(AddAllProperties(props, entries[..|entries| - 1]), last.0, last.1)
  }

  /** Adding many pairs keeps the hash valid, so it never exceeds 128 entries. */
  lemma {:induction false} AddAllPropertiesValid(props: seq<(string, Value)>, entries: seq<(Value, Value)>)
    requires PropertiesValid(props)
    ensures PropertiesValid(AddAllProperties(props, entries))
    ensures |AddAllProperties(props, entries)| <= MAX_PROPERTIES_COUNT
  {
    if |entries| > 0 {
      var last := entries[|entries| - 1];
      AddAllPropertiesValid(props, entries[..|entries| - 1]);
      AddPropertyEffect(AddAllProperties(props, entries[..|entries| - 1]), last.0, last.1, "");
    }
  }

  /** Once 128 properties are held, no further pair changes the hash. */
  lemma {:induction false} AddAllPropertiesWhenFull(props: seq<(string, Value)>, entries: seq<(Value, Value)>)
    requires |props| >= MAX_PROPERTIES_COUNT
    ensures AddAllProperties(props, entries) == props
  {
    if |entries| > 0 {
      AddAllPropertiesWhenFull(props, entries[..|entries| - 1]);
    }
  }

  /** `PropertiesBuilder`: the hash is the only state. */
  class PropertiesBuilder {
    var properties: seq<(string, Value)>

    ghost predicate Valid()
      reads this
    {
      PropertiesValid(properties)
    }

    constructor()
      ensures properties == [] && Valid()
    {
      properties := [];
    }

    /** `add(key, value)` */
    method Add(key: Value, value: Value)
      requires Valid()
      modifies this
      ensures properties == AddProperty(old(properties), key, value)
      ensures Valid()
    {
      AddPropertyEffect(properties, key, value, "");
      if |properties| >= MAX_PROPERTIES_COUNT {
        return;
      }
      if !ValidKey(key) {
        return;
      }
      var sanitized := SanitizeValueOrNil(key.s, value);
      if sanitized.Some? {
        properties := Put(properties, key.s, sanitized.value);
      }
    }

    /** `add_all(properties)`: anything but a Hash is ignored; a Hash is added pair by pair. */
    method AddAll(hash: Value)
      requires Valid()
      modifies this
      ensures !hash.Hash? ==> properties == old(properties)
      ensures hash.Hash? ==> properties == AddAllProperties(old(properties), hash.entries)
      ensures Valid()
    {
      if !hash.Hash? {
        return;
      }
      var i := 0;
      while i < |hash.entries|
        invariant 0 <= i <= |hash.entries|
        invariant properties == AddAllProperties(old(properties), hash.entries[..i])
        invariant Valid()
      {
        assert hash.entries[..i + 1][..i] == hash.entries[..i];
        Add(hash.entries[i].0, hash.entries[i].1);
        i := i + 1;
      }
      assert hash.entries[..i] == hash.entries;
    }

    /** `build`: the hash as it is now (a copy; later adds do not change it). */
    function Build(): seq<(string, Value)>
      reads this
    {
      properties
    }
  }

  /** A fresh builder's hash, as a Ruby Hash value. */
  function ToHash(props: seq<(string, Value)>): (r: Value)
    ensures r.Hash? && |r.entries| == |props|
    ensures forall i :: 0 <= i < |props| ==> r.entries[i] == (Str(props[i].0), props[i].1)
  {
    if |props| == 0 then Hash([])
    else Hash([(Str(props[0].0), props[0].1)] + ToHash(props[1..]).entries)
  }
}

/**
 * `IdentifiersBuilder`: collects user identifiers, keeping only a valid
 * type with a non-empty value.
 */
module IdentifiersBuilders {
  import opened Wrappers
  import opened RubyValues
  import opened OrderedMaps
  import Text

  const MAX_IDENTIFIER_TYPE_LENGTH: nat := 128
  const MAX_IDENTIFIER_VALUE_LENGTH: nat := 512

  /**
   * `IdentifiersBuilder.sanitize_value_or_nil`: a non-empty String of at
   * most 512 characters is kept, a number becomes its decimal text, and
   * anything else (nil included) is refused.
   */
  function SanitizeValueOrNil(value: Value): (r: Option<string>)
    ensures r.Some? ==> |r.value| > 0
    ensures value.Str? ==> (r.Some? <==> 0 < |value.s| <= MAX_IDENTIFIER_VALUE_LENGTH)
    ensures value.Str? && r.Some? ==> r.value == value.s
    ensures value.Num? ==> r == Some(Text.IntToString(value.n))
    ensures value.Num? ==> r.Some? && Text.ParseNumber(r.value) == Some(value.n)
    ensures !value.Str? && !value.Num? ==> r.None?
  {
    if value.Null? then None
    else if value.Str? && 0 < |value.s| <= MAX_IDENTIFIER_VALUE_LENGTH then Some(value.s)
    else if value.Num? then
      Text.ParseNumberOfIntToString(value.n);
      Some(Text.IntToString(value.n))
    else None
  }

  /** `valid_type?`: a non-empty String of at most 128 characters. */
  predicate ValidType(identifierType: Value)
  {
    identifierType.Str? && 0 < |identifierType.s| <= MAX_IDENTIFIER_TYPE_LENGTH
  }

  /** What the builder's hash always satisfies: distinct valid types and non-empty values. */
  predicate IdentifiersValid(ids: seq<(string, string)>)
  {
    && DistinctKeys(ids)
    && (forall i :: 0 <= i < |ids| ==> ValidType(Str(ids[i].0)) && |ids[i].1| > 0)
  }

  /** The hash after `IdentifiersBuilder#add(type, value)`. */
  function AddIdentifier(ids: seq<(string, string)>, identifierType: Value, value: Value): seq<(string, string)>
  {
    var sanitized := SanitizeValueOrNil(value);
    if ValidType(identifierType) && sanitized.Some? then Put(ids, identifierType.s, sanitized.value)
    else ids
  }

  /**
   * `add` stores exactly when the type is valid and the value survives
   * sanitising, overwriting an earlier value of that type; every other
   * type keeps its value.
   */
  lemma AddIdentifierEffect(ids: seq<(string, string)>, identifierType: Value, value: Value, other: string)
    requires IdentifiersValid(ids)
    ensures IdentifiersValid(AddIdentifier(ids, identifierType, value))
    ensures !ValidType(identifierType) || SanitizeValueOrNil(value).None? ==> AddIdentifier(ids, identifierType, value) == ids
    ensures ValidType(identifierType) && SanitizeValueOrNil(value).Some? ==>
      Get(AddIdentifier(ids, identifierType, value), identifierType.s) == SanitizeValueOrNil(value)
    ensures !(identifierType.Str? && other == identifierType.s) ==>
      Get(AddIdentifier(ids, identifierType, value), other) == Get(ids, other)
  {
    var sanitized := SanitizeValueOrNil(value);
    if ValidType(identifierType) && sanitized.Some? {
      GetPut(ids, identifierType.s, sanitized.value, other);
      PutIdentifierValid(ids, identifierType.s, sanitized.value);
    }
  }

  /** Storing a non-empty value under a valid type keeps the hash valid. */
  lemma PutIdentifierValid(ids: seq<(string, string)>, key: string, value: string)
    requires IdentifiersValid(ids) && ValidType(Str(key)) && |value| > 0
    ensures IdentifiersValid(Put(ids, key, value))
  {
    PutKeepsDistinct(ids, key, value);
    PutEntries(ids, key, value);
    var r := Put(ids, key, value);
    forall i | 0 <= i < |r|
      ensures ValidType(Str(r[i].0)) && |r[i].1| > 0
    {
      assert r[i] in r;
    }
  }

  /** The hash after `add_all`: `add` applied to each pair in order. */
  function AddAllIdentifiers(ids: seq<(string, string)>, entries: seq<(Value, Value)>): seq<(string, string)>
  {
    if |entries| == 0 then ids
    else
      var last := entries[|entries| - 1];
      AddIdentifier(AddAllIdentifiers(ids, entries[..|entries| - 1]), last.0, last.1)
  }

  /** Adding many pairs keeps the hash valid. */
  lemma {:induction false} AddAllIdentifiersValid(ids: seq<(string, string)>, entries: seq<(Value, Value)>)
    requires IdentifiersValid(ids)
    ensures IdentifiersValid(AddAllIdentifiers(ids, entries))
  {
    if |entries| > 0 {
      var last := entries[|entries| - 1];
      AddAllIdentifiersValid(ids, entries[..|entries| - 1]);
      AddIdentifierEffect(AddAllIdentifiers(ids, entries[..|entries| - 1]), last.0, last.1, "");
    }
  }

  /** `IdentifiersBuilder`: the hash is the only state. */
  class IdentifiersBuilder {
    var identifiers: seq<(string, string)>

    ghost predicate Valid()
      reads this
    {
      IdentifiersValid(identifiers)
    }

    constructor()
      ensures identifiers == [] && Valid()
    {
      identifiers := [];
    }

    /** `add(type, value)` */
    method Add(identifierType: Value, value: Value)
      requires Valid()
      modifies this
      ensures identifiers == AddIdentifier(old(identifiers), identifierType, value)
      ensures Valid()
    {
      AddIdentifierEffect(identifiers, identifierType, value, "");
      var sanitized := SanitizeValueOrNil(value);
      if ValidType(identifierType) && sanitized.Some? {
        identifiers := Put(identifiers, identifierType.s, sanitized.value);
      }
    }

    /** `add_all(identifiers)`: `add` for each pair in order. */
    method AddAll(entries: seq<(Value, Value)>)
      requires Valid()
      modifies this
      ensures identifiers == AddAllIdentifiers(old(identifiers), entries)
      ensures Valid()
    {
      var i := 0;
      while i < |entries|
        invariant 0 <= i <= |entries|
        invariant identifiers == AddAllIdentifiers(old(identifiers), entries[..i])
        invariant Valid()
      {
        assert entries[..i + 1][..i] == entries[..i];
        Add(entries[i].0, entries[i].1);
        i := i + 1;
      }
      assert entries[..i] == entries;
    }

    /** `build`: the hash as it is now. */
    function Build(): seq<(string, string)>
      reads this
    {
      identifiers
    }
  }
}
