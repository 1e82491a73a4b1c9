/**
 * `Hackle::Event`: what a caller tracks (a key, an optional numeric value
 * and a property hash), its validation, and the builder that assembles
 * one through a `PropertiesBuilder`.
 */
module Events {
  import opened Wrappers
  import opened RubyValues
  import PropertiesBuilders
  import ValueTypes
  import ConditionMatchers

  /** The three attributes exactly as given: the builder and `Event.new` accept anything. */
  datatype Event = Event(key: Value, value: Value, properties: Value)

  /**
   * `Event#error_or_nil`: the key is checked first, then the value, then
   * the properties; the first failing check names the problem, and an
   * event that passes all three has no error.
   */
  function ErrorOrNil(event: Event): (r: Option<string>)
    ensures r.None? <==>
      ValueTypes.IsNotEmptyString(event.key) &&
      (event.value.Null? || ValueTypes.IsNumber(event.value)) &&
      (event.properties.Null? || event.properties.Hash?)
    ensures !ValueTypes.IsNotEmptyString(event.key) ==>
      r == Some("Invalid event key: " + ConditionMatchers.Show(event.key) + " (expected: not empty string)")
    ensures ValueTypes.IsNotEmptyString(event.key) && !event.value.Null? && !ValueTypes.IsNumber(event.value) ==>
      r == Some("Invalid event value: " + ConditionMatchers.Show(event.value) + " (expected: number)")
    ensures ValueTypes.IsNotEmptyString(event.key) && (event.value.Null? || ValueTypes.IsNumber(event.value)) &&
            !event.properties.Null? && !event.properties.Hash? ==>
      r == Some("Invalid event properties: " + ConditionMatchers.Show(event.properties) + " (expected: Hash)")
  {
    if !ValueTypes.IsNotEmptyString(event.key) then
      Some("Invalid event key: " + ConditionMatchers.Show(event.key) + " (expected: not empty string)")
    else if !event.value.Null? && !ValueTypes.IsNumber(event.value) then
      Some("Invalid event value: " + ConditionMatchers.Show(event.value) + " (expected: number)")
    else if !event.properties.Null? && !event.properties.Hash? then
      Some("Invalid event properties: " + ConditionMatchers.Show(event.properties) + " (expected: Hash)")
    else None
  }

  /** `Event#valid?` */
  predicate IsValid(event: Event)
  {
    ErrorOrNil(event).None?
  }

  /** `Event::Builder`: the key is fixed, the value starts as nil, the properties as an empty builder. */
  class EventBuilder {
    const key: Value
    var value: Value
    const properties: PropertiesBuilders.PropertiesBuilder

    ghost predicate Valid()
      reads this, properties
    {
      properties.Valid()
    }

    constructor(key: Value)
      ensures this.key == key && value == Null && properties.properties == []
      ensures Valid() && fresh(properties)
    {
      this.key := key;
      value := Null;
      properties := new PropertiesBuilders.PropertiesBuilder();
    }

    /** `value(value)`: the last value given wins. */
    method SetValue(value: Value)
      requires Valid()
      modifies this
      ensures this.value == value && properties.properties == old(properties.properties)
      ensures Valid()
    {
      this.value := value;
    }

    /** `property(key, value)`: one `PropertiesBuilder#add`. */
    method Property(key: Value, value: Value)
      requires Valid()
      modifies properties
      ensures properties.properties == PropertiesBuilders.AddProperty(old(properties.properties), key, value)
      ensures Valid()
    {
      properties.Add(key, value);
    }

    /** `properties(hash)`: one `PropertiesBuilder#add_all`. */
    method Properties(hash: Value)
      requires Valid()
      modifies properties
      ensures !hash.Hash? ==> properties.properties == old(properties.properties)
      ensures hash.Hash? ==> properties.properties == PropertiesBuilders.AddAllProperties(old(properties.properties), hash.entries)
      ensures Valid()
    {
      properties.AddAll(hash);
    }

    /** `build`: the event with the properties collected so far, as a Hash. */
    method Build() returns (event: Event)
      requires Valid()
      ensures event == Event(key, value, PropertiesBuilders.ToHash(properties.properties))
      ensures event.properties.Hash?
      ensures IsValid(event) <==> ValueTypes.IsNotEmptyString(key) && (value.Null? || ValueTypes.IsNumber(value))
    {
      event := Event(key, value, PropertiesBuilders.ToHash(properties.properties));
    }
  }

  /**
   * A built event can only be invalid through its key or its value: its
   * properties are always a Hash, so validity does not depend on what was
   * added to them.
   */
  lemma BuiltPropertiesNeverInvalid(key: Value, value: Value, props1: seq<(string, Value)>, props2: seq<(string, Value)>)
    ensures IsValid(Event(key, value, PropertiesBuilders.ToHash(props1))) <==>
            IsValid(Event(key, value, PropertiesBuilders.ToHash(props2)))
    ensures ErrorOrNil(Event(key, value, PropertiesBuilders.ToHash(props1))).Some? ==>
            ErrorOrNil(Event(key, value, PropertiesBuilders.ToHash(props1))) ==
            ErrorOrNil(Event(key, value, PropertiesBuilders.ToHash(props2)))
  {
  }
}
