/** The record being filtered (the SwiftData entity `EntityPerson`) and the
    `[String: Any]` dictionary the filter closure builds from it. */
module Models {

  /** Foundation's `Date`, reduced to an ordered instant: whole seconds since
      the reference date. */
  datatype Date = Date(secondsSinceReferenceDate: int)

  /** A unique identifier; only its identity matters here. */
  type UUID = nat

  /** The seven attributes of a person plus its unique identifier. */
  datatype EntityPerson = EntityPerson(
    id: UUID,
    firstName: string,
    lastName: string,
    dateOfBirth: Date,
    age: int,
    department: string,
    country: string,
    isBool: bool)

  /** The dynamic values of a `[String: Any]` dictionary built from a person. */
  datatype Value =
    | StringValue(text: string)
    | IntValue(number: int)
    | BoolValue(flag: bool)
    | DateValue(date: Date)

  type PersonDict = map<string, Value>

  /** The dictionary the filter closure hands to the predicate: each
      attribute under its own name; the identifier is not included. */
  function ToDictionary(p: EntityPerson): (d: PersonDict)
    ensures d.Keys == {"firstName", "lastName", "age", "department", "country", "isBool", "dateOfBirth"}
    ensures d["firstName"] == StringValue(p.firstName) && d["lastName"] == StringValue(p.lastName)
    ensures d["age"] == IntValue(p.age) && d["department"] == StringValue(p.department)
    ensures d["country"] == StringValue(p.country) && d["isBool"] == BoolValue(p.isBool)
    ensures d["dateOfBirth"] == DateValue(p.dateOfBirth)
  {
    map[
      "firstName" := StringValue(p.firstName),
      "lastName" := StringValue(p.lastName),
      "age" := IntValue(p.age),
      "department" := StringValue(p.department),
      "country" := StringValue(p.country),
      "isBool" := BoolValue(p.isBool),
      "dateOfBirth" := DateValue(p.dateOfBirth)]
  }

  /** Two persons give the same dictionary exactly when they agree on every
      attribute; only the identifier is lost. */
  lemma ToDictionaryForgetsOnlyId(p: EntityPerson, q: EntityPerson)
    ensures ToDictionary(p) == ToDictionary(q) <==> p.(id := q.id) == q
  {
    if ToDictionary(p) == ToDictionary(q) {
      var d, e := ToDictionary(p), ToDictionary(q);
      assert d["firstName"] == e["firstName"] && d["lastName"] == e["lastName"];
      assert d["age"] == e["age"] && d["department"] == e["department"];
      assert d["country"] == e["country"] && d["isBool"] == e["isBool"];
      assert d["dateOfBirth"] == e["dateOfBirth"];
    }
  }
}
