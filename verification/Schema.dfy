/** The JSON Schema subset that the contract compiler reads (`codegen.mjs`). */
module Schema {
  import opened Js

  /** A `$ref` once resolved: its target type, and whether that type lives in the referring file. */
  datatype Ref = Ref(name: string, sameFile: bool)

  /** The `type` keyword: missing, one name, or a list of names. */
  datatype Types = NoType | One(name: string) | Several(names: seq<string>)

  /** The `const` keyword's value. */
  datatype Constant = ConstString(s: string) | ConstInteger(i: int) | ConstNumber(r: real) | ConstBool(b: bool)

  datatype Property = Property(key: string, schema: Schema)

  /** `properties` lists the properties in declaration order; `hasProperties` says whether the keyword is there at all. */
  datatype Schema = Schema(
    ref: Option<Ref>, types: Types, constant: Option<Constant>, enumeration: Option<seq<Option<string>>>,
    items: Option<Schema>, hasProperties: bool, properties: seq<Property>, required: set<string>, closed: bool)

  predicate IsNullable(s: Schema) {
    s.types.Several? && "null" in s.types.names
  }

  function AddNew(found: seq<string>, more: seq<string>): seq<string>
    decreases |more|
  {
    if more == [] then found
    else AddNew(if more[0] in found then found else found + [more[0]], more[1..])
  }

  /** Names of the same-file types that a schema node refers to, in order of first appearance. */
  function RefsOf(s: Schema): seq<string>
    decreases s, 0
  {
    if s.ref.Some? then (if s.ref.value.sameFile then [s.ref.value.name] else [])
    else
      var found := RefsOfAll(s.properties);
      if s.items.Some? then AddNew(found, RefsOf(s.items.value)) else found
  }

  function RefsOfAll(properties: seq<Property>): seq<string>
    decreases properties, 0
  {
    if properties == [] then []
    else
      var n := |properties| - 1;
      AddNew(RefsOfAll(properties[..n]), RefsOf(properties[n].schema))
  }

  lemma {:induction false} AddNewMembers(found: seq<string>, more: seq<string>)
    requires forall i, j :: 0 <= i < j < |found| ==> found[i] != found[j]
    ensures forall i, j :: 0 <= i < j < |AddNew(found, more)| ==> AddNew(found, more)[i] != AddNew(found, more)[j]
    ensures forall x :: x in AddNew(found, more) <==> x in found || x in more
    decreases |more|
  {
    if more != [] {
      AddNewMembers(if more[0] in found then found else found + [more[0]], more[1..]);
    }
  }

  /** The schema mentions a same-file type outside every nested reference. */
  ghost predicate Mentions(s: Schema, name: string)
    decreases s
  {
    if s.ref.Some? then s.ref.value == Ref(name, true)
    else
      || (exists i :: 0 <= i < |s.properties| && Mentions(s.properties[i].schema, name))
      || (s.items.Some? && Mentions(s.items.value, name))
  }

  /** The reference list is duplicate-free and holds exactly the mentioned types. */
  lemma {:induction false} RefsAreMentions(s: Schema, name: string)
    ensures forall i, j :: 0 <= i < j < |RefsOf(s)| ==> RefsOf(s)[i] != RefsOf(s)[j]
    ensures name in RefsOf(s) <==> Mentions(s, name)
    decreases s, 1
  {
    if s.ref.None? {
      PropertyRefs(s.properties, name);
      if s.items.Some? {
        RefsAreMentions(s.items.value, name);
        AddNewMembers(RefsOfAll(s.properties), RefsOf(s.items.value));
      }
    }
  }

  lemma {:induction false} PropertyRefs(properties: seq<Property>, name: string)
    ensures forall i, j :: 0 <= i < j < |RefsOfAll(properties)| ==> RefsOfAll(properties)[i] != RefsOfAll(properties)[j]
    ensures name in RefsOfAll(properties) <==> exists i :: 0 <= i < |properties| && Mentions(properties[i].schema, name)
    decreases properties, 0
  {
    if properties != [] {
      var n := |properties| - 1;
      PropertyRefs(properties[..n], name);
      RefsAreMentions(properties[n].schema, name);
      AddNewMembers(RefsOfAll(properties[..n]), RefsOf(properties[n].schema));
      if i :| 0 <= i < n && Mentions(properties[..n][i].schema, name) { assert Mentions(properties[i].schema, name); }
      if i :| 0 <= i < n && Mentions(properties[i].schema, name) { assert Mentions(properties[..n][i].schema, name); }
    }
  }
}
