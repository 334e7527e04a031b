/** Decoding what was encoded: when it succeeds, and what comes back. */
module CodecRoundTrip {
  import opened Js
  import opened Schema
  import opened Codec

  // ---------------------------------------------------------------- accepted declarations

  /** Distinct keys in every struct and distinct names in every enum. */
  ghost predicate Accepted(env: Env) {
    forall n :: n in env ==>
      match env[n]
      case Enum(values) => forall i, j :: 0 <= i < j < |values| ==> values[i] != values[j]
      case Struct(members) => forall i, j :: 0 <= i < j < |members| ==> members[i].key != members[j].key
  }

  // ---------------------------------------------------------------- what comes back

  /** The values whose encoding is null: an absent optional, or free JSON that holds null. */
  predicate EncodesNull(v: CppValue) {
    match v
    case VNone => true
    case VJson(j) => j == JNull
    case VSome(x) => EncodesNull(x)
    case _ => false
  }

  /** The value with every optional that holds something encoding to null made absent. */
  function Collapse(v: CppValue): CppValue
    decreases v
  {
    match v
    case VSome(x) => if EncodesNull(x) then VNone else VSome(Collapse(x))
    case VVector(items) => VVector(seq(|items|, i requires 0 <= i < |items| => Collapse(items[i])))
    case VStruct(fields) => VStruct(seq(|fields|, i requires 0 <= i < |fields| => Collapse(fields[i])))
    case _ => v
  }

  /** No optional holds something that encodes to null. */
  ghost predicate NoHeldNull(v: CppValue)
    decreases v
  {
    match v
    case VSome(x) => !EncodesNull(x) && NoHeldNull(x)
    case VVector(items) => forall i :: 0 <= i < |items| ==> NoHeldNull(items[i])
    case VStruct(fields) => forall i :: 0 <= i < |fields| ==> NoHeldNull(fields[i])
    case _ => true
  }

  /** Every required plain const field, at any depth, holds its constant. */
  ghost predicate ConstantsHold(env: Env, t: CppType, v: CppValue)
    requires HasType(env, t, v)
    decreases v
  {
    match v
    case VSome(x) => ConstantsHold(env, t.inner, x)
    case VVector(items) => forall i :: 0 <= i < |items| ==> ConstantsHold(env, t.elem, items[i])
    case VStruct(fields) =>
      var members := env[t.name].members;
      forall i :: 0 <= i < |fields| ==>
        && ConstantsHold(env, MemberType(members[i]), fields[i])
        && HoldsConstant(env, members[i], fields[i])
    case _ => true
  }

  ghost predicate HoldsConstant(env: Env, m: Member, f: CppValue)
    requires HasType(env, MemberType(m), f)
  {
    Plain(m) && m.constant.Some? ==> MatchesConstant(m.constant.value, Encode(env, m.t, f))
  }

  // ---------------------------------------------------------------- null encodings

  lemma {:induction false} NullEncoding(env: Env, t: CppType, v: CppValue)
    requires HasType(env, t, v)
    ensures Encode(env, t, v).JNull? <==> EncodesNull(v)
    ensures EncodesNull(v) ==> ConstantsHold(env, t, v)
    decreases v
  {
    match v
    case VSome(x) => NullEncoding(env, t.inner, x);
    case _ =>
  }

  // ---------------------------------------------------------------- objects

  lemma {:induction false} EncodedLookup(env: Env, members: seq<Member>, v: CppValue, n: nat, i: nat)
    requires v.VStruct? && i < n <= |members| == |v.fields|
    requires forall i :: 0 <= i < |members| ==> HasType(env, MemberType(members[i]), v.fields[i])
    requires forall i, j :: 0 <= i < j < |members| ==> members[i].key != members[j].key
    ensures Lookup(JObject(EncodeMembers(env, members, v, n)), members[i].key) == EncodeField(env, members[i], v.fields[i])
    decreases n
  {
    hide EncodeField, HasType, MemberType;
    EncodedKeys(env, members, v, n - 1);
    if i < n - 1 {
      EncodedLookup(env, members, v, n - 1, i);
    }
  }

  lemma {:induction false} EncodedKeys(env: Env, members: seq<Member>, v: CppValue, n: nat)
    requires v.VStruct? && n <= |members| == |v.fields|
    requires forall i :: 0 <= i < |members| ==> HasType(env, MemberType(members[i]), v.fields[i])
    ensures forall k :: k in EncodeMembers(env, members, v, n) ==> exists i :: 0 <= i < n && members[i].key == k
    decreases n
  {
    if n > 0 { EncodedKeys(env, members, v, n - 1); }
  }

  // ---------------------------------------------------------------- enums

  lemma {:induction false} FindOwnValue(values: seq<string>, i: nat)
    requires i < |values| && forall i, j :: 0 <= i < j < |values| ==> values[i] != values[j]
    ensures FindValue(values, values[i]) == Some(i)
  {
    if i > 0 {
      assert values[0] != values[i];
      FindOwnValue(values[1..], i - 1);
    }
  }

  // ---------------------------------------------------------------- the round trip

  ghost function Expected(env: Env, t: CppType, v: CppValue): Option<CppValue>
    requires HasType(env, t, v)
  {
    if ConstantsHold(env, t, v) then Some(Collapse(v)) else None
  }

  /**
   * Encoding and decoding a value of any generated type: from_json accepts exactly when the constants hold,
   * and gives back the value with its held nulls collapsed to absence.
   */
  lemma {:induction false} RoundTrip(env: Env, t: CppType, v: CppValue)
    requires Accepted(env) && HasType(env, t, v)
    ensures Decode(env, t, Encode(env, t, v)) == Expected(env, t, v)
    decreases v, 2
  {
    match v
    case VInt(i) =>
    case VVector(items) =>
      assert t.TVector?;
      VectorRoundTrip(env, t, v, |items|);
      CollapseFirstIs(items, |items|);
    case VSome(x) =>
      assert t.TOptional?;
      NullEncoding(env, t.inner, x);
      RoundTrip(env, t.inner, x);
    case VEnum(i) =>
      FindOwnValue(env[t.name].values, i);
    case VStruct(fields) =>
      StructRoundTrip(env, t, v, |fields|);
      CollapseFirstIs(fields, |fields|);
    case _ =>
  }

  function CollapseFirst(items: seq<CppValue>, n: nat): seq<CppValue>
    requires n <= |items|
  {
    if n == 0 then [] else CollapseFirst(items, n - 1) + [Collapse(items[n - 1])]
  }

  lemma {:induction false} CollapseFirstIs(items: seq<CppValue>, n: nat)
    requires n <= |items|
    ensures CollapseFirst(items, n) == seq(n, i requires 0 <= i < n => Collapse(items[i]))
  {
    if n > 0 { CollapseFirstIs(items, n - 1); }
  }

  lemma {:induction false} VectorRoundTrip(env: Env, t: CppType, v: CppValue, n: nat)
    requires Accepted(env) && HasType(env, t, v) && v.VVector? && t.TVector? && n <= |v.items|
    ensures DecodeItems(env, t.elem, Encode(env, t, v), n) ==
      if forall i :: 0 <= i < n ==> ConstantsHold(env, t.elem, v.items[i]) then Some(CollapseFirst(v.items, n)) else None
    decreases v, 1, n
  {
    hide ConstantsHold, Collapse, Decode;
    if n > 0 {
      VectorRoundTrip(env, t, v, n - 1);
      RoundTrip(env, t.elem, v.items[n - 1]);
    }
  }

  lemma {:induction false} FieldRoundTrip(env: Env, m: Member, f: CppValue, j: Json)
    requires Accepted(env) && HasType(env, MemberType(m), f) && Lookup(j, m.key) == EncodeField(env, m, f)
    ensures DecodeField(env, m, j) ==
      if ConstantsHold(env, MemberType(m), f) && HoldsConstant(env, m, f) then Some(Collapse(f)) else None
    decreases f, 3
  {
    if Plain(m) {
      RoundTrip(env, m.t, f);
    } else {
      match f
      case VSome(x) =>
        NullEncoding(env, m.t, x);
        RoundTrip(env, m.t, x);
      case _ =>
    }
  }

  /** The first n fields satisfy their constants, inside and out. */
  ghost predicate FieldsHold(env: Env, members: seq<Member>, fields: seq<CppValue>, n: nat)
    requires n <= |fields| == |members|
    requires forall i :: 0 <= i < |members| ==> HasType(env, MemberType(members[i]), fields[i])
  {
    forall i :: 0 <= i < n ==> ConstantsHold(env, MemberType(members[i]), fields[i]) && HoldsConstant(env, members[i], fields[i])
  }

  lemma {:induction false} StructRoundTrip(env: Env, t: CppType, v: CppValue, n: nat)
    requires Accepted(env) && HasType(env, t, v) && v.VStruct? && t.TNamed? && n <= |v.fields|
    ensures DecodeMembers(env, env[t.name].members, Encode(env, t, v), n) ==
      if FieldsHold(env, env[t.name].members, v.fields, n) then Some(CollapseFirst(v.fields, n)) else None
    decreases v, 1, n
  {
    hide ConstantsHold, HoldsConstant, Collapse, DecodeField, EncodeField, EncodeMembers, MemberType;
    var members := env[t.name].members;
    if n > 0 {
      StructRoundTrip(env, t, v, n - 1);
      EncodedLookup(env, members, v, |members|, n - 1);
      FieldRoundTrip(env, members[n - 1], v.fields[n - 1], Encode(env, t, v));
    }
  }

  lemma {:induction false} CollapseIsIdentity(v: CppValue)
    ensures Collapse(v) == v <==> NoHeldNull(v)
    decreases v
  {
    match v
    case VSome(x) => CollapseIsIdentity(x);
    case VVector(items) =>
      forall i | 0 <= i < |items| ensures Collapse(items[i]) == items[i] <==> NoHeldNull(items[i]) { CollapseIsIdentity(items[i]); }
      CollapsedItems(items, Collapse(v).items);
    case VStruct(fields) =>
      forall i | 0 <= i < |fields| ensures Collapse(fields[i]) == fields[i] <==> NoHeldNull(fields[i]) { CollapseIsIdentity(fields[i]); }
      CollapsedItems(fields, Collapse(v).fields);
    case _ =>
  }

  lemma CollapsedItems(items: seq<CppValue>, collapsed: seq<CppValue>)
    requires |items| == |collapsed|
    ensures items == collapsed <==> forall i :: 0 <= i < |items| ==> collapsed[i] == items[i]
  {
  }

  /** The round trip is exact precisely when the constants hold and no optional holds a null. */
  lemma ExactRoundTrip(env: Env, t: CppType, v: CppValue)
    requires Accepted(env) && HasType(env, t, v)
    ensures Decode(env, t, Encode(env, t, v)) == Some(v) <==> ConstantsHold(env, t, v) && NoHeldNull(v)
  {
    RoundTrip(env, t, v);
    CollapseIsIdentity(v);
  }

  // ---------------------------------------------------------------- what emitted structs can lose

  ghost predicate DistinctKeys(properties: seq<Property>) {
    forall i, j :: 0 <= i < j < |properties| ==> properties[i].key != properties[j].key
  }

  /** The emitted members mirror the properties, so distinct property keys give an accepted struct. */
  lemma {:induction false} EmittedMembersMirror(properties: seq<Property>, required: set<string>, inlineNames: string -> string)
    requires EmitMembers(properties, required, inlineNames).Some?
    ensures var members := EmitMembers(properties, required, inlineNames).value;
      && |members| == |properties|
      && (forall i :: 0 <= i < |members| ==>
            && members[i].key == properties[i].key
            && members[i].required == (properties[i].key in required)
            && (members[i].nullable <==> properties[i].schema.types.Several? && "null" in properties[i].schema.types.names)
            && members[i].constant == properties[i].schema.constant
            && TypeExpr(properties[i].schema, inlineNames(properties[i].key)) == Some(members[i].t))
      && (DistinctKeys(properties) ==> forall i, j :: 0 <= i < j < |members| ==> members[i].key != members[j].key)
  {
    if properties != [] {
      hide TypeExpr;
      EmittedMembersMirror(properties[..|properties| - 1], required, inlineNames);
    }
  }

  lemma {:induction false} MembersAreEmitted(properties: seq<Property>, required: set<string>, inlineNames: string -> string)
    ensures EmitMembers(properties, required, inlineNames).Some? <==>
      forall i :: 0 <= i < |properties| ==> TypeExpr(properties[i].schema, inlineNames(properties[i].key)).Some?
  {
    if properties != [] {
      hide TypeExpr;
      var n := |properties| - 1;
      MembersAreEmitted(properties[..n], required, inlineNames);
      assert forall i :: 0 <= i < n ==> properties[..n][i] == properties[i];
    }
  }

  /** A struct is emitted exactly for a closed or empty object all of whose property types are supported. */
  lemma StructIsEmitted(s: Schema, inlineNames: string -> string)
    ensures EmitStruct(s, inlineNames).Some? <==>
      && (s.closed || s.properties == [])
      && forall i :: 0 <= i < |s.properties| ==> TypeExpr(s.properties[i].schema, inlineNames(s.properties[i].key)).Some?
  {
    MembersAreEmitted(s.properties, s.required, inlineNames);
  }

  /** Decoding drops every key that no member declares, so an open object would lose its additional properties. */
  lemma UnknownKeysAreDropped(env: Env, name: string, fields: map<string, Json>, more: map<string, Json>)
    requires name in env && env[name].Struct?
    requires forall i :: 0 <= i < |env[name].members| ==> env[name].members[i].key !in more
    ensures Decode(env, TNamed(name), JObject(fields + more)) == Decode(env, TNamed(name), JObject(fields))
  {
    SameMembers(env, env[name].members, fields, more, |env[name].members|);
  }

  lemma {:induction false} SameMembers(env: Env, members: seq<Member>, fields: map<string, Json>, more: map<string, Json>, n: nat)
    requires n <= |members| && forall i :: 0 <= i < |members| ==> members[i].key !in more
    ensures DecodeMembers(env, members, JObject(fields + more), n) == DecodeMembers(env, members, JObject(fields), n)
    decreases n
  {
    if n > 0 {
      SameMembers(env, members, fields, more, n - 1);
      assert Lookup(JObject(fields + more), members[n - 1].key) == Lookup(JObject(fields), members[n - 1].key);
    }
  }

  /** A type list is emitted as an optional of its own, under the optional that a nullable field already gets. */
  lemma {:induction false} TypeListIsOptional(s: Schema, inlineName: string)
    requires TypeExpr(s, inlineName).Some?
    ensures TypeExpr(s, inlineName).value.TOptional? <==> s.types.Several? && (s.ref.Some? ==> "null" in s.types.names)
    ensures IsNullable(s) ==> TypeExpr(s, inlineName).value.TOptional?
  {
    if s.ref.None? && !s.types.Several? {
      NotOptional(s, if s.types.One? then s.types.name else "", inlineName);
    }
  }

  lemma NotOptional(s: Schema, t: string, inlineName: string)
    ensures SingleType(s, t, inlineName).Some? ==> !SingleType(s, t, inlineName).value.TOptional?
  {
  }

  lemma {:induction false} NullableTypes(env: Env, t: CppType, x: CppValue)
    requires HasType(env, t, x) && EncodesNull(x)
    ensures t.TOptional? || t.TJson?
  {
  }

  /** A member can hold a null that the round trip turns into absence. */
  ghost predicate CanLoseNull(env: Env, m: Member) {
    exists x :: HasType(env, MemberType(m), VSome(x)) && EncodesNull(x) && !Plain(m)
  }

  /**
   * Exactly the fields that are optional or nullable over an optional or free-JSON type can lose a null;
   * in particular every accepted nullable property can.
   */
  lemma LosingMembers(env: Env, m: Member)
    ensures CanLoseNull(env, m) <==> !Plain(m) && (m.t.TOptional? || m.t.TJson?)
  {
    if CanLoseNull(env, m) {
      var x :| HasType(env, MemberType(m), VSome(x)) && EncodesNull(x) && !Plain(m);
      NullableTypes(env, m.t, x);
    }
    if !Plain(m) && m.t.TOptional? {
      assert HasType(env, MemberType(m), VSome(VNone)) && EncodesNull(VNone);
    }
    if !Plain(m) && m.t.TJson? {
      assert HasType(env, MemberType(m), VSome(VJson(JNull))) && EncodesNull(VJson(JNull));
    }
  }

  lemma NullablePropertyLosesNull(env: Env, s: Schema, key: string, required: bool, inlineName: string)
    requires IsNullable(s) && TypeExpr(s, inlineName).Some?
    ensures CanLoseNull(env, Member(key, TypeExpr(s, inlineName).value, required, IsNullable(s), s.constant))
  {
    TypeListIsOptional(s, inlineName);
    LosingMembers(env, Member(key, TypeExpr(s, inlineName).value, required, IsNullable(s), s.constant));
  }
}
