/** The C++ types that the contract compiler emits, and the to_json / from_json pair it emits for them (`codegen.mjs`). */
module Codec {
  import opened Js
  import opened Schema

  /** The JSON values of the generated code's library, which keeps integers and floats apart. */
  datatype Json =
    | JNull
    | JBool(b: bool)
    | JInt(i: int)
    | JFloat(r: real)
    | JString(s: string)
    | JArray(items: seq<Json>)
    | JObject(fields: map<string, Json>)

  datatype CppType =
    | TString | TInt64 | TDouble | TBool | TJson
    | TVector(elem: CppType)
    | TOptional(inner: CppType)
    | TNamed(name: string)

  /** A struct field: `t` is the type of its value, which is wrapped in an optional unless required and not nullable. */
  datatype Member = Member(key: string, t: CppType, required: bool, nullable: bool, constant: Option<Constant>)

  datatype Decl = Enum(values: seq<string>) | Struct(members: seq<Member>)

  type Env = map<string, Decl>

  predicate Plain(m: Member) {
    m.required && !m.nullable
  }

  function MemberType(m: Member): CppType {
    if Plain(m) then m.t else TOptional(m.t)
  }

  // ---------------------------------------------------------------- type expressions

  function NonNull(names: seq<string>): seq<string> {
    if names == [] then [] else (if names[0] == "null" then [] else [names[0]]) + NonNull(names[1..])
  }

  predicate AllStrings(values: seq<Option<string>>) {
    forall i :: 0 <= i < |values| ==> values[i].Some?
  }

  function ConstantType(c: Constant): CppType {
    match c
    case ConstString(_) => TString
    case ConstInteger(_) => TInt64
    case ConstNumber(_) => TDouble
    case ConstBool(_) => TBool
  }

  /** The C++ type of a field's schema; inline enums are named after struct and field. None: the compiler rejects it. */
  function TypeExpr(s: Schema, inlineName: string): Option<CppType>
    decreases s, 1
  {
    if s.ref.Some? then
      var base := TNamed(s.ref.value.name);
      Some(if IsNullable(s) then TOptional(base) else base)
    else match s.types
      case Several(names) =>
        var nonNull := NonNull(names);
        if |nonNull| != 1 then None
        else (match SingleType(s, nonNull[0], inlineName) case Some(t) => Some(TOptional(t)) case None => None)
      case NoType =>
        if s.constant.Some? then Some(ConstantType(s.constant.value))
        else if s.enumeration.Some? then EnumType(s, inlineName)
        else None
      case One(t) => SingleType(s, t, inlineName)
  }

  function EnumType(s: Schema, inlineName: string): Option<CppType>
    requires s.enumeration.Some?
  {
    if AllStrings(s.enumeration.value) then Some(TNamed(inlineName)) else None
  }

  function SingleType(s: Schema, t: string, inlineName: string): Option<CppType>
    decreases s, 0
  {
    if s.enumeration.Some? then EnumType(s, inlineName)
    else if t == "string" then Some(TString)
    else if t == "integer" then Some(TInt64)
    else if t == "number" then Some(TDouble)
    else if t == "boolean" then Some(TBool)
    else if t == "array" then
      if s.items.None? then None
      else (match TypeExpr(s.items.value, inlineName) case Some(e) => Some(TVector(e)) case None => None)
    else if t == "object" then (if s.closed || s.hasProperties then None else Some(TJson))
    else None
  }

  function EmitMembers(properties: seq<Property>, required: set<string>, inlineNames: string -> string): Option<seq<Member>> {
    if properties == [] then Some([])
    else
      var n := |properties| - 1;
      var p := properties[n];
      match (EmitMembers(properties[..n], required, inlineNames), TypeExpr(p.schema, inlineNames(p.key)))
      case (Some(before), Some(t)) =>
        Some(before + [Member(p.key, t, p.key in required, IsNullable(p.schema), p.schema.constant)])
      case _ => None
  }

  /** The struct emitted for an object schema; open objects with properties are rejected. */
  function EmitStruct(s: Schema, inlineNames: string -> string): Option<Decl> {
    if !s.closed && s.properties != [] then None
    else match EmitMembers(s.properties, s.required, inlineNames)
      case Some(members) => Some(Struct(members))
      case None => None
  }

  // ---------------------------------------------------------------- values

  datatype CppValue =
    | VString(s: string) | VInt(i: int) | VDouble(r: real) | VBool(b: bool) | VJson(j: Json)
    | VVector(items: seq<CppValue>)
    | VNone | VSome(v: CppValue)
    | VEnum(index: nat)
    | VStruct(fields: seq<CppValue>)

  predicate InInt64(i: int) {
    -0x8000_0000_0000_0000 <= i < 0x8000_0000_0000_0000
  }

  /** The two's-complement reading of an integer in 64 bits. */
  function WrapInt64(i: int): int {
    var w := i % 0x1_0000_0000_0000_0000;
    if w < 0x8000_0000_0000_0000 then w else w - 0x1_0000_0000_0000_0000
  }

  function Truncate(r: real): int {
    if r >= 0.0 then r.Floor else -((-r).Floor)
  }

  ghost predicate HasType(env: Env, t: CppType, v: CppValue)
    decreases v, t
  {
    match t
    case TString => v.VString?
    case TInt64 => v.VInt? && InInt64(v.i)
    case TDouble => v.VDouble?
    case TBool => v.VBool?
    case TJson => v.VJson?
    case TVector(e) => v.VVector? && forall i :: 0 <= i < |v.items| ==> HasType(env, e, v.items[i])
    case TOptional(u) => v.VNone? || (v.VSome? && HasType(env, u, v.v))
    case TNamed(name) =>
      name in env &&
      match env[name]
      case Enum(values) => v.VEnum? && v.index < |values|
      case Struct(members) =>
        v.VStruct? && |v.fields| == |members| && forall i :: 0 <= i < |members| ==> HasType(env, MemberType(members[i]), v.fields[i])
  }

  // ---------------------------------------------------------------- to_json

  ghost function Encode(env: Env, t: CppType, v: CppValue): Json
    requires HasType(env, t, v)
    decreases v, 1, 0
  {
    match v
    case VString(s) => JString(s)
    case VInt(i) => JInt(i)
    case VDouble(r) => JFloat(r)
    case VBool(b) => JBool(b)
    case VJson(j) => j
    case VVector(items) => JArray(seq(|items|, i requires 0 <= i < |items| => Encode(env, t.elem, items[i])))
    case VNone => JNull
    case VSome(x) => Encode(env, t.inner, x)
    case VEnum(i) => JString(env[t.name].values[i])
    case VStruct(fields) => JObject(EncodeMembers(env, env[t.name].members, v, |fields|))
  }

  /** What one member contributes: its value, an explicit null, or nothing. */
  ghost function EncodeField(env: Env, m: Member, f: CppValue): Option<Json>
    requires HasType(env, MemberType(m), f)
    decreases f, 2, 0
  {
    if Plain(m) then Some(Encode(env, m.t, f))
    else match f
      case VSome(x) => Some(Encode(env, m.t, x))
      case _ => if m.required then Some(JNull) else None
  }

  /** The object after the first n members were written. */
  ghost function EncodeMembers(env: Env, members: seq<Member>, v: CppValue, n: nat): map<string, Json>
    requires v.VStruct? && n <= |members| == |v.fields|
    requires forall i :: 0 <= i < |members| ==> HasType(env, MemberType(members[i]), v.fields[i])
    decreases v, 0, n
  {
    if n == 0 then map[]
    else
      var before := EncodeMembers(env, members, v, n - 1);
      match EncodeField(env, members[n - 1], v.fields[n - 1])
      case Some(j) => before[members[n - 1].key := j]
      case None => before
  }

  // ---------------------------------------------------------------- from_json

  predicate MatchesConstant(c: Constant, j: Json) {
    match c
    case ConstString(s) => j == JString(s)
    case ConstInteger(i) => j == JInt(i) || j == JFloat(i as real)
    case ConstNumber(r) => j == JFloat(r) || (j.JInt? && j.i as real == r)
    case ConstBool(b) => j == JBool(b)
  }

  function Lookup(j: Json, key: string): Option<Json> {
    if j.JObject? && key in j.fields then Some(j.fields[key]) else None
  }

  function FindValue(values: seq<string>, s: string): Option<nat> {
    if values == [] then None
    else if values[0] == s then Some(0)
    else match FindValue(values[1..], s) case Some(i) => Some(i + 1) case None => None
  }

  /** None: from_json throws. */
  function Decode(env: Env, t: CppType, j: Json): Option<CppValue>
    decreases j, 1, t
  {
    match t
    case TString => if j.JString? then Some(VString(j.s)) else None
    case TInt64 => if j.JInt? then Some(VInt(WrapInt64(j.i))) else if j.JFloat? then Some(VInt(WrapInt64(Truncate(j.r)))) else None
    case TDouble => if j.JInt? then Some(VDouble(j.i as real)) else if j.JFloat? then Some(VDouble(j.r)) else None
    case TBool => if j.JBool? then Some(VBool(j.b)) else None
    case TJson => Some(VJson(j))
    case TVector(e) =>
      if !j.JArray? then None
      else (match DecodeItems(env, e, j, |j.items|) case Some(items) => Some(VVector(items)) case None => None)
    case TOptional(u) =>
      if j.JNull? then Some(VNone)
      else (match Decode(env, u, j) case Some(x) => Some(VSome(x)) case None => None)
    case TNamed(name) =>
      if name !in env then None
      else match env[name]
        case Enum(values) =>
          if !j.JString? then None
          else (match FindValue(values, j.s) case Some(i) => Some(VEnum(i)) case None => None)
        case Struct(members) =>
          (match DecodeMembers(env, members, j, |members|) case Some(fields) => Some(VStruct(fields)) case None => None)
  }

  function DecodeItems(env: Env, e: CppType, j: Json, n: nat): Option<seq<CppValue>>
    requires j.JArray? && n <= |j.items|
    decreases j, 0, n
  {
    if n == 0 then Some([])
    else match (DecodeItems(env, e, j, n - 1), Decode(env, e, j.items[n - 1]))
      case (Some(before), Some(x)) => Some(before + [x])
      case _ => None
  }

  /** A required plain field must be there and match its constant; any other null or missing field is absent. */
  function DecodeField(env: Env, m: Member, j: Json): Option<CppValue>
    decreases j, 0, 0
  {
    match Lookup(j, m.key)
    case None => if m.required then None else Some(VNone)
    case Some(f) =>
      if Plain(m) then
        if m.constant.Some? && !MatchesConstant(m.constant.value, f) then None else Decode(env, m.t, f)
      else if f.JNull? then Some(VNone)
      else (match Decode(env, m.t, f) case Some(x) => Some(VSome(x)) case None => None)
  }

  function DecodeMembers(env: Env, members: seq<Member>, j: Json, n: nat): Option<seq<CppValue>>
    requires n <= |members|
    decreases j, 0, n + 1
  {
    if n == 0 then Some([])
    else match (DecodeMembers(env, members, j, n - 1), DecodeField(env, members[n - 1], j))
      case (Some(before), Some(f)) => Some(before + [f])
      case _ => None
  }
}
