/** The generated codecs as relations between JSON and values, independent of how the two functions compute (`codegen.mjs`). */
module CodecMeaning {
  import opened Js
  import opened Schema
  import opened Codec
  import opened CodecRoundTrip

  // ---------------------------------------------------------------- numbers and constants

  const TWO_TO_64 := 0x1_0000_0000_0000_0000

  /** n is r with its fraction cut off, towards zero. */
  ghost predicate TruncatesTo(r: real, n: int) {
    if r >= 0.0 then n as real <= r < n as real + 1.0 else n as real - 1.0 < r <= n as real
  }

  ghost predicate IntegerPart(j: Json, n: int) {
    (j.JInt? && n == j.i) || (j.JFloat? && TruncatesTo(j.r, n))
  }

  lemma TruncateIs(r: real, n: int)
    ensures Truncate(r) == n <==> TruncatesTo(r, n)
  {
  }

  lemma WrapIs(n: int, i: int)
    ensures WrapInt64(n) == i <==> InInt64(i) && (i - n) % TWO_TO_64 == 0
  {
    var w := n % TWO_TO_64;
    assert n == TWO_TO_64 * (n / TWO_TO_64) + w;
    if InInt64(i) && (i - n) % TWO_TO_64 == 0 {
      assert i - n == TWO_TO_64 * ((i - n) / TWO_TO_64);
      var q := (i - n) / TWO_TO_64 + n / TWO_TO_64;
      assert i == TWO_TO_64 * q + w;
      assert -1 <= q <= 0;
    }
  }

  function ConstantJson(c: Constant): Json {
    match c
    case ConstString(s) => JString(s)
    case ConstInteger(i) => JInt(i)
    case ConstNumber(r) => JFloat(r)
    case ConstBool(b) => JBool(b)
  }

  function NumberOf(j: Json): Option<real> {
    if j.JInt? then Some(j.i as real) else if j.JFloat? then Some(j.r) else None
  }

  /** Equality of JSON values: numbers are compared by value, whichever way they are written. */
  predicate SameJson(a: Json, b: Json) {
    a == b || (NumberOf(a).Some? && NumberOf(a) == NumberOf(b))
  }

  lemma ConstantsCompare(c: Constant, j: Json)
    requires !j.JArray? && !j.JObject?
    ensures MatchesConstant(c, j) <==> SameJson(ConstantJson(c), j)
  {
  }

  lemma ConstantsAreScalar(c: Constant, j: Json)
    ensures MatchesConstant(c, j) <==> SameJson(ConstantJson(c), j)
  {
    if !j.JArray? && !j.JObject? { ConstantsCompare(c, j); }
  }

  // ---------------------------------------------------------------- reading

  predicate HasKey(j: Json, key: string) {
    j.JObject? && key in j.fields
  }

  /** from_json accepts j for a field and reads f: a plain field must be there; otherwise missing and null mean absent. */
  ghost predicate FieldReadsAs(env: Env, m: Member, j: Json, f: CppValue)
    decreases f, 2, m.t
  {
    if !HasKey(j, m.key) then !m.required && f == VNone
    else if m.required && !m.nullable then
      (m.constant.Some? ==> SameJson(ConstantJson(m.constant.value), j.fields[m.key])) && ReadsAs(env, m.t, j.fields[m.key], f)
    else if j.fields[m.key].JNull? then f == VNone
    else f.VSome? && ReadsAs(env, m.t, j.fields[m.key], f.v)
  }

  /** from_json reads v from j at this type. */
  ghost predicate ReadsAs(env: Env, t: CppType, j: Json, v: CppValue)
    decreases v, 1, t
  {
    match t
    case TString => j.JString? && v == VString(j.s)
    case TInt64 => v.VInt? && InInt64(v.i) && exists n :: IntegerPart(j, n) && (v.i - n) % TWO_TO_64 == 0
    case TDouble => v.VDouble? && NumberOf(j) == Some(v.r)
    case TBool => j.JBool? && v == VBool(j.b)
    case TJson => v == VJson(j)
    case TVector(e) =>
      && j.JArray? && v.VVector? && |v.items| == |j.items|
      && forall i :: 0 <= i < |v.items| ==> ReadsAs(env, e, j.items[i], v.items[i])
    case TOptional(u) => if j.JNull? then v == VNone else v.VSome? && ReadsAs(env, u, j, v.v)
    case TNamed(name) =>
      name in env &&
      match env[name]
      case Enum(values) =>
        && j.JString? && v.VEnum? && v.index < |values| && values[v.index] == j.s
        && forall k :: 0 <= k < v.index ==> values[k] != j.s
      case Struct(members) =>
        v.VStruct? && |v.fields| == |members| && forall i :: 0 <= i < |members| ==> FieldReadsAs(env, members[i], j, v.fields[i])
  }

  lemma {:induction false} ItemsDecode(env: Env, e: CppType, j: Json, n: nat, items: seq<CppValue>)
    requires j.JArray? && n <= |j.items|
    ensures DecodeItems(env, e, j, n) == Some(items) <==>
      |items| == n && forall i :: 0 <= i < n ==> Decode(env, e, j.items[i]) == Some(items[i])
    decreases n
  {
    hide Decode;
    if n > 0 {
      if |items| == n {
        ItemsDecode(env, e, j, n - 1, items[..n - 1]);
        assert items == items[..n - 1] + [items[n - 1]];
      }
      if DecodeItems(env, e, j, n).Some? {
        var before := DecodeItems(env, e, j, n - 1).value;
        ItemsDecode(env, e, j, n - 1, before);
      }
    }
  }

  lemma {:induction false} MembersDecode(env: Env, members: seq<Member>, j: Json, n: nat, fields: seq<CppValue>)
    requires n <= |members|
    ensures DecodeMembers(env, members, j, n) == Some(fields) <==>
      |fields| == n && forall i :: 0 <= i < n ==> DecodeField(env, members[i], j) == Some(fields[i])
    decreases n
  {
    hide DecodeField;
    if n > 0 {
      if |fields| == n {
        MembersDecode(env, members, j, n - 1, fields[..n - 1]);
        assert fields == fields[..n - 1] + [fields[n - 1]];
      }
      if DecodeMembers(env, members, j, n).Some? {
        var before := DecodeMembers(env, members, j, n - 1).value;
        MembersDecode(env, members, j, n - 1, before);
      }
    }
  }

  lemma {:induction false} FindsFirst(values: seq<string>, s: string, k: nat)
    ensures FindValue(values, s) == Some(k) <==> k < |values| && values[k] == s && forall i :: 0 <= i < k ==> values[i] != s
  {
    if values != [] {
      assert forall i :: 0 < i < |values| ==> values[i] == values[1..][i - 1];
      if values[0] != s && k > 0 {
        FindsFirst(values[1..], s, k - 1);
        assert forall i :: 0 <= i < k - 1 && i < |values[1..]| ==> values[1..][i] == values[i + 1];
      }
    }
  }

  lemma IntegersDecode(env: Env, j: Json, v: CppValue)
    ensures Decode(env, TInt64, j) == Some(v) <==> ReadsAs(env, TInt64, j, v)
  {
    if v.VInt? && j.JInt? {
      WrapIs(j.i, v.i);
      assert IntegerPart(j, j.i);
    }
    if v.VInt? && j.JFloat? {
      TruncateIs(j.r, Truncate(j.r));
      WrapIs(Truncate(j.r), v.i);
      assert IntegerPart(j, Truncate(j.r));
      forall n | IntegerPart(j, n) ensures n == Truncate(j.r) {
        TruncateIs(j.r, n);
      }
    }
  }

  /** Decoding any JSON value, whoever wrote it: from_json succeeds with v if and only if v is the reading of j. */
  lemma {:induction false} DecodeExactly(env: Env, t: CppType, j: Json, v: CppValue)
    ensures Decode(env, t, j) == Some(v) <==> ReadsAs(env, t, j, v)
    decreases v, 1, t
  {
    match t
    case TInt64 => IntegersDecode(env, j, v);
    case TVector(e) =>
      if j.JArray? && v.VVector? { VectorDecodes(env, e, j, v); }
    case TOptional(u) =>
      if v.VSome? { DecodeExactly(env, u, j, v.v); }
    case TNamed(name) =>
      if name in env { NamedDecodes(env, name, j, v); }
    case _ =>
  }

  lemma {:induction false} VectorDecodes(env: Env, e: CppType, j: Json, v: CppValue)
    requires j.JArray? && v.VVector?
    ensures Decode(env, TVector(e), j) == Some(v) <==> ReadsAs(env, TVector(e), j, v)
    decreases v, 0, e
  {
    ItemsDecode(env, e, j, |j.items|, v.items);
    if |v.items| == |j.items| {
      forall i | 0 <= i < |v.items| ensures Decode(env, e, j.items[i]) == Some(v.items[i]) <==> ReadsAs(env, e, j.items[i], v.items[i]) {
        DecodeExactly(env, e, j.items[i], v.items[i]);
      }
    }
  }

  lemma {:induction false} NamedDecodes(env: Env, name: string, j: Json, v: CppValue)
    requires name in env
    ensures Decode(env, TNamed(name), j) == Some(v) <==> ReadsAs(env, TNamed(name), j, v)
    decreases v, 0, TNamed(name)
  {
    match env[name]
    case Enum(values) => if j.JString? && v.VEnum? { FindsFirst(values, j.s, v.index); }
    case Struct(members) =>
      if v.VStruct? {
        MembersDecode(env, members, j, |members|, v.fields);
        if |v.fields| == |members| {
          forall i | 0 <= i < |members| ensures DecodeField(env, members[i], j) == Some(v.fields[i]) <==> FieldReadsAs(env, members[i], j, v.fields[i]) {
            FieldDecodes(env, members[i], j, v.fields[i]);
          }
        }
      }
  }

  lemma {:induction false} FieldDecodes(env: Env, m: Member, j: Json, f: CppValue)
    ensures DecodeField(env, m, j) == Some(f) <==> FieldReadsAs(env, m, j, f)
    decreases f, 2, m.t
  {
    if HasKey(j, m.key) {
      var x := j.fields[m.key];
      if Plain(m) {
        DecodeExactly(env, m.t, x, f);
        if m.constant.Some? { ConstantsAreScalar(m.constant.value, x); }
      } else if f.VSome? {
        DecodeExactly(env, m.t, x, f.v);
      }
    }
  }

  /** Whatever is read has the type it was read at. */
  lemma {:induction false} ReadingHasType(env: Env, t: CppType, j: Json, v: CppValue)
    requires ReadsAs(env, t, j, v)
    ensures HasType(env, t, v)
    decreases v, 1, t
  {
    match t
    case TVector(e) =>
      forall i | 0 <= i < |v.items| ensures HasType(env, e, v.items[i]) {
        ReadingHasType(env, e, j.items[i], v.items[i]);
      }
    case TOptional(u) => if v.VSome? { ReadingHasType(env, u, j, v.v); }
    case TNamed(name) =>
      match env[name] {
        case Enum(values) =>
        case Struct(members) =>
          forall i | 0 <= i < |members| ensures HasType(env, MemberType(members[i]), v.fields[i]) {
            FieldReadingHasType(env, members[i], j, v.fields[i]);
          }
      }
    case _ =>
  }

  lemma {:induction false} FieldReadingHasType(env: Env, m: Member, j: Json, f: CppValue)
    requires FieldReadsAs(env, m, j, f)
    ensures HasType(env, MemberType(m), f)
    decreases f, 2, m.t
  {
    if HasKey(j, m.key) {
      if Plain(m) {
        ReadingHasType(env, m.t, j.fields[m.key], f);
      } else if f.VSome? {
        ReadingHasType(env, m.t, j.fields[m.key], f.v);
      }
    }
  }

  lemma DecodedHasType(env: Env, t: CppType, j: Json)
    ensures Decode(env, t, j).Some? ==> HasType(env, t, Decode(env, t, j).value)
  {
    if Decode(env, t, j).Some? {
      DecodeExactly(env, t, j, Decode(env, t, j).value);
      ReadingHasType(env, t, j, Decode(env, t, j).value);
    }
  }

  /** The field can be read: a required key is there, a value that is not an allowed null decodes, and a constant holds. */
  predicate FieldAccepts(env: Env, m: Member, j: Json) {
    && (m.required ==> HasKey(j, m.key))
    && (HasKey(j, m.key) && ((m.required && !m.nullable) || !j.fields[m.key].JNull?) ==> Decode(env, m.t, j.fields[m.key]).Some?)
    && (HasKey(j, m.key) && m.required && !m.nullable && m.constant.Some? ==> SameJson(ConstantJson(m.constant.value), j.fields[m.key]))
  }

  lemma FieldAcceptsExactly(env: Env, m: Member, j: Json)
    ensures DecodeField(env, m, j).Some? <==> FieldAccepts(env, m, j)
  {
    hide Decode;
    if HasKey(j, m.key) && m.constant.Some? { ConstantsAreScalar(m.constant.value, j.fields[m.key]); }
  }

  lemma {:induction false} MembersAccept(env: Env, members: seq<Member>, j: Json, n: nat)
    requires n <= |members|
    ensures DecodeMembers(env, members, j, n).Some? <==> forall i :: 0 <= i < n ==> FieldAccepts(env, members[i], j)
    decreases n
  {
    hide FieldAccepts, DecodeField;
    if n > 0 {
      MembersAccept(env, members, j, n - 1);
      FieldAcceptsExactly(env, members[n - 1], j);
    }
  }

  /** A struct is read from exactly the JSON values that every one of its fields accepts. */
  lemma StructDecodesExactly(env: Env, name: string, j: Json)
    requires name in env && env[name].Struct?
    ensures Decode(env, TNamed(name), j).Some? <==>
      forall i :: 0 <= i < |env[name].members| ==> FieldAccepts(env, env[name].members[i], j)
  {
    hide FieldAccepts;
    MembersAccept(env, env[name].members, j, |env[name].members|);
  }

  // ---------------------------------------------------------------- writing

  /** to_json's object holds this for the field: its value, a null that a required field needs, or nothing. */
  ghost predicate FieldWrittenAs(env: Env, m: Member, f: CppValue, fields: map<string, Json>)
    decreases f, 2
  {
    if m.required && !m.nullable then m.key in fields && WrittenAs(env, m.t, f, fields[m.key])
    else if f.VSome? then m.key in fields && WrittenAs(env, m.t, f.v, fields[m.key])
    else if m.required then m.key in fields && fields[m.key] == JNull
    else m.key !in fields
  }

  /** to_json writes v as j at this type. */
  ghost predicate WrittenAs(env: Env, t: CppType, v: CppValue, j: Json)
    decreases v, 1
  {
    match v
    case VString(s) => t.TString? && j == JString(s)
    case VInt(i) => t.TInt64? && j == JInt(i)
    case VDouble(r) => t.TDouble? && j == JFloat(r)
    case VBool(b) => t.TBool? && j == JBool(b)
    case VJson(x) => t.TJson? && j == x
    case VVector(items) =>
      && t.TVector? && j.JArray? && |j.items| == |items|
      && forall i :: 0 <= i < |items| ==> WrittenAs(env, t.elem, items[i], j.items[i])
    case VNone => t.TOptional? && j == JNull
    case VSome(x) => t.TOptional? && WrittenAs(env, t.inner, x, j)
    case VEnum(i) => t.TNamed? && t.name in env && env[t.name].Enum? && i < |env[t.name].values| && j == JString(env[t.name].values[i])
    case VStruct(fields) =>
      && t.TNamed? && t.name in env && env[t.name].Struct? && |fields| == |env[t.name].members| && j.JObject?
      && (forall i :: 0 <= i < |fields| ==> FieldWrittenAs(env, env[t.name].members[i], fields[i], j.fields))
      && forall k :: k in j.fields ==> exists i :: 0 <= i < |fields| && env[t.name].members[i].key == k
  }

  /** Encoding any value of the type writes it so. */
  lemma {:induction false} EncodeIsWriting(env: Env, t: CppType, v: CppValue)
    requires Accepted(env) && HasType(env, t, v)
    ensures WrittenAs(env, t, v, Encode(env, t, v))
    decreases v, 1
  {
    match v
    case VVector(items) =>
      forall i | 0 <= i < |items| ensures WrittenAs(env, t.elem, items[i], Encode(env, t, v).items[i]) {
        EncodeIsWriting(env, t.elem, items[i]);
      }
    case VSome(x) => EncodeIsWriting(env, t.inner, x);
    case VStruct(fields) =>
      var members := env[t.name].members;
      EncodedKeys(env, members, v, |fields|);
      forall i | 0 <= i < |fields| ensures FieldWrittenAs(env, members[i], fields[i], Encode(env, t, v).fields) {
        EncodedLookup(env, members, v, |fields|, i);
        FieldIsWritten(env, members[i], fields[i], Encode(env, t, v).fields);
      }
    case _ =>
  }

  lemma {:induction false} FieldIsWritten(env: Env, m: Member, f: CppValue, fields: map<string, Json>)
    requires Accepted(env) && HasType(env, MemberType(m), f)
    requires Lookup(JObject(fields), m.key) == EncodeField(env, m, f)
    ensures FieldWrittenAs(env, m, f, fields)
    decreases f, 2
  {
    if Plain(m) {
      EncodeIsWriting(env, m.t, f);
    } else if f.VSome? {
      EncodeIsWriting(env, m.t, f.v);
    }
  }

  /** A value is written in one way only. */
  lemma {:induction false} WritingIsUnique(env: Env, t: CppType, v: CppValue, j: Json, j': Json)
    requires WrittenAs(env, t, v, j) && WrittenAs(env, t, v, j')
    ensures j == j'
    decreases v, 1
  {
    match v
    case VVector(items) =>
      forall i | 0 <= i < |items| ensures j.items[i] == j'.items[i] {
        WritingIsUnique(env, t.elem, items[i], j.items[i], j'.items[i]);
      }
    case VSome(x) => WritingIsUnique(env, t.inner, x, j, j');
    case VStruct(fields) =>
      var members := env[t.name].members;
      forall i | 0 <= i < |fields| ensures Lookup(j, members[i].key) == Lookup(j', members[i].key) {
        FieldIsUnique(env, members[i], fields[i], j.fields, j'.fields);
      }
      forall k ensures k in j.fields <==> k in j'.fields {
        if k in j.fields { var i :| 0 <= i < |fields| && members[i].key == k; assert Lookup(j, members[i].key) == Lookup(j', members[i].key); }
        if k in j'.fields { var i :| 0 <= i < |fields| && members[i].key == k; assert Lookup(j, members[i].key) == Lookup(j', members[i].key); }
      }
      forall k | k in j.fields ensures j.fields[k] == j'.fields[k] {
        var i :| 0 <= i < |fields| && members[i].key == k;
        assert Lookup(j, members[i].key) == Lookup(j', members[i].key);
      }
      assert j.fields == j'.fields;
    case _ =>
  }

  lemma {:induction false} FieldIsUnique(env: Env, m: Member, f: CppValue, fields: map<string, Json>, fields': map<string, Json>)
    requires FieldWrittenAs(env, m, f, fields) && FieldWrittenAs(env, m, f, fields')
    ensures Lookup(JObject(fields), m.key) == Lookup(JObject(fields'), m.key)
    decreases f, 2
  {
    if Plain(m) {
      WritingIsUnique(env, m.t, f, fields[m.key], fields'[m.key]);
    } else if f.VSome? {
      WritingIsUnique(env, m.t, f.v, fields[m.key], fields'[m.key]);
    }
  }

  /** to_json writes v as j if and only if j holds each value and each field as the type demands, and nothing else. */
  lemma EncodeExactly(env: Env, t: CppType, v: CppValue, j: Json)
    requires Accepted(env) && HasType(env, t, v)
    ensures Encode(env, t, v) == j <==> WrittenAs(env, t, v, j)
  {
    hide WrittenAs, HasType, Accepted;
    EncodeIsWriting(env, t, v);
    if WrittenAs(env, t, v, j) { WritingIsUnique(env, t, v, j, Encode(env, t, v)); }
  }
}
