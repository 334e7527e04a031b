/** Which JSON values the type emitted for a schema can hold (`cppTypeExpr` in `codegen.mjs`). */
module SchemaMeaning {
  import opened Js
  import opened Schema
  import opened Codec

  /** Some value of the type is written as j. */
  ghost predicate Denotes(env: Env, t: CppType, j: Json) {
    exists v :: HasType(env, t, v) && Encode(env, t, v) == j
  }

  lemma Witness(env: Env, t: CppType, v: CppValue)
    requires HasType(env, t, v)
    ensures Denotes(env, t, Encode(env, t, v))
  {
  }

  // ---------------------------------------------------------------- types

  lemma ScalarsDenote(env: Env, j: Json)
    ensures Denotes(env, TString, j) <==> j.JString?
    ensures Denotes(env, TInt64, j) <==> j.JInt? && InInt64(j.i)
    ensures Denotes(env, TDouble, j) <==> j.JFloat?
    ensures Denotes(env, TBool, j) <==> j.JBool?
    ensures Denotes(env, TJson, j)
  {
    if j.JString? { Witness(env, TString, VString(j.s)); }
    if j.JInt? && InInt64(j.i) { Witness(env, TInt64, VInt(j.i)); }
    if j.JFloat? { Witness(env, TDouble, VDouble(j.r)); }
    if j.JBool? { Witness(env, TBool, VBool(j.b)); }
    Witness(env, TJson, VJson(j));
  }

  lemma OptionalDenotes(env: Env, t: CppType, j: Json)
    ensures Denotes(env, TOptional(t), j) <==> j.JNull? || Denotes(env, t, j)
  {
    if Denotes(env, TOptional(t), j) {
      var v :| HasType(env, TOptional(t), v) && Encode(env, TOptional(t), v) == j;
      if v.VSome? { Witness(env, t, v.v); }
    }
    if j.JNull? { Witness(env, TOptional(t), VNone); }
    if Denotes(env, t, j) {
      var v :| HasType(env, t, v) && Encode(env, t, v) == j;
      Witness(env, TOptional(t), VSome(v));
    }
  }

  lemma EnumDenotes(env: Env, name: string, values: seq<string>, j: Json)
    requires name in env && env[name] == Enum(values)
    ensures Denotes(env, TNamed(name), j) <==> j.JString? && j.s in values
  {
    if Denotes(env, TNamed(name), j) {
      var v :| HasType(env, TNamed(name), v) && Encode(env, TNamed(name), v) == j;
    }
    if j.JString? && j.s in values {
      var i :| 0 <= i < |values| && values[i] == j.s;
      Witness(env, TNamed(name), VEnum(i));
    }
  }

  lemma {:induction false} ItemValues(env: Env, t: CppType, items: seq<Json>) returns (vs: seq<CppValue>)
    requires forall i :: 0 <= i < |items| ==> Denotes(env, t, items[i])
    ensures |vs| == |items| && forall i :: 0 <= i < |items| ==> HasType(env, t, vs[i]) && Encode(env, t, vs[i]) == items[i]
  {
    if items == [] {
      vs := [];
    } else {
      var n := |items| - 1;
      vs := ItemValues(env, t, items[..n]);
      assert Denotes(env, t, items[n]);
      var v :| HasType(env, t, v) && Encode(env, t, v) == items[n];
      vs := vs + [v];
    }
  }

  lemma VectorDenotes(env: Env, t: CppType, j: Json)
    ensures Denotes(env, TVector(t), j) <==> j.JArray? && forall i :: 0 <= i < |j.items| ==> Denotes(env, t, j.items[i])
  {
    if Denotes(env, TVector(t), j) {
      var v :| HasType(env, TVector(t), v) && Encode(env, TVector(t), v) == j;
      forall i | 0 <= i < |j.items| ensures Denotes(env, t, j.items[i]) {
        Witness(env, t, v.items[i]);
      }
    }
    if j.JArray? && forall i :: 0 <= i < |j.items| ==> Denotes(env, t, j.items[i]) {
      var vs := ItemValues(env, t, j.items);
      Witness(env, TVector(t), VVector(vs));
      assert Encode(env, TVector(t), VVector(vs)).items == j.items;
    }
  }

  // ---------------------------------------------------------------- schemas

  /** Inline enums are declared under the name that the compiler gives them. */
  predicate InlineDeclared(env: Env, s: Schema, inlineName: string) {
    && (s.ref.None? && s.enumeration.Some? && AllStrings(s.enumeration.value) ==>
          inlineName in env && env[inlineName] == Enum(Strings(s.enumeration.value)))
    && (s.ref.None? && s.items.Some? ==> InlineDeclared(env, s.items.value, inlineName))
  }

  function Strings(values: seq<Option<string>>): seq<string>
    requires AllStrings(values)
  {
    seq(|values|, i requires 0 <= i < |values| => values[i].value)
  }

  /** The values of one type name: integers in 64 bits, numbers as floats; a free object may hold any JSON. */
  ghost predicate OfType(env: Env, s: Schema, name: string, j: Json)
    decreases s, 0
  {
    if s.enumeration.Some? then j.JString? && Some(j.s) in s.enumeration.value
    else if name == "string" then j.JString?
    else if name == "integer" then j.JInt? && InInt64(j.i)
    else if name == "number" then j.JFloat?
    else if name == "boolean" then j.JBool?
    else if name == "array" then
      s.items.Some? && j.JArray? && forall i :: 0 <= i < |j.items| ==> Represents(env, s.items.value, j.items[i])
    else name == "object"
  }

  predicate OfConstantKind(c: Constant, j: Json) {
    match c
    case ConstString(_) => j.JString?
    case ConstInteger(_) => j.JInt? && InInt64(j.i)
    case ConstNumber(_) => j.JFloat?
    case ConstBool(_) => j.JBool?
  }

  /** What a schema stands for: a list of types always lets null through, and a constant only fixes the kind of value. */
  ghost predicate Represents(env: Env, s: Schema, j: Json)
    decreases s, 1
  {
    if s.ref.Some? then (s.types.Several? && "null" in s.types.names && j.JNull?) || Denotes(env, TNamed(s.ref.value.name), j)
    else match s.types
      case Several(names) => j.JNull? || exists k :: 0 <= k < |names| && names[k] != "null" && OfType(env, s, names[k], j)
      case One(name) => OfType(env, s, name, j)
      case NoType =>
        if s.constant.Some? then OfConstantKind(s.constant.value, j)
        else s.enumeration.Some? && j.JString? && Some(j.s) in s.enumeration.value
  }

  lemma {:induction false} NonNullAre(names: seq<string>)
    ensures forall n :: n in NonNull(names) <==> n in names && n != "null"
  {
    if names != [] { NonNullAre(names[1..]); }
  }

  lemma EnumFits(env: Env, s: Schema, inlineName: string, j: Json)
    requires s.ref.None? && s.enumeration.Some? && EnumType(s, inlineName).Some? && InlineDeclared(env, s, inlineName)
    ensures Denotes(env, EnumType(s, inlineName).value, j) <==> j.JString? && Some(j.s) in s.enumeration.value
  {
    var values := Strings(s.enumeration.value);
    EnumDenotes(env, inlineName, values, j);
    if j.JString? {
      if j.s in values {
        var i :| 0 <= i < |values| && values[i] == j.s;
        assert s.enumeration.value[i] == Some(j.s);
      }
      if Some(j.s) in s.enumeration.value {
        var i :| 0 <= i < |s.enumeration.value| && s.enumeration.value[i] == Some(j.s);
        assert values[i] == j.s;
      }
    }
  }

  lemma {:induction false} SingleFits(env: Env, s: Schema, name: string, inlineName: string, j: Json)
    requires s.ref.None? && SingleType(s, name, inlineName).Some? && InlineDeclared(env, s, inlineName)
    ensures Denotes(env, SingleType(s, name, inlineName).value, j) <==> OfType(env, s, name, j)
    decreases s, 0
  {
    hide Denotes;
    if s.enumeration.Some? {
      EnumFits(env, s, inlineName, j);
    } else if name == "array" {
      var t := TypeExpr(s.items.value, inlineName).value;
      VectorDenotes(env, t, j);
      if j.JArray? {
        forall i | 0 <= i < |j.items| ensures Denotes(env, t, j.items[i]) <==> Represents(env, s.items.value, j.items[i]) {
          TypeFitsSchema(env, s.items.value, inlineName, j.items[i]);
        }
      }
    } else {
      ScalarsDenote(env, j);
    }
  }

  /** The emitted type holds exactly the values that the schema stands for. */
  lemma {:induction false} TypeFitsSchema(env: Env, s: Schema, inlineName: string, j: Json)
    requires TypeExpr(s, inlineName).Some? && InlineDeclared(env, s, inlineName)
    ensures Denotes(env, TypeExpr(s, inlineName).value, j) <==> Represents(env, s, j)
    decreases s, 1
  {
    hide Denotes, SingleType, OfType, InlineDeclared;
    if s.ref.Some? {
      OptionalDenotes(env, TNamed(s.ref.value.name), j);
    } else {
      match s.types
      case Several(names) =>
        var only := NonNull(names)[0];
        NonNullAre(names);
        SingleFits(env, s, only, inlineName, j);
        OptionalDenotes(env, SingleType(s, only, inlineName).value, j);
        assert only in NonNull(names);
        forall n | n in NonNull(names) ensures n == only {
        }
        var k :| 0 <= k < |names| && names[k] == only;
        forall i | 0 <= i < |names| && names[i] != "null" ensures names[i] == only {
          assert names[i] in NonNull(names);
        }
      case One(name) => SingleFits(env, s, name, inlineName, j);
      case NoType =>
        if s.constant.Some? {
          ScalarsDenote(env, j);
        } else {
          EnumFits(env, s, inlineName, j);
        }
    }
  }

  // ---------------------------------------------------------------- which schemas have a type

  /** Position k holds the only name other than "null". */
  predicate IsOnlyName(names: seq<string>, k: nat) {
    k < |names| && forall i :: 0 <= i < |names| ==> (names[i] != "null" <==> i == k)
  }

  /** An enum of strings only, a scalar, an array of supported items, or an object that says nothing about its properties. */
  ghost predicate SupportedAs(s: Schema, name: string)
    decreases s, 0
  {
    if s.enumeration.Some? then forall v :: v in s.enumeration.value ==> v.Some?
    else
      || name in {"string", "integer", "number", "boolean"}
      || (name == "array" && s.items.Some? && Supported(s.items.value))
      || (name == "object" && !s.closed && !s.hasProperties)
  }

  /** A reference, exactly one supported type name besides "null", or, without a type, a constant or an enum of strings. */
  ghost predicate Supported(s: Schema)
    decreases s, 1
  {
    s.ref.Some? ||
    match s.types
    case Several(names) => exists k: nat :: IsOnlyName(names, k) && SupportedAs(s, names[k])
    case One(name) => SupportedAs(s, name)
    case NoType => s.constant.Some? || (s.enumeration.Some? && forall v :: v in s.enumeration.value ==> v.Some?)
  }

  lemma {:induction false} NoOtherName(names: seq<string>)
    ensures NonNull(names) == [] <==> forall i :: 0 <= i < |names| ==> names[i] == "null"
  {
    if names != [] {
      NoOtherName(names[1..]);
      assert forall i :: 0 < i < |names| ==> names[i] == names[1..][i - 1];
    }
  }

  lemma {:induction false} OnlyNameIs(names: seq<string>)
    ensures forall k: nat :: IsOnlyName(names, k) ==> NonNull(names) == [names[k]]
    ensures |NonNull(names)| == 1 ==> exists k: nat :: IsOnlyName(names, k)
  {
    if names != [] {
      var rest := names[1..];
      OnlyNameIs(rest);
      NoOtherName(rest);
      assert forall i :: 0 < i < |names| ==> names[i] == rest[i - 1];
      if names[0] != "null" {
        assert NonNull(names) == [names[0]] + NonNull(rest);
        if NonNull(rest) == [] { assert IsOnlyName(names, 0); }
      } else {
        if |NonNull(rest)| == 1 {
          var k: nat :| IsOnlyName(rest, k);
          assert IsOnlyName(names, k + 1);
        }
        forall k: nat | IsOnlyName(names, k) ensures NonNull(names) == [names[k]] {
          assert IsOnlyName(rest, k - 1);
        }
      }
    }
  }

  lemma {:induction false} SingleExactly(s: Schema, name: string, inlineName: string)
    requires s.ref.None?
    ensures SingleType(s, name, inlineName).Some? <==> SupportedAs(s, name)
    decreases s, 0
  {
    if s.enumeration.Some? {
      EnumExactly(s, inlineName);
    } else if name == "array" && s.items.Some? {
      TypeExprExactly(s.items.value, inlineName);
    }
  }

  lemma EnumExactly(s: Schema, inlineName: string)
    requires s.enumeration.Some?
    ensures EnumType(s, inlineName).Some? <==> forall v :: v in s.enumeration.value ==> v.Some?
  {
  }

  /** The compiler finds a type for exactly the supported schemas and rejects all others. */
  lemma {:induction false} TypeExprExactly(s: Schema, inlineName: string)
    ensures TypeExpr(s, inlineName).Some? <==> Supported(s)
    decreases s, 1
  {
    hide SingleType, SupportedAs, IsOnlyName, NonNull;
    if s.ref.None? {
      match s.types
      case Several(names) =>
        OnlyNameIs(names);
        forall name ensures SingleType(s, name, inlineName).Some? <==> SupportedAs(s, name) {
          SingleExactly(s, name, inlineName);
        }
      case One(name) => SingleExactly(s, name, inlineName);
      case NoType => if s.constant.None? && s.enumeration.Some? { EnumExactly(s, inlineName); }
    }
  }
}
