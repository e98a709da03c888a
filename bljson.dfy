/**
 * BLJSON: safe navigation and type coercion over a decoded JSON object.
 *
 * An instance wraps one JSON value and never changes. Looking up a key gives
 * a new instance, or nil when the receiver does not wrap a dictionary; since
 * Objective-C answers nil, 0 or NO to any message sent to nil, a chain of
 * lookups such as v["data"]["user"]["userName"].string never fails. Strings
 * and numbers are read as each other where the caller asks for the other.
 */
module BLJSON {
  import opened Wrappers
  import J = JsonValue
  import D = Decimal
  import C = CIntegers

  /** A BLJSON instance: the JSON object it was created with. */
  datatype Instance = Instance(JSONObject: J.Json)

  /** A `BLJSON *` as Objective-C code holds it: nil (None) or an instance. */
  type Ref = Option<Instance>

  /** `BLJSONMake(obj)` and `[[BLJSON alloc] initWithJSONObject:obj]`: never nil. */
  function Make(obj: J.Host): (b: Instance)
    ensures b.JSONObject.Null? <==> (obj.Nil? || obj.NSNull?)
    ensures b.JSONObject == J.FromHost(obj)
  {
    Instance(J.FromHost(obj))
  }

  /** The `dictionary` property: the wrapped dictionary, nil when the object is not one. */
  function AsDictionary(r: Ref): (d: Option<map<string, J.Json>>)
    ensures d.Some? <==> r.Some? && r.value.JSONObject.Object?
    ensures d.Some? ==> d.value == r.value.JSONObject.fields
  {
    match r
    case Some(Instance(Object(m))) => Some(m)
    case _ => None
  }

  /** The `array` property: the wrapped array, nil when the object is not one. */
  function AsArray(r: Ref): (a: Option<seq<J.Json>>)
    ensures a.Some? <==> r.Some? && r.value.JSONObject.Array?
    ensures a.Some? ==> a.value == r.value.JSONObject.items
  {
    match r
    case Some(Instance(Array(xs))) => Some(xs)
    case _ => None
  }

  /**
   * `v[key]` (objectForKeyedSubscript:): a new instance wrapping the key's
   * value (Null when the key is missing), nil when v is nil or does not wrap
   * a dictionary.
   */
  function Subscript(r: Ref, key: string): (s: Ref)
    ensures s.None? <==> AsDictionary(r).None?
    ensures AsDictionary(r).Some? && key in AsDictionary(r).value ==> s == Some(Instance(AsDictionary(r).value[key]))
    ensures AsDictionary(r).Some? && key !in AsDictionary(r).value ==> s == Some(Instance(J.Null))
  {
    match r
    case Some(Instance(Object(m))) => Some(Instance(if key in m then m[key] else J.Null))
    case _ => None
  }

  /** The `string` property: a string as it is, a number in decimal, nil for anything else. */
  function AsString(r: Ref): (s: Option<string>)
    ensures s.Some? <==> r.Some? && (r.value.JSONObject.String? || r.value.JSONObject.Number?)
    ensures r.Some? && r.value.JSONObject.String? ==> s == Some(r.value.JSONObject.s)
    ensures r.Some? && r.value.JSONObject.Number? ==>
              s.Some? && D.IsCanonical(s.value) && D.ParseInteger(s.value) == Some(r.value.JSONObject.n)
  {
    match r
    case Some(Instance(String(t))) => Some(t)
    case Some(Instance(Number(n))) =>
      D.ParseFormatted(n, []);
      assert D.FormatInteger(n) + [] == D.FormatInteger(n);
      Some(D.FormatInteger(n))
    case _ => None
  }

  /**
   * The `number` property: a number as it is, the numeric prefix of a string,
   * nil for a string without one and for anything else.
   */
  function AsNumber(r: Ref): (v: Option<int>)
    ensures v.Some? <==> r.Some? && (r.value.JSONObject.Number? ||
                                     (r.value.JSONObject.String? && D.HasNumericPrefix(r.value.JSONObject.s)))
    ensures r.Some? && r.value.JSONObject.Number? ==> v == Some(r.value.JSONObject.n)
    ensures r.Some? && r.value.JSONObject.String? ==> v == D.ParseInteger(r.value.JSONObject.s)
  {
    match r
    case Some(Instance(Number(n))) => Some(n)
    case Some(Instance(String(t))) => D.ParseInteger(t)
    case _ => None
  }

  /** The `integerValue` property (NSInteger, 64 bits): `number` narrowed, 0 when `number` is nil. */
  function IntegerValue(r: Ref): (v: C.int64)
    ensures AsNumber(r).None? ==> v == 0
    ensures AsNumber(r).Some? ==> v == C.ToInt64(AsNumber(r).value)
  {
    match AsNumber(r)
    case Some(n) => C.ToInt64(n)
    case None => 0
  }

  /** The `intValue` property (int, 32 bits): `number` narrowed, 0 when `number` is nil. */
  function IntValue(r: Ref): (v: C.int32)
    ensures AsNumber(r).None? ==> v == 0
    ensures AsNumber(r).Some? ==> v == C.ToInt32(AsNumber(r).value)
  {
    match AsNumber(r)
    case Some(n) => C.ToInt32(n)
    case None => 0
  }

  /** The `longLongValue` property (int64_t): `number` narrowed, 0 when `number` is nil. */
  function LongLongValue(r: Ref): (v: C.int64)
    ensures AsNumber(r).None? ==> v == 0
    ensures AsNumber(r).Some? ==> v == C.ToInt64(AsNumber(r).value)
  {
    match AsNumber(r)
    case Some(n) => C.ToInt64(n)
    case None => 0
  }

  /**
   * The `boolValue` property: a number is YES when non-zero, a string is read
   * by the boolean rule of Decimal.ParseBool, and anything else is NO.
   */
  function BoolValue(r: Ref): (b: bool)
    ensures !(r.Some? && (r.value.JSONObject.Number? || r.value.JSONObject.String?)) ==> !b
    ensures r.Some? && r.value.JSONObject.Number? ==> b == (r.value.JSONObject.n != 0)
    ensures r.Some? && r.value.JSONObject.String? ==> b == D.ParseBool(r.value.JSONObject.s)
  {
    match r
    case Some(Instance(Number(n))) => n != 0
    case Some(Instance(String(t))) => D.ParseBool(t)
    case _ => false
  }

  /** `v[k1][k2]...[kn]`: subscripts applied in turn, each to the previous result. */
  function Chain(r: Ref, keys: seq<string>): (c: Ref)
    ensures r.None? ==> c.None?
    ensures |keys| > 0 && c.Some? ==> AsDictionary(r).Some?
    decreases |keys|
  {
    if keys == [] then r else Chain(Subscript(r, keys[0]), keys[1..])
  }

  /** The value found by following keys through nested dictionaries, if each link holds the next key. */
  function At(j: J.Json, keys: seq<string>): Option<J.Json>
    decreases |keys|
  {
    if keys == [] then Some(j)
    else match j
      case Object(m) => if keys[0] in m then At(m[keys[0]], keys[1..]) else None
      case _ => None
  }

  /** True of nil and of an instance that wraps Null (nil or NSNull). */
  predicate NullLike(r: Ref) {
    r.None? || r.value.JSONObject.Null?
  }

  // ----- Lemmas -----

  /** Looking up keys one chain after another is looking them all up in one chain. */
  lemma {:induction false} ChainAppend(r: Ref, first: seq<string>, second: seq<string>)
    ensures Chain(r, first + second) == Chain(Chain(r, first), second)
    decreases |first|
  {
    if first != [] {
      assert (first + second)[1..] == first[1..] + second;
      ChainAppend(Subscript(r, first[0]), first[1..], second);
    } else {
      assert first + second == second;
    }
  }

  /**
   * Once a link of a chain lands on anything but a dictionary, the rest of
   * the chain is nil, whatever keys follow.
   */
  lemma ChainStopsAtNonDictionary(r: Ref, keys: seq<string>, i: nat)
    requires i < |keys|
    requires AsDictionary(Chain(r, keys[..i])).None?
    ensures Chain(r, keys) == None
  {
    assert keys == keys[..i] + keys[i..];
    ChainAppend(r, keys[..i], keys[i..]);
    assert keys[i..] == [keys[i]] + keys[i + 1..];
    ChainAppend(Chain(r, keys[..i]), [keys[i]], keys[i + 1..]);
  }

  /** A chain through dictionaries that hold each key ends at an instance wrapping exactly the nested value. */
  lemma {:induction false} ChainReachesValue(j: J.Json, keys: seq<string>)
    requires At(j, keys).Some?
    ensures Chain(Some(Instance(j)), keys) == Some(Instance(At(j, keys).value))
    decreases |keys|
  {
    if keys != [] {
      ChainReachesValue(j.fields[keys[0]], keys[1..]);
    }
  }

  /**
   * A chain along a path that the nested dictionaries do not hold ends
   * null-like: nil, or an instance wrapping Null for a last key that is missing.
   */
  lemma {:induction false} ChainMissesValue(j: J.Json, keys: seq<string>)
    requires At(j, keys).None?
    ensures NullLike(Chain(Some(Instance(j)), keys))
    decreases |keys|
  {
    var r := Some(Instance(j));
    assert Chain(r, keys) == Chain(Subscript(r, keys[0]), keys[1..]);
    if j.Object? && keys[0] in j.fields {
      ChainMissesValue(j.fields[keys[0]], keys[1..]);
    } else {
      NullLikeChainDefaults(Subscript(r, keys[0]), keys[1..]);
    }
  }

  /**
   * Looking a key up in an instance made from a Foundation dictionary gives
   * the instance made from that key's raw value (from nil when the key is
   * missing): classifying the whole tree at construction agrees with wrapping
   * each child as it is looked up.
   */
  lemma MakeSubscript(h: J.Host, key: string)
    requires h.NSDictionary?
    ensures Subscript(Some(Make(h)), key) == Some(Make(if key in h.entries then h.entries[key] else J.Nil))
  {
  }

  /**
   * Nil, a wrapped nil and a wrapped NSNull cannot be told apart, and neither
   * can anything a chain of lookups reaches from them: every projection is nil,
   * 0 or NO.
   */
  lemma {:induction false} NullLikeChainDefaults(r: Ref, keys: seq<string>)
    requires NullLike(r)
    ensures NullLike(Chain(r, keys))
    ensures AsDictionary(Chain(r, keys)) == None && AsArray(Chain(r, keys)) == None
    ensures AsString(Chain(r, keys)) == None && AsNumber(Chain(r, keys)) == None
    ensures IntegerValue(Chain(r, keys)) == 0 && IntValue(Chain(r, keys)) == 0
    ensures LongLongValue(Chain(r, keys)) == 0 && !BoolValue(Chain(r, keys))
  {
    if keys != [] {
      assert Chain(r, keys) == Chain(None, keys[1..]);
    }
  }

  /**
   * A number read as a string and back as a number is unchanged, and the two
   * forms agree on every scalar projection: a backend may send either.
   */
  lemma NumberStringCoercion(n: int)
    ensures AsString(Some(Instance(J.Number(n)))).Some?
    ensures var t := AsString(Some(Instance(J.Number(n)))).value;
            var asText := Some(Instance(J.String(t)));
            var asNumber := Some(Instance(J.Number(n)));
            && AsNumber(asText) == Some(n)
            && IntegerValue(asText) == IntegerValue(asNumber)
            && IntValue(asText) == IntValue(asNumber)
            && LongLongValue(asText) == LongLongValue(asNumber)
            && BoolValue(asText) == BoolValue(asNumber)
  {
    D.ParseBoolFormatted(n);
  }

  /** A string in canonical decimal form read as a number and back as a string is unchanged. */
  lemma StringNumberCoercion(t: string)
    requires D.IsCanonical(t)
    ensures AsNumber(Some(Instance(J.String(t)))).Some?
    ensures AsString(Some(Instance(J.Number(AsNumber(Some(Instance(J.String(t)))).value)))) == Some(t)
  {
    D.FormatParsed(t);
  }
}

/** Worked examples of the navigation and coercion rules on concrete documents. */
module BLJSONExamples {
  import opened Wrappers
  import J = JsonValue
  import D = Decimal
  import opened BLJSON

  /** `{"data": {"user": {"userName": "42"}}}` as a decoder hands it over. */
  function UserDocument(): J.Host {
    J.NSDictionary(map["data" := J.NSDictionary(map["user" := J.NSDictionary(map["userName" := J.NSString("42")])])])
  }

  /** The string "42" reads as the number 42, also with trailing text; the number 42 reads as "42". */
  lemma NumericStringExamples()
    ensures AsNumber(Some(Make(J.NSString("42")))) == Some(42)
    ensures IntegerValue(Some(Make(J.NSString("42")))) == 42
    ensures AsNumber(Some(Make(J.NSString("42abc")))) == Some(42)
    ensures AsString(Some(Make(J.NSNumber(42)))) == Some("42")
  {
    assert D.FormatInteger(42) == "42";
    D.ParseFormatted(42, []);
    assert "42" + [] == "42";
    D.ParseFormatted(42, "abc");
    assert "42" + "abc" == "42abc";
  }

  /** "abc" has no number: it reads as nil, 0 and NO; "true" reads as YES. */
  lemma TextStringExamples()
    ensures AsNumber(Some(Make(J.NSString("abc")))) == None
    ensures IntegerValue(Some(Make(J.NSString("abc")))) == 0
    ensures !BoolValue(Some(Make(J.NSString("abc"))))
    ensures BoolValue(Some(Make(J.NSString("true"))))
  {
  }

  /** An empty dictionary or array is present; a wrong type is absent. */
  lemma ContainerExamples()
    ensures AsDictionary(Some(Make(J.NSDictionary(map[])))) == Some(map[])
    ensures AsArray(Some(Make(J.NSDictionary(map[])))) == None
    ensures AsArray(Some(Make(J.NSArray([])))) == Some([])
    ensures AsDictionary(Some(Make(J.NSArray([])))) == None
    ensures AsDictionary(Some(Make(J.NSNull))) == None && AsArray(Some(Make(J.NSNull))) == None
  {
  }

  /** Walking the user document along a present path and along a missing one. */
  lemma UserDocumentExample()
    ensures AsString(Chain(Some(Make(UserDocument())), ["data", "user", "userName"])) == Some("42")
    ensures IntegerValue(Chain(Some(Make(UserDocument())), ["data", "user", "userName"])) == 42
    ensures Chain(Some(Make(UserDocument())), ["data", "missing", "userName"]) == None
    ensures AsString(Chain(Some(Make(UserDocument())), ["data", "missing", "userName"])) == None
    ensures IntegerValue(Chain(Some(Make(UserDocument())), ["data", "missing", "userName"])) == 0
    ensures !BoolValue(Chain(Some(Make(UserDocument())), ["data", "missing", "userName"]))
  {
    D.ParseFormatted(42, []);
    assert D.FormatInteger(42) == "42";
  }
}
