# BLJSON in Dafny

BLJSON is an Objective-C wrapper that reads values out of an already-decoded JSON
object safely. An instance holds one JSON object. `v[key]` returns a new instance
for the key's value, or nil when `v` does not wrap a dictionary. Objective-C
answers nil, 0 or NO to any message sent to nil, so a chain such as
`BLJSONMake(json)[@"data"][@"user"][@"userName"].string` never crashes. NSNull is
treated like nil. Strings and numbers are read as each other when the caller asks
for the other type.

The model is pure: the library is a set of read-only properties derived from one
immutable object, and lookup builds a new instance.

- `wrappers.dfy`, module `Wrappers`: `Option`. It stands for a nullable Objective-C
  result, with `None` as nil.
- `json_value.dfy`, module `JsonValue`: the JSON value (`Json`: Null, Number, String,
  Array, Object). It also holds the Foundation objects a decoder produces (`Host`:
  nil, NSNull, NSNumber, a boolean NSNumber, NSString, NSArray, NSDictionary). The
  classification `FromHost` collapses nil and NSNull into Null.
- `decimal.dfy`, module `Decimal`: the text/number conversions. There is one
  documented prefix rule for reading a number: an optional `+` or `-`, then one or
  more digits, and the rest of the string is ignored. A number is rendered in
  canonical decimal. A string reads as YES when it starts with `T`, `t`, `Y` or `y`,
  or when its numeric prefix is non-zero.
- `cintegers.dfy`, module `CIntegers`: the C types `int` and `int64_t`/NSInteger.
  It also holds the two's-complement narrowing that converting a number to those
  types performs.
- `bljson.dfy`, module `BLJSON`: the instance (`Instance`) and a possibly-nil
  pointer to one (`Ref`). Every property and `objectForKeyedSubscript:` is a
  function on `Ref`, so messages sent to nil are modelled. `Chain` is a sequence
  of lookups. The properties are named `AsDictionary`, `AsArray`, `AsString` and
  `AsNumber` to keep them apart from the `Json` constructors. The same file holds
  the module `BLJSONExamples` with worked examples.

Numbers are mathematical integers. `integerValue`, `intValue` and `longLongValue`
take the `number` property and narrow it to 64, 32 and 64 bits by wrap-around.
NSInteger is taken to be 64 bits wide, as on LP64 Apple platforms.

Choices the header's comments settle:
- A lookup on a non-dictionary returns nil, not an instance wrapping null as
  in SwiftyJSON, which the header names as its inspiration. `NullLikeChainDefaults`
  shows that the two cannot be told apart by any property or by further lookups.
- A lookup of a missing key in a dictionary returns an instance wrapping Null,
  because the key's value is nil.

A choice of the model's own: JSON booleans are NSNumber objects in Foundation, so
they are Number 1 or 0 here, not a separate variant. So `string` renders `true`
as "1".

## Model

| member | source | states |
|---|---|---|
| JsonValue.FromHost | BLJSON/Sources/BLJSON.h:37-39 | nil and NSNull, and only they, become Null; numbers, booleans (as 1/0) and strings keep their value; an array keeps its length and each element is the classification of the raw element; a dictionary keeps its keys and each value is the classification of the raw value |
| JsonValue.FromToHost | BLJSON/Sources/BLJSON.h:47-50 | every JSON value is the classification of the Foundation object a decoder gives for it |
| JsonValue.ToFromHost | BLJSON/Sources/BLJSON.h:37-39 | decoding the classification of an object gives its canonical form: nil read as NSNull and booleans as 1 or 0, at every depth |
| JsonValue.FromHostMerges | BLJSON/Sources/BLJSON.h:37-39 | two Foundation objects classify to the same JSON value if and only if their canonical forms are equal, so nil/NSNull and boolean/number are the only merges |
| BLJSON.Make | BLJSON/Sources/BLJSON.h:102-107 | construction never yields nil; the instance wraps Null exactly when the object given is nil or NSNull |
| BLJSON.AsDictionary | BLJSON/Sources/BLJSON.h:52-55 | present exactly when the receiver wraps a dictionary, even an empty one, and then it is that dictionary; nil for every other object and for a nil receiver |
| BLJSON.AsArray | BLJSON/Sources/BLJSON.h:57-60 | present exactly when the receiver wraps an array, even an empty one, and then it is that array; nil for Null, dictionaries, scalars and a nil receiver |
| BLJSON.Subscript | BLJSON/Sources/BLJSON.h:109-115 | nil exactly when `dictionary` is nil; otherwise a new instance whose JSON object is the key's value in that dictionary, or Null when the key is missing |
| BLJSON.AsString | BLJSON/Sources/BLJSON.h:62-65 | present exactly for a string or a number; a string unchanged; a number as canonical decimal text that parses back to that number |
| BLJSON.AsNumber | BLJSON/Sources/BLJSON.h:67-70 | present exactly for a number or a string with a numeric prefix; a number unchanged, a string as the value of its prefix |
| BLJSON.IntegerValue | BLJSON/Sources/BLJSON.h:72-75 | `number` narrowed to 64 bits when present, 0 when `number` is nil |
| BLJSON.IntValue | BLJSON/Sources/BLJSON.h:87-90 | `number` narrowed to 32 bits when present, 0 when `number` is nil |
| BLJSON.LongLongValue | BLJSON/Sources/BLJSON.h:97-100 | `number` narrowed to 64 bits when present, 0 when `number` is nil |
| BLJSON.BoolValue | BLJSON/Sources/BLJSON.h:92-95 | NO for nil and for anything but a number or string; a number is YES when non-zero; a string is read by the boolean rule |
| BLJSON.Chain | BLJSON/Sources/BLJSON.h:35-37 | a chain of lookups from nil is nil, and a non-empty chain that yields an instance started at a dictionary |
| BLJSON.ChainAppend | BLJSON/Sources/BLJSON.h:109-110 | chaining is compositional: looking up `first + second` is looking up `second` on the result of `first` |
| BLJSON.ChainStopsAtNonDictionary | BLJSON/Sources/BLJSON.h:109-115 | once a link of a chain is not a dictionary, the whole chain is nil whatever keys follow |
| BLJSON.ChainReachesValue | BLJSON/Sources/BLJSON.h:109-115 | a chain along keys present in nested dictionaries ends at an instance wrapping exactly the nested value |
| BLJSON.ChainMissesValue | BLJSON/Sources/BLJSON.h:109-115 | a chain along a path the nested dictionaries do not hold ends null-like (nil, or a wrapped Null), never at another value |
| BLJSON.MakeSubscript | BLJSON/Sources/BLJSON.h:107-115 | on an instance made from a Foundation dictionary, a lookup gives the instance made from the key's raw value (from nil when missing), so classifying at construction agrees with wrapping each child at lookup |
| BLJSON.NullLikeChainDefaults | BLJSON/Sources/BLJSON.h:37-39 | from nil or a wrapped nil/NSNull, every chain stays null-like and every projection is nil, 0 or NO |
| BLJSON.NumberStringCoercion | BLJSON/Sources/BLJSON.h:39-42 | a number's `string` reads back through `number` to the same number, and the two forms agree on integerValue, intValue, longLongValue and boolValue |
| BLJSON.StringNumberCoercion | BLJSON/Sources/BLJSON.h:39-42 | a canonical decimal string read through `number` and back through `string` is unchanged |
| Decimal.ParseInteger | BLJSON/Sources/BLJSON.h:41 | a string has a number exactly when it starts with a digit or with a sign followed by a digit; the sign decides the sign of the result; its value is fixed by ParseFormatted, ParseSigned and ParseLeadingZero |
| Decimal.ParseSigned | BLJSON/Sources/BLJSON.h:41 | a '+' before the digits reads the same as the digits alone, and a '-' reads as their negation |
| Decimal.ParseLeadingZero | BLJSON/Sources/BLJSON.h:41 | a leading zero before a digit does not change the number read ("0042" reads as 42) |
| Decimal.FormatInteger | BLJSON/Sources/BLJSON.h:39-42 | the rendering of a number is canonical decimal text and starts with '-' exactly for negatives |
| Decimal.ParseFormatted | BLJSON/Sources/BLJSON.h:39-42 | parsing a number's rendering, with any non-digit text after it, gives the number back |
| Decimal.FormatParsed | BLJSON/Sources/BLJSON.h:39-42 | rendering the number read from a canonical string gives the string back |
| Decimal.ParseBool | BLJSON/Sources/BLJSON.h:92-95 | a leading T/t/Y/y reads as YES; a string with a numeric prefix reads as YES exactly when the prefix is non-zero; the empty string, and a string with neither, read as NO |
| Decimal.ParseBoolFormatted | BLJSON/Sources/BLJSON.h:92-95 | a number's rendering reads as YES exactly when the number is non-zero |
| CIntegers.ToInt32 | BLJSON/Sources/BLJSON.h:87-90 | the result is congruent to the input modulo 2^32 and equals it when it fits in 32 bits |
| CIntegers.ToInt64 | BLJSON/Sources/BLJSON.h:97-100 | the result is congruent to the input modulo 2^64 and equals it when it fits in 64 bits |
| BLJSONExamples.UserDocumentExample | BLJSON/Sources/BLJSON.h:35-37 | on `{"data":{"user":{"userName":"42"}}}` the path data/user/userName gives "42" and 42; data/missing/userName gives nil, 0 and NO |
| BLJSONExamples.NumericStringExamples | BLJSON/Sources/BLJSON.h:39-42 | "42" and "42abc" read as 42; the number 42 reads as "42" |
| BLJSONExamples.TextStringExamples | BLJSON/Sources/BLJSON.h:67-75 | "abc" reads as nil, 0 and NO; "true" reads as YES |
| BLJSONExamples.ContainerExamples | BLJSON/Sources/BLJSON.h:52-60 | an empty dictionary or array is present; the other container projection and NSNull give nil |

## Left out

- `doubleValue` and `floatValue` (BLJSON/Sources/BLJSON.h:77-85): floating point is not modelled. Numbers are integers, so a JSON number with a fraction is not represented.
- Decimal.ParseInteger: it stands in for `-[NSString integerValue]`, whose code is not visible. Foundation also skips leading whitespace and saturates on overflow. This rule does neither and reads numbers of any size.
- Decimal.ParseBool: it stands in for `-[NSString boolValue]`. Foundation's exact treatment of whitespace, signs and leading zeros before a letter is not modelled.
- JsonValue.FromHost: besides nil and NSNull, it merges a boolean NSNumber with the number 1 or 0, so `JSONObject`, `dictionary` and `array` do not keep the boolean-versus-number distinction; FromHostMerges states exactly what is merged.
- Foundation objects outside the JSON types: the header requires a valid JSON object or nil, so the `Host` type is closed and has no variant for other classes.
- Object identity, the `copy` attribute of the properties, and the JSONObject of an instance made from NSNull (nil or NSNull): values are Dafny values, so a returned container can never alias the instance. The model keeps one Null for both.
- Builds where NSInteger is 32 bits wide: `integerValue` is modelled as 64 bits.
- The implementation file is not part of this model. Behaviour beyond the header's comments is not asserted. Decoding JSON text, networking and logging are outside the library.
