/**
 * The JSON values a BLJSON instance wraps, and the Foundation objects they
 * come from.
 *
 * A JSON decoder in Foundation hands back a tree of NSDictionary, NSArray,
 * NSString and NSNumber objects, with NSNull standing for JSON null inside
 * containers; JSON true and false are NSNumber objects holding 1 and 0. A
 * caller may also pass nil. The library treats NSNull exactly like nil, so the
 * model classifies every such object into a closed JSON value with one Null
 * variant for both.
 */
module JsonValue {

  /** A JSON value as the library sees it. Numbers are mathematical integers. */
  datatype Json =
    | Null
    | Number(n: int)
    | String(s: string)
    | Array(items: seq<Json>)
    | Object(fields: map<string, Json>)

  /** The Foundation objects a JSON decoder produces, plus nil. */
  datatype Host =
    | Nil
    | NSNull
    | NSNumber(value: int)
    | NSBoolean(flag: bool)
    | NSString(text: string)
    | NSArray(elements: seq<Host>)
    | NSDictionary(entries: map<string, Host>)

  /**
   * Classifies a Foundation object into a JSON value: nil and NSNull both
   * become Null, a boolean becomes the number 1 or 0, and containers are
   * classified element by element.
   */
  function FromHost(h: Host): (j: Json)
    ensures j.Null? <==> (h.Nil? || h.NSNull?)
    ensures h.NSNumber? ==> j == Number(h.value)
    ensures h.NSBoolean? ==> j == Number(if h.flag then 1 else 0)
    ensures h.NSString? ==> j == String(h.text)
    ensures h.NSArray? <==> j.Array?
    ensures h.NSArray? ==> |j.items| == |h.elements|
    ensures h.NSArray? ==> forall i | 0 <= i < |h.elements| :: j.items[i] == FromHost(h.elements[i])
    ensures h.NSDictionary? <==> j.Object?
    ensures h.NSDictionary? ==> j.fields.Keys == h.entries.Keys
    ensures h.NSDictionary? ==> forall k | k in h.entries :: j.fields[k] == FromHost(h.entries[k])
  {
    match h
    case Nil => Null
    case NSNull => Null
    case NSNumber(v) => Number(v)
    case NSBoolean(b) => Number(if b then 1 else 0)
    case NSString(t) => String(t)
    case NSArray(es) => Array(seq(|es|, i requires 0 <= i < |es| => FromHost(es[i])))
    case NSDictionary(m) => Object(map k | k in m :: FromHost(m[k]))
  }

  /**
   * The Foundation object a decoder produces for a JSON value, with NSNull
   * for Null as inside a decoded container.
   */
  function ToHost(j: Json): (h: Host)
    ensures !h.Nil? && !h.NSBoolean?
  {
    match j
    case Null => NSNull
    case Number(n) => NSNumber(n)
    case String(s) => NSString(s)
    case Array(xs) => NSArray(seq(|xs|, i requires 0 <= i < |xs| => ToHost(xs[i])))
    case Object(m) => NSDictionary(map k | k in m :: ToHost(m[k]))
  }

  /** Classification loses nothing of a JSON value: every value is the classification of its decoded object. */
  lemma {:induction false} FromToHost(j: Json)
    ensures FromHost(ToHost(j)) == j
  {
    match j
    case Null =>
    case Number(_) =>
    case String(_) =>
    case Array(xs) =>
      forall i | 0 <= i < |xs|
        ensures FromHost(ToHost(xs[i])) == xs[i]
      {
        FromToHost(xs[i]);
      }
    case Object(m) =>
      forall k | k in m
        ensures FromHost(ToHost(m[k])) == m[k]
      {
        FromToHost(m[k]);
      }
  }

  /**
   * The one Foundation object each class of merged objects is classified
   * like: nil becomes NSNull and a boolean becomes the NSNumber 1 or 0, at
   * every depth.
   */
  function Canon(h: Host): Host {
    match h
    case Nil => NSNull
    case NSNull => NSNull
    case NSNumber(v) => NSNumber(v)
    case NSBoolean(b) => NSNumber(if b then 1 else 0)
    case NSString(t) => NSString(t)
    case NSArray(es) => NSArray(seq(|es|, i requires 0 <= i < |es| => Canon(es[i])))
    case NSDictionary(m) => NSDictionary(map k | k in m :: Canon(m[k]))
  }

  /** Decoding the classification of an object gives its canonical form. */
  lemma {:induction false} ToFromHost(h: Host)
    ensures ToHost(FromHost(h)) == Canon(h)
  {
    match h
    case Nil =>
    case NSNull =>
    case NSNumber(_) =>
    case NSBoolean(_) =>
    case NSString(_) =>
    case NSArray(es) =>
      forall i | 0 <= i < |es|
        ensures ToHost(FromHost(es[i])) == Canon(es[i])
      {
        ToFromHost(es[i]);
      }
    case NSDictionary(m) =>
      forall k | k in m
        ensures ToHost(FromHost(m[k])) == Canon(m[k])
      {
        ToFromHost(m[k]);
      }
  }

  /**
   * Exactly what classification merges: two Foundation objects give the same
   * JSON value if and only if they agree once nil is read as NSNull and
   * booleans as the numbers 1 and 0.
   */
  lemma FromHostMerges(a: Host, b: Host)
    ensures FromHost(a) == FromHost(b) <==> Canon(a) == Canon(b)
  {
    ToFromHost(a);
    ToFromHost(b);
    if Canon(a) == Canon(b) {
      FromToHost(FromHost(a));
      FromToHost(FromHost(b));
    }
  }
}
