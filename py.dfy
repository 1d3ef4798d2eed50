/** Python data as the helpers see it: scalars, lists and dicts, where a list
    or a dict may be wrapped by the python-box library (a BoxList or a Box),
    together with the exceptions the helpers raise or let through. */
module Py {

  /** The exceptions the modelled code raises. */
  datatype Error =
    | KeyError(key: string)
    | TypeError
    | RuntimeError(message: string)
    | ClientError  // raised by a remote service's client library

  /** A call that either returns a value or raises. */
  datatype Result<T> = Ok(value: T) | Err(error: Error)

  datatype Option<T> = None | Some(value: T)

  /** A Python value. `boxed` marks a BoxList (for a list) or a Box (for a
      dict); both are subclasses of list and dict in Python. */
  datatype Value =
    | Null
    | Bool(b: bool)
    | Int(i: int)
    | Str(s: string)
    | List(items: seq<Value>, boxed: bool)
    | Dict(fields: map<string, Value>, boxed: bool)
  {
    predicate IsComposite() { List? || Dict? }

    /** `isinstance(v, Box) or isinstance(v, BoxList)` */
    predicate IsBoxed() { IsComposite() && boxed }
  }

  /** Python truthiness: None, False, 0, '' and empty containers are falsy. */
  predicate Truthy(v: Value) {
    match v
    case Null => false
    case Bool(b) => b
    case Int(i) => i != 0
    case Str(s) => s != ""
    case List(items, _) => |items| > 0
    case Dict(fields, _) => |fields| > 0
  }

  predicate StartsWith(s: string, prefix: string) {
    |prefix| <= |s| && s[..|prefix|] == prefix
  }

  predicate EndsWith(s: string, suffix: string) {
    |suffix| <= |s| && s[|s| - |suffix|..] == suffix
  }

  /** The same data with every Box and BoxList turned into a plain dict or
      list, at every depth (`Box.to_dict()`, `BoxList.to_list()`). */
  function Plain(v: Value): (r: Value)
    ensures v.IsComposite() ==> r.IsComposite() && !r.boxed
    ensures v.List? <==> r.List?
    ensures v.Dict? <==> r.Dict?
    ensures v.List? ==> |r.items| == |v.items|
    ensures v.Dict? ==> r.fields.Keys == v.fields.Keys
    ensures !v.IsComposite() ==> r == v
  {
    match v
    case List(items, _) => List(seq(|items|, i requires 0 <= i < |items| => Plain(items[i])), false)
    case Dict(fields, _) => Dict(map k | k in fields :: Plain(fields[k]), false)
    case _ => v
  }

  /** The same data with every dict and list wrapped as a Box or a BoxList,
      at every depth (`Box(d)`, `BoxList(l)`). */
  function BoxUp(v: Value): (r: Value)
    ensures v.IsComposite() ==> r.IsComposite() && r.boxed
    ensures v.List? <==> r.List?
    ensures v.Dict? <==> r.Dict?
    ensures v.List? ==> |r.items| == |v.items|
    ensures v.Dict? ==> r.fields.Keys == v.fields.Keys
    ensures !v.IsComposite() ==> r == v
  {
    match v
    case List(items, _) => List(seq(|items|, i requires 0 <= i < |items| => BoxUp(items[i])), true)
    case Dict(fields, _) => Dict(map k | k in fields :: BoxUp(fields[k]), true)
    case _ => v
  }

  /** Python `==`: a Box equals the dict with the same items, a BoxList the
      list with the same items. */
  predicate Equal(a: Value, b: Value) {
    Plain(a) == Plain(b)
  }

  /** Stripping the box tags twice is stripping them once. */
  lemma {:induction false} PlainIdempotent(v: Value)
    ensures Plain(Plain(v)) == Plain(v)
  {
    match v
    case List(items, _) =>
      forall i | 0 <= i < |items|
        ensures Plain(Plain(items[i])) == Plain(items[i])
      {
        PlainIdempotent(items[i]);
      }
    case Dict(fields, _) =>
      forall k | k in fields
        ensures Plain(Plain(fields[k])) == Plain(fields[k])
      {
        PlainIdempotent(fields[k]);
      }
    case _ =>
  }

  /** Wrapping in boxes does not change what a value compares equal to. */
  lemma {:induction false} PlainBoxUp(v: Value)
    ensures Plain(BoxUp(v)) == Plain(v)
  {
    match v
    case List(items, _) =>
      forall i | 0 <= i < |items|
        ensures Plain(BoxUp(items[i])) == Plain(items[i])
      {
        PlainBoxUp(items[i]);
      }
    case Dict(fields, _) =>
      forall k | k in fields
        ensures Plain(BoxUp(fields[k])) == Plain(fields[k])
      {
        PlainBoxUp(fields[k]);
      }
    case _ =>
  }

  /** A value equals a string exactly when it is that string. */
  lemma EqualStr(v: Value, s: string)
    ensures Equal(v, Str(s)) <==> v == Str(s)
  {
  }
}
