/** The values umongo's change tracker handles (umongo/data_proxy.py,
    umongo/data_objects.py, umongo/indexes.py): plain BSON-like values,
    marshmallow's `missing`, Python's None, and nested data objects (a
    List, a Dict or an embedded document), each represented by its own
    modified flag; and the exceptions these modules raise. */
module MongoValues {
  /** A plain Python value: a string, an integer, or a list/tuple of values. */
  datatype PyVal = Str(s: string) | Int(n: int) | Items(items: seq<PyVal>)

  /** A value stored in a proxy or in a List/Dict. */
  datatype Value =
    | Missing                    // marshmallow.missing
    | Null                       // None
    | Plain(v: PyVal)
    | Object(modified: bool)     // a BaseDataObject, by its is_modified()

  /** The exceptions raised; a message or the offending key. */
  datatype Error =
    | KeyError(key: string)
    | IndexError(msg: string)
    | ValueError(msg: string)
    | ValidationError(messages: seq<string>)
    | AttributeError(msg: string)
    | UnknownFieldInDBError(msg: string)
    | AssertionError(msg: string)
    | TypeError(msg: string)

  datatype Result<T> = Ok(value: T) | Err(error: Error)

  /** `obj.clear_modified()` on a data object, seen through its flag. */
  function Cleared(v: Value): (c: Value)
    ensures v.Object? <==> c.Object?
    ensures c.Object? ==> !c.modified
    ensures !v.Object? ==> c == v
  {
    if v.Object? then Object(false) else v
  }
}
