/** umongo/indexes.py: turning the index declarations of a document's
    Meta into pymongo IndexModels. A key is given as a string with an
    optional direction prefix, or as a (key, direction) pair. */
module Indexes {
  import opened MongoValues

  // pymongo's direction constants
  const ASCENDING: PyVal := Int(1)
  const DESCENDING: PyVal := Int(-1)
  const TEXT: PyVal := Str("text")
  const HASHED: PyVal := Str("hashed")

  /** One (key, direction) pair of an index. */
  datatype KeyPair = KeyPair(key: PyVal, direction: PyVal)

  /** An IndexModel: its keys and every other entry of its document
      (`name`, `unique`, ...); "key" is not one of the options. */
  datatype IndexModel = IndexModel(keys: seq<KeyPair>, options: map<string, PyVal>)

  /** What `parse_index` may be given. */
  datatype IndexSpec =
    | Value(v: PyVal)                         // a str, or a list/tuple of keys
    | Spec(entries: map<string, PyVal>)       // a dict with a "key" entry
    | Model(m: IndexModel)                    // an IndexModel
    | Unsupported                             // anything else

  /** The direction a prefix character stands for. */
  function PrefixDirection(c: char): (d: PyVal)
    requires c in "+-$#"
  {
    if c == '+' then ASCENDING
    else if c == '-' then DESCENDING
    else if c == '$' then TEXT
    else HASHED
  }

  /** `explicit_key(index)`. */
  function ExplicitKey(index: PyVal): (r: Result<KeyPair>)
    ensures index.Items? && |index.items| == 2 ==> r == Ok(KeyPair(index.items[0], index.items[1]))
    ensures index.Items? && |index.items| != 2 ==> r.Err? && r.error.AssertionError?
    ensures index.Int? ==> r.Err? && r.error.AttributeError?
    ensures (index.Str? && |index.s| > 0 && index.s[0] in "+-$#")
      ==> r == Ok(KeyPair(Str(index.s[1..]), PrefixDirection(index.s[0])))
    ensures (index.Str? && (|index.s| == 0 || index.s[0] !in "+-$#")) ==> r == Ok(KeyPair(index, ASCENDING))
  {
    match index
    case Items(items) =>
      if |items| == 2 then Ok(KeyPair(items[0], items[1]))
      else Err(AssertionError("Must be a (`key`, `direction`) tuple"))
    case Int(_) => Err(AttributeError("'int' object has no attribute 'startswith'"))
    case Str(s) =>
      if |s| > 0 && s[0] == '+' then Ok(KeyPair(Str(s[1..]), ASCENDING))
      else if |s| > 0 && s[0] == '-' then Ok(KeyPair(Str(s[1..]), DESCENDING))
      else if |s| > 0 && s[0] == '$' then Ok(KeyPair(Str(s[1..]), TEXT))
      else if |s| > 0 && s[0] == '#' then Ok(KeyPair(Str(s[1..]), HASHED))
      else Ok(KeyPair(index, ASCENDING))
  }

  /** The string form of a key in one of the four prefixed directions. */
  function Prefixed(key: string, c: char): string
  {
    [c] + key
  }

  /** Writing a prefix and reading it back gives the key and its
      direction: exactly one leading character is stripped, so "--x" is
      the key "-x" descending. */
  lemma ExplicitKeyOfPrefixed(key: string, c: char)
    requires c in "+-$#"
    ensures ExplicitKey(Str(Prefixed(key, c))) == Ok(KeyPair(Str(key), PrefixDirection(c)))
  {
    assert Prefixed(key, c)[1..] == key;
  }

  /** "+" is the default: a key with no prefix reads as ascending, the
      same as the key with "+" in front. */
  lemma AscendingIsDefault(key: string)
    requires |key| == 0 || key[0] !in "+-$#"
    ensures ExplicitKey(Str(key)) == ExplicitKey(Str(Prefixed(key, '+')))
  {
    ExplicitKeyOfPrefixed(key, '+');
  }

  /** A pair that `explicit_key` produced comes back unchanged when given
      again as a 2-element tuple. */
  lemma ExplicitKeyIdempotent(index: PyVal)
    requires ExplicitKey(index).Ok?
    ensures var p := ExplicitKey(index).value; ExplicitKey(Items([p.key, p.direction])) == Ok(p)
  {
  }

  /** `[explicit_key(e) for e in keys]`: the first failure, or one pair
      per key in order. */
  function ExplicitKeys(keys: seq<PyVal>): (r: Result<seq<KeyPair>>)
    ensures r.Ok? ==> |r.value| == |keys| && forall k :: 0 <= k < |keys| ==> ExplicitKey(keys[k]) == Ok(r.value[k])
    ensures r.Ok? <==> forall k :: 0 <= k < |keys| ==> ExplicitKey(keys[k]).Ok?
    ensures r.Err? ==> exists k :: 0 <= k < |keys| && ExplicitKey(keys[k]) == Err(r.error)
  {
    if keys == [] then Ok([])
    else
      var n := |keys| - 1;
      match ExplicitKeys(keys[..n])
      case Err(e) => Err(e)
      case Ok(ps) =>
        match ExplicitKey(keys[n])
        case Err(e) => Err(e)
        case Ok(p) => Ok(ps + [p])
  }

  /** What iterating the "key" entry of a dict index yields: the
      characters of a string, the items of a list; an integer is not
      iterable. */
  function KeyEntries(v: PyVal): (r: Result<seq<PyVal>>)
    ensures v.Items? ==> r == Ok(v.items)
    ensures v.Str? ==> r.Ok? && |r.value| == |v.s| && forall k :: 0 <= k < |v.s| ==> r.value[k] == Str([v.s[k]])
    ensures v.Int? ==> r.Err? && r.error.AssertionError?
  {
    match v
    case Items(items) => Ok(items)
    case Str(s) => Ok(seq(|s|, k requires 0 <= k < |s| => Str([s[k]])))
    case Int(_) => Err(AssertionError("`key` entry must be iterable"))
  }

  /** `parse_index(index, base_compound_field)`; an empty
      `baseCompoundField` is falsy and adds nothing. */
  function ParseIndex(index: IndexSpec, baseCompoundField: string): (r: Result<IndexModel>)
  {
    var parsed: Result<(seq<KeyPair>, map<string, PyVal>)> :=
      match index
      case Model(m) => Ok((m.keys, m.options))
      case Value(Items(items)) =>
        (match ExplicitKeys(items) case Err(e) => Err(e) case Ok(ks) => Ok((ks, map[])))
      case Value(Str(s)) =>
        (match ExplicitKey(Str(s)) case Err(e) => Err(e) case Ok(p) => Ok(([p], map[])))
      case Spec(entries) =>
        if "key" !in entries then Err(AssertionError("Index passed as dict must have a `key` entry"))
        else
          (match KeyEntries(entries["key"])
           case Err(e) => Err(e)
           case Ok(es) =>
             match ExplicitKeys(es)
             case Err(e) => Err(e)
             case Ok(ks) => Ok((ks, entries - {"key"})))
      case _ => Err(TypeError("Index type must be <str>, <list>, <dict> or <pymongo.IndexModel>"));
    match parsed
    case Err(e) => Err(e)
    case Ok((keys, args)) =>
      if baseCompoundField != "" then
        (match ExplicitKey(Str(baseCompoundField))
         case Err(e) => Err(e)
         case Ok(p) => Ok(IndexModel(keys + [p], args)))
      else Ok(IndexModel(keys, args))
  }

  /** A compound (list/tuple) index keeps its keys' number and order, with
      the base field's key last when one is given; it has no options. */
  lemma ParseCompound(items: seq<PyVal>, base: string)
    requires ExplicitKeys(items).Ok?
    ensures var r := ParseIndex(Value(Items(items)), base);
      && r.Ok? && r.value.options == map[]
      && |r.value.keys| == |items| + (if base == "" then 0 else 1)
      && (forall k :: 0 <= k < |items| ==> ExplicitKey(items[k]) == Ok(r.value.keys[k]))
      && (base != "" ==> ExplicitKey(Str(base)) == Ok(r.value.keys[|items|]))
  {
  }

  /** A compound index fails exactly when one of its keys does. */
  lemma ParseCompoundFails(items: seq<PyVal>, base: string)
    ensures ParseIndex(Value(Items(items)), base).Err?
      <==> exists k :: 0 <= k < |items| && ExplicitKey(items[k]).Err?
  {
    if base != "" {
      assert ExplicitKey(Str(base)).Ok?;
    }
  }

  /** A dict index: its options are every entry except "key", its keys
      those of the "key" entry in order. */
  lemma ParseDict(entries: map<string, PyVal>, base: string)
    requires "key" in entries && KeyEntries(entries["key"]).Ok?
    requires ExplicitKeys(KeyEntries(entries["key"]).value).Ok?
    ensures var r := ParseIndex(Spec(entries), base);
      && r.Ok? && "key" !in r.value.options
      && (forall k :: k in entries && k != "key" ==> k in r.value.options && r.value.options[k] == entries[k])
      && r.value.options.Keys == entries.Keys - {"key"}
      && r.value.keys[..|KeyEntries(entries["key"]).value|] == ExplicitKeys(KeyEntries(entries["key"]).value).value
  {
  }

  /** Anything other than a string, a list, a dict or an IndexModel is a
      TypeError; a dict without "key" is an AssertionError. */
  lemma ParseRejects(n: int, entries: map<string, PyVal>, base: string)
    requires "key" !in entries
    ensures ParseIndex(Unsupported, base).Err? && ParseIndex(Unsupported, base).error.TypeError?
    ensures ParseIndex(Value(Int(n)), base).Err? && ParseIndex(Value(Int(n)), base).error.TypeError?
    ensures ParseIndex(Spec(entries), base).Err? && ParseIndex(Spec(entries), base).error.AssertionError?
  {
  }

  /** An IndexModel passes through with its keys and options, plus the
      base field's key. */
  lemma ParseModel(m: IndexModel, base: string)
    ensures ParseIndex(Model(m), base).Ok?
    ensures ParseIndex(Model(m), base).value.options == m.options
    ensures ParseIndex(Model(m), base).value.keys
      == m.keys + (if base == "" then [] else [ExplicitKey(Str(base)).value])
  {
  }
}
