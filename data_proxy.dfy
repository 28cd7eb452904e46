/** umongo/data_proxy.py: the per-document store of field values in their
    database form, and the set of fields changed since the last load,
    from which the `$set`/`$unset` update document is built. A proxy is
    strict (an unknown key from the database raises) or not (unknown keys
    are kept aside and written back). The fields' own conversions are
    parameters, collected in a Codec. */
module DataProxy {
  import opened Common
  import opened MongoValues

  /** A declared field: its name in the schema, its `attribute` (the
      database key; "" when unset), and the options the proxy reads. The
      `default` and `missing` are the values they give, a callable having
      been called. */
  datatype FieldDecl = FieldDecl(name: string, attribute: string, allowNone: bool,
                                 default: Value, missing: Value, required: bool)

  /** The fields' conversions, by database key. */
  datatype Codec = Codec(
    toMongo: (string, Value) -> Value,                     // serialize_to_mongo; Missing: nothing to store
    fromMongo: (string, PyVal) -> Value,                   // deserialize_from_mongo
    deserialize: (string, Value) -> Option<Value>,         // _deserialize then _validate; None: ValidationError
    requiredValidate: (string, Value) -> Option<seq<string>>)  // _required_validate; Some: its error messages

  /** `field.attribute or name` */
  function MongoName(f: FieldDecl): string
  {
    if f.attribute != "" then f.attribute else f.name
  }

  /** The schema names its fields once, and gives them distinct keys. */
  ghost predicate WellFormedSchema(fields: seq<FieldDecl>)
  {
    forall i, j :: 0 <= i < j < |fields| ==> fields[i].name != fields[j].name && MongoName(fields[i]) != MongoName(fields[j])
  }

  function FieldNames(fields: seq<FieldDecl>): (r: set<string>)
  {
    set i | 0 <= i < |fields| :: fields[i].name
  }

  function MongoNames(fields: seq<FieldDecl>): (r: set<string>)
    ensures forall i :: 0 <= i < |fields| ==> MongoName(fields[i]) in r
  {
    set i | 0 <= i < |fields| :: MongoName(fields[i])
  }

  /** The position of the field called `name`, if declared. */
  function FieldNamed(fields: seq<FieldDecl>, name: string): (r: Option<nat>)
    ensures r.Some? ==> r.value < |fields| && fields[r.value].name == name
    ensures r.None? <==> forall i :: 0 <= i < |fields| ==> fields[i].name != name
  {
    if fields == [] then None
    else if fields[0].name == name then Some(0)
    else match FieldNamed(fields[1..], name)
      case None => None
      case Some(i) => Some(i + 1)
  }

  /** `val.clear_modified()` for every data object among the values. */
  function ClearedMap(d: map<string, Value>): (r: map<string, Value>)
    ensures r.Keys == d.Keys
    ensures forall k :: k in d ==> r[k] == Cleared(d[k])
  {
    map k | k in d :: Cleared(d[k])
  }

  /** `_add_missing_fields`: each declared field without an entry gets its
      `missing` value, in declaration order. */
  function WithMissing(d: map<string, Value>, fields: seq<FieldDecl>): (r: map<string, Value>)
    ensures r.Keys == d.Keys + MongoNames(fields)
    ensures forall k :: k in d ==> r[k] == d[k]
  {
    if fields == [] then d
    else
      var n := |fields| - 1;
      var f := fields[n];
      assert MongoNames(fields) == MongoNames(fields[..n]) + {MongoName(f)} by {
        assert forall i :: 0 <= i < n ==> fields[..n][i] == fields[i];
      }
      var p := WithMissing(d, fields[..n]);
      if MongoName(f) in p then p else p[MongoName(f) := f.missing]
  }

  /** The last declared field is added after the others. */
  lemma WithMissingStep(d: map<string, Value>, fields: seq<FieldDecl>)
    requires fields != []
    ensures var n := |fields| - 1; var p := WithMissing(d, fields[..n]);
      WithMissing(d, fields) == if MongoName(fields[n]) in p then p else p[MongoName(fields[n]) := fields[n].missing]
  {
  }

  /** A declared field without an entry ends up holding its `missing`. */
  lemma {:induction false} WithMissingFills(d: map<string, Value>, fields: seq<FieldDecl>, j: nat)
    requires WellFormedSchema(fields) && j < |fields| && MongoName(fields[j]) !in d
    ensures WithMissing(d, fields)[MongoName(fields[j])] == fields[j].missing
  {
    var n := |fields| - 1;
    var f := fields[n];
    var p := WithMissing(d, fields[..n]);
    WithMissingStep(d, fields);
    if j < n {
      WellFormedPrefix(fields, n);
      assert fields[..n][j] == fields[j];
      WithMissingFills(d, fields[..n], j);
      assert MongoName(f) != MongoName(fields[j]);
    } else {
      forall i | 0 <= i < n
        ensures MongoName(fields[..n][i]) != MongoName(f)
      {
        assert fields[..n][i] == fields[i];
      }
      assert MongoName(f) !in MongoNames(fields[..n]);
    }
  }

  lemma WellFormedPrefix(fields: seq<FieldDecl>, n: nat)
    requires WellFormedSchema(fields) && n <= |fields|
    ensures WellFormedSchema(fields[..n])
  {
    forall a, b | 0 <= a < b < n
      ensures fields[..n][a].name != fields[..n][b].name && MongoName(fields[..n][a]) != MongoName(fields[..n][b])
    {
      assert fields[..n][a] == fields[a] && fields[..n][b] == fields[b];
    }
  }

  /** The known entries of a database document, through `deserialize_from_mongo`. */
  function Decoded(doc: seq<(string, PyVal)>, names: set<string>, codec: Codec): (r: map<string, Value>)
    ensures r.Keys <= names && r.Keys <= DocKeys(doc)
  {
    if doc == [] then map[]
    else
      var n := |doc| - 1;
      DocKeysPrefix(doc, n);
      var p := Decoded(doc[..n], names, codec);
      if doc[n].0 in names then p[doc[n].0 := codec.fromMongo(doc[n].0, doc[n].1)] else p
  }

  /** The unknown entries of a database document. */
  function Unknowns(doc: seq<(string, PyVal)>, names: set<string>): (r: map<string, PyVal>)
    ensures forall k :: k in r ==> k !in names
    ensures r.Keys <= DocKeys(doc)
  {
    if doc == [] then map[]
    else
      var n := |doc| - 1;
      DocKeysPrefix(doc, n);
      var p := Unknowns(doc[..n], names);
      assert forall j :: 0 <= j < n ==> doc[..n][j] == doc[j];
      if doc[n].0 in names then p else p[doc[n].0 := doc[n].1]
  }

  /** In a well-formed schema each field is found by its own name. */
  lemma {:induction false} FieldNamedAt(fields: seq<FieldDecl>, i: nat)
    requires WellFormedSchema(fields) && i < |fields|
    ensures FieldNamed(fields, fields[i].name) == Some(i)
  {
    if i > 0 {
      assert fields[0].name != fields[i].name;
      assert WellFormedSchema(fields[1..]) by {
        forall a, b | 0 <= a < b < |fields| - 1
          ensures fields[1..][a].name != fields[1..][b].name && MongoName(fields[1..][a]) != MongoName(fields[1..][b])
        {
          assert fields[1..][a] == fields[a + 1] && fields[1..][b] == fields[b + 1];
        }
      }
      FieldNamedAt(fields[1..], i - 1);
    }
  }

  lemma FieldsNamedAt(fields: seq<FieldDecl>)
    requires WellFormedSchema(fields)
    ensures forall i :: 0 <= i < |fields| ==> FieldNamed(fields, fields[i].name) == Some(i)
  {
    forall i | 0 <= i < |fields|
      ensures FieldNamed(fields, fields[i].name) == Some(i)
    {
      FieldNamedAt(fields, i);
    }
  }

  /** The position of the first unknown key, or `|doc|`. */
  function FirstUnknown(doc: seq<(string, PyVal)>, names: set<string>): (i: nat)
    ensures i <= |doc|
    ensures forall j :: 0 <= j < i ==> doc[j].0 in names
    ensures i < |doc| ==> doc[i].0 !in names
  {
    if doc == [] then 0 else if doc[0].0 !in names then 0 else 1 + FirstUnknown(doc[1..], names)
  }

  /** `serialize_to_mongo` over the entries of `d` under `keys`: those
      that serialise to something. */
  function Serialized(d: map<string, Value>, keys: set<string>, codec: Codec): (r: map<string, Value>)
    ensures forall k :: k in r <==> k in keys && k in d && codec.toMongo(k, d[k]) != Missing
    ensures forall k :: k in r ==> r[k] == codec.toMongo(k, d[k])
  {
    map k | k in keys && k in d && codec.toMongo(k, d[k]) != Missing :: codec.toMongo(k, d[k])
  }

  /** The entries of `d` under `keys` that serialise to missing. */
  function Unserialized(d: map<string, Value>, keys: set<string>, codec: Codec): (r: set<string>)
    ensures forall k :: k in r <==> k in keys && k in d && codec.toMongo(k, d[k]) == Missing
  {
    set k | k in keys && k in d && codec.toMongo(k, d[k]) == Missing
  }

  lemma SerializedStep(d: map<string, Value>, keys: set<string>, k: string, codec: Codec)
    requires k in d
    ensures Serialized(d, keys + {k}, codec) == if codec.toMongo(k, d[k]) != Missing
      then Serialized(d, keys, codec)[k := codec.toMongo(k, d[k])] else Serialized(d, keys, codec)
    ensures Unserialized(d, keys + {k}, codec) == if codec.toMongo(k, d[k]) == Missing
      then Unserialized(d, keys, codec) + {k} else Unserialized(d, keys, codec)
  {
  }

  /** Unknown database entries, passed through as they are. */
  function Extras(m: map<string, PyVal>): (r: map<string, Value>)
    ensures r.Keys == m.Keys
  {
    map k | k in m :: Plain(m[k])
  }

  /** A database document's keys are those of a dict: each once. */
  predicate DistinctKeys(doc: seq<(string, PyVal)>)
  {
    forall i, j :: 0 <= i < j < |doc| ==> doc[i].0 != doc[j].0
  }

  /** The keys of a database document. */
  function DocKeys(doc: seq<(string, PyVal)>): set<string>
  {
    set i | 0 <= i < |doc| :: doc[i].0
  }

  lemma DocKeysPrefix(doc: seq<(string, PyVal)>, n: nat)
    requires n <= |doc|
    ensures DocKeys(doc[..n]) <= DocKeys(doc)
  {
    assert forall i :: 0 <= i < n ==> doc[..n][i] == doc[i];
  }

  /** A database document as the map it stands for. */
  function DocMap(doc: seq<(string, PyVal)>): (r: map<string, Value>)
    requires DistinctKeys(doc)
    ensures r.Keys == DocKeys(doc)
    ensures forall i :: 0 <= i < |doc| ==> r[doc[i].0] == Plain(doc[i].1)
  {
    map i | 0 <= i < |doc| :: doc[i].0 := Plain(doc[i].1)
  }

  lemma DistinctPrefix(doc: seq<(string, PyVal)>, n: nat)
    requires DistinctKeys(doc) && n <= |doc|
    ensures DistinctKeys(doc[..n])
  {
    assert forall a :: 0 <= a < n ==> doc[..n][a] == doc[a];
  }

  /** With each key once, an entry under a known key is decoded under
      that key. */
  lemma {:induction false} DecodedAt(doc: seq<(string, PyVal)>, names: set<string>, codec: Codec, i: nat)
    requires DistinctKeys(doc) && i < |doc| && doc[i].0 in names
    ensures doc[i].0 in Decoded(doc, names, codec)
    ensures Decoded(doc, names, codec)[doc[i].0] == codec.fromMongo(doc[i].0, doc[i].1)
  {
    var n := |doc| - 1;
    if i < n {
      DistinctPrefix(doc, n);
      assert doc[..n][i] == doc[i];
      DecodedAt(doc[..n], names, codec, i);
    }
  }

  /** With each key once, an entry under an unknown key is kept aside
      as it is. */
  lemma {:induction false} UnknownsAt(doc: seq<(string, PyVal)>, names: set<string>, i: nat)
    requires DistinctKeys(doc) && i < |doc| && doc[i].0 !in names
    ensures doc[i].0 in Unknowns(doc, names) && Unknowns(doc, names)[doc[i].0] == doc[i].1
  {
    var n := |doc| - 1;
    if i < n {
      DistinctPrefix(doc, n);
      assert doc[..n][i] == doc[i];
      UnknownsAt(doc[..n], names, i);
    }
  }

  /** The predicate of the round trip: each field's conversions undo each
      other, and a field's missing value stores nothing. */
  ghost predicate Inverse(fields: seq<FieldDecl>, codec: Codec)
  {
    && (forall k, v :: codec.toMongo(k, Cleared(codec.fromMongo(k, v))) == Plain(v))
    && (forall j :: 0 <= j < |fields| ==> codec.toMongo(MongoName(fields[j]), fields[j].missing) == Missing)
  }

  /** What reading then writing back a document gives. */
  ghost function Reread(doc: seq<(string, PyVal)>, fields: seq<FieldDecl>, codec: Codec): map<string, Value>
  {
    var d := WithMissing(ClearedMap(Decoded(doc, MongoNames(fields), codec)), fields);
    Serialized(d, d.Keys, codec) + Extras(Unknowns(doc, MongoNames(fields)))
  }

  lemma RereadAt(doc: seq<(string, PyVal)>, fields: seq<FieldDecl>, codec: Codec, i: nat)
    requires WellFormedSchema(fields) && DistinctKeys(doc) && Inverse(fields, codec) && i < |doc|
    ensures doc[i].0 in Reread(doc, fields, codec) && Reread(doc, fields, codec)[doc[i].0] == Plain(doc[i].1)
  {
    if doc[i].0 in MongoNames(fields) {
      DecodedAt(doc, MongoNames(fields), codec, i);
    } else {
      UnknownsAt(doc, MongoNames(fields), i);
    }
  }

  lemma RereadOnly(doc: seq<(string, PyVal)>, fields: seq<FieldDecl>, codec: Codec, k: string)
    requires WellFormedSchema(fields) && Inverse(fields, codec) && k !in DocKeys(doc)
    ensures k !in Reread(doc, fields, codec)
  {
    var dec := Decoded(doc, MongoNames(fields), codec);
    if k in MongoNames(fields) {
      var j :| 0 <= j < |fields| && MongoName(fields[j]) == k;
      WithMissingFills(ClearedMap(dec), fields, j);
    }
  }

  /** Reading a database document and writing it back gives the same
      document, in either kind of proxy, when each field's conversions
      undo each other and a field left out of the document stores
      nothing. */
  lemma FromMongoToMongo(doc: seq<(string, PyVal)>, fields: seq<FieldDecl>, codec: Codec)
    requires WellFormedSchema(fields) && DistinctKeys(doc) && Inverse(fields, codec)
    ensures Reread(doc, fields, codec) == DocMap(doc)
  {
    var l := Reread(doc, fields, codec);
    var m := DocMap(doc);
    forall i | 0 <= i < |doc|
      ensures doc[i].0 in l && l[doc[i].0] == m[doc[i].0]
    {
      RereadAt(doc, fields, codec, i);
    }
    forall k | k !in DocKeys(doc)
      ensures k !in l
    {
      RereadOnly(doc, fields, codec, k);
    }
    forall k | k in m
      ensures k in l && l[k] == m[k]
    {
      var i :| 0 <= i < |doc| && doc[i].0 == k;
    }
    MapsAgree(l, m);
  }

  lemma MapsAgree<V>(l: map<string, V>, m: map<string, V>)
    requires forall k :: k in m ==> k in l && l[k] == m[k]
    requires forall k :: k in l ==> k in m
    ensures l == m
  {
  }

  /** One more entry of a database document decodes into one more entry
      of the known or of the unknown ones. */
  lemma DocumentStep(doc: seq<(string, PyVal)>, i: nat, names: set<string>, codec: Codec)
    requires i < |doc|
    ensures Decoded(doc[..i + 1], names, codec) == if doc[i].0 in names
      then Decoded(doc[..i], names, codec)[doc[i].0 := codec.fromMongo(doc[i].0, doc[i].1)]
      else Decoded(doc[..i], names, codec)
    ensures Unknowns(doc[..i + 1], names) == if doc[i].0 in names
      then Unknowns(doc[..i], names)
      else Unknowns(doc[..i], names)[doc[i].0 := doc[i].1]
  {
    assert doc[..i + 1][..i] == doc[..i];
  }

  lemma MergeUpdate<V>(a: map<string, V>, b: map<string, V>, k: string, v: V)
    ensures a + b[k := v] == (a + b)[k := v]
  {
  }

  /** The first unknown key is the first one not among `names`. */
  lemma FirstUnknownAt(doc: seq<(string, PyVal)>, names: set<string>, i: nat)
    requires i <= |doc| && forall j :: 0 <= j < i ==> doc[j].0 in names
    requires i < |doc| ==> doc[i].0 !in names
    ensures FirstUnknown(doc, names) == i
  {
    if i > 0 {
      FirstUnknownAt(doc[1..], names, i - 1);
    }
  }

  /** The update document: `$set` (written when not empty) and the
      keys of `$unset` (likewise). */
  datatype MongoUpdate = MongoUpdate(setData: map<string, Value>, unsetData: set<string>)

  /** The database key of the field called `name` (the name itself when
      none is declared so). */
  function KeyIn(fields: seq<FieldDecl>, name: string): string
  {
    match FieldNamed(fields, name)
    case Some(i) => MongoName(fields[i])
    case None => name
  }

  function KeysOf(fields: seq<FieldDecl>, names: set<string>): set<string>
  {
    set n | n in names :: KeyIn(fields, n)
  }

  lemma KeysOfStep(fields: seq<FieldDecl>, names: set<string>, n: string)
    ensures KeysOf(fields, names + {n}) == KeysOf(fields, names) + {KeyIn(fields, n)}
  {
  }

  /** The loop of `_to_mongo_update()` over the modified fields' names:
      each name's serialised entry goes to `$set`, or its key to `$unset`
      when it serialises to missing. */
  method SplitUpdate(fields: seq<FieldDecl>, names: set<string>, d: map<string, Value>, codec: Codec)
    returns (setData: map<string, Value>, unsetData: set<string>)
    requires forall n :: n in names ==> KeyIn(fields, n) in d
    ensures setData == Serialized(d, KeysOf(fields, names), codec)
    ensures unsetData == Unserialized(d, KeysOf(fields, names), codec)
  {
    setData := map[];
    unsetData := {};
    var rest := names;
    while rest != {}
      invariant rest <= names
      invariant setData == Serialized(d, KeysOf(fields, names - rest), codec)
      invariant unsetData == Unserialized(d, KeysOf(fields, names - rest), codec)
      decreases |rest|
    {
      var name :| name in rest;
      var m := KeyIn(fields, name);
      assert names - (rest - {name}) == (names - rest) + {name};
      KeysOfStep(fields, names - rest, name);
      SerializedStep(d, KeysOf(fields, names - rest), m, codec);
      var val := codec.toMongo(m, d[m]);
      if val == Missing {
        unsetData := unsetData + {m};
      } else {
        setData := setData[m := val];
      }
      rest := rest - {name};
    }
    assert names - rest == names;
  }

  /** The loop of `_to_mongo()` over the stored entries. */
  method SerializeAll(d: map<string, Value>, codec: Codec) returns (doc: map<string, Value>)
    ensures doc == Serialized(d, d.Keys, codec)
  {
    doc := map[];
    var rest := d.Keys;
    while rest != {}
      invariant rest <= d.Keys
      invariant doc == Serialized(d, d.Keys - rest, codec)
      decreases |rest|
    {
      var key :| key in rest;
      SerializedStep(d, d.Keys - rest, key, codec);
      assert d.Keys - (rest - {key}) == (d.Keys - rest) + {key};
      var val := codec.toMongo(key, d[key]);
      if val != Missing {
        doc := doc[key := val];
      }
      rest := rest - {key};
    }
  }

  /** What `required_validate()` reports for one field holding `v`: a
      required field holding missing gets the standard message; missing
      and None are otherwise skipped; any other value goes to the
      field's own check. */
  function RequiredError(f: FieldDecl, v: Value, codec: Codec): (r: Option<seq<string>>)
    ensures f.required && v == Missing ==> r == Some([MISSING_REQUIRED])
    ensures !f.required && v == Missing ==> r.None?
    ensures v == Null ==> r.None?
    ensures v != Missing && v != Null ==> r == codec.requiredValidate(MongoName(f), v)
  {
    if f.required && v == Missing then Some([MISSING_REQUIRED])
    else if v == Missing || v == Null then None
    else codec.requiredValidate(MongoName(f), v)
  }

  /** The entry under `k`, missing when there is none. */
  function ValueIn(d: map<string, Value>, k: string): (v: Value)
    ensures k in d ==> v == d[k]
  {
    if k in d then d[k] else Missing
  }

  /** The errors of `required_validate()` over `fields`, in order. */
  function RequiredErrors(fields: seq<FieldDecl>, d: map<string, Value>, codec: Codec): (r: map<string, seq<string>>)
    ensures r.Keys <= FieldNames(fields)
  {
    if fields == [] then map[]
    else
      var n := |fields| - 1;
      var p := RequiredErrors(fields[..n], d, codec);
      assert FieldNames(fields[..n]) <= FieldNames(fields) by {
        assert forall i :: 0 <= i < n ==> fields[..n][i] == fields[i];
      }
      match RequiredError(fields[n], ValueIn(d, MongoName(fields[n])), codec)
      case Some(msgs) => p[fields[n].name := msgs]
      case None => p
  }

  lemma RequiredErrorsStep(fields: seq<FieldDecl>, d: map<string, Value>, codec: Codec, i: nat)
    requires i < |fields|
    ensures RequiredErrors(fields[..i + 1], d, codec)
      == match RequiredError(fields[i], ValueIn(d, MongoName(fields[i])), codec)
         case Some(msgs) => RequiredErrors(fields[..i], d, codec)[fields[i].name := msgs]
         case None => RequiredErrors(fields[..i], d, codec)
  {
    assert fields[..i + 1][..i] == fields[..i];
  }

  /** A field appears among the errors exactly when RequiredError reports
      it, with its messages. */
  lemma {:induction false} RequiredErrorsAt(fields: seq<FieldDecl>, d: map<string, Value>, codec: Codec, j: nat)
    requires WellFormedSchema(fields) && j < |fields|
    ensures var r := RequiredErrors(fields, d, codec); var e := RequiredError(fields[j], ValueIn(d, MongoName(fields[j])), codec);
      (fields[j].name in r <==> e.Some?) && (fields[j].name in r ==> r[fields[j].name] == e.value)
  {
    var n := |fields| - 1;
    if j < n {
      WellFormedPrefix(fields, n);
      assert fields[..n][j] == fields[j];
      RequiredErrorsAt(fields[..n], d, codec, j);
      assert fields[n].name != fields[j].name;
    } else {
      assert fields[n].name !in FieldNames(fields[..n]) by {
        forall i | 0 <= i < n ensures fields[..n][i].name != fields[n].name {
          assert fields[..n][i] == fields[i];
        }
      }
    }
  }

  /** Every error is under a declared field's name. */
  lemma RequiredErrorsNamed(fields: seq<FieldDecl>, d: map<string, Value>, codec: Codec)
    ensures forall name :: name in RequiredErrors(fields, d, codec) ==> FieldNamed(fields, name).Some?
  {
    forall name | name in RequiredErrors(fields, d, codec)
      ensures FieldNamed(fields, name).Some?
    {
      assert name in FieldNames(fields);
    }
  }

  const MISSING_REQUIRED := "Missing data for required field."
  const NOT_NULL := "Field may not be null."

  class Proxy {
    const fields: seq<FieldDecl>
    const strict: bool
    const codec: Codec
    var data: map<string, Value>
    var modifiedData: set<string>
    var additionalData: map<string, PyVal>

    /** Every declared field has an entry and nothing else has; only
        declared keys are marked modified. */
    ghost predicate Valid()
      reads this
    {
      WellFormedSchema(fields) && data.Keys == MongoNames(fields) && modifiedData <= MongoNames(fields)
      && ExtrasApart()
    }

    /** Unknown database entries exist only in a non-strict proxy, and
        never under a declared key. */
    ghost predicate ExtrasApart()
      reads this
    {
      (strict ==> additionalData == map[]) && additionalData.Keys !! MongoNames(fields)
    }

    /** `__init__(data)`: a proxy over the `load` of `loaded` (the result
        of the schema's partial load, keyed by database key). */
    constructor (fields: seq<FieldDecl>, strict: bool, codec: Codec, loaded: map<string, Value>)
      requires WellFormedSchema(fields) && loaded.Keys <= MongoNames(fields)
      ensures this.fields == fields && this.strict == strict && this.codec == codec
      ensures Valid() && additionalData == map[]
      ensures data == WithMissing(ClearedMap(loaded), fields) && modifiedData == loaded.Keys
    {
      this.fields := fields;
      this.strict := strict;
      this.codec := codec;
      data := map[];
      modifiedData := {};
      additionalData := map[];
      new;
      var _ := Load(Some(loaded));
    }

    /** `clear_modified()` */
    method ClearModified()
      modifies this
      ensures modifiedData == {} && data == ClearedMap(old(data)) && additionalData == old(additionalData)
    {
      modifiedData := {};
      data := ClearedMap(data);
    }

    /** `_add_missing_fields()` */
    method AddMissingFields()
      modifies this
      ensures data == WithMissing(old(data), fields)
      ensures modifiedData == old(modifiedData) && additionalData == old(additionalData)
    {
      ghost var d0 := data;
      var i := 0;
      while i < |fields|
        invariant i <= |fields|
        invariant data == WithMissing(d0, fields[..i])
        invariant modifiedData == old(modifiedData) && additionalData == old(additionalData)
      {
        assert fields[..i + 1][..i] == fields[..i];
        var m := MongoName(fields[i]);
        if m !in data {
          data := data[m := fields[i].missing];
        }
        i := i + 1;
      }
      assert fields[..i] == fields;
    }

    /** `load(data)`: the entries are replaced, exactly the loaded keys
        are marked modified, then the missing fields are filled. `loaded`
        is None when the schema's load raised. */
    method Load(loaded: Option<map<string, Value>>) returns (err: Option<Error>)
      requires WellFormedSchema(fields) && ExtrasApart() && (loaded.Some? ==> loaded.value.Keys <= MongoNames(fields))
      modifies this
      ensures additionalData == old(additionalData)
      ensures err.None? <==> loaded.Some?
      ensures loaded.None? ==> data == old(data) && modifiedData == old(modifiedData)
      ensures loaded.Some? ==> (Valid() && data == WithMissing(ClearedMap(loaded.value), fields)
        && modifiedData == loaded.value.Keys)
    {
      if loaded.None? {
        return Some(ValidationError([]));
      }
      data := loaded.value;
      ClearModified();
      modifiedData := loaded.value.Keys;
      AddMissingFields();
      err := None;
    }

    /** The loop of `from_mongo(data)`: the entries are replaced by the
        decoded known ones; an unknown key raises in a strict proxy and is
        kept aside in a non-strict one. `names` are the declared keys. The
        message leaves out the `{cls}: ` prefix: the proxy class's name is
        made by umongo's builder, which is not part of this model. */
    method ReadEntries(doc: seq<(string, PyVal)>, names: set<string>) returns (err: Option<Error>)
      modifies this
      ensures err.Some? <==> strict && FirstUnknown(doc, names) < |doc|
      ensures err.Some? ==> (err.value.UnknownFieldInDBError?
        && data == Decoded(doc[..FirstUnknown(doc, names)], names, codec))
      ensures err.Some? ==> (FirstUnknown(doc, names) < |doc|
        && err.value.msg == "unknown \"" + doc[FirstUnknown(doc, names)].0 + "\" field found in DB.")
      ensures err.None? ==> data == Decoded(doc, names, codec)
      ensures additionalData == old(additionalData) + (if err.None? then Unknowns(doc, names) else map[])
      ensures strict ==> additionalData == old(additionalData)
      ensures modifiedData == old(modifiedData)
    {
      data := map[];
      var i := 0;
      while i < |doc|
        invariant i <= |doc|
        invariant strict ==> forall j :: 0 <= j < i ==> doc[j].0 in names
        invariant data == Decoded(doc[..i], names, codec)
        invariant additionalData == old(additionalData) + Unknowns(doc[..i], names)
        invariant strict ==> additionalData == old(additionalData)
        invariant modifiedData == old(modifiedData)
      {
        DocumentStep(doc, i, names, codec);
        var key := doc[i].0;
        var val := doc[i].1;
        if key in names {
          data := data[key := codec.fromMongo(key, val)];
        } else if strict {
          FirstUnknownAt(doc, names, i);
          return Some(UnknownFieldInDBError("unknown \"" + key + "\" field found in DB."));
        } else {
          MergeUpdate(old(additionalData), Unknowns(doc[..i], names), key, val);
          additionalData := additionalData[key := val];
        }
        i := i + 1;
      }
      assert doc[..i] == doc;
      if strict {
        FirstUnknownAt(doc, names, i);
      }
      err := None;
    }

    /** `from_mongo(data)` on the document `doc`, its entries in order.
        A strict proxy raises at the first unknown key, having replaced the
        entries by the known ones before it; a non-strict one keeps
        unknown entries aside. Nothing is marked modified after. */
    method FromMongo(doc: seq<(string, PyVal)>) returns (err: Option<Error>)
      requires WellFormedSchema(fields) && ExtrasApart()
      modifies this
      ensures err.Some? <==> strict && FirstUnknown(doc, MongoNames(fields)) < |doc|
      ensures err.Some? ==> (err.value.UnknownFieldInDBError?
        && data == Decoded(doc[..FirstUnknown(doc, MongoNames(fields))], MongoNames(fields), codec)
        && modifiedData == old(modifiedData) && additionalData == old(additionalData))
      ensures err.Some? ==> (FirstUnknown(doc, MongoNames(fields)) < |doc|
        && err.value.msg == "unknown \"" + doc[FirstUnknown(doc, MongoNames(fields))].0 + "\" field found in DB.")
      ensures err.None? ==> (Valid() && modifiedData == {}
        && data == WithMissing(ClearedMap(Decoded(doc, MongoNames(fields), codec)), fields)
        && additionalData == old(additionalData) + Unknowns(doc, MongoNames(fields)))
    {
      err := ReadEntries(doc, MongoNames(fields));
      if err.Some? {
        return;
      }
      ClearModified();
      AddMissingFields();
    }

    /** `get(name)`: the entry of a declared field; a KeyError otherwise. */
    function Get(name: string): (r: Result<Value>)
      reads this
      requires Valid()
      ensures FieldNamed(fields, name).None? <==> r == Err(KeyError(name))
      ensures r.Ok? ==> r.value == data[MongoName(fields[FieldNamed(fields, name).value])]
    {
      match FieldNamed(fields, name)
      case None => Err(KeyError(name))
      case Some(i) => Ok(data[MongoName(fields[i])])
    }

    /** `set(name, value)`: None is refused unless the field allows it; any
        other value goes through the field's deserialise and validate. Only
        the field's own entry changes, and exactly its key is marked. */
    method Set(name: string, value: Value) returns (err: Option<Error>)
      requires Valid()
      modifies this
      ensures Valid() && additionalData == old(additionalData)
      ensures FieldNamed(fields, name).None? ==> err == Some(KeyError(name))
      ensures (FieldNamed(fields, name).Some? && value == Null && !fields[FieldNamed(fields, name).value].allowNone)
        ==> err == Some(ValidationError([NOT_NULL]))
      ensures err.Some? ==> data == old(data) && modifiedData == old(modifiedData)
      ensures err.None? <==> (FieldNamed(fields, name).Some?
        && (value == Null ==> fields[FieldNamed(fields, name).value].allowNone)
        && (value != Null ==> codec.deserialize(MongoName(fields[FieldNamed(fields, name).value]), value).Some?))
      ensures err.None? ==> (var m := MongoName(fields[FieldNamed(fields, name).value]);
        var v := if value == Null then Null else codec.deserialize(m, value).value;
        data == old(data)[m := v] && modifiedData == old(modifiedData) + {m} && Get(name) == Ok(v))
    {
      var i := FieldNamed(fields, name);
      if i.None? {
        return Some(KeyError(name));
      }
      var f := fields[i.value];
      var m := MongoName(f);
      if value == Null && !f.allowNone {
        return Some(ValidationError([NOT_NULL]));
      }
      var v := value;
      if value != Null {
        var d := codec.deserialize(m, value);
        if d.None? {
          return Some(ValidationError([]));
        }
        v := d.value;
      }
      data := data[m := v];
      modifiedData := modifiedData + {m};
      err := None;
    }

    /** `delete(name)`: the entry goes back to the field's default and is
        marked modified. */
    method Delete(name: string) returns (err: Option<Error>)
      requires Valid()
      modifies this
      ensures Valid() && additionalData == old(additionalData)
      ensures err.Some? <==> FieldNamed(fields, name).None?
      ensures err.Some? ==> err == Some(KeyError(name)) && data == old(data) && modifiedData == old(modifiedData)
      ensures err.None? ==> (var f := fields[FieldNamed(fields, name).value];
        data == old(data)[MongoName(f) := f.default] && modifiedData == old(modifiedData) + {MongoName(f)}
        && Get(name) == Ok(f.default))
    {
      var i := FieldNamed(fields, name);
      if i.None? {
        return Some(KeyError(name));
      }
      var f := fields[i.value];
      data := data[MongoName(f) := f.default];
      modifiedData := modifiedData + {MongoName(f)};
      err := None;
    }

    /** `update(data)`: the loaded entries overwrite and are all marked. */
    method Update(loaded: Option<map<string, Value>>) returns (err: Option<Error>)
      requires Valid() && (loaded.Some? ==> loaded.value.Keys <= MongoNames(fields))
      modifies this
      ensures Valid() && additionalData == old(additionalData)
      ensures err.None? <==> loaded.Some?
      ensures loaded.None? ==> data == old(data) && modifiedData == old(modifiedData)
      ensures loaded.Some? ==> (data == old(data) + loaded.value && modifiedData == old(modifiedData) + loaded.value.Keys)
    {
      if loaded.None? {
        return Some(ValidationError([]));
      }
      data := data + loaded.value;
      modifiedData := modifiedData + loaded.value.Keys;
      err := None;
    }

    /** `is_modified()` */
    predicate IsModified()
      reads this
    {
      modifiedData != {} || exists k :: k in data && data[k] == Object(true)
    }

    /** The database keys of the fields `get_modified_fields` reports:
        marked, or holding a modified data object. */
    ghost function ModifiedKeys(): (r: set<string>)
      reads this
      requires Valid()
    {
      set k | k in data && (k in modifiedData || data[k] == Object(true))
    }

    /** After `clear_modified()` nothing is modified, once the nested data
        objects are cleared too (as ClearedMap models them). */
    lemma ClearedIsUnmodified()
      requires modifiedData == {} && forall k :: k in data ==> !data[k].Object? || !data[k].modified
      ensures !IsModified()
    {
    }

    /** The loop of `get_modified_fields()`, given by field name. */
    method GetModifiedFields() returns (modified: set<string>)
      requires Valid()
      ensures forall name :: name in modified <==> FieldNamed(fields, name).Some? && KeyIn(fields, name) in ModifiedKeys()
    {
      modified := {};
      var i := 0;
      while i < |fields|
        invariant i <= |fields|
        invariant forall name :: name in modified <==> (exists j :: 0 <= j < i && fields[j].name == name && MongoName(fields[j]) in ModifiedKeys())
      {
        var m := MongoName(fields[i]);
        if m in modifiedData || data[m] == Object(true) {
          modified := modified + {fields[i].name};
        }
        i := i + 1;
      }
      forall name
        ensures name in modified <==> FieldNamed(fields, name).Some? && KeyIn(fields, name) in ModifiedKeys()
      {
        if name in modified {
          var j :| 0 <= j < |fields| && fields[j].name == name && MongoName(fields[j]) in ModifiedKeys();
          FieldNamedAt(fields, j);
        }
      }
    }


    /** Every modified key is the key of one of the names
        `get_modified_fields()` reports, and conversely. */
    lemma ModifiedKeysByName(names: set<string>)
      requires Valid()
      requires forall name :: name in names <==> FieldNamed(fields, name).Some? && KeyIn(fields, name) in ModifiedKeys()
      ensures KeysOf(fields, names) == ModifiedKeys()
    {
      forall k | k in ModifiedKeys()
        ensures k in KeysOf(fields, names)
      {
        var i :| 0 <= i < |fields| && MongoName(fields[i]) == k;
        FieldNamedAt(fields, i);
        assert KeyIn(fields, fields[i].name) == k;
      }
    }

    /** `is_modified()` holds exactly when some field would be reported
        by `get_modified_fields()`. */
    lemma IsModifiedIffModifiedKeys()
      requires Valid()
      ensures IsModified() <==> ModifiedKeys() != {}
    {
      if modifiedData != {} {
        var k :| k in modifiedData;
        assert k in ModifiedKeys();
      }
      if exists k :: k in data && data[k] == Object(true) {
        var k :| k in data && data[k] == Object(true);
        assert k in ModifiedKeys();
      }
    }

    /** The `$set` part: each modified key whose value serialises to
        something. */
    ghost function SetPart(): (r: map<string, Value>)
      reads this
      requires Valid()
    {
      Serialized(data, ModifiedKeys(), codec)
    }

    /** The `$unset` part: each modified key whose value serialises to missing. */
    ghost function UnsetPart(): (r: set<string>)
      reads this
      requires Valid()
    {
      Unserialized(data, ModifiedKeys(), codec)
    }

    /** `_to_mongo_update()`: the update document of the changes, or None
        when nothing is modified. */
    method ToMongoUpdate() returns (r: Option<MongoUpdate>)
      requires Valid()
      ensures r.None? <==> !IsModified()
      ensures r.Some? ==> r.value == MongoUpdate(SetPart(), UnsetPart())
    {
      var names := GetModifiedFields();
      ModifiedKeysByName(names);
      var setData, unsetData := SplitUpdate(fields, names, data, codec);
      IsModifiedIffModifiedKeys();
      if ModifiedKeys() != {} {
        var k :| k in ModifiedKeys();
        assert k in setData || k in unsetData;
      }
      if setData == map[] && unsetData == {} {
        r := None;
      } else {
        r := Some(MongoUpdate(setData, unsetData));
      }
    }

    /** The document `_to_mongo()` writes: the stored entries that
        serialise to something, and for a non-strict proxy the unknown
        ones read from the database. */
    ghost function MongoDocument(): (r: map<string, Value>)
      reads this
    {
      if strict then Serialized(data, data.Keys, codec) else Serialized(data, data.Keys, codec) + Extras(additionalData)
    }

    /** `_to_mongo()`, for either kind of proxy. */
    method ToMongo() returns (doc: map<string, Value>)
      ensures doc == MongoDocument()
    {
      doc := SerializeAll(data, codec);
      if !strict {
        doc := doc + Extras(additionalData);
      }
    }

    /** The update writes every modified key, in `$set` or in `$unset`
        and not both, and nothing else. */
    lemma UpdateCoversModified()
      requires Valid()
      ensures SetPart().Keys + UnsetPart() == ModifiedKeys()
      ensures SetPart().Keys !! UnsetPart()
    {
    }

    /** The update and the full document agree: a key in `$set` is
        written with the same value `_to_mongo()` gives, and a key in
        `$unset` is absent from that document. */
    lemma UpdateAgreesWithDocument()
      requires Valid()
      ensures forall k :: k in SetPart() ==> k in MongoDocument() && MongoDocument()[k] == SetPart()[k]
      ensures forall k :: k in UnsetPart() ==> k !in MongoDocument()
    {
    }

    /** `required_validate()`: the errors it raises a ValidationError
        with, by field name (RequiredErrorsAt and RequiredErrorsNamed say
        which); nothing is raised when the map is empty. */
    method RequiredValidate() returns (errors: map<string, seq<string>>)
      requires Valid()
      ensures errors == RequiredErrors(fields, data, codec)
    {
      var d := data;
      errors := map[];
      var i := 0;
      while i < |fields|
        invariant i <= |fields|
        invariant errors == RequiredErrors(fields[..i], d, codec)
      {
        RequiredErrorsStep(fields, d, codec, i);
        var f := fields[i];
        var v := d[MongoName(f)];
        if f.required && v == Missing {
          errors := errors[f.name := [MISSING_REQUIRED]];
        } else if v == Missing || v == Null {
        } else {
          var check := codec.requiredValidate(MongoName(f), v);
          if check.Some? {
            errors := errors[f.name := check.value];
          }
        }
        i := i + 1;
      }
      assert fields[..i] == fields;
    }

    /** `items()`: each declared field's name with its entry, in
        declaration order; each is what `get` gives for that name. */
    function Items(): (r: seq<(string, Value)>)
      reads this
      requires Valid()
      ensures |r| == |fields|
      ensures forall i :: 0 <= i < |fields| ==> r[i].0 == fields[i].name && Get(fields[i].name) == Ok(r[i].1)
    {
      var d := data;
      FieldsNamedAt(fields);
      seq(|fields|, i requires 0 <= i < |fields| => (fields[i].name, d[MongoName(fields[i])]))
    }
  }
}
