/** umongo/data_objects.py: the List and Dict a document field holds,
    which raise a modified flag on every successful mutation, and the
    Reference to another document. A List's `inner_field.deserialize`, a
    Dict's `key_field`/`value_field` deserialisers and a List `sort` key
    are parameters; a deserialiser answers None where it would raise a
    ValidationError. */
module DataObjects {
  import opened Common
  import opened MongoValues

  // ----- helpers on sequences -----

  /** Python's reading of an index into a list of length `n`: negative
      indices count from the end; None is an IndexError. */
  function PyIndex(key: int, n: nat): (r: Option<nat>)
    ensures r.Some? <==> -(n as int) <= key < n
    ensures r.Some? ==> r.value < n && (key >= 0 ==> r.value == key) && (key < 0 ==> r.value == key + n)
  {
    if 0 <= key < n then Some(key) else if -(n as int) <= key < 0 then Some(key + n) else None
  }

  function Without<T>(s: seq<T>, i: nat): (r: seq<T>)
    requires i < |s|
    ensures |r| == |s| - 1
    ensures forall k :: 0 <= k < i ==> r[k] == s[k]
    ensures forall k :: i <= k < |r| ==> r[k] == s[k + 1]
    ensures multiset(r) + multiset{s[i]} == multiset(s)
  {
    assert s == s[..i] + [s[i]] + s[i + 1..];
    s[..i] + s[i + 1..]
  }

  function Reversed<T>(s: seq<T>): (r: seq<T>)
    ensures |r| == |s|
    ensures forall k :: 0 <= k < |s| ==> r[k] == s[|s| - 1 - k]
  {
    if s == [] then [] else Reversed(s[1..]) + [s[0]]
  }

  /** Reversing twice gives the list back. */
  lemma ReversedTwice<T>(s: seq<T>)
    ensures Reversed(Reversed(s)) == s
  {
    assert forall k :: 0 <= k < |s| ==> Reversed(Reversed(s))[k] == s[k];
  }

  predicate SortedBy(s: seq<Value>, key: Value -> int)
  {
    forall i, j :: 0 <= i < j < |s| ==> key(s[i]) <= key(s[j])
  }

  function Insert(x: Value, s: seq<Value>, key: Value -> int): (r: seq<Value>)
    ensures |r| == |s| + 1
    ensures multiset(r) == multiset(s) + multiset{x}
  {
    if s == [] then [x]
    else if key(x) <= key(s[0]) then [x] + s
    else
      assert s == [s[0]] + s[1..];
      [s[0]] + Insert(x, s[1..], key)
  }

  /** Every element of `s` after the first has a key no smaller. */
  lemma FirstIsLeast(s: seq<Value>, key: Value -> int, v: Value)
    requires SortedBy(s, key) && |s| > 0 && v in multiset(s[1..])
    ensures key(s[0]) <= key(v)
  {
    var m :| 0 <= m < |s[1..]| && s[1..][m] == v;
    assert s[m + 1] == v;
  }

  /** Inserting into a sorted list keeps it sorted. */
  lemma {:induction false} InsertSorted(x: Value, s: seq<Value>, key: Value -> int)
    requires SortedBy(s, key)
    ensures SortedBy(Insert(x, s, key), key)
  {
    if s != [] && key(x) > key(s[0]) {
      var t := Insert(x, s[1..], key);
      InsertSorted(x, s[1..], key);
      forall i | 0 <= i < |t|
        ensures key(s[0]) <= key(t[i])
      {
        assert t[i] in multiset(t);
        if t[i] != x {
          FirstIsLeast(s, key, t[i]);
        }
      }
    }
  }

  /** Python's `list.sort(key=key)`: the elements in key order. */
  function SortBy(s: seq<Value>, key: Value -> int): (r: seq<Value>)
    ensures SortedBy(r, key)
    ensures multiset(r) == multiset(s)
  {
    if s == [] then []
    else
      assert s == [s[0]] + s[1..];
      InsertSorted(s[0], SortBy(s[1..], key), key);
      Insert(s[0], SortBy(s[1..], key), key)
  }

  /** `[inner_field.deserialize(obj) for obj in objs]`: all of them, or
      None at the first failure. */
  function DeserializeAll(objs: seq<Value>, deserialize: Value -> Option<Value>): (r: Option<seq<Value>>)
    ensures r.Some? <==> forall k :: 0 <= k < |objs| ==> deserialize(objs[k]).Some?
    ensures r.Some? ==> |r.value| == |objs| && forall k :: 0 <= k < |objs| ==> r.value[k] == deserialize(objs[k]).value
  {
    if objs == [] then Some([])
    else
      var n := |objs| - 1;
      match DeserializeAll(objs[..n], deserialize)
      case None => None
      case Some(vs) => if deserialize(objs[n]).None? then None else Some(vs + [deserialize(objs[n]).value])
  }

  /** `any(obj.is_modified() for obj in values)`: Some(true) at the first
      modified data object, None (an AttributeError) at a value that is
      not a data object before that, Some(false) at the end. */
  function AnyModified(values: seq<Value>): (r: Option<bool>)
  {
    if values == [] then Some(false)
    else if !values[0].Object? then None
    else if values[0].modified then Some(true)
    else AnyModified(values[1..])
  }

  /** On values that are all data objects, `any` is defined and true iff
      one of them is modified. */
  lemma {:induction false} AnyModifiedOfObjects(values: seq<Value>)
    requires forall k :: 0 <= k < |values| ==> values[k].Object?
    ensures AnyModified(values) == Some(exists k :: 0 <= k < |values| && values[k].modified)
  {
    if values != [] {
      AnyModifiedOfObjects(values[1..]);
      if !values[0].modified {
        assert forall k :: 1 <= k < |values| ==> values[k] == values[1..][k - 1];
      }
    }
  }

  /** Whatever `any` answers, Some(true) names a modified object that
      comes before any other kind of value. */
  lemma {:induction false} AnyModifiedWitness(values: seq<Value>)
    requires AnyModified(values) == Some(true)
    ensures exists k :: (0 <= k < |values| && values[k] == Object(true)
      && forall j :: 0 <= j < k ==> values[j] == Object(false))
  {
    if values[0] != Object(true) {
      AnyModifiedWitness(values[1..]);
      var k :| 0 <= k < |values[1..]| && values[1..][k] == Object(true)
        && forall j :: 0 <= j < k ==> values[1..][j] == Object(false);
      assert values[k + 1] == Object(true);
      assert forall j :: 1 <= j < k + 1 ==> values[j] == values[1..][j - 1];
    }
  }

  /** The values after `obj.clear_modified()` on each of the first `n`. */
  function ClearedUpTo(values: seq<Value>, n: nat): (r: seq<Value>)
    requires n <= |values|
    ensures |r| == |values|
    ensures forall k :: 0 <= k < n ==> r[k] == Cleared(values[k])
    ensures forall k :: n <= k < |values| ==> r[k] == values[k]
  {
    seq(|values|, k requires 0 <= k < |values| => if k < n then Cleared(values[k]) else values[k])
  }

  /** The first position that is not a data object, or `|values|`. */
  function FirstNonObject(values: seq<Value>): (i: nat)
    ensures i <= |values|
    ensures forall k :: 0 <= k < i ==> values[k].Object?
    ensures i < |values| ==> !values[i].Object?
  {
    if values == [] then 0 else if !values[0].Object? then 0 else 1 + FirstNonObject(values[1..])
  }

  const NOT_A_DATA_OBJECT := "object has no attribute 'clear_modified'"

  /** A value of a field of type List. */
  class List {
    const inner: Value -> Option<Value>
    var items: seq<Value>
    var modified: bool

    /** A new List is not modified. */
    constructor (inner: Value -> Option<Value>, items: seq<Value>)
      ensures this.inner == inner && this.items == items && !modified
    {
      this.inner := inner;
      this.items := items;
      modified := false;
    }

    /** `is_modified()`: the flag, or, when the first element is a data
        object, whether any element is modified. */
    function IsModified(): (r: Option<bool>)
      reads this
      ensures modified ==> r == Some(true)
      ensures !modified && (|items| == 0 || !items[0].Object?) ==> r == Some(false)
    {
      if modified then Some(true)
      else if |items| > 0 && items[0].Object? then AnyModified(items)
      else Some(false)
    }

    /** `lst[key] = obj` */
    method SetItem(key: int, obj: Value) returns (err: Option<Error>)
      modifies this
      ensures inner(obj).None? ==> err == Some(ValidationError([]))
      ensures inner(obj).Some? && PyIndex(key, |old(items)|).None?
        ==> err == Some(IndexError("list assignment index out of range"))
      ensures err.None? <==> inner(obj).Some? && PyIndex(key, |old(items)|).Some?
      ensures err.None? ==> (items == old(items)[PyIndex(key, |old(items)|).value := inner(obj).value] && modified)
      ensures err.Some? ==> items == old(items) && modified == old(modified)
    {
      var v := inner(obj);
      if v.None? {
        return Some(ValidationError([]));
      }
      var i := PyIndex(key, |items|);
      if i.None? {
        return Some(IndexError("list assignment index out of range"));
      }
      items := items[i.value := v.value];
      modified := true;
      err := None;
    }

    /** `del lst[key]` */
    method DelItem(key: int) returns (err: Option<Error>)
      modifies this
      ensures err.None? <==> PyIndex(key, |old(items)|).Some?
      ensures err.Some? ==> err == Some(IndexError("list assignment index out of range"))
      ensures err.None? ==> (items == Without(old(items), PyIndex(key, |old(items)|).value) && modified)
      ensures err.Some? ==> items == old(items) && modified == old(modified)
    {
      var i := PyIndex(key, |items|);
      if i.None? {
        return Some(IndexError("list assignment index out of range"));
      }
      items := Without(items, i.value);
      modified := true;
      err := None;
    }

    /** `lst.append(obj)` */
    method Append(obj: Value) returns (err: Option<Error>)
      modifies this
      ensures err.None? <==> inner(obj).Some?
      ensures err.None? ==> (items == old(items) + [inner(obj).value] && modified)
      ensures err.Some? ==> items == old(items) && modified == old(modified)
    {
      var v := inner(obj);
      if v.None? {
        return Some(ValidationError([]));
      }
      items := items + [v.value];
      modified := true;
      err := None;
    }

    /** `lst.pop(index)`; `lst.pop()` is `Pop(-1)`. */
    method Pop(index: int) returns (ret: Option<Value>, err: Option<Error>)
      modifies this
      ensures old(items) == [] ==> err == Some(IndexError("pop from empty list"))
      ensures old(items) != [] && PyIndex(index, |old(items)|).None? ==> err == Some(IndexError("pop index out of range"))
      ensures err.None? <==> PyIndex(index, |old(items)|).Some?
      ensures err.None? ==> (ret == Some(old(items)[PyIndex(index, |old(items)|).value])
        && items == Without(old(items), PyIndex(index, |old(items)|).value) && modified)
      ensures err.Some? ==> ret == None && items == old(items) && modified == old(modified)
    {
      if items == [] {
        return None, Some(IndexError("pop from empty list"));
      }
      var i := PyIndex(index, |items|);
      if i.None? {
        return None, Some(IndexError("pop index out of range"));
      }
      ret := Some(items[i.value]);
      items := Without(items, i.value);
      modified := true;
      err := None;
    }

    /** `lst.clear()` */
    method Clear()
      modifies this
      ensures items == [] && modified
    {
      items := [];
      modified := true;
    }

    /** `lst.remove(x)`: the first element equal to x. */
    method Remove(x: Value) returns (err: Option<Error>)
      modifies this
      ensures err.None? <==> x in old(items)
      ensures err.Some? ==> err == Some(ValueError("list.remove(x): x not in list"))
      ensures err.None? ==> (items == Without(old(items), FirstIndex(old(items), x)) && modified)
      ensures err.Some? ==> items == old(items) && modified == old(modified)
    {
      if x !in items {
        return Some(ValueError("list.remove(x): x not in list"));
      }
      items := Without(items, FirstIndex(items, x));
      modified := true;
      err := None;
    }

    /** `lst.reverse()` */
    method Reverse()
      modifies this
      ensures items == Reversed(old(items)) && modified
    {
      items := Reversed(items);
      modified := true;
    }

    /** `lst.sort(key=key)` */
    method Sort(key: Value -> int)
      modifies this
      ensures SortedBy(items, key) && multiset(items) == multiset(old(items)) && modified
    {
      items := SortBy(items, key);
      modified := true;
    }

    /** `lst.extend(objs)`: every object is deserialised before any is added. */
    method Extend(objs: seq<Value>) returns (err: Option<Error>)
      modifies this
      ensures err.None? <==> DeserializeAll(objs, inner).Some?
      ensures err.None? ==> (items == old(items) + DeserializeAll(objs, inner).value && modified)
      ensures err.Some? ==> items == old(items) && modified == old(modified)
    {
      var vs := DeserializeAll(objs, inner);
      if vs.None? {
        return Some(ValidationError([]));
      }
      items := items + vs.value;
      modified := true;
      err := None;
    }

    /** `clear_modified()`: the flag goes down, and when the first element
        is a data object each element is cleared in turn; one that is not
        a data object raises, leaving those before it cleared. */
    method ClearModified() returns (err: Option<Error>)
      modifies this
      ensures !modified
      ensures |old(items)| == 0 || !old(items)[0].Object? ==> items == old(items) && err.None?
      ensures |old(items)| > 0 && old(items)[0].Object? ==>
        (items == ClearedUpTo(old(items), FirstNonObject(old(items)))
         && (err.None? <==> FirstNonObject(old(items)) == |old(items)|))
      ensures err.None? ==> IsModified() == Some(false)
    {
      modified := false;
      err := None;
      if |items| > 0 && items[0].Object? {
        ghost var before := items;
        var k := 0;
        while k < |items|
          invariant |items| == |before| && !modified
          invariant k <= FirstNonObject(before)
          invariant items == ClearedUpTo(before, k)
        {
          if !items[k].Object? {
            return Some(AttributeError(NOT_A_DATA_OBJECT));
          }
          items := items[k := Object(false)];
          k := k + 1;
        }
        AnyModifiedOfObjects(items);
      }
    }
  }

  /** A successful mutation is always visible through `is_modified()`. */
  lemma MutationIsVisible(l: List)
    requires l.modified
    ensures l.IsModified() == Some(true)
  {
  }

  // ----- Dict -----

  /** The keys in insertion order, none twice, and the same keys in the map. */
  ghost predicate WellFormedDict(keys: seq<string>, values: map<string, Value>)
  {
    (forall i, j :: 0 <= i < j < |keys| ==> keys[i] != keys[j]) && (forall k :: k in values <==> k in keys)
  }

  /** The values' part of `Dict.is_modified()`: when some value is a data
      object, `any` over the values in order. */
  function ValuesModified(keys: seq<string>, values: map<string, Value>): (r: Option<bool>)
    requires WellFormedDict(keys, values)
    ensures (forall k :: k in values ==> !values[k].Object?) ==> r == Some(false)
  {
    if exists i :: 0 <= i < |keys| && values[keys[i]].Object? then AnyModified(ValuesInOrder(keys, values))
    else Some(false)
  }

  /** `Dict.clear_modified()` on the keys and values: when some value is
      a data object, the values are cleared in key order up to the first
      that is not one, which raises. */
  method ClearDict(keys: seq<string>, values: map<string, Value>) returns (r: map<string, Value>, err: Option<Error>)
    requires WellFormedDict(keys, values)
    ensures WellFormedDict(keys, r) && r.Keys == values.Keys
    ensures (forall i :: 0 <= i < |keys| ==> !values[keys[i]].Object?) ==> r == values && err.None?
    ensures (exists i :: 0 <= i < |keys| && values[keys[i]].Object?) ==>
      (var n := FirstNonObject(ValuesInOrder(keys, values));
       (forall j :: 0 <= j < |keys| ==> r[keys[j]] == if j < n then Cleared(values[keys[j]]) else values[keys[j]])
       && (err.None? <==> n == |keys|))
    ensures err.None? ==> ValuesModified(keys, r) == Some(false)
  {
    r, err := values, None;
    if exists i :: 0 <= i < |keys| && values[keys[i]].Object? {
      r, err := ClearValues(keys, values);
      SameKeysWellFormed(keys, values, r);
      if err.None? {
        assert forall j :: 0 <= j < |keys| ==> ValuesInOrder(keys, r)[j] == Object(false);
        AnyModifiedOfObjects(ValuesInOrder(keys, r));
      }
    }
  }

  /** Replacing values under the same keys keeps a dict well formed. */
  lemma SameKeysWellFormed(keys: seq<string>, values: map<string, Value>, r: map<string, Value>)
    requires WellFormedDict(keys, values) && r.Keys == values.Keys
    ensures WellFormedDict(keys, r)
  {
  }

  /** The loop of `Dict.clear_modified()`: each value in key order is
      cleared, up to the first that is not a data object, which raises. */
  method ClearValues(keys: seq<string>, values: map<string, Value>) returns (r: map<string, Value>, err: Option<Error>)
    requires WellFormedDict(keys, values)
    ensures r.Keys == values.Keys
    ensures var n := FirstNonObject(ValuesInOrder(keys, values));
      (forall j :: 0 <= j < |keys| ==> r[keys[j]] == if j < n then Cleared(values[keys[j]]) else values[keys[j]])
      && (err.None? <==> n == |keys|) && (err.Some? ==> err == Some(AttributeError(NOT_A_DATA_OBJECT)))
  {
    ghost var n := FirstNonObject(ValuesInOrder(keys, values));
    r := values;
    var i := 0;
    while i < |keys|
      invariant i <= n
      invariant r.Keys == values.Keys
      invariant forall j :: 0 <= j < |keys| ==> r[keys[j]] == if j < i then Cleared(values[keys[j]]) else values[keys[j]]
    {
      var k := keys[i];
      if !r[k].Object? {
        assert n == i;
        return r, Some(AttributeError(NOT_A_DATA_OBJECT));
      }
      assert forall j :: 0 <= j < |keys| && j != i ==> keys[j] != k;
      r := r[k := Object(false)];
      i := i + 1;
    }
    err := None;
  }

  /** The values in key order. */
  function ValuesInOrder(keys: seq<string>, values: map<string, Value>): (r: seq<Value>)
    requires forall k :: k in keys ==> k in values
    ensures |r| == |keys| && forall i :: 0 <= i < |keys| ==> r[i] == values[keys[i]]
  {
    seq(|keys|, i requires 0 <= i < |keys| => values[keys[i]])
  }

  /** `d[k] = v` on the plain dict: a known key keeps its place, a new
      one goes last. */
  function AssignKeys(keys: seq<string>, k: string): (r: seq<string>)
  {
    if k in keys then keys else keys + [k]
  }

  /** After assigning a run of entries in turn. */
  function AssignAll(keys: seq<string>, values: map<string, Value>, entries: seq<(string, Value)>)
    : (r: (seq<string>, map<string, Value>))
    ensures WellFormedDict(keys, values) ==> WellFormedDict(r.0, r.1)
    ensures |r.0| >= |keys| && r.0[..|keys|] == keys
  {
    if entries == [] then (keys, values)
    else
      var n := |entries| - 1;
      var p := AssignAll(keys, values, entries[..n]);
      (AssignKeys(p.0, entries[n].0), p.1[entries[n].0 := entries[n].1])
  }

  /** After `update`, a key is present iff it was or some entry has it;
      the last entry wins its key, and a key no entry has keeps its value.
      The keys already there keep their order, in front. */
  lemma {:induction false} AssignAllLookup(keys: seq<string>, values: map<string, Value>,
                                           entries: seq<(string, Value)>, k: string)
    ensures var r := AssignAll(keys, values, entries);
      && (k in r.1 <==> k in values || exists i :: 0 <= i < |entries| && entries[i].0 == k)
      && ((forall i :: 0 <= i < |entries| ==> entries[i].0 != k) && k in values ==> r.1[k] == values[k])
      && (|entries| > 0 && entries[|entries| - 1].0 == k ==> r.1[k] == entries[|entries| - 1].1)
    decreases |entries|
  {
    if entries != [] {
      var n := |entries| - 1;
      AssignAllLookup(keys, values, entries[..n], k);
      assert forall i :: 0 <= i < n ==> entries[..n][i] == entries[i];
    }
  }

  /** `dict` key removal. */
  function RemoveKey(keys: seq<string>, k: string): (r: seq<string>)
    ensures k !in keys ==> r == keys
    ensures forall x :: x in r <==> x in keys && x != k
    ensures (forall i, j :: 0 <= i < j < |keys| ==> keys[i] != keys[j])
      ==> (forall i, j :: 0 <= i < j < |r| ==> r[i] != r[j])
  {
    if keys == [] then []
    else
      assert forall i :: 0 <= i < |keys| - 1 ==> keys[1..][i] == keys[i + 1];
      if keys[0] == k then RemoveKey(keys[1..], k)
      else
        var t := RemoveKey(keys[1..], k);
        assert (forall i, j :: 0 <= i < j < |keys| ==> keys[i] != keys[j]) ==> keys[0] !in keys[1..];
        [keys[0]] + t
  }

  /** A value of a field of type Dict. */
  class Dict {
    const keyField: Option<string -> Option<string>>
    const valueField: Option<Value -> Option<Value>>
    var keys: seq<string>
    var values: map<string, Value>
    var modified: bool

    ghost predicate Valid()
      reads this
    {
      WellFormedDict(keys, values)
    }

    /** A new Dict is not modified. */
    constructor (keyField: Option<string -> Option<string>>, valueField: Option<Value -> Option<Value>>,
                 keys: seq<string>, values: map<string, Value>)
      requires WellFormedDict(keys, values)
      ensures Valid()
      ensures this.keyField == keyField && this.valueField == valueField
      ensures this.keys == keys && this.values == values && !modified
    {
      this.keyField := keyField;
      this.valueField := valueField;
      this.keys := keys;
      this.values := values;
      modified := false;
    }

    /** `key_field.deserialize(key) if key_field else key` */
    function KeyOf(key: string): Option<string>
    {
      if keyField.Some? then keyField.value(key) else Some(key)
    }

    /** `value_field.deserialize(obj) if value_field else obj` */
    function ValueOf(obj: Value): Option<Value>
    {
      if valueField.Some? then valueField.value(obj) else Some(obj)
    }

    /** `is_modified()`: the flag, or, when some value is a data object,
        `any` over the values in order. */
    function IsModified(): (r: Option<bool>)
      reads this
      requires Valid()
      ensures modified ==> r == Some(true)
      ensures !modified && (forall k :: k in values ==> !values[k].Object?) ==> r == Some(false)
    {
      if modified then Some(true) else ValuesModified(keys, values)
    }

    /** `d[key] = obj` */
    method SetItem(key: string, obj: Value) returns (err: Option<Error>)
      requires Valid()
      modifies this
      ensures Valid()
      ensures err.None? <==> KeyOf(key).Some? && ValueOf(obj).Some?
      ensures err.None? ==> ((keys, values) == AssignAll(old(keys), old(values), [(KeyOf(key).value, ValueOf(obj).value)])
        && modified)
      ensures err.Some? ==> keys == old(keys) && values == old(values) && modified == old(modified)
    {
      var k := KeyOf(key);
      var v := ValueOf(obj);
      if k.None? || v.None? {
        return Some(ValidationError([]));
      }
      keys := AssignKeys(keys, k.value);
      values := values[k.value := v.value];
      modified := true;
      err := None;
    }

    /** `del d[key]` */
    method DelItem(key: string) returns (err: Option<Error>)
      requires Valid()
      modifies this
      ensures Valid()
      ensures err.None? <==> key in old(values)
      ensures err.Some? ==> err == Some(KeyError(key))
      ensures err.None? ==> (keys == RemoveKey(old(keys), key) && values == old(values) - {key} && modified)
      ensures err.Some? ==> keys == old(keys) && values == old(values) && modified == old(modified)
    {
      if key !in values {
        return Some(KeyError(key));
      }
      keys := RemoveKey(keys, key);
      values := values - {key};
      modified := true;
      err := None;
    }

    /** `d.pop(key)`, or `d.pop(key, default)` when `default` is given. A pop
        that falls back on the default still marks the dict modified. */
    method Pop(key: string, default: Option<Value>) returns (ret: Option<Value>, err: Option<Error>)
      requires Valid()
      modifies this
      ensures Valid()
      ensures err.None? <==> key in old(values) || default.Some?
      ensures err.Some? ==> err == Some(KeyError(key)) && ret == None
      ensures key in old(values) ==> (ret == Some(old(values)[key]) && keys == RemoveKey(old(keys), key)
        && values == old(values) - {key} && modified)
      ensures key !in old(values) && default.Some? ==> (ret == default && keys == old(keys) && values == old(values)
        && modified)
      ensures err.Some? ==> keys == old(keys) && values == old(values) && modified == old(modified)
    {
      if key in values {
        ret := Some(values[key]);
        keys := RemoveKey(keys, key);
        values := values - {key};
      } else if default.Some? {
        ret := default;
      } else {
        return None, Some(KeyError(key));
      }
      modified := true;
      err := None;
    }

    /** `d.popitem()`: the last inserted entry. */
    method PopItem() returns (ret: Option<(string, Value)>, err: Option<Error>)
      requires Valid()
      modifies this
      ensures Valid()
      ensures err.None? <==> old(keys) != []
      ensures err.Some? ==> err == Some(KeyError("popitem(): dictionary is empty")) && ret == None
      ensures err.None? ==> (var k := old(keys)[|old(keys)| - 1];
        ret == Some((k, old(values)[k])) && keys == old(keys)[..|old(keys)| - 1]
        && values == old(values) - {k} && modified)
      ensures err.Some? ==> keys == old(keys) && values == old(values) && modified == old(modified)
    {
      if keys == [] {
        return None, Some(KeyError("popitem(): dictionary is empty"));
      }
      var k := keys[|keys| - 1];
      ret := Some((k, values[k]));
      keys := keys[..|keys| - 1];
      values := values - {k};
      modified := true;
      err := None;
    }

    /** `d.setdefault(key, obj)`: the stored value when the key is known,
        else `obj` is stored; marked modified in both cases. */
    method SetDefault(key: string, obj: Value) returns (ret: Option<Value>, err: Option<Error>)
      requires Valid()
      modifies this
      ensures Valid()
      ensures err.None? <==> KeyOf(key).Some? && ValueOf(obj).Some?
      ensures err.None? && KeyOf(key).value in old(values) ==> (ret == Some(old(values)[KeyOf(key).value])
        && keys == old(keys) && values == old(values) && modified)
      ensures err.None? && KeyOf(key).value !in old(values) ==> (ret == ValueOf(obj)
        && keys == old(keys) + [KeyOf(key).value] && values == old(values)[KeyOf(key).value := ValueOf(obj).value]
        && modified)
      ensures err.Some? ==> ret == None && keys == old(keys) && values == old(values) && modified == old(modified)
    {
      var k := KeyOf(key);
      var v := ValueOf(obj);
      if k.None? || v.None? {
        return None, Some(ValidationError([]));
      }
      if k.value in values {
        ret := Some(values[k.value]);
      } else {
        keys := keys + [k.value];
        values := values[k.value := v.value];
        ret := v;
      }
      modified := true;
      err := None;
    }

    /** The entries of `other` with their keys and values deserialised. */
    function Converted(other: seq<(string, Value)>): (r: Option<seq<(string, Value)>>)
      ensures r.Some? <==> forall i :: 0 <= i < |other| ==> KeyOf(other[i].0).Some? && ValueOf(other[i].1).Some?
      ensures r.Some? ==> |r.value| == |other| && forall i :: 0 <= i < |other| ==>
        r.value[i] == (KeyOf(other[i].0).value, ValueOf(other[i].1).value)
    {
      if other == [] then Some([])
      else
        var n := |other| - 1;
        match Converted(other[..n])
        case None => None
        case Some(es) =>
          if KeyOf(other[n].0).None? || ValueOf(other[n].1).None? then None
          else Some(es + [(KeyOf(other[n].0).value, ValueOf(other[n].1).value)])
    }

    /** `d.update(other)`: every entry is deserialised before any is
        stored; then each is assigned in turn. */
    method Update(other: seq<(string, Value)>) returns (err: Option<Error>)
      requires Valid()
      modifies this
      ensures Valid()
      ensures err.None? <==> Converted(other).Some?
      ensures err.None? ==> (keys == AssignAll(old(keys), old(values), Converted(other).value).0
        && values == AssignAll(old(keys), old(values), Converted(other).value).1 && modified)
      ensures err.Some? ==> keys == old(keys) && values == old(values) && modified == old(modified)
    {
      var conv := Converted(other);
      if conv.None? {
        return Some(ValidationError([]));
      }
      var es := conv.value;
      ghost var k0, v0 := keys, values;
      var i := 0;
      while i < |es|
        invariant i <= |es|
        invariant keys == AssignAll(k0, v0, es[..i]).0 && values == AssignAll(k0, v0, es[..i]).1
      {
        assert es[..i + 1][..i] == es[..i];
        keys := AssignKeys(keys, es[i].0);
        values := values[es[i].0 := es[i].1];
        i := i + 1;
      }
      assert es[..i] == es;
      modified := true;
      err := None;
    }

    /** `clear_modified()`: the flag goes down, and when some value is a
        data object each value is cleared in key order; one that is not a
        data object raises, leaving those before it cleared. */
    method ClearModified() returns (err: Option<Error>)
      requires Valid()
      modifies this
      ensures Valid() && keys == old(keys) && values.Keys == old(values).Keys && !modified
      ensures (forall i :: 0 <= i < |keys| ==> !old(values)[keys[i]].Object?) ==> values == old(values) && err.None?
      ensures (exists i :: 0 <= i < |keys| && old(values)[keys[i]].Object?) ==>
        (var n := FirstNonObject(ValuesInOrder(keys, old(values)));
         (forall j :: 0 <= j < |keys| ==> values[keys[j]] == if j < n then Cleared(old(values)[keys[j]]) else old(values)[keys[j]])
         && (err.None? <==> n == |keys|))
      ensures err.None? ==> IsModified() == Some(false)
    {
      values, err := ClearDict(keys, values);
      modified := false;
    }
  }

  // ----- Reference -----

  /** A document class: its name and its collection's name. */
  datatype DocumentClass = DocumentClass(name: string, collection: string)

  /** A reference to the document of class `documentCls` with key `pk`. */
  datatype Reference = Reference(documentCls: DocumentClass, pk: PyVal)

  /** What a Reference can be compared with. */
  datatype Comparand =
    | Document(cls: DocumentClass, pk: PyVal)    // an instance of a document class
    | Ref(r: Reference)
    | DBRef(collection: string, id: PyVal)
    | Other

  /** `Reference.__eq__`; None is NotImplemented. */
  function RefEquals(a: Reference, other: Comparand): (r: Option<bool>)
    ensures other.Ref? ==> r == Some(a.pk == other.r.pk && a.documentCls == other.r.documentCls)
    ensures other.Other? ==> r == None
  {
    match other
    case Document(cls, pk) => if cls == a.documentCls then Some(pk == a.pk) else None
    case Ref(o) => Some(a.pk == o.pk && a.documentCls == o.documentCls)
    case DBRef(collection, id) => Some(a.pk == id && a.documentCls.collection == collection)
    case Other => None
  }

  /** Between References, equality is the identity of (class, pk): it is
      reflexive, symmetric and transitive. */
  lemma RefEqualsIsEquivalence(a: Reference, b: Reference, c: Reference)
    ensures RefEquals(a, Ref(a)) == Some(true)
    ensures RefEquals(a, Ref(b)) == RefEquals(b, Ref(a))
    ensures RefEquals(a, Ref(b)) == Some(true) && RefEquals(b, Ref(c)) == Some(true) ==> RefEquals(a, Ref(c)) == Some(true)
    ensures RefEquals(a, Ref(b)) == Some(true) <==> a == b
  {
  }

  /** A Reference equals a document of its class with its pk, and the
      DBRef of its collection and pk. */
  lemma RefEqualsDocument(a: Reference)
    ensures RefEquals(a, Document(a.documentCls, a.pk)) == Some(true)
    ensures RefEquals(a, DBRef(a.documentCls.collection, a.pk)) == Some(true)
  {
  }
}
