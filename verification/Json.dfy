/** JSON values as serde_json holds them, with fields in order, and the accessors used on them. */
module Json {
  import opened Options
  import Utf8

  datatype Value =
    | Null
    | Bool(b: bool)
    | Int(n: int)
    | Float(text: string)
    | Str(s: string)
    | Arr(items: seq<Value>)
    | Obj(fields: seq<(string, Value)>)

  const I64_MIN: int := -0x8000_0000_0000_0000
  const I64_MAX: int := 0x7FFF_FFFF_FFFF_FFFF

  /** `Value::get` with a string key: nothing on a value that is not an object. */
  function Get(v: Value, key: string): Option<Value> {
    if v.Obj? then Field(v.fields, key) else None
  }

  function Field(fields: seq<(string, Value)>, key: string): (r: Option<Value>)
    ensures r.Some? ==> exists i :: 0 <= i < |fields| && fields[i] == (key, r.value)
    ensures r.None? ==> forall i :: 0 <= i < |fields| ==> fields[i].0 != key
  {
    if fields == [] then None
    else if fields[0].0 == key then
      assert fields[0] == (key, fields[0].1);
      Some(fields[0].1)
    else Field(fields[1..], key)
  }

  lemma {:induction false} FieldIs(fields: seq<(string, Value)>, i: nat)
    requires i < |fields| && forall j :: 0 <= j < i ==> fields[j].0 != fields[i].0
    ensures Field(fields, fields[i].0) == Some(fields[i].1)
  {
    if i > 0 {
      FieldIs(fields[1..], i - 1);
    }
  }

  /** `Map::insert`: in place when the key is there, else at the end. */
  function SetField(fields: seq<(string, Value)>, key: string, v: Value): (r: seq<(string, Value)>)
    ensures Field(r, key) == Some(v)
    ensures forall k :: k != key ==> Field(r, k) == Field(fields, k)
  {
    if fields == [] then [(key, v)]
    else if fields[0].0 == key then [(key, v)] + fields[1..]
    else [fields[0]] + SetField(fields[1..], key, v)
  }

  function Put(v: Value, key: string, x: Value): (r: Value)
    ensures v.Obj? ==> Get(r, key) == Some(x)
    ensures forall k :: k != key ==> Get(r, k) == Get(v, k)
  {
    if v.Obj? then Obj(SetField(v.fields, key, x)) else v
  }

  /** `Map::remove`. */
  function DropField(fields: seq<(string, Value)>, key: string): (r: seq<(string, Value)>)
    ensures forall p :: p in r ==> p in fields && p.0 != key
    ensures forall k :: k != key ==> Field(r, k) == Field(fields, k)
  {
    if fields == [] then []
    else if fields[0].0 == key then DropField(fields[1..], key)
    else [fields[0]] + DropField(fields[1..], key)
  }

  function Drop(v: Value, key: string): (r: Value)
    ensures Get(r, key).None?
    ensures forall k :: k != key ==> Get(r, k) == Get(v, k)
  {
    if v.Obj? then Obj(DropField(v.fields, key)) else v
  }

  function AsStr(v: Option<Value>): Option<string> {
    if v.Some? && v.value.Str? then Some(v.value.s) else None
  }

  function AsArr(v: Option<Value>): Option<seq<Value>> {
    if v.Some? && v.value.Arr? then Some(v.value.items) else None
  }

  /** `as_i64` of a field or 0. */
  function IntOr0(v: Option<Value>): int {
    if v.Some? && v.value.Int? && I64_MIN <= v.value.n <= I64_MAX then v.value.n else 0
  }

  /** One token of a JSON pointer. Of the tokens used here only "0" can index an array. */
  function Child(v: Value, token: string): Option<Value> {
    if v.Arr? then (if token == "0" && v.items != [] then Some(v.items[0]) else None)
    else Get(v, token)
  }

  function Pointer(v: Value, path: seq<string>): Option<Value> {
    if path == [] then Some(v)
    else match Child(v, path[0])
      case None => None
      case Some(c) => Pointer(c, path[1..])
  }

  /** A path can only continue through what is there. */
  lemma {:induction false} PointerThrough(v: Value, path: seq<string>, more: seq<string>)
    ensures Pointer(v, path + more)
         == match Pointer(v, path) case Some(x) => Pointer(x, more) case None => None
    decreases |path|
  {
    if path == [] {
      assert path + more == more;
    } else {
      assert (path + more)[0] == path[0] && (path + more)[1..] == path[1..] + more;
      if Child(v, path[0]).Some? {
        PointerThrough(Child(v, path[0]).value, path[1..], more);
      }
    }
  }

  lemma PointerTwo(v: Value, outer: string, d: Value, inner: string)
    requires Get(v, outer) == Some(d) && inner != "0"
    ensures Pointer(v, [outer, inner]) == Get(d, inner)
  {
    assert [outer, inner][1..] == [inner] && [inner][1..] == [];
    assert v.Obj? && Child(d, inner) == Get(d, inner);
    match Get(d, inner)
    case Some(c) => assert Pointer(c, []) == Some(c);
    case None =>
  }

  /** `pointer_mut` followed by an assignment; nothing happens when the path leads nowhere. */
  function PutAt(v: Value, path: seq<string>, x: Value): Value
    decreases |path|
  {
    if path == [] then x
    else match Child(v, path[0])
      case None => v
      case Some(c) =>
        var c' := PutAt(c, path[1..], x);
        if v.Arr? then Arr(v.items[0 := c']) else Put(v, path[0], c')
  }

  lemma {:induction false} PutAtReads(v: Value, path: seq<string>, x: Value, more: seq<string>)
    requires Pointer(v, path).Some?
    ensures Pointer(PutAt(v, path, x), path + more) == Pointer(x, more)
    decreases |path|
  {
    if path == [] {
      assert path + more == more;
    } else {
      assert (path + more)[0] == path[0] && (path + more)[1..] == path[1..] + more;
      PutAtReads(Child(v, path[0]).value, path[1..], x, more);
    }
  }

  lemma PutAtElsewhere(v: Value, path: seq<string>, x: Value, key: string)
    requires path != [] && key != path[0]
    ensures v.Obj? ==> Get(PutAt(v, path, x), key) == Get(v, key)
  {
  }

  /** No object repeats a key. */
  ghost predicate WellFormed(v: Value) {
    match v
    case Arr(items) => forall i :: 0 <= i < |items| ==> WellFormed(items[i])
    case Obj(fields) =>
      (forall i, j :: 0 <= i < j < |fields| ==> fields[i].0 != fields[j].0) &&
      (forall i :: 0 <= i < |fields| ==> WellFormed(fields[i].1))
    case _ => true
  }

  lemma {:induction false} SetFieldWellFormed(fields: seq<(string, Value)>, key: string, v: Value)
    requires WellFormed(Obj(fields)) && WellFormed(v)
    ensures WellFormed(Obj(SetField(fields, key, v)))
  {
    if fields != [] && fields[0].0 != key {
      var rest := fields[1..];
      assert forall i :: 0 <= i < |rest| ==> rest[i] == fields[i + 1];
      SetFieldWellFormed(rest, key, v);
      SetFieldAvoids(rest, key, v, fields[0].0);
    }
  }

  lemma {:induction false} SetFieldAvoids(fields: seq<(string, Value)>, key: string, v: Value, other: string)
    requires other != key && forall i :: 0 <= i < |fields| ==> fields[i].0 != other
    ensures forall i :: 0 <= i < |SetField(fields, key, v)| ==> SetField(fields, key, v)[i].0 != other
  {
    if fields != [] && fields[0].0 != key {
      SetFieldAvoids(fields[1..], key, v, other);
    }
  }

  lemma PutWellFormed(v: Value, key: string, x: Value)
    requires WellFormed(v) && WellFormed(x)
    ensures WellFormed(Put(v, key, x))
  {
    if v.Obj? {
      SetFieldWellFormed(v.fields, key, x);
    }
  }

  lemma {:induction false} DropFieldWellFormed(fields: seq<(string, Value)>, key: string)
    requires WellFormed(Obj(fields))
    ensures WellFormed(Obj(DropField(fields, key)))
  {
    if fields != [] {
      var rest := fields[1..];
      assert forall i :: 0 <= i < |rest| ==> rest[i] == fields[i + 1];
      DropFieldWellFormed(rest, key);
      var r := DropField(rest, key);
      forall j | 0 <= j < |r| ensures r[j].0 != fields[0].0 {
        assert r[j] in r;
      }
    }
  }

  lemma {:induction false} PutAtWellFormed(v: Value, path: seq<string>, x: Value)
    requires WellFormed(v) && WellFormed(x)
    ensures WellFormed(PutAt(v, path, x))
    decreases |path|
  {
    if path != [] && Child(v, path[0]).Some? {
      ChildWellFormed(v, path[0]);
      var c' := PutAt(Child(v, path[0]).value, path[1..], x);
      PutAtWellFormed(Child(v, path[0]).value, path[1..], x);
      if !v.Arr? {
        PutWellFormed(v, path[0], c');
      }
    }
  }

  lemma ChildWellFormed(v: Value, token: string)
    requires WellFormed(v) && Child(v, token).Some?
    ensures WellFormed(Child(v, token).value)
  {
  }

  lemma {:induction false} PointerWellFormed(v: Value, path: seq<string>)
    requires WellFormed(v) && Pointer(v, path).Some?
    ensures WellFormed(Pointer(v, path).value)
    decreases |path|
  {
    if path != [] {
      ChildWellFormed(v, path[0]);
      PointerWellFormed(Child(v, path[0]).value, path[1..]);
    }
  }

  /**
    The JSON library as the program uses it: printing is compact, parsing may fail. `lossy` is
    the decoding that replaces ill-formed bytes.
  */
  datatype Codec = Codec(
    show: Value -> string,
    fromStr: string -> Option<Value>,
    fromSlice: seq<Utf8.byte> -> Option<Value>,
    lossy: seq<Utf8.byte> -> string)
  {
    ghost predicate ParsesWell(bs: seq<Utf8.byte>) {
      fromSlice(bs).Some? ==> bs != [] && WellFormed(fromSlice(bs).value)
    }

    /** What is assumed of it: parsing undoes printing, parsed objects repeat no key, empty input
        and empty text do not parse, printed text has no raw newline, a printed object is delimited by its
        braces, and decoding undoes UTF-8 encoding. */
    ghost predicate Sound() {
      (forall v: Value {:trigger show(v)} :: WellFormed(v) ==>
        fromStr(show(v)) == Some(v) && fromSlice(Utf8.Encode(show(v))) == Some(v)) &&
      (forall bs :: ParsesWell(bs)) &&
      (forall v: Value {:trigger show(v)} :: '\n' !in show(v)) &&
      (forall v: Value {:trigger show(v)} :: v.Obj? ==>
        |show(v)| >= 2 && show(v)[0] == '{' && show(v)[|show(v)| - 1] == '}') &&
      (forall s: string {:trigger Utf8.Encode(s)} :: lossy(Utf8.Encode(s)) == s) &&
      fromStr("").None?
    }
  }
}
