/** How a schema declaration becomes path types, and which values a path
    accepts. A field declared by an object literal is a nested path, except
    that an object literal with a `type` key declares a single path of that
    type, its other keys being options; only when `type` is itself an object
    literal with its own `type` key is `type` an ordinary nested field. A
    value is cast to its path when a document is built or an update is
    applied; a value that does not cast fails the write. Keys a nested path
    does not declare are dropped (strict mode). */
module SchemaPaths {
  import opened Wrappers
  import opened Text

  /** A value as the handlers build it. An absent (`undefined`) field is a
      key missing from its object. */
  datatype JsValue =
    | JsString(s: string)
    | JsNumber(n: real)
    | JsBool(b: bool)
    | JsDate(t: int)
    | JsNull
    | JsArray(items: seq<JsValue>)
    | JsObject(fields: map<string, JsValue>)

  /** A declaration as written in a schema: a type constructor by name
      (`String`, `Number`, …), an object literal with its entries in order,
      a one-element array literal, or an option value (a default, a flag)
      that is not a type. */
  datatype Decl =
    | Ctor(name: string)
    | ObjectDecl(entries: seq<(string, Decl)>)
    | ArrayDecl(elem: Decl)
    | OptionValue

  datatype PathType =
    | StringPath
    | NumberPath
    | BooleanPath
    | DatePath
    | MixedPath
    | NestedPath(fields: seq<(string, PathType)>)
    | ArrayPath(elem: PathType)

  function CtorType(name: string): PathType {
    if name == "String" then StringPath
    else if name == "Number" then NumberPath
    else if name == "Boolean" then BooleanPath
    else if name == "Date" then DatePath
    else MixedPath
  }

  /** The position of the first entry named `key`. */
  function IndexOf(entries: seq<(string, Decl)>, key: string): (r: Option<nat>)
    ensures r.Some? ==> r.value < |entries| && entries[r.value].0 == key
    ensures r.None? <==> forall i :: 0 <= i < |entries| ==> entries[i].0 != key
  {
    if |entries| == 0 then None
    else if entries[0].0 == key then Some(0)
    else
      match IndexOf(entries[1..], key)
      case None => None
      case Some(i) => Some(i + 1)
  }

  /** An object literal whose `type` entry is itself an object literal with a
      `type` entry: `type` is then an ordinary field. */
  predicate TypeIsField(entries: seq<(string, Decl)>) {
    var i := IndexOf(entries, "type");
    i.Some? && entries[i.value].1.ObjectDecl? && IndexOf(entries[i.value].1.entries, "type").Some?
  }

  /** The path type a declaration gives. */
  function Interpret(d: Decl): PathType
    decreases d, 1, 0
  {
    match d
    case Ctor(name) => CtorType(name)
    case ArrayDecl(elem) => ArrayPath(Interpret(elem))
    case OptionValue => MixedPath
    case ObjectDecl(entries) =>
      var i := IndexOf(entries, "type");
      if |entries| == 0 then MixedPath
      else if i.None? || TypeIsField(entries) then
        NestedPath(InterpretEntries(d, 0))
      else if entries[i.value].1.ObjectDecl? then MixedPath
      else Interpret(entries[i.value].1)
  }

  /** The fields of a nested path: the entries of `d` from `from` on, in
      order, each with its type. */
  function InterpretEntries(d: Decl, from: nat): (r: seq<(string, PathType)>)
    requires d.ObjectDecl? && from <= |d.entries|
    decreases d, 0, |d.entries| - from
    ensures |r| == |d.entries| - from
    ensures forall k :: 0 <= k < |r| ==> r[k] == (d.entries[from + k].0, Interpret(d.entries[from + k].1))
  {
    if from == |d.entries| then []
    else [(d.entries[from].0, Interpret(d.entries[from].1))] + InterpretEntries(d, from + 1)
  }

  /** The declared type of a nested path's field. */
  function FieldType(t: PathType, key: string): (r: Option<PathType>)
    ensures r.Some? ==> t.NestedPath? && exists i :: 0 <= i < |t.fields| && t.fields[i] == (key, r.value)
    ensures r.None? ==> !t.NestedPath? || forall i :: 0 <= i < |t.fields| ==> t.fields[i].0 != key
  {
    if !t.NestedPath? then None else FirstField(t.fields, key)
  }

  function FirstField(fields: seq<(string, PathType)>, key: string): (r: Option<PathType>)
    ensures r.Some? ==> exists i :: 0 <= i < |fields| && fields[i] == (key, r.value)
    ensures r.None? ==> forall i :: 0 <= i < |fields| ==> fields[i].0 != key
  {
    if |fields| == 0 then None
    else if fields[0].0 == key then Some(fields[0].1)
    else
      var r := FirstField(fields[1..], key);
      assert forall i :: 0 < i < |fields| ==> fields[i] == fields[1..][i - 1];
      r
  }

  predicate DigitString(s: string) {
    |s| > 0 && forall i :: 0 <= i < |s| ==> IsDigit(s[i])
  }

  /** A value casts to a path of type `t`. Strings: anything with its own
      string conversion (numbers, booleans, dates) or an object carrying a
      string `_id`; never a plain object or an array. Numbers: numbers,
      booleans, the empty string and digit strings. Booleans: `true`,
      `false`, 1, 0 and the strings "true", "false", "1", "0", "yes", "no".
      Dates: dates, numbers, booleans and digit strings. A nested path takes
      an object whose declared fields cast; an array path takes an array of
      castable items or one castable item. `null` casts to every path. */
  predicate Castable(t: PathType, v: JsValue)
    decreases t
  {
    v.JsNull? ||
    match t
    case MixedPath => true
    case StringPath =>
      || v.JsString? || v.JsNumber? || v.JsBool? || v.JsDate?
      || (v.JsObject? && "_id" in v.fields && v.fields["_id"].JsString?)
    case NumberPath =>
      v.JsNumber? || v.JsBool? || (v.JsString? && (v.s == "" || DigitString(v.s)))
    case BooleanPath =>
      || v.JsBool?
      || (v.JsNumber? && (v.n == 0.0 || v.n == 1.0))
      || (v.JsString? && v.s in ["true", "false", "1", "0", "yes", "no"])
    case DatePath =>
      v.JsDate? || v.JsNumber? || v.JsBool? || (v.JsString? && DigitString(v.s))
    case NestedPath(fields) =>
      v.JsObject? &&
      forall i :: 0 <= i < |fields| && fields[i].0 in v.fields ==> Castable(fields[i].1, v.fields[fields[i].0])
    case ArrayPath(elem) =>
      if v.JsArray? then forall i :: 0 <= i < |v.items| ==> Castable(elem, v.items[i])
      else Castable(elem, v)
  }

  /** The type-key rule: once `type` names a type, the other entries of the
      literal are options and do not shape the path. */
  lemma TypeKeyIgnoresOptions(ty: Decl, before: seq<(string, Decl)>, after: seq<(string, Decl)>)
    requires !ty.ObjectDecl?
    requires forall i :: 0 <= i < |before| ==> before[i].0 != "type"
    ensures Interpret(ObjectDecl(before + [("type", ty)] + after)) == Interpret(ty)
  {
    var entries := before + [("type", ty)] + after;
    assert entries[|before|] == ("type", ty);
    IndexOfIsFirst(entries, "type", |before|);
    var i := IndexOf(entries, "type").value;
    assert forall k :: 0 <= k < |before| ==> entries[k] == before[k];
    assert i == |before|;
    assert !TypeIsField(entries);
  }

  lemma {:induction false} IndexOfIsFirst(entries: seq<(string, Decl)>, key: string, j: nat)
    requires j < |entries| && entries[j].0 == key
    ensures IndexOf(entries, key).Some? && IndexOf(entries, key).value <= j
  {
    if j > 0 && entries[0].0 != key {
      IndexOfIsFirst(entries[1..], key, j - 1);
    }
  }

  /** The value as stored. A nested path keeps only the keys it declares
      (strict mode); other values are stored as given. The projection is
      taken at the top level, which is all the flat values pushed here need. */
  function Strict(t: PathType, v: JsValue): (r: JsValue)
    ensures !(t.NestedPath? && v.JsObject?) ==> r == v
    ensures t.NestedPath? && v.JsObject? ==>
      && r.JsObject?
      && (forall k :: k in r.fields <==> k in v.fields && FieldType(t, k).Some?)
      && (forall k :: k in r.fields ==> r.fields[k] == v.fields[k])
  {
    if t.NestedPath? && v.JsObject? then JsObject(map k | k in v.fields && FieldType(t, k).Some? :: v.fields[k])
    else v
  }

  /** A plain object, one without a string `_id`, never casts to a String path. */
  lemma StringRejectsPlainObject(fields: map<string, JsValue>)
    requires "_id" !in fields || !fields["_id"].JsString?
    ensures !Castable(StringPath, JsObject(fields))
    ensures !Castable(ArrayPath(StringPath), JsObject(fields))
    ensures !Castable(ArrayPath(StringPath), JsArray([JsObject(fields)]))
  {
    assert JsArray([JsObject(fields)]).items[0] == JsObject(fields);
  }

  /** Keys the path does not declare never fail the cast (strict mode). */
  lemma NestedCastByField(fields: seq<(string, PathType)>, m: map<string, JsValue>, key: string, v: JsValue)
    requires Castable(NestedPath(fields), JsObject(m))
    ensures (forall i :: 0 <= i < |fields| ==> fields[i].0 != key) ==> Castable(NestedPath(fields), JsObject(m[key := v]))
  {
  }

  /** One declared field its type rejects fails the whole object. */
  lemma NestedRejectsBadField(fields: seq<(string, PathType)>, m: map<string, JsValue>, key: string, t: PathType)
    requires FieldType(NestedPath(fields), key) == Some(t)
    requires key in m && !Castable(t, m[key])
    ensures !Castable(NestedPath(fields), JsObject(m))
  {
    var i :| 0 <= i < |fields| && fields[i] == (key, t);
    assert fields[i].0 in m && !Castable(fields[i].1, m[fields[i].0]);
  }
}
