/**
 * Evaluating a printer column's path on an object. How numbers and whole objects are written as text
 * is a parameter.
 */
module JsonPathEval {

  import opened JsText
  import opened JsonPath
  import opened Optional

  datatype Json =
    | Null
    | Bool(b: bool)
    | Num(n: real)
    | Str(s: string)
    | Arr(items: seq<Json>)
    | Obj(fields: seq<(string, Json)>)

  function Field(fields: seq<(string, Json)>, key: string): Option<Json>
  {
    if fields == [] then None
    else if fields[0].0 == key then Some(fields[0].1)
    else Field(fields[1..], key)
  }

  function ScalarText(show: real -> string, v: Json): Option<string>
  {
    match v
    case Str(s) => Some(s)
    case Num(n) => Some(show(n))
    case Bool(b) => Some(if b then "true" else "false")
    case _ => None
  }

  function Descend(v: Option<Json>, path: seq<string>): Option<Json>
    decreases |path|
  {
    if path == [] then v
    else if v.None? || !v.value.Obj? then None
    else Descend(Field(v.value.fields, path[0]), path[1..])
  }

  predicate FilterMatches(show: real -> string, v: Json, path: seq<string>, value: string)
  {
    var found := Descend(Some(v), path);
    found.Some? && ScalarText(show, found.value) == Some(value)
  }

  function Kept(show: real -> string, items: seq<Json>, path: seq<string>, value: string): seq<Option<Json>>
  {
    if items == [] then []
    else
      var rest := Kept(show, items[1..], path, value);
      if FilterMatches(show, items[0], path, value) then [Some(items[0])] + rest else rest
  }

  function All(items: seq<Json>): seq<Option<Json>>
  {
    seq(|items|, i requires 0 <= i < |items| => Some(items[i]))
  }

  function Values(fields: seq<(string, Json)>): seq<Option<Json>>
  {
    seq(|fields|, i requires 0 <= i < |fields| => Some(fields[i].1))
  }

  /** What one segment selects from one value; None is JavaScript's undefined. */
  function Select(show: real -> string, v: Option<Json>, segment: Segment): seq<Option<Json>>
  {
    if v.None? || v.value.Null? then []
    else
      match segment
      case Key(key) =>
        if key == "*" then
          if v.value.Arr? then All(v.value.items) else if v.value.Obj? then Values(v.value.fields) else []
        else if v.value.Obj? then [Field(v.value.fields, key)] else []
      case Index(n) =>
        if v.value.Arr? then [if 0 <= n < |v.value.items| then Some(v.value.items[n]) else None] else []
      case Filter(path, value) =>
        if v.value.Arr? then Kept(show, v.value.items, path, value) else []
  }

  /** One round of the evaluator over all values at once. */
  function SelectAll(show: real -> string, values: seq<Option<Json>>, segment: Segment): seq<Option<Json>>
  {
    if values == [] then [] else Select(show, values[0], segment) + SelectAll(show, values[1..], segment)
  }

  function Evaluate(show: real -> string, values: seq<Option<Json>>, segments: seq<Segment>): seq<Option<Json>>
    decreases |segments|
  {
    if segments == [] then values
    else Evaluate(show, SelectAll(show, values, segments[0]), segments[1..])
  }

  lemma {:induction false} SelectAllConcat(show: real -> string, a: seq<Option<Json>>, b: seq<Option<Json>>,
                                           segment: Segment)
    ensures SelectAll(show, a + b, segment) == SelectAll(show, a, segment) + SelectAll(show, b, segment)
  {
    if a == [] {
      assert a + b == b;
    } else {
      assert (a + b)[1..] == a[1..] + b;
      SelectAllConcat(show, a[1..], b, segment);
    }
  }

  /** Evaluating a longer path is evaluating its parts one after the other. */
  lemma {:induction false} EvaluateComposes(show: real -> string, values: seq<Option<Json>>, first: seq<Segment>,
                                            second: seq<Segment>)
    ensures Evaluate(show, values, first + second) == Evaluate(show, Evaluate(show, values, first), second)
    decreases |first|
  {
    if first == [] {
      assert first + second == second;
    } else {
      assert (first + second)[1..] == first[1..] + second;
      EvaluateComposes(show, SelectAll(show, values, first[0]), first[1..], second);
    }
  }

  /** The same for the texts of two paths, written one after the other. */
  lemma TextsCompose(show: real -> string, obj: Json, first: seq<Segment>, second: seq<Segment>)
    requires forall segment | segment in first + second :: Printable(segment)
    requires !EndsInSpace(first + second)
    ensures ParsePath(Show(first) + Show(second)) == Some(first + second)
    ensures Evaluate(show, [Some(obj)], ParsePath(Show(first) + Show(second)).value)
         == Evaluate(show, Evaluate(show, [Some(obj)], first), second)
  {
    ShowConcat(first, second);
    RoundTripExactly(first + second);
    EvaluateComposes(show, [Some(obj)], first, second);
  }

  lemma {:induction false} ShowConcat(first: seq<Segment>, second: seq<Segment>)
    ensures Show(first + second) == Show(first) + Show(second)
  {
    if first == [] {
      assert first + second == second;
    } else {
      assert (first + second)[1..] == first[1..] + second;
      ShowConcat(first[1..], second);
    }
  }

  /** Depth first: one value at a time, all the way down. */
  function Walk(show: real -> string, v: Option<Json>, segments: seq<Segment>): seq<Option<Json>>
    decreases |segments|, 1, 0
  {
    if segments == [] then [v] else WalkAll(show, Select(show, v, segments[0]), segments[1..])
  }

  function WalkAll(show: real -> string, values: seq<Option<Json>>, segments: seq<Segment>): seq<Option<Json>>
    decreases |segments|, 2, |values|
  {
    if values == [] then [] else Walk(show, values[0], segments) + WalkAll(show, values[1..], segments)
  }

  lemma {:induction false} EvaluateConcat(show: real -> string, a: seq<Option<Json>>, b: seq<Option<Json>>,
                                          segments: seq<Segment>)
    ensures Evaluate(show, a + b, segments) == Evaluate(show, a, segments) + Evaluate(show, b, segments)
    decreases |segments|
  {
    if segments != [] {
      SelectAllConcat(show, a, b, segments[0]);
      EvaluateConcat(show, SelectAll(show, a, segments[0]), SelectAll(show, b, segments[0]), segments[1..]);
    }
  }

  lemma {:induction false} EvaluateNothing(show: real -> string, segments: seq<Segment>)
    ensures Evaluate(show, [], segments) == []
    decreases |segments|
  {
    if segments != [] {
      EvaluateNothing(show, segments[1..]);
    }
  }

  /** Round by round or depth first: the same values in the same order, as often. */
  lemma {:induction false} EvaluateIsWalk(show: real -> string, values: seq<Option<Json>>, segments: seq<Segment>)
    ensures Evaluate(show, values, segments) == WalkAll(show, values, segments)
    decreases |segments|, |values|
  {
    if values == [] {
      EvaluateNothing(show, segments);
    } else {
      EvaluateConcat(show, values[..1], values[1..], segments);
      assert values == values[..1] + values[1..];
      EvaluateIsWalk(show, values[1..], segments);
      if segments != [] {
        assert SelectAll(show, values[..1], segments[0]) == Select(show, values[0], segments[0]) by {
          assert values[..1][1..] == [];
        }
        EvaluateIsWalk(show, Select(show, values[0], segments[0]), segments[1..]);
      } else {
        assert values[..1] == [values[0]];
      }
    }
  }

  lemma EvaluateOne(show: real -> string, v: Option<Json>, segments: seq<Segment>)
    ensures Evaluate(show, [v], segments) == Walk(show, v, segments)
  {
    EvaluateIsWalk(show, [v], segments);
    assert WalkAll(show, [v], segments) == Walk(show, v, segments) + WalkAll(show, [v][1..], segments);
  }

  // ---- What a segment means ------------------------------------------------------------------------

  /** The value stored under a key. */
  ghost predicate Stored(fields: seq<(string, Json)>, key: string, value: Json)
  {
    exists n :: 0 <= n < |fields| && fields[n] == (key, value) && forall m | 0 <= m < n :: fields[m].0 != key
  }

  /** Following the keys, object after object, leads to the value. */
  ghost predicate Along(v: Json, keys: seq<string>, value: Json)
    decreases |keys|
  {
    if keys == [] then v == value
    else v.Obj? && exists next :: Stored(v.fields, keys[0], next) && Along(next, keys[1..], value)
  }

  ghost predicate HasText(show: real -> string, v: Json, text: string)
  {
    || v == Str(text) || (v.Num? && show(v.n) == text)
    || (v == Bool(true) && text == "true") || (v == Bool(false) && text == "false")
  }

  ghost predicate Passes(show: real -> string, v: Json, path: seq<string>, text: string)
  {
    exists found :: Along(v, path, found) && HasText(show, found, text)
  }

  lemma {:induction false} FieldIsStored(fields: seq<(string, Json)>, key: string)
    ensures Field(fields, key).Some? ==> Stored(fields, key, Field(fields, key).value)
    ensures forall value | Stored(fields, key, value) :: Field(fields, key) == Some(value)
  {
    if fields != [] {
      FieldIsStored(fields[1..], key);
      if fields[0].0 != key {
        StoredFurther(fields, key);
      }
    }
  }

  lemma StoredFurther(fields: seq<(string, Json)>, key: string)
    requires fields != [] && fields[0].0 != key
    ensures forall value :: Stored(fields, key, value) <==> Stored(fields[1..], key, value)
  {
    forall value | Stored(fields[1..], key, value) ensures Stored(fields, key, value) {
      var n :| 0 <= n < |fields[1..]| && fields[1..][n] == (key, value)
               && forall m | 0 <= m < n :: fields[1..][m].0 != key;
      assert fields[n + 1] == (key, value);
      forall m | 0 <= m < n + 1 ensures fields[m].0 != key {
        assert m > 0 ==> fields[1..][m - 1] == fields[m];
      }
    }
    forall value | Stored(fields, key, value) ensures Stored(fields[1..], key, value) {
      var n :| 0 <= n < |fields| && fields[n] == (key, value) && forall m | 0 <= m < n :: fields[m].0 != key;
      assert fields[1..][n - 1] == (key, value);
    }
  }

  lemma {:induction false} DescendIsAlong(v: Json, keys: seq<string>)
    ensures Descend(Some(v), keys).Some? ==> Along(v, keys, Descend(Some(v), keys).value)
    ensures forall value | Along(v, keys, value) :: Descend(Some(v), keys) == Some(value)
    decreases |keys|
  {
    if keys != [] && v.Obj? {
      FieldIsStored(v.fields, keys[0]);
      var next := Field(v.fields, keys[0]);
      if next.Some? {
        DescendIsAlong(next.value, keys[1..]);
      } else {
        assert Descend(next, keys[1..]).None?;
      }
    }
  }

  lemma FilterIsPassing(show: real -> string, v: Json, path: seq<string>, text: string)
    ensures FilterMatches(show, v, path, text) <==> Passes(show, v, path, text)
  {
    DescendIsAlong(v, path);
  }

  lemma {:induction false} KeptConcat(show: real -> string, a: seq<Json>, b: seq<Json>, path: seq<string>, text: string)
    ensures Kept(show, a + b, path, text) == Kept(show, a, path, text) + Kept(show, b, path, text)
  {
    if a == [] {
      assert a + b == b;
    } else {
      assert (a + b)[1..] == a[1..] + b;
      KeptConcat(show, a[1..], b, path, text);
    }
  }

  /** A filter keeps, in order and as often, the items that have the text along its path, and no others. */
  lemma FilterMeans(show: real -> string, before: seq<Json>, item: Json, after: seq<Json>, path: seq<string>,
                    text: string)
    ensures Select(show, Some(Arr([])), Filter(path, text)) == []
    ensures Select(show, Some(Arr(before + [item] + after)), Filter(path, text))
         == Select(show, Some(Arr(before)), Filter(path, text))
            + (if Passes(show, item, path, text) then [Some(item)] else [])
            + Select(show, Some(Arr(after)), Filter(path, text))
  {
    KeptConcat(show, before, [item], path, text);
    KeptConcat(show, before + [item], after, path, text);
    FilterIsPassing(show, item, path, text);
    assert [item][1..] == [];
  }

  /** A key leads to what is stored under it, and to undefined if nothing is. */
  lemma KeyMeans(show: real -> string, fields: seq<(string, Json)>, key: string)
    requires key != "*"
    ensures forall value | Stored(fields, key, value) :: Select(show, Some(Obj(fields)), Key(key)) == [Some(value)]
    ensures (forall n | 0 <= n < |fields| :: fields[n].0 != key) ==> Select(show, Some(Obj(fields)), Key(key)) == [None]
  {
    FieldIsStored(fields, key);
    var found := Field(fields, key);
    if found.Some? {
      var n :| 0 <= n < |fields| && fields[n] == (key, found.value);
    }
  }

  /** An index leads to its item, and to undefined outside the list. */
  lemma IndexMeans(show: real -> string, before: seq<Json>, item: Json, after: seq<Json>, n: int)
    ensures Select(show, Some(Arr(before + [item] + after)), Index(|before|)) == [Some(item)]
    ensures n < 0 || n >= |before| ==> Select(show, Some(Arr(before)), Index(n)) == [None]
  {
  }

  /** The wildcard leads to all items of a list, and to all values of an object, in order. */
  lemma WildcardMeans(show: real -> string, items: seq<Json>, fields: seq<(string, Json)>)
    ensures var all := Select(show, Some(Arr(items)), Key("*"));
            |all| == |items| && forall i | 0 <= i < |items| :: all[i] == Some(items[i])
    ensures var all := Select(show, Some(Obj(fields)), Key("*"));
            |all| == |fields| && forall i | 0 <= i < |fields| :: all[i] == Some(fields[i].1)
  {
  }

  predicate IsScalar(v: Json)
  {
    !v.Arr? && !v.Obj?
  }

  /** Everywhere else a segment leads nowhere. */
  lemma NothingElse(show: real -> string, v: Json, items: seq<Json>, fields: seq<(string, Json)>, segment: Segment)
    ensures Select(show, None, segment) == []
    ensures IsScalar(v) ==> Select(show, Some(v), segment) == []
    ensures segment.Key? && segment != Key("*") ==> Select(show, Some(Arr(items)), segment) == []
    ensures !segment.Key? ==> Select(show, Some(Obj(fields)), segment) == []
  {
  }

  function Keys(keys: seq<string>): (segments: seq<Segment>)
    ensures |segments| == |keys| && forall i | 0 <= i < |keys| :: segments[i] == Key(keys[i])
  {
    seq(|keys|, i requires 0 <= i < |keys| => Key(keys[i]))
  }

  lemma {:induction false} WalkAlong(show: real -> string, v: Json, keys: seq<string>, value: Json)
    requires Along(v, keys, value) && forall i | 0 <= i < |keys| :: keys[i] != "*"
    ensures Walk(show, Some(v), Keys(keys)) == [Some(value)]
    decreases |keys|
  {
    if keys != [] {
      var next :| Stored(v.fields, keys[0], next) && Along(next, keys[1..], value);
      KeyMeans(show, v.fields, keys[0]);
      WalkAlong(show, next, keys[1..], value);
      assert Keys(keys)[1..] == Keys(keys[1..]);
      var selected := [Some(next)];
      assert selected[1..] == [];
      assert WalkAll(show, selected, Keys(keys)[1..]) == Walk(show, selected[0], Keys(keys)[1..]);
    }
  }

  // ---- The evaluator -----------------------------------------------------------------------------

  function Defined(values: seq<Option<Json>>): seq<Json>
  {
    if values == [] then []
    else (if values[0].Some? && !values[0].value.Null? then [values[0].value] else []) + Defined(values[1..])
  }

  function Text(show: real -> string, stringify: Json -> string, v: Json): string
  {
    match ScalarText(show, v)
    case Some(text) => text
    case None => stringify(v)
  }

  function Texts(show: real -> string, stringify: Json -> string, values: seq<Json>): seq<string>
  {
    seq(|values|, i requires 0 <= i < |values| => Text(show, stringify, values[i]))
  }

  /** The value of a column: nothing, the one value found, or the texts of several. */
  function Column(show: real -> string, stringify: Json -> string, values: seq<Option<Json>>): Option<Json>
  {
    var defined := Defined(values);
    if |defined| == 0 then None
    else if |defined| == 1 then Some(defined[0])
    else Some(Str(Join(Texts(show, stringify, defined), ",")))
  }

  /** A value's text: scalars as they are, anything else as the platform writes it. */
  ghost predicate ShowsAs(show: real -> string, stringify: Json -> string, v: Json, text: string)
  {
    if v.Arr? || v.Obj? then text == stringify(v) else HasText(show, v, text)
  }

  lemma {:induction false} DefinedConcat(a: seq<Option<Json>>, b: seq<Option<Json>>)
    ensures Defined(a + b) == Defined(a) + Defined(b)
  {
    if a == [] {
      assert a + b == b;
    } else {
      assert (a + b)[1..] == a[1..] + b;
      DefinedConcat(a[1..], b);
    }
  }

  lemma DefinedOne(v: Option<Json>)
    ensures Defined([v]) == if v.Some? && !v.value.Null? then [v.value] else []
  {
    assert [v][1..] == [];
  }

  /** Null and undefined never show. */
  lemma MissingNeverShows(show: real -> string, stringify: Json -> string, a: seq<Option<Json>>, b: seq<Option<Json>>)
    ensures Column(show, stringify, a + [None] + b) == Column(show, stringify, a + b)
    ensures Column(show, stringify, a + [Some(Null)] + b) == Column(show, stringify, a + b)
  {
    DefinedConcat(a, b);
    DefinedConcat(a, [None]);
    DefinedConcat(a + [None], b);
    DefinedConcat(a, [Some(Null)]);
    DefinedConcat(a + [Some(Null)], b);
    DefinedOne(None);
    DefinedOne(Some(Null));
    assert Defined(a) + [] == Defined(a);
  }

  lemma {:induction false} AllDefined(values: seq<Json>)
    requires forall i | 0 <= i < |values| :: !values[i].Null?
    ensures Defined(All(values)) == values
  {
    if values != [] {
      AllDefined(values[1..]);
      assert All(values)[1..] == All(values[1..]);
      assert values == [values[0]] + values[1..];
    }
  }

  /** No value gives no column, one value itself, and several their texts with commas between them. */
  lemma ColumnMeans(show: real -> string, stringify: Json -> string, values: seq<Json>, texts: seq<string>)
    requires |texts| == |values| && forall i | 0 <= i < |values| :: !values[i].Null?
    requires forall i | 0 <= i < |values| :: ShowsAs(show, stringify, values[i], texts[i])
    ensures Column(show, stringify, All(values))
         == if values == [] then None else if |values| == 1 then Some(values[0]) else Some(Str(Join(texts, ",")))
  {
    AllDefined(values);
    assert Texts(show, stringify, values) == texts;
  }

  /** The column of a path of keys is the value stored there. */
  lemma KeyColumn(show: real -> string, stringify: Json -> string, obj: Json, keys: seq<string>, value: Json)
    requires Along(obj, keys, value) && !value.Null? && forall i | 0 <= i < |keys| :: keys[i] != "*"
    ensures Column(show, stringify, Walk(show, Some(obj), Keys(keys))) == Some(value)
  {
    WalkAlong(show, obj, keys, value);
    AllDefined([value]);
    assert All([value]) == [Some(value)];
  }

  lemma SelectNext(show: real -> string, values: seq<Option<Json>>, i: nat, segment: Segment,
                   before: seq<Option<Json>>)
    requires i < |values|
    ensures before + SelectAll(show, values[i..], segment)
         == before + Select(show, values[i], segment) + SelectAll(show, values[i + 1..], segment)
  {
    assert values[i..][1..] == values[i + 1..];
  }

  class PrinterColumns {
    var parsed: map<string, Option<seq<Segment>>>
    const show: real -> string
    const stringify: Json -> string

    ghost predicate Valid()
      reads this
    {
      forall path | path in parsed :: parsed[path] == ParsePath(path)
    }

    constructor (show: real -> string, stringify: Json -> string)
      ensures Valid() && this.show == show && this.stringify == stringify
    {
      parsed, this.show, this.stringify := map[], show, stringify;
    }

    /** The cache of read paths makes no difference. */
    method Segments(jsonPath: string) returns (segments: Option<seq<Segment>>)
      requires Valid()
      modifies this`parsed
      ensures Valid() && segments == ParsePath(jsonPath)
    {
      if jsonPath in parsed {
        return parsed[jsonPath];
      }
      segments := Parse(Stripped(jsonPath));
      parsed := parsed[jsonPath := segments];
    }

    /** The column is read off what the path reaches, depth first. */
    method ColumnOf(obj: Option<Json>, jsonPath: string) returns (value: Option<Json>)
      requires Valid()
      modifies this`parsed
      ensures Valid()
      ensures value == match ParsePath(jsonPath)
                       case None => None
                       case Some(segments) => Column(show, stringify, Walk(show, obj, segments))
    {
      var segments := Segments(jsonPath);
      if segments.None? {
        return None;
      }
      var values := Rounds(obj, segments.value);
      EvaluateOne(show, obj, segments.value);
      value := Column(show, stringify, values);
    }

    method Rounds(obj: Option<Json>, segments: seq<Segment>) returns (values: seq<Option<Json>>)
      ensures values == Evaluate(show, [obj], segments)
    {
      values := [obj];
      for i := 0 to |segments|
        invariant Evaluate(show, [obj], segments) == Evaluate(show, values, segments[i..])
      {
        assert segments[i..][1..] == segments[i + 1..];
        values := Round(values, segments[i]);
      }
    }

    method Round(values: seq<Option<Json>>, segment: Segment) returns (next: seq<Option<Json>>)
      ensures next == SelectAll(show, values, segment)
    {
      next := [];
      for i := 0 to |values|
        invariant SelectAll(show, values, segment) == next + SelectAll(show, values[i..], segment)
      {
        SelectNext(show, values, i, segment, next);
        next := next + Select(show, values[i], segment);
      }
    }
  }
}
