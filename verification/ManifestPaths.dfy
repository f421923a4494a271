/**
 * Reading and immutably writing a manifest under a path, on JavaScript's values: objects, arrays
 * (with whatever extra properties they carry), strings that are read character by character, and
 * missing values. A hole in an array reads as undefined.
 */
module ManifestPaths {

  /** A property name, or a name that is an array index. */
  datatype Key = Name(name: string) | Index(index: nat)

  datatype Value =
    | Undefined
    | Null
    | Bool(b: bool)
    | Num(n: real)
    | Str(s: string)
    | Arr(items: seq<Value>, props: map<Key, Value>)
    | Obj(fields: map<Key, Value>)

  /** A path element; whether it was written as a number decides what a missing container becomes. */
  datatype Step = Step(key: Key, numeric: bool)

  // ---- Reading and writing -------------------------------------------------------------------------

  function Field(fields: map<Key, Value>, key: Key): Value
  {
    if key in fields then fields[key] else Undefined
  }

  function Item(items: seq<Value>, key: Key): Value
  {
    if key.Index? && key.index < |items| then items[key.index] else Undefined
  }

  /** `container[key]` for arrays and objects. */
  function Member(container: Value, key: Key): Value
  {
    match container
    case Obj(fields) => Field(fields, key)
    case Arr(items, props) => if key.Index? then Item(items, key) else Field(props, key)
    case _ => Undefined
  }

  function GetIn(root: Value, path: seq<Step>): Value
    decreases |path|
  {
    if path == [] then root
    else if !root.Obj? && !root.Arr? then Undefined
    else GetIn(Member(root, path[0].key), path[1..])
  }

  method ReadIn(root: Value, path: seq<Step>) returns (value: Value)
    ensures value == GetIn(root, path)
  {
    value := root;
    for i := 0 to |path|
      invariant GetIn(root, path) == GetIn(value, path[i..])
    {
      assert path[i..][1..] == path[i + 1..];
      if !value.Obj? && !value.Arr? {
        return Undefined;
      }
      value := Member(value, path[i].key);
    }
  }

  /** What a write descends into: a missing value becomes an empty container. */
  function ContainerOf(root: Value, step: Step): Value
  {
    if root.Undefined? || root.Null? then if step.numeric then Arr([], map[]) else Obj(map[]) else root
  }

  function Characters(s: string): map<Key, Value>
  {
    map i: nat | i < |s| :: Index(i) := Str([s[i]])
  }

  /** `{ ...container }`: a string spreads into its characters, other scalars into nothing. */
  function Spread(container: Value): map<Key, Value>
  {
    match container
    case Obj(fields) => fields
    case Str(s) => Characters(s)
    case _ => map[]
  }

  function ChildOf(container: Value, key: Key): Value
  {
    if container.Arr? then Member(container, key) else Field(Spread(container), key)
  }

  /** `[...container]` with one element or property assigned; extra properties are not copied. */
  function Assigned(items: seq<Value>, key: Key, child: Value): Value
  {
    match key
    case Name(_) => Arr(items, map[key := child])
    case Index(n) =>
      if n < |items| then Arr(items[n := child], map[])
      else Arr(items + seq(n - |items|, _ => Undefined) + [child], map[])
  }

  function Put(container: Value, key: Key, child: Value): Value
  {
    if container.Arr? then Assigned(container.items, key, child)
    else if child.Undefined? then Obj(Spread(container) - {key})
    else Obj(Spread(container)[key := child])
  }

  function SetIn(root: Value, path: seq<Step>, value: Value): Value
    decreases |path|
  {
    if path == [] then value
    else
      var container := ContainerOf(root, path[0]);
      Put(container, path[0].key, SetIn(ChildOf(container, path[0].key), path[1..], value))
  }

  // ---- One level -----------------------------------------------------------------------------------

  lemma PutIsContainer(container: Value, key: Key, child: Value)
    ensures Put(container, key, child).Obj? || Put(container, key, child).Arr?
    ensures Put(container, key, child).Arr? <==> container.Arr?
  {
  }

  lemma PutHere(container: Value, key: Key, child: Value)
    ensures Member(Put(container, key, child), key) == child
    ensures ChildOf(Put(container, key, child), key) == child
  {
  }

  lemma PutElsewhere(container: Value, key: Key, child: Value, other: Key)
    requires other != key
    ensures Member(Put(container, key, child), other)
         == if container.Arr? then Item(container.items, other) else Field(Spread(container), other)
  {
  }

  lemma AssignedTwice(items: seq<Value>, props: map<Key, Value>, key: Key, first: Value, second: Value)
    ensures Put(Put(Arr(items, props), key, first), key, second) == Put(Arr(items, props), key, second)
  {
    if key.Index? && key.index < |items| {
      assert items[key.index := first][key.index := second] == items[key.index := second];
    } else if key.Index? {
      var longer := items + seq(key.index - |items|, _ => Undefined);
      assert (longer + [first])[key.index := second] == longer + [second];
    }
  }

  lemma PutTwice(container: Value, key: Key, first: Value, second: Value)
    ensures Put(Put(container, key, first), key, second) == Put(container, key, second)
  {
    if container.Arr? {
      AssignedTwice(container.items, container.props, key, first, second);
    } else {
      var fields := Spread(container);
      assert (fields - {key})[key := second] == fields[key := second];
      assert (fields - {key}) - {key} == fields - {key};
      assert fields[key := first][key := second] == fields[key := second];
      assert fields[key := first] - {key} == fields - {key};
    }
  }

  // ---- Get after set, set after set ----------------------------------------------------------------

  /** For every value and path: what was written is read back, `undefined` included. */
  lemma {:induction false} GetAfterSet(root: Value, path: seq<Step>, value: Value)
    ensures GetIn(SetIn(root, path, value), path) == value
    decreases |path|
  {
    if path != [] {
      var container, key := ContainerOf(root, path[0]), path[0].key;
      GetAfterSet(ChildOf(container, key), path[1..], value);
      var child := SetIn(ChildOf(container, key), path[1..], value);
      PutIsContainer(container, key, child);
      PutHere(container, key, child);
    }
  }

  /** For every value and path: the second write overrides the first and leaves no trace of it. */
  lemma {:induction false} SetAfterSet(root: Value, path: seq<Step>, first: Value, second: Value)
    ensures SetIn(SetIn(root, path, first), path, second) == SetIn(root, path, second)
    decreases |path|
  {
    if path != [] {
      var container, key := ContainerOf(root, path[0]), path[0].key;
      var inner := ChildOf(container, key);
      SetAfterSet(inner, path[1..], first, second);
      var child := SetIn(inner, path[1..], first);
      PutIsContainer(container, key, child);
      PutHere(container, key, child);
      PutTwice(container, key, child, SetIn(inner, path[1..], second));
    }
  }

  // ---- Disjoint paths ------------------------------------------------------------------------------

  /** The value that a write under the path descends into. */
  function Reached(root: Value, path: seq<Step>): Value
    decreases |path|
  {
    if path == [] then root else Reached(ChildOf(ContainerOf(root, path[0]), path[0].key), path[1..])
  }

  /** The two ways in which a write can be seen under another name of its container. */
  predicate Disturbs(container: Value, other: Key, rest: seq<Step>)
  {
    match container
    case Arr(_, props) => other.Name? && other in props && GetIn(props[other], rest) != Undefined
    case Str(s) => other.Index? && other.index < |s| && rest == []
    case _ => false
  }

  lemma SetBeside(root: Value, step: Step, under: seq<Step>, value: Value, other: Step, rest: seq<Step>)
    requires step.key != other.key
    ensures GetIn(SetIn(root, [step] + under, value), [other] + rest) == GetIn(root, [other] + rest)
       <==> !Disturbs(root, other.key, rest)
  {
    var container := ContainerOf(root, step);
    assert ([step] + under)[1..] == under && ([other] + rest)[1..] == rest;
    var child := SetIn(ChildOf(container, step.key), under, value);
    PutIsContainer(container, step.key, child);
    PutElsewhere(container, step.key, child, other.key);
    GetInUndefined(rest);
    if root.Str? && other.key.Index? && other.key.index < |root.s| && rest != [] {
      assert GetIn(Str([root.s[other.key.index]]), rest) == Undefined;
    }
  }

  lemma GetInUndefined(path: seq<Step>)
    ensures GetIn(Undefined, path) == Undefined
  {
  }

  /** Under scalars and missing values nothing is found. */
  lemma GetInScalar(root: Value, path: seq<Step>)
    requires !root.Obj? && !root.Arr? && path != []
    ensures GetIn(root, path) == Undefined
  {
  }

  /**
   * A write leaves every disjoint path alone, exactly unless the paths part at an array whose extra
   * property the other path reads, or at a string whose character it reads.
   */
  lemma {:induction false} DisjointExactly(root: Value, common: seq<Step>, step: Step, under: seq<Step>, value: Value,
                                           other: Step, rest: seq<Step>)
    requires step.key != other.key
    ensures GetIn(SetIn(root, common + ([step] + under), value), common + ([other] + rest))
            == GetIn(root, common + ([other] + rest))
       <==> !Disturbs(Reached(root, common), other.key, rest)
    decreases |common|
  {
    if common == [] {
      assert common + ([step] + under) == [step] + under && common + ([other] + rest) == [other] + rest;
      SetBeside(root, step, under, value, other, rest);
    } else {
      var p, q := common + ([step] + under), common + ([other] + rest);
      assert p[0] == common[0] && p[1..] == common[1..] + ([step] + under);
      assert q[0] == common[0] && q[1..] == common[1..] + ([other] + rest);
      var container, key := ContainerOf(root, common[0]), common[0].key;
      var inner := ChildOf(container, key);
      DisjointExactly(inner, common[1..], step, under, value, other, rest);
      var child := SetIn(inner, p[1..], value);
      PutIsContainer(container, key, child);
      PutHere(container, key, child);
      if root.Obj? || root.Arr? {
        assert Member(root, key) == inner;
      } else {
        GetInScalar(root, q);
        GetInScalar(inner, q[1..]);
      }
    }
  }

  /** Plain JSON: no array carries extra properties. */
  predicate IsJson(v: Value)
  {
    match v
    case Arr(items, props) => props == map[] && forall i | 0 <= i < |items| :: IsJson(items[i])
    case Obj(fields) => forall key | key in fields :: IsJson(fields[key])
    case _ => true
  }

  lemma {:induction false} ReachedIsJson(root: Value, path: seq<Step>)
    requires IsJson(root)
    ensures IsJson(Reached(root, path))
    decreases |path|
  {
    if path != [] {
      var container := ContainerOf(root, path[0]);
      assert IsJson(container);
      assert IsJson(ChildOf(container, path[0].key));
      ReachedIsJson(ChildOf(container, path[0].key), path[1..]);
    }
  }

  /** On a manifest, disjoint paths are independent unless they part inside a string. */
  lemma DisjointOnJson(root: Value, common: seq<Step>, step: Step, under: seq<Step>, value: Value, other: Step,
                       rest: seq<Step>)
    requires step.key != other.key && IsJson(root) && !Reached(root, common).Str?
    ensures GetIn(SetIn(root, common + ([step] + under), value), common + ([other] + rest))
            == GetIn(root, common + ([other] + rest))
  {
    ReachedIsJson(root, common);
    DisjointExactly(root, common, step, under, value, other, rest);
  }

  /** A missing container becomes an array exactly for a step written as a number; others keep their kind. */
  lemma {:induction false} ContainerKind(root: Value, parents: seq<Step>, last: Step, value: Value)
    ensures var before, after := Reached(root, parents), GetIn(SetIn(root, parents + [last], value), parents);
            && (after.Obj? || after.Arr?)
            && (after.Arr? <==> if before == Undefined || before == Null then last.numeric else before.Arr?)
    decreases |parents|
  {
    if parents == [] {
      assert parents + [last] == [last] && [last][1..] == [];
      PutIsContainer(ContainerOf(root, last), last.key, value);
    } else {
      var p := parents + [last];
      assert p[0] == parents[0] && p[1..] == parents[1..] + [last];
      var container, key := ContainerOf(root, parents[0]), parents[0].key;
      ContainerKind(ChildOf(container, key), parents[1..], last, value);
      var child := SetIn(ChildOf(container, key), p[1..], value);
      PutIsContainer(container, key, child);
      PutHere(container, key, child);
    }
  }

  // ---- Deleting ------------------------------------------------------------------------------------

  predicate HasKey(container: Value, key: Key)
  {
    match container
    case Obj(fields) => key in fields
    case Arr(items, props) => if key.Index? then key.index < |items| else key in props
    case _ => false
  }

  /** Writing `undefined` removes the key from its container, exactly unless that is an array. */
  lemma {:induction false} UndefinedDeletesExactly(root: Value, parents: seq<Step>, last: Step)
    ensures var written := SetIn(root, parents + [last], Undefined);
            HasKey(GetIn(written, parents), last.key) <==> ContainerOf(Reached(root, parents), last).Arr?
    decreases |parents|
  {
    if parents == [] {
      assert parents + [last] == [last] && [last][1..] == [];
      PutIsContainer(ContainerOf(root, last), last.key, Undefined);
    } else {
      var p := parents + [last];
      assert p[0] == parents[0] && p[1..] == parents[1..] + [last];
      var container, key := ContainerOf(root, parents[0]), parents[0].key;
      UndefinedDeletesExactly(ChildOf(container, key), parents[1..], last);
      var child := SetIn(ChildOf(container, key), p[1..], Undefined);
      PutIsContainer(container, key, child);
      PutHere(container, key, child);
    }
  }
}
