/**
 * The Diff page's state in its URL: which sides survive being written and read back, and how
 * picking a kind carries over to the other side.
 */
module DiffState {

  import opened JsText
  import opened Optional

  datatype Side = Side(
    ctx: Option<string>, group: Option<string>, version: Option<string>, plural: Option<string>,
    namespace: Option<string>, name: Option<string>)

  const EMPTY := Side(None, None, None, None, None, None)

  datatype Options = Options(normalize: bool, specOnly: bool, onlyChanges: bool, syncKind: bool)

  datatype State = State(left: Side, right: Side, options: Options)

  // ---- One side ------------------------------------------------------------------------------------

  predicate Given(s: Option<string>)
  {
    s.Some? && s.value != ""
  }

  function OrEmpty(s: Option<string>): string
  {
    if s.Some? then s.value else ""
  }

  function NonEmpty(s: string): Option<string>
  {
    if s == "" then None else Some(s)
  }

  function GroupToPath(group: string): string
  {
    if group == "" then "core" else group
  }

  function GroupFromPath(path: string): string
  {
    if path == "core" then "" else path
  }

  function KindText(side: Side): string
  {
    if Given(side.plural) && side.version.Some?
    then Join([GroupToPath(OrEmpty(side.group)), side.version.value, side.plural.value], "/") else ""
  }

  function EncodeSide(side: Side): Option<string>
  {
    if !Given(side.ctx) then None
    else Some(Join([side.ctx.value, KindText(side), OrEmpty(side.namespace), OrEmpty(side.name)], "|"))
  }

  function WithKindText(side: Side, kind: string): Side
  {
    var parts := Split(kind, '/');
    if |parts| >= 3 && parts[0] != "" && parts[1] != "" && parts[2] != ""
    then side.(group := Some(GroupFromPath(parts[0])), version := Some(parts[1]), plural := Some(parts[2])) else side
  }

  function ParseSide(value: Option<string>): Side
  {
    if !Given(value) then EMPTY
    else
      var parts := Split(value.value, '|');
      if |parts| < 4 then EMPTY
      else
        var n := |parts| - 3;
        var ctx := Join(parts[..n], "|");
        if ctx == "" then EMPTY
        else
          WithKindText(EMPTY.(ctx := Some(ctx), namespace := NonEmpty(parts[n + 1]), name := NonEmpty(parts[n + 2])),
              parts[n])
  }

  /** A kind is read from three parts, none of them empty; what follows them does not matter. */
  lemma KindIsRead(side: Side, group: string, version: string, plural: string, more: string)
    requires '/' !in group && '/' !in version && '/' !in plural
    ensures var read := if group != "" && version != "" && plural != ""
                        then side.(group := Some(if group == "core" then "" else group), version := Some(version),
                                   plural := Some(plural)) else side;
            && WithKindText(side, group + "/" + (version + "/" + plural)) == read
            && WithKindText(side, group + "/" + (version + "/" + (plural + "/" + more))) == read
    ensures WithKindText(side, group) == WithKindText(side, group + "/" + version) == side
  {
    SplitPlain(group, version + "/" + plural, '/');
    SplitPlain(version, plural, '/');
    SplitPlain(plural, more, '/');
    SplitPlain(group, version + "/" + (plural + "/" + more), '/');
    SplitPlain(version, plural + "/" + more, '/');
    SplitPlain(group, version, '/');
    assert forall a: string, b: string :: a + "/" + b == a + ['/'] + b;
  }

  // ---- Which sides survive -------------------------------------------------------------------------

  /** A field between bars: either missing, or not empty and without bars. */
  predicate FieldOk(s: Option<string>)
  {
    s.Some? ==> s.value != "" && '|' !in s.value
  }

  predicate PartOk(s: string)
  {
    s != "" && '/' !in s && '|' !in s
  }

  predicate KindOk(side: Side)
  {
    if side.group.None? && side.version.None? then side.plural.None?
    else
      && side.group.Some? && side.version.Some? && side.plural.Some?
      && PartOk(GroupToPath(side.group.value)) && side.group.value != "core"
      && PartOk(side.version.value) && PartOk(side.plural.value)
  }

  /** Set together or not at all, never empty, and without the separators; the context may hold bars. */
  predicate Normal(side: Side)
  {
    Given(side.ctx) && KindOk(side) && FieldOk(side.namespace) && FieldOk(side.name)
  }

  lemma JoinThree(a: string, b: string, c: string, glue: string)
    ensures Join([a, b, c], glue) == a + glue + (b + glue + c)
  {
    assert [a, b, c][1..] == [b, c] && [b, c][1..] == [c];
    assert Join([b, c], glue) == b + glue + Join([c], glue);
  }

  lemma JoinFour(a: string, b: string, c: string, d: string, glue: string)
    ensures Join([a, b, c, d], glue) == a + glue + Join([b, c, d], glue)
  {
    assert [a, b, c, d][1..] == [b, c, d];
  }

  lemma SplitThree(a: string, b: string, c: string, separator: char)
    requires separator !in a && separator !in b && separator !in c
    ensures Split(Join([a, b, c], [separator]), separator) == [a, b, c]
  {
    assert forall part | part in [a, b, c] :: part == a || part == b || part == c;
    SplitJoin([a, b, c], separator);
  }

  lemma KindReads(side: Side, base: Side)
    requires KindOk(side) && base.group.None? && base.version.None? && base.plural.None?
    ensures WithKindText(base, KindText(side))
            == base.(group := side.group, version := side.version, plural := side.plural)
    ensures '|' !in KindText(side)
  {
    if side.plural.Some? {
      var group, version, plural := GroupToPath(side.group.value), side.version.value, side.plural.value;
      SplitThree(group, version, plural, '/');
      JoinThree(group, version, plural, "/");
    }
  }

  lemma SideSplits(side: Side)
    requires Normal(side)
    ensures Split(EncodeSide(side).value, '|')
         == Split(side.ctx.value, '|') + [KindText(side), OrEmpty(side.namespace), OrEmpty(side.name)]
    ensures EncodeSide(side).value != ""
  {
    var kind, namespace, name := KindText(side), OrEmpty(side.namespace), OrEmpty(side.name);
    KindReads(side, EMPTY);
    SplitThree(kind, namespace, name, '|');
    JoinFour(side.ctx.value, kind, namespace, name, "|");
    SplitConcat(side.ctx.value, Join([kind, namespace, name], "|"), '|');
  }

  lemma NormalSurvives(side: Side)
    requires Normal(side)
    ensures ParseSide(EncodeSide(side)) == side
  {
    SideSplits(side);
    var before := Split(side.ctx.value, '|');
    var parts := before + [KindText(side), OrEmpty(side.namespace), OrEmpty(side.name)];
    assert parts[..|parts| - 3] == before;
    JoinSplit(side.ctx.value, '|');
    KindReads(side, EMPTY.(ctx := side.ctx, namespace := side.namespace, name := side.name));
  }

  lemma KindIsOk(side: Side, kind: string)
    requires side.group.None? && side.version.None? && side.plural.None? && '|' !in kind
    ensures KindOk(WithKindText(side, kind))
    ensures WithKindText(side, kind).ctx == side.ctx && WithKindText(side, kind).namespace == side.namespace
    ensures WithKindText(side, kind).name == side.name
  {
    PartsAreClean(kind, '/');
    var parts := Split(kind, '/');
    if |parts| >= 3 {
      assert parts[0] in parts && parts[1] in parts && parts[2] in parts;
    }
  }

  /** Whatever the parameter holds, reading it gives no side or one in normal form. */
  lemma ParsedIsNormal(value: Option<string>)
    ensures ParseSide(value) == EMPTY || Normal(ParseSide(value))
  {
    if Given(value) {
      var parts := Split(value.value, '|');
      PartsAreClean(value.value, '|');
      if |parts| >= 4 {
        var n := |parts| - 3;
        assert parts[n] in parts && parts[n + 1] in parts && parts[n + 2] in parts;
        var ctx := Join(parts[..n], "|");
        KindIsOk(EMPTY.(ctx := Some(ctx), namespace := NonEmpty(parts[n + 1]), name := NonEmpty(parts[n + 2])),
            parts[n]);
      }
    }
  }

  /** A side survives being written and read back exactly if it is empty or in normal form. */
  lemma SideSurvivesExactly(side: Side)
    ensures ParseSide(EncodeSide(side)) == side <==> side == EMPTY || Normal(side)
  {
    ParsedIsNormal(EncodeSide(side));
    if Normal(side) {
      NormalSurvives(side);
    }
  }

  /** What was read from any parameter is read again from what is written for it. */
  lemma ReadingIsStable(value: Option<string>)
    ensures ParseSide(EncodeSide(ParseSide(value))) == ParseSide(value)
  {
    ParsedIsNormal(value);
    SideSurvivesExactly(ParseSide(value));
  }

  // ---- The whole state -----------------------------------------------------------------------------

  /** The parameters of the URL. */
  datatype Param = LeftParam | RightParam | RawParam | ScopeParam | ChangesParam | KindsParam

  function Lookup(params: map<Param, string>, key: Param): Option<string>
  {
    if key in params then Some(params[key]) else None
  }

  function ReadDiffState(params: map<Param, string>): State
  {
    State(ParseSide(Lookup(params, LeftParam)), ParseSide(Lookup(params, RightParam)),
          Options(Lookup(params, RawParam) != Some("1"), Lookup(params, ScopeParam) == Some("spec"),
                  Lookup(params, ChangesParam) == Some("only"), Lookup(params, KindsParam) != Some("separate")))
  }

  function Put(params: map<Param, string>, present: bool, key: Param, value: string): map<Param, string>
  {
    if present then params[key := value] else params
  }

  /** Only what differs from the defaults is written. */
  function ParamsOf(left: Option<string>, right: Option<string>, o: Options): map<Param, string>
  {
    var sides := Put(Put(map[], Given(left), LeftParam, OrEmpty(left)), Given(right), RightParam, OrEmpty(right));
    var shown := Put(Put(sides, !o.normalize, RawParam, "1"), o.specOnly, ScopeParam, "spec");
    Put(Put(shown, o.onlyChanges, ChangesParam, "only"), !o.syncKind, KindsParam, "separate")
  }

  function Params(state: State): map<Param, string>
  {
    ParamsOf(EncodeSide(state.left), EncodeSide(state.right), state.options)
  }

  /** A side is written if it has something to say, an option if it is not the default. */
  method DiffSearchParams(state: State) returns (params: map<Param, string>)
    ensures params == Params(state) && ReadDiffState(params).options == state.options
    ensures Lookup(params, LeftParam) == EncodeSide(state.left)
    ensures Lookup(params, RightParam) == EncodeSide(state.right)
    ensures Lookup(params, RawParam) == if state.options.normalize then None else Some("1")
    ensures Lookup(params, ScopeParam) == if state.options.specOnly then Some("spec") else None
    ensures Lookup(params, ChangesParam) == if state.options.onlyChanges then Some("only") else None
    ensures Lookup(params, KindsParam) == if state.options.syncKind then None else Some("separate")
  {
    var left, right := EncodeSide(state.left), EncodeSide(state.right);
    params := map[];
    if Given(left) {
      params := params[LeftParam := left.value];
    }
    if Given(right) {
      params := params[RightParam := right.value];
    }
    params := WriteOptions(params, state.options);
    ParamsAre(left, right, state.options);
    EncodedIsGiven(state.left);
    EncodedIsGiven(state.right);
  }

  method WriteOptions(sides: map<Param, string>, o: Options) returns (params: map<Param, string>)
    ensures params == Put(Put(Put(Put(sides, !o.normalize, RawParam, "1"), o.specOnly, ScopeParam, "spec"),
                              o.onlyChanges, ChangesParam, "only"), !o.syncKind, KindsParam, "separate")
  {
    params := sides;
    if !o.normalize {
      params := params[RawParam := "1"];
    }
    if o.specOnly {
      params := params[ScopeParam := "spec"];
    }
    if o.onlyChanges {
      params := params[ChangesParam := "only"];
    }
    if !o.syncKind {
      params := params[KindsParam := "separate"];
    }
  }

  /** The options always survive; the state does exactly if both sides do. */
  lemma StateSurvivesExactly(state: State)
    ensures ReadDiffState(Params(state)).options == state.options
    ensures ReadDiffState(Params(state)) == state
       <==> (state.left == EMPTY || Normal(state.left)) && (state.right == EMPTY || Normal(state.right))
  {
    ParamsAre(EncodeSide(state.left), EncodeSide(state.right), state.options);
    SideSurvivesExactly(state.left);
    SideSurvivesExactly(state.right);
    EncodedIsGiven(state.left);
    EncodedIsGiven(state.right);
  }

  lemma EncodedIsGiven(side: Side)
    ensures EncodeSide(side).Some? ==> EncodeSide(side).value != ""
  {
    if EncodeSide(side).Some? {
      JoinFour(side.ctx.value, KindText(side), OrEmpty(side.namespace), OrEmpty(side.name), "|");
    }
  }

  lemma ParamsAre(left: Option<string>, right: Option<string>, o: Options)
    ensures var params := ParamsOf(left, right, o);
            && Lookup(params, LeftParam) == (if Given(left) then left else None)
            && Lookup(params, RightParam) == (if Given(right) then right else None)
            && Lookup(params, RawParam) == (if o.normalize then None else Some("1"))
            && Lookup(params, ScopeParam) == (if o.specOnly then Some("spec") else None)
            && Lookup(params, ChangesParam) == (if o.onlyChanges then Some("only") else None)
            && Lookup(params, KindsParam) == (if o.syncKind then None else Some("separate"))
  {
  }

  // ---- Picking a kind ------------------------------------------------------------------------------

  datatype Kind = Kind(group: string, version: string, plural: string, namespaced: bool)

  predicate SameKind(a: Side, b: Side)
  {
    Given(a.plural) && OrEmpty(a.group) == OrEmpty(b.group) && a.version == b.version && a.plural == b.plural
  }

  function WithKind(side: Side, kind: Option<Kind>): Side
  {
    match kind
    case None => if Given(side.ctx) then EMPTY.(ctx := side.ctx) else EMPTY
    case Some(k) =>
      var namespace := if k.namespaced then side.namespace else None;
      Side(side.ctx, Some(k.group), Some(k.version), Some(k.plural), namespace, None)
  }

  function PickKind(state: State, pickLeft: bool, kind: Option<Kind>): State
  {
    var picked := WithKind(if pickLeft then state.left else state.right, kind);
    var other := if pickLeft then state.right else state.left;
    var follows := state.options.syncKind && Given(other.ctx) && !(kind.Some? && SameKind(other, picked));
    var other' := if follows then WithKind(other, kind) else other;
    if pickLeft then State(picked, other', state.options) else State(other', picked, state.options)
  }

  /** With kinds synced, a real kind ends up on both sides that have a cluster, and clusters stay. */
  lemma PickSyncs(state: State, pickLeft: bool, kind: Kind)
    requires state.options.syncKind && kind.plural != ""
    ensures var after := PickKind(state, pickLeft, Some(kind));
            && after.left.ctx == state.left.ctx && after.right.ctx == state.right.ctx
            && (Given((if pickLeft then state.right else state.left).ctx) ==> SameKind(after.left, after.right))
  {
  }

  /**
   * The other side keeps its object exactly if the kinds are separate, it has no cluster, or the
   * kind is its own already.
   */
  lemma OtherSideStaysExactly(state: State, pickLeft: bool, kind: Kind)
    requires kind.plural != "" && Given((if pickLeft then state.right else state.left).name)
    ensures var (side, other) := if pickLeft then (state.left, state.right) else (state.right, state.left);
            var after := PickKind(state, pickLeft, Some(kind));
            (if pickLeft then after.right else after.left) == other
            <==> !state.options.syncKind || !Given(other.ctx) || SameKind(other, WithKind(side, Some(kind)))
  {
  }

  /**
   * A side takes the picked kind without an object, and keeps its namespace only for a namespaced
   * kind; without a kind only its cluster is left. The other side is changed as if it were picked on.
   */
  lemma PickedSide(state: State, pickLeft: bool, kind: Option<Kind>)
    ensures var (side, after) := if pickLeft then (state.left, PickKind(state, true, kind).left)
                                 else (state.right, PickKind(state, false, kind).right);
            && after.name.None?
            && (kind.Some? ==> && after.ctx == side.ctx && after.group == Some(kind.value.group)
                               && after.version == Some(kind.value.version) && after.plural == Some(kind.value.plural)
                               && after.namespace == if kind.value.namespaced then side.namespace else None)
            && (kind.None? ==> after.group.None? && after.version.None? && after.plural.None? && after.namespace.None?)
            && (kind.None? ==> after.ctx == if side.ctx == Some("") then None else side.ctx)
    ensures var apart := state.(options := state.options.(syncKind := false));
            var (other, after) := if pickLeft then (state.right, PickKind(state, true, kind).right)
                                  else (state.left, PickKind(state, false, kind).left);
            after == other || after == if pickLeft then PickKind(apart, false, kind).right
                                       else PickKind(apart, true, kind).left
  {
  }

  /** Picking the same kind twice is picking it once. */
  lemma PickIsIdempotent(state: State, pickLeft: bool, kind: Option<Kind>)
    ensures PickKind(PickKind(state, pickLeft, kind), pickLeft, kind) == PickKind(state, pickLeft, kind)
  {
  }
}
