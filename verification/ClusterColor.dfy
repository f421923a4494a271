/**
 * One palette slot per cluster context: each prefers the slot its name hashes to and probes for the
 * next free one. The hash is any function.
 */
module ClusterColor {

  const SIZE: nat := 6

  type Slot = n: nat | n < SIZE

  // ---- Names in order ------------------------------------------------------------------------------

  /** The order of the platform's `sort`, character by character. */
  predicate Less(a: string, b: string)
  {
    b != "" && (a == "" || a[0] < b[0] || (a[0] == b[0] && Less(a[1..], b[1..])))
  }

  lemma {:induction false} LessIsTotal(a: string, b: string)
    ensures a == b || Less(a, b) || Less(b, a)
    ensures !(Less(a, b) && Less(b, a)) && !Less(a, a)
  {
    if a != "" && b != "" {
      LessIsTotal(a[1..], b[1..]);
      LessIsTotal(a[1..], a[1..]);
      if a[0] == b[0] && a[1..] == b[1..] {
        assert a == [a[0]] + a[1..] && b == [b[0]] + b[1..];
      }
    } else if a != "" {
      LessIsTotal(a[1..], a[1..]);
    }
  }

  lemma {:induction false} LessIsTransitive(a: string, b: string, c: string)
    requires Less(a, b) && Less(b, c)
    ensures Less(a, c)
  {
    if a != "" && a[0] == b[0] && b[0] == c[0] {
      LessIsTransitive(a[1..], b[1..], c[1..]);
    }
  }

  predicate StrictlySorted(s: seq<string>)
  {
    forall i, j | 0 <= i < j < |s| :: Less(s[i], s[j])
  }

  function Elements(s: seq<string>): set<string>
  {
    set x | x in s
  }

  function Insert(s: seq<string>, x: string): seq<string>
  {
    if s == [] then [x]
    else if s[0] == x then s
    else if Less(x, s[0]) then [x] + s
    else [s[0]] + Insert(s[1..], x)
  }

  /** The distinct contexts, sorted. */
  function SortedSet(contexts: seq<string>): seq<string>
  {
    if contexts == [] then [] else Insert(SortedSet(contexts[..|contexts| - 1]), contexts[|contexts| - 1])
  }

  lemma {:induction false} InsertIs(s: seq<string>, x: string)
    requires StrictlySorted(s)
    ensures StrictlySorted(Insert(s, x)) && Elements(Insert(s, x)) == Elements(s) + {x}
  {
    if s == [] {
    } else if s[0] == x {
      assert x in s;
    } else if Less(x, s[0]) {
      forall j | 1 <= j < |s| ensures Less(x, s[j]) {
        LessIsTransitive(x, s[0], s[j]);
      }
    } else {
      LessIsTotal(x, s[0]);
      InsertIs(s[1..], x);
      var t := Insert(s[1..], x);
      assert s == [s[0]] + s[1..];
      forall y | y in t ensures Less(s[0], y) {
        assert y in Elements(t);
        if y != x {
          assert y in Elements(s[1..]);
        }
      }
      assert Elements(Insert(s, x)) == {s[0]} + Elements(t);
      assert Elements(s) == {s[0]} + Elements(s[1..]);
    }
  }

  lemma {:induction false} SortedSetIs(contexts: seq<string>)
    ensures StrictlySorted(SortedSet(contexts)) && Elements(SortedSet(contexts)) == Elements(contexts)
  {
    if contexts != [] {
      var front := contexts[..|contexts| - 1];
      SortedSetIs(front);
      InsertIs(SortedSet(front), contexts[|contexts| - 1]);
      assert contexts == front + [contexts[|contexts| - 1]];
    }
  }

  /** Sorted lists with the same elements are the same. */
  lemma {:induction false} SortedIsUnique(s: seq<string>, t: seq<string>)
    requires StrictlySorted(s) && StrictlySorted(t) && Elements(s) == Elements(t)
    ensures s == t
  {
    if s == [] {
      NoElements(s);
      NoElements(t);
    } else {
      assert s[0] in Elements(t);
      var j :| 0 <= j < |t| && t[j] == s[0];
      assert t[0] in Elements(s);
      var i :| 0 <= i < |s| && s[i] == t[0];
      LessIsTotal(s[0], t[0]);
      assert s[0] == t[0];
      TailElements(s);
      TailElements(t);
      SortedIsUnique(s[1..], t[1..]);
      assert s == [s[0]] + s[1..] && t == [t[0]] + t[1..];
    }
  }

  lemma NoElements(s: seq<string>)
    ensures Elements(s) == {} <==> s == []
  {
    if s != [] {
      assert s[0] in Elements(s);
    }
  }

  lemma TailElements(s: seq<string>)
    requires StrictlySorted(s) && s != []
    ensures Elements(s[1..]) == Elements(s) - {s[0]}
  {
    LessIsTotal(s[0], s[0]);
    assert s == [s[0]] + s[1..];
  }

  // ---- Probing -------------------------------------------------------------------------------------

  function After(preferred: Slot, step: nat): Slot
  {
    (preferred + step) % SIZE
  }

  /** The first free slot from the preferred one on, or the preferred one when all are taken. */
  function Probe(preferred: Slot, taken: set<Slot>, step: nat): (slot: Slot)
    requires step <= SIZE
    decreases SIZE - step
  {
    if step == SIZE then preferred
    else if After(preferred, step) !in taken then After(preferred, step)
    else Probe(preferred, taken, step + 1)
  }

  method FreeSlot(preferred: Slot, taken: set<Slot>) returns (slot: Slot)
    ensures slot == Probe(preferred, taken, 0)
  {
    slot := preferred;
    var step := 0;
    while step < SIZE && slot in taken
      invariant step <= SIZE && slot == After(preferred, step)
      invariant Probe(preferred, taken, 0) == Probe(preferred, taken, step)
    {
      slot := After(preferred, step + 1);
      step := step + 1;
    }
    if slot in taken {
      slot := preferred;
    }
  }

  function SlotOf(hash: string -> nat, context: string, taken: set<Slot>): Slot
  {
    Probe(hash(context) % SIZE, taken, 0)
  }

  /** The slots of contexts that come one after the other. */
  function Slots(hash: string -> nat, contexts: seq<string>): (slots: seq<Slot>)
    ensures |slots| == |contexts|
  {
    if contexts == [] then []
    else
      var before := Slots(hash, contexts[..|contexts| - 1]);
      before + [SlotOf(hash, contexts[|contexts| - 1], Used(before))]
  }

  function Used(slots: seq<Slot>): set<Slot>
  {
    set slot | slot in slots
  }

  function Palette(hash: string -> nat, contexts: seq<string>): map<string, Slot>
  {
    var sorted := SortedSet(contexts);
    Pairs(sorted, Slots(hash, sorted))
  }

  function Pairs(contexts: seq<string>, slots: seq<Slot>): map<string, Slot>
    requires |contexts| == |slots|
  {
    if contexts == [] then map[]
    else Pairs(contexts[..|contexts| - 1], slots[..|slots| - 1])[contexts[|contexts| - 1] := slots[|slots| - 1]]
  }

  method ClusterColorIndexes(hash: string -> nat, contexts: seq<string>) returns (result: map<string, Slot>)
    ensures result == Palette(hash, contexts)
  {
    var taken: set<Slot> := {};
    result := map[];
    var sorted := SortedSet(contexts);
    assert sorted[..0] == [];
    for i := 0 to |sorted|
      invariant taken == Used(Slots(hash, sorted[..i]))
      invariant result == Pairs(sorted[..i], Slots(hash, sorted[..i]))
    {
      var slot := FreeSlot(hash(sorted[i]) % SIZE, taken);
      OneMore(hash, sorted, i);
      taken := taken + {slot};
      result := result[sorted[i] := slot];
    }
    assert sorted[..|sorted|] == sorted;
  }

  lemma OneMore(hash: string -> nat, sorted: seq<string>, i: nat)
    requires i < |sorted|
    ensures var slots := Slots(hash, sorted[..i]);
            var slot := SlotOf(hash, sorted[i], Used(slots));
            && Used(Slots(hash, sorted[..i + 1])) == Used(slots) + {slot}
            && Pairs(sorted[..i + 1], Slots(hash, sorted[..i + 1])) == Pairs(sorted[..i], slots)[sorted[i] := slot]
  {
    var slots := Slots(hash, sorted[..i]);
    var slot := SlotOf(hash, sorted[i], Used(slots));
    assert sorted[..i + 1][..i] == sorted[..i];
    assert Slots(hash, sorted[..i + 1]) == slots + [slot] && (slots + [slot])[..i] == slots;
  }

  // ---- Slots ---------------------------------------------------------------------------------------

  function AllSlots(): set<Slot>
  {
    {0, 1, 2, 3, 4, 5}
  }

  lemma SlotsAreFew(taken: set<Slot>)
    ensures taken <= AllSlots() && |taken| <= SIZE && (|taken| == SIZE ==> taken == AllSlots())
  {
    assert taken <= AllSlots();
    assert AllSlots() == taken + (AllSlots() - taken);
    assert |AllSlots()| == 6;
  }

  lemma {:induction false} ProbeIs(preferred: Slot, taken: set<Slot>, step: nat)
    requires step <= SIZE
    requires forall k | 0 <= k < step :: After(preferred, k) in taken
    ensures taken != AllSlots() ==> Probe(preferred, taken, step) !in taken
    ensures taken == AllSlots() ==> Probe(preferred, taken, step) == preferred
    decreases SIZE - step
  {
    if step == SIZE {
      AllProbed(preferred, taken);
    } else if After(preferred, step) in taken {
      ProbeIs(preferred, taken, step + 1);
    } else {
      SlotsAreFew({After(preferred, step)});
    }
  }

  lemma AllProbed(preferred: Slot, taken: set<Slot>)
    requires forall k | 0 <= k < SIZE :: After(preferred, k) in taken
    ensures taken == AllSlots()
  {
    SlotsAreFew(taken);
    forall slot | slot in AllSlots() ensures slot in taken {
      var k := (slot + SIZE - preferred) % SIZE;
      assert After(preferred, k) == slot;
    }
  }

  ghost predicate Distinct(slots: seq<Slot>)
  {
    forall i, j | 0 <= i < j < |slots| :: slots[i] != slots[j]
  }

  lemma {:induction false} FirstSix(hash: string -> nat, contexts: seq<string>)
    requires |contexts| <= SIZE
    ensures Distinct(Slots(hash, contexts)) && |Used(Slots(hash, contexts))| == |contexts|
  {
    if contexts != [] {
      var n := |contexts| - 1;
      FirstSix(hash, contexts[..n]);
      NextIsFree(Slots(hash, contexts[..n]), hash(contexts[n]) % SIZE);
    }
  }

  lemma NextIsFree(before: seq<Slot>, preferred: Slot)
    requires Distinct(before) && |Used(before)| == |before| < SIZE
    ensures var slots := before + [Probe(preferred, Used(before), 0)]; Distinct(slots) && |Used(slots)| == |slots|
  {
    var last := Probe(preferred, Used(before), 0);
    assert |AllSlots()| == 6;
    ProbeIs(preferred, Used(before), 0);
    assert last !in Used(before);
    assert Used(before + [last]) == Used(before) + {last};
  }

  lemma {:induction false} SlotsPrefix(hash: string -> nat, contexts: seq<string>, n: nat)
    requires n <= |contexts|
    ensures Slots(hash, contexts)[..n] == Slots(hash, contexts[..n])
  {
    if n < |contexts| {
      SlotsPrefix(hash, contexts[..|contexts| - 1], n);
      assert contexts[..|contexts| - 1][..n] == contexts[..n];
    } else {
      assert contexts[..n] == contexts;
    }
  }

  /** From the seventh context on everybody gets the slot of the hash. */
  lemma AfterSix(hash: string -> nat, contexts: seq<string>, k: nat)
    requires SIZE <= k < |contexts|
    ensures Slots(hash, contexts)[k] == hash(contexts[k]) % SIZE
  {
    var before := Slots(hash, contexts[..k]);
    SlotsPrefix(hash, contexts[..k], SIZE);
    assert contexts[..k][..SIZE] == contexts[..SIZE];
    FirstSix(hash, contexts[..SIZE]);
    SlotsAreFew(Used(before[..SIZE]));
    assert Used(before[..SIZE]) <= Used(before);
    SlotsAreFew(Used(before));
    ProbeIs(hash(contexts[k]) % SIZE, Used(before), 0);
    SlotsPrefix(hash, contexts, k + 1);
    assert contexts[..k + 1][..k] == contexts[..k];
    assert Slots(hash, contexts)[..k + 1][k] == Slots(hash, contexts)[k];
  }

  lemma LastIsNew(contexts: seq<string>)
    requires contexts != [] && StrictlySorted(contexts)
    ensures var n := |contexts| - 1;
            && Elements(contexts) == Elements(contexts[..n]) + {contexts[n]}
            && forall i | 0 <= i < n :: contexts[i] != contexts[n]
  {
    var n := |contexts| - 1;
    assert contexts == contexts[..n] + [contexts[n]];
    forall i | 0 <= i < n ensures contexts[i] != contexts[n] {
      LessIsTotal(contexts[i], contexts[n]);
    }
  }

  lemma {:induction false} PairsIs(contexts: seq<string>, slots: seq<Slot>)
    requires |contexts| == |slots| && StrictlySorted(contexts)
    ensures Pairs(contexts, slots).Keys == Elements(contexts)
    ensures forall i | 0 <= i < |contexts| ::
            contexts[i] in Pairs(contexts, slots)
            && Pairs(contexts, slots)[contexts[i]] == slots[i]
  {
    if contexts != [] {
      var n := |contexts| - 1;
      PairsIs(contexts[..n], slots[..n]);
      LastIsNew(contexts);
      forall i | 0 <= i < n
        ensures contexts[i] in Pairs(contexts, slots) && Pairs(contexts, slots)[contexts[i]] == slots[i]
      {
        assert contexts[..n][i] == contexts[i] && slots[..n][i] == slots[i];
      }
    }
  }

  // ---- Main results ----------------------------------------------------------------------------

  lemma PaletteIs(hash: string -> nat, contexts: seq<string>)
    ensures var sorted, palette := SortedSet(contexts), Palette(hash, contexts);
            && palette.Keys == Elements(contexts)
            && forall i | 0 <= i < |sorted| :: sorted[i] in palette && palette[sorted[i]] == Slots(hash, sorted)[i]
  {
    SortedSetIs(contexts);
    PairsIs(SortedSet(contexts), Slots(hash, SortedSet(contexts)));
  }

  /** Up to six contexts never share a slot, whatever the hash. */
  lemma SixAreDistinct(hash: string -> nat, contexts: seq<string>, a: string, b: string)
    requires |SortedSet(contexts)| <= SIZE && a in contexts && b in contexts && a != b
    ensures var palette := Palette(hash, contexts); a in palette && b in palette && palette[a] != palette[b]
  {
    var sorted := SortedSet(contexts);
    SortedSetIs(contexts);
    PaletteIs(hash, contexts);
    FirstSix(hash, sorted);
    assert a in Elements(sorted) && b in Elements(sorted);
    var i :| 0 <= i < |sorted| && sorted[i] == a;
    var j :| 0 <= j < |sorted| && sorted[j] == b;
  }

  lemma FirstSlots(hash: string -> nat, sorted: seq<string>)
    requires |sorted| >= SIZE
    ensures Distinct(Slots(hash, sorted)[..SIZE]) && Used(Slots(hash, sorted)[..SIZE]) == AllSlots()
  {
    FirstSix(hash, sorted[..SIZE]);
    SlotsPrefix(hash, sorted, SIZE);
    SlotsAreFew(Used(Slots(hash, sorted)[..SIZE]));
  }

  /** With six or more contexts, the first six by name use all six slots; the others keep their own. */
  lemma SixBeforeRepeats(hash: string -> nat, contexts: seq<string>)
    requires |SortedSet(contexts)| >= SIZE
    ensures var sorted, palette := SortedSet(contexts), Palette(hash, contexts);
            && (forall i | 0 <= i < |sorted| :: sorted[i] in palette)
            && (forall i, j | 0 <= i < j < SIZE :: palette[sorted[i]] != palette[sorted[j]])
            && (forall slot | slot in AllSlots() :: exists i :: 0 <= i < SIZE && palette[sorted[i]] == slot)
            && forall i | SIZE <= i < |sorted| :: palette[sorted[i]] == hash(sorted[i]) % SIZE
  {
    var sorted, palette := SortedSet(contexts), Palette(hash, contexts);
    var slots := Slots(hash, sorted);
    PaletteIs(hash, contexts);
    FirstSlots(hash, sorted);
    forall slot | slot in AllSlots() ensures exists i :: 0 <= i < SIZE && palette[sorted[i]] == slot {
      assert slot in Used(slots[..SIZE]);
      var i :| 0 <= i < SIZE && slots[..SIZE][i] == slot;
      assert palette[sorted[i]] == slot;
    }
    forall i, j | 0 <= i < j < SIZE ensures palette[sorted[i]] != palette[sorted[j]] {
      assert slots[..SIZE][i] != slots[..SIZE][j];
    }
    forall i | SIZE <= i < |sorted| ensures palette[sorted[i]] == hash(sorted[i]) % SIZE {
      AfterSix(hash, sorted, i);
    }
  }

  /** Order and repetition of the contexts make no difference. */
  lemma DependsOnTheSet(hash: string -> nat, contexts: seq<string>, others: seq<string>)
    requires Elements(contexts) == Elements(others)
    ensures Palette(hash, contexts) == Palette(hash, others) && Palette(hash, contexts).Keys == Elements(contexts)
  {
    SortedSetIs(contexts);
    SortedSetIs(others);
    SortedIsUnique(SortedSet(contexts), SortedSet(others));
    PaletteIs(hash, contexts);
  }
}
