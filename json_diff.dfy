/** The recursive structural comparison compare_json of two decoded JSON values.
    Each difference is reported with the path of the place where it was found:
    the initial path ("root" by default) extended by " -> key" for each object
    key and by "[index]" for each array index on the way down. */
module JsonDiff {
  import opened Json
  import Decimal

  const DefaultPath := "root"

  /** One step down into a value. */
  datatype Segment = Key(key: string) | Index(index: nat)

  function Extend(path: string, segment: Segment): string {
    match segment
    case Key(k) => path + " -> " + k
    case Index(i) => path + "[" + Decimal.Render(i) + "]"
  }

  /** The path reached from path by a sequence of steps. */
  function Follow(path: string, segments: seq<Segment>): string
    decreases |segments|
  {
    if segments == [] then path else Follow(Extend(path, segments[0]), segments[1..])
  }

  /** What is wrong at a path. */
  datatype Problem =
    | MissingInFirst                         // the key is only in the second object
    | MissingInSecond                        // the key is only in the first object
    | LengthMismatch(leftLength: nat, rightLength: nat)  // arrays of different lengths
    | ValueMismatch(leftValue: Value, rightValue: Value)

  datatype Difference = Difference(path: string, problem: Problem)

  /** The differences compare_json reports, as a multiset: the source visits the
      keys of two objects in the iteration order of a set, which is unspecified. */
  ghost function Differences(a: Value, b: Value, path: string): multiset<Difference>
    decreases a, 1
  {
    if a.Object? && b.Object? then
      KeyDifferences(a.fields, b.fields, a.fields.Keys + b.fields.Keys, path)
    else if a.Array? && b.Array? then
      if |a.items| != |b.items| then
        multiset{Difference(path, LengthMismatch(|a.items|, |b.items|))}
      else
        ItemDifferences(a.items, b.items, |a.items|, path)
    else if Equal(a, b) then multiset{}
    else multiset{Difference(path, ValueMismatch(a, b))}
  }

  /** The differences found under one key of two objects. */
  ghost function KeyDifference(m1: map<string, Value>, m2: map<string, Value>, key: string, path: string): multiset<Difference>
    decreases Object(m1), 0, 0
  {
    var keyPath := Extend(path, Key(key));
    if key !in m1 then multiset{Difference(keyPath, MissingInFirst)}
    else if key !in m2 then multiset{Difference(keyPath, MissingInSecond)}
    else Differences(m1[key], m2[key], keyPath)
  }

  /** The differences found under a set of keys of two objects. */
  ghost function KeyDifferences(m1: map<string, Value>, m2: map<string, Value>, keys: set<string>, path: string): multiset<Difference>
    decreases Object(m1), 0, |keys|
  {
    if keys == {} then multiset{}
    else
      var k :| k in keys;
      KeyDifference(m1, m2, k, path) + KeyDifferences(m1, m2, keys - {k}, path)
  }

  /** The differences found at the first n indices of two arrays. */
  ghost function ItemDifferences(l1: seq<Value>, l2: seq<Value>, n: nat, path: string): multiset<Difference>
    requires n <= |l1| && n <= |l2|
    decreases Array(l1), 0, n
  {
    if n == 0 then multiset{}
    else ItemDifferences(l1, l2, n - 1, path) + Differences(l1[n - 1], l2[n - 1], Extend(path, Index(n - 1)))
  }

  /** compare_json: the list of differences between a and b found below path. */
  method CompareJson(a: Value, b: Value, path: string := DefaultPath) returns (differences: seq<Difference>)
    ensures multiset(differences) == Differences(a, b, path)
    decreases a
  {
    differences := [];
    if a.Object? && b.Object? {
      var keys := a.fields.Keys + b.fields.Keys;
      var remaining := keys;
      while remaining != {}
        invariant remaining <= keys
        invariant multiset(differences) + KeyDifferences(a.fields, b.fields, remaining, path)
               == KeyDifferences(a.fields, b.fields, keys, path)
        decreases remaining
      {
        var key :| key in remaining;
        var newPath := Extend(path, Key(key));
        var found: seq<Difference>;
        if key !in a.fields {
          found := [Difference(newPath, MissingInFirst)];
        } else if key !in b.fields {
          found := [Difference(newPath, MissingInSecond)];
        } else {
          found := CompareJson(a.fields[key], b.fields[key], newPath);
        }
        assert multiset(found) == KeyDifference(a.fields, b.fields, key, path);
        KeyDifferencesSplit(a.fields, b.fields, remaining, key, path);
        differences := differences + found;
        remaining := remaining - {key};
      }
    } else if a.Array? && b.Array? {
      if |a.items| != |b.items| {
        differences := [Difference(path, LengthMismatch(|a.items|, |b.items|))];
      } else {
        for index := 0 to |a.items|
          invariant multiset(differences) == ItemDifferences(a.items, b.items, index, path)
        {
          var sub := CompareJson(a.items[index], b.items[index], Extend(path, Index(index)));
          differences := differences + sub;
        }
      }
    } else if !Equal(a, b) {
      differences := [Difference(path, ValueMismatch(a, b))];
    }
  }

  /** The differences under a set of keys do not depend on the order in which
      the keys are visited: any key may be taken first. */
  lemma {:induction false} KeyDifferencesSplit(m1: map<string, Value>, m2: map<string, Value>, keys: set<string>, key: string, path: string)
    requires key in keys
    ensures KeyDifferences(m1, m2, keys, path)
         == KeyDifference(m1, m2, key, path) + KeyDifferences(m1, m2, keys - {key}, path)
    decreases |keys|
  {
    var k :| k in keys && KeyDifferences(m1, m2, keys, path)
                     == KeyDifference(m1, m2, k, path) + KeyDifferences(m1, m2, keys - {k}, path);
    if k != key {
      assert keys - {k} - {key} == keys - {key} - {k};
      KeyDifferencesSplit(m1, m2, keys - {k}, key, path);
      KeyDifferencesSplit(m1, m2, keys - {key}, k, path);
    }
  }

  /** The three shapes compare_json tells apart. */
  datatype Kind = ObjectKind | ArrayKind | ScalarKind

  function KindOf(v: Value): Kind {
    match v
    case Object(_) => ObjectKind
    case Array(_) => ArrayKind
    case _ => ScalarKind
  }

  /** The keys that are present in exactly one of two objects. */
  function OneSided(m1: map<string, Value>, m2: map<string, Value>): set<string> {
    (m1.Keys - m2.Keys) + (m2.Keys - m1.Keys)
  }

  /** compare_json reports nothing exactly when the two values are equal. */
  lemma {:induction false} DifferencesEmptyIffEqual(a: Value, b: Value, path: string)
    ensures Differences(a, b, path) == multiset{} <==> Equal(a, b)
    decreases a, 1
  {
    if a.Object? && b.Object? {
      KeyDifferencesEmpty(a.fields, b.fields, a.fields.Keys + b.fields.Keys, path);
    } else if a.Array? && b.Array? {
      if |a.items| == |b.items| {
        ItemDifferencesEmpty(a.items, b.items, |a.items|, path);
      }
    }
  }

  lemma {:induction false} KeyDifferencesEmpty(m1: map<string, Value>, m2: map<string, Value>, keys: set<string>, path: string)
    ensures KeyDifferences(m1, m2, keys, path) == multiset{}
        <==> forall k :: k in keys ==> k in m1 && k in m2 && Equal(m1[k], m2[k])
    decreases Object(m1), 0, |keys|
  {
    if keys != {} {
      var k :| k in keys;
      KeyDifferencesSplit(m1, m2, keys, k, path);
      KeyDifferencesEmpty(m1, m2, keys - {k}, path);
      if k in m1 && k in m2 {
        DifferencesEmptyIffEqual(m1[k], m2[k], Extend(path, Key(k)));
      }
    }
  }

  lemma {:induction false} ItemDifferencesEmpty(l1: seq<Value>, l2: seq<Value>, n: nat, path: string)
    requires n <= |l1| && n <= |l2|
    ensures ItemDifferences(l1, l2, n, path) == multiset{}
        <==> forall i :: 0 <= i < n ==> Equal(l1[i], l2[i])
    decreases Array(l1), 0, n
  {
    if n > 0 {
      var before := ItemDifferences(l1, l2, n - 1, path);
      var here := Differences(l1[n - 1], l2[n - 1], Extend(path, Index(n - 1)));
      assert ItemDifferences(l1, l2, n, path) == before + here;
      ItemDifferencesEmpty(l1, l2, n - 1, path);
      DifferencesEmptyIffEqual(l1[n - 1], l2[n - 1], Extend(path, Index(n - 1)));
      assert before + here == multiset{} <==> before == multiset{} && here == multiset{};
      assert (forall i :: 0 <= i < n ==> Equal(l1[i], l2[i]))
         <==> (forall i :: 0 <= i < n - 1 ==> Equal(l1[i], l2[i])) && Equal(l1[n - 1], l2[n - 1]);
    }
  }

  /** Comparing a value with itself reports nothing. */
  lemma CompareWithSelf(a: Value, path: string)
    ensures Differences(a, a, path) == multiset{}
  {
    EqualReflexive(a);
    DifferencesEmptyIffEqual(a, a, path);
  }

  /** Swapping the two values does not change whether a difference is found. */
  lemma ComparisonSymmetric(a: Value, b: Value, path: string)
    ensures Differences(a, b, path) == multiset{} <==> Differences(b, a, path) == multiset{}
  {
    DifferencesEmptyIffEqual(a, b, path);
    DifferencesEmptyIffEqual(b, a, path);
    if Equal(a, b) {
      EqualSymmetric(a, b);
    }
    if Equal(b, a) {
      EqualSymmetric(b, a);
    }
  }

  /** Two objects: every key present on one side only is reported once, at
      path -> key, and every difference comes from some key; so there are at
      least as many differences as one-sided keys, and exactly as many when the
      keys present on both sides hold equal values. */
  lemma ObjectDifferenceCount(m1: map<string, Value>, m2: map<string, Value>, path: string)
    ensures |Differences(Object(m1), Object(m2), path)| >= |OneSided(m1, m2)|
    ensures |Differences(Object(m1), Object(m2), path)| == |OneSided(m1, m2)|
        <==> forall k :: k in m1 && k in m2 ==> Equal(m1[k], m2[k])
  {
    var keys := m1.Keys + m2.Keys;
    var oneSided := OneSided(m1, m2);
    var found := Differences(Object(m1), Object(m2), path);
    assert found == KeyDifferences(m1, m2, keys, path);
    assert keys * oneSided == oneSided;
    KeyDifferencesCount(m1, m2, keys, path);
    assert (forall k :: k in keys && k in m1 && k in m2 ==> Equal(m1[k], m2[k]))
       <==> (forall k :: k in m1 && k in m2 ==> Equal(m1[k], m2[k]));
  }

  lemma {:induction false} KeyDifferencesCount(m1: map<string, Value>, m2: map<string, Value>, keys: set<string>, path: string)
    requires keys <= m1.Keys + m2.Keys
    ensures |KeyDifferences(m1, m2, keys, path)| >= |keys * OneSided(m1, m2)|
    ensures |KeyDifferences(m1, m2, keys, path)| == |keys * OneSided(m1, m2)|
        <==> forall k :: k in keys && k in m1 && k in m2 ==> Equal(m1[k], m2[k])
    decreases |keys|
  {
    if keys != {} {
      var k :| k in keys;
      var rest := keys - {k};
      var here := KeyDifference(m1, m2, k, path);
      KeyDifferencesSplit(m1, m2, keys, k, path);
      KeyDifferencesCount(m1, m2, rest, path);
      assert |KeyDifferences(m1, m2, keys, path)| == |here| + |KeyDifferences(m1, m2, rest, path)|;
      CountRemove(keys, k, OneSided(m1, m2));
      if k in OneSided(m1, m2) {
        assert |here| == 1;
      } else {
        DifferencesEmptyIffEqual(m1[k], m2[k], Extend(path, Key(k)));
        assert |here| == 0 <==> Equal(m1[k], m2[k]);
      }
    }
  }

  lemma CountRemove(keys: set<string>, k: string, chosen: set<string>)
    requires k in keys
    ensures |keys * chosen| == |(keys - {k}) * chosen| + (if k in chosen then 1 else 0)
  {
    if k in chosen {
      assert keys * chosen == (keys - {k}) * chosen + {k};
    } else {
      assert keys * chosen == (keys - {k}) * chosen;
    }
  }

  /** A key present on one side only gives exactly one difference, reported at
      path -> key as missing from the other side. */
  lemma OneSidedKeyReported(m1: map<string, Value>, m2: map<string, Value>, key: string, path: string)
    requires key in OneSided(m1, m2)
    ensures var d := Difference(Extend(path, Key(key)), if key in m1 then MissingInSecond else MissingInFirst);
      KeyDifference(m1, m2, key, path) == multiset{d} && d in Differences(Object(m1), Object(m2), path)
  {
    KeyDifferencesSplit(m1, m2, m1.Keys + m2.Keys, key, path);
  }

  /** A key present on both sides is compared recursively at path -> key. */
  lemma CommonKeyCompared(m1: map<string, Value>, m2: map<string, Value>, key: string, path: string)
    requires key in m1 && key in m2
    ensures Differences(m1[key], m2[key], Extend(path, Key(key))) <= Differences(Object(m1), Object(m2), path)
  {
    KeyDifferencesSplit(m1, m2, m1.Keys + m2.Keys, key, path);
  }

  /** Arrays of different lengths give exactly one difference, whatever their items. */
  lemma LengthMismatchReported(l1: seq<Value>, l2: seq<Value>, path: string)
    requires |l1| != |l2|
    ensures Differences(Array(l1), Array(l2), path) == multiset{Difference(path, LengthMismatch(|l1|, |l2|))}
  {
  }

  /** Arrays of equal length are compared item by item at path[i]. */
  lemma ItemCompared(l1: seq<Value>, l2: seq<Value>, i: nat, path: string)
    requires |l1| == |l2| && i < |l1|
    ensures Differences(l1[i], l2[i], Extend(path, Index(i))) <= Differences(Array(l1), Array(l2), path)
  {
    ItemDifferencesContain(l1, l2, |l1|, i, path);
  }

  lemma {:induction false} ItemDifferencesContain(l1: seq<Value>, l2: seq<Value>, n: nat, i: nat, path: string)
    requires n <= |l1| && n <= |l2| && i < n
    ensures Differences(l1[i], l2[i], Extend(path, Index(i))) <= ItemDifferences(l1, l2, n, path)
  {
    var before := ItemDifferences(l1, l2, n - 1, path);
    var last := Differences(l1[n - 1], l2[n - 1], Extend(path, Index(n - 1)));
    assert ItemDifferences(l1, l2, n, path) == before + last;
    if i < n - 1 {
      ItemDifferencesContain(l1, l2, n - 1, i, path);
      SubBag(Differences(l1[i], l2[i], Extend(path, Index(i))), before, last);
    } else {
      SubBag(last, last, before);
    }
  }

  lemma SubBag(x: multiset<Difference>, a: multiset<Difference>, b: multiset<Difference>)
    requires x <= a
    ensures x <= a + b && x <= b + a
  {
  }

  /** Values of different kinds give exactly one difference, at path. */
  lemma KindMismatchReported(a: Value, b: Value, path: string)
    requires KindOf(a) != KindOf(b)
    ensures Differences(a, b, path) == multiset{Difference(path, ValueMismatch(a, b))}
  {
  }

  /** Two scalars give one difference when they are unequal and none otherwise. */
  lemma ScalarsCompared(a: Value, b: Value, path: string)
    requires KindOf(a) == ScalarKind && KindOf(b) == ScalarKind
    ensures Differences(a, b, path) == if Equal(a, b) then multiset{} else multiset{Difference(path, ValueMismatch(a, b))}
  {
  }

  lemma FollowStep(path: string, segment: Segment, segments: seq<Segment>)
    ensures Follow(path, [segment] + segments) == Follow(Extend(path, segment), segments)
  {
    assert ([segment] + segments)[1..] == segments;
  }

  /** p is the path reached from path by some sequence of steps. */
  ghost predicate Reaches(path: string, p: string) {
    exists segments :: p == Follow(path, segments)
  }

  /** A followed path starts with the path it was followed from. */
  lemma {:induction false} FollowKeepsPrefix(path: string, segments: seq<Segment>)
    ensures path <= Follow(path, segments)
    decreases |segments|
  {
    if segments != [] {
      FollowKeepsPrefix(Extend(path, segments[0]), segments[1..]);
    }
  }

  /** Every difference is reported at the initial path extended by " -> key"
      and "[index]" steps only. */
  lemma {:induction false} DifferencePaths(a: Value, b: Value, path: string)
    ensures forall d | d in Differences(a, b, path) :: Reaches(path, d.path)
    decreases a, 1
  {
    if a.Object? && b.Object? {
      KeyDifferencePaths(a.fields, b.fields, a.fields.Keys + b.fields.Keys, path);
    } else if a.Array? && b.Array? && |a.items| == |b.items| {
      ItemDifferencePaths(a.items, b.items, |a.items|, path);
      assert Differences(a, b, path) == ItemDifferences(a.items, b.items, |a.items|, path);
    } else {
      forall d | d in Differences(a, b, path) ensures Reaches(path, d.path) {
        assert d.path == Follow(path, []);
      }
    }
  }

  lemma {:induction false} KeyDifferencePaths(m1: map<string, Value>, m2: map<string, Value>, keys: set<string>, path: string)
    ensures forall d | d in KeyDifferences(m1, m2, keys, path) :: Reaches(path, d.path)
    decreases Object(m1), 0, |keys|
  {
    if keys != {} {
      var k :| k in keys;
      var here := KeyDifference(m1, m2, k, path);
      var rest := KeyDifferences(m1, m2, keys - {k}, path);
      KeyDifferencesSplit(m1, m2, keys, k, path);
      KeyDifferencePathsHere(m1, m2, k, path);
      KeyDifferencePaths(m1, m2, keys - {k}, path);
      forall d: Difference | d in here + rest ensures Reaches(path, d.path) {
        if d !in here {
          assert d in rest;
        }
      }
    }
  }

  lemma {:induction false} KeyDifferencePathsHere(m1: map<string, Value>, m2: map<string, Value>, k: string, path: string)
    ensures forall d | d in KeyDifference(m1, m2, k, path) :: Reaches(path, d.path)
    decreases Object(m1), 0, 0
  {
    var keyPath := Extend(path, Key(k));
    if k in m1 && k in m2 {
      DifferencePaths(m1[k], m2[k], keyPath);
      forall d | d in Differences(m1[k], m2[k], keyPath) ensures Reaches(path, d.path) {
        var segments :| d.path == Follow(keyPath, segments);
        FollowStep(path, Key(k), segments);
        assert d.path == Follow(path, [Key(k)] + segments);
      }
    } else {
      FollowStep(path, Key(k), []);
      assert keyPath == Follow(path, [Key(k)] + []);
    }
  }

  lemma {:induction false} ItemDifferencePaths(l1: seq<Value>, l2: seq<Value>, n: nat, path: string)
    requires n <= |l1| && n <= |l2|
    ensures forall d | d in ItemDifferences(l1, l2, n, path) :: Reaches(path, d.path)
    decreases Array(l1), 0, n
  {
    if n > 0 {
      var before := ItemDifferences(l1, l2, n - 1, path);
      var here := Differences(l1[n - 1], l2[n - 1], Extend(path, Index(n - 1)));
      assert ItemDifferences(l1, l2, n, path) == before + here;
      ItemDifferencePaths(l1, l2, n - 1, path);
      ItemDifferencePathsHere(l1, l2, n - 1, path);
      forall d: Difference | d in before + here ensures Reaches(path, d.path) {
        if d !in here {
          assert d in before;
        }
      }
    }
  }

  lemma {:induction false} ItemDifferencePathsHere(l1: seq<Value>, l2: seq<Value>, i: nat, path: string)
    requires i < |l1| && i < |l2|
    ensures forall d | d in Differences(l1[i], l2[i], Extend(path, Index(i))) :: Reaches(path, d.path)
    decreases Array(l1), 0, 0
  {
    var indexPath := Extend(path, Index(i));
    DifferencePaths(l1[i], l2[i], indexPath);
    forall d | d in Differences(l1[i], l2[i], indexPath) ensures Reaches(path, d.path) {
      var segments :| d.path == Follow(indexPath, segments);
      FollowStep(path, Index(i), segments);
      assert d.path == Follow(path, [Index(i)] + segments);
    }
  }

  /** Every difference path starts with the initial path. */
  lemma DifferencePathsStartWithRoot(a: Value, b: Value, path: string)
    ensures forall d | d in Differences(a, b, path) :: path <= d.path
  {
    DifferencePaths(a, b, path);
    forall d | d in Differences(a, b, path) ensures path <= d.path {
      var segments :| d.path == Follow(path, segments);
      FollowKeepsPrefix(path, segments);
    }
  }
}
