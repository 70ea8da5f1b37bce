/** The spelling suggestion of the language server: edit distance by two rows, and the closest instruction. */
module Distance {
  import opened Prelude
  import opened Symbols

  function Min3(a: nat, b: nat, c: nat): nat { Min(Min(a, b), c) }

  /** The Levenshtein distance. */
  function Levenshtein<T(==)>(a: seq<T>, b: seq<T>): nat
    decreases |a| + |b|
  {
    if a == [] then |b|
    else if b == [] then |a|
    else
      var m, n := |a| - 1, |b| - 1;
      Min3(Levenshtein(a[..m], b) + 1, Levenshtein(a, b[..n]) + 1,
           Levenshtein(a[..m], b[..n]) + if a[m] == b[n] then 0 else 1)
  }

  /** The distance of two prefixes. */
  function Entry<T(==)>(left: seq<T>, i: nat, right: seq<T>, j: nat): nat
    requires i <= |left| && j <= |right|
  {
    Levenshtein(left[..i], right[..j])
  }

  lemma EntryStep<T>(left: seq<T>, i: nat, right: seq<T>, j: nat)
    requires i < |left| && j < |right|
    ensures Entry(left, i + 1, right, j + 1) ==
      Min3(Entry(left, i, right, j + 1) + 1, Entry(left, i + 1, right, j) + 1, Entry(left, i, right, j) +
        if left[i] != right[j] then 1 else 0)
  {
    assert left[..i + 1][..i] == left[..i] && right[..j + 1][..j] == right[..j];
  }

  lemma EntryEdges<T>(left: seq<T>, right: seq<T>)
    ensures forall j :: 0 <= j <= |right| ==> Entry(left, 0, right, j) == j
    ensures forall i :: 0 <= i <= |left| ==> Entry(left, i, right, 0) == i
    ensures Entry(left, |left|, right, |right|) == Levenshtein(left, right)
  {
    assert left[..0] == [] && right[..0] == [] && left[..|left|] == left && right[..|right|] == right;
  }

  /**
   Two rows of the distance table: `previous[j]` is the distance of the left prefix so far to the first `j` of the
   right.
   */
  method EditDistance<T(==)>(left: seq<T>, right: seq<T>) returns (distance: nat)
    ensures distance == Levenshtein(left, right)
  {
    hide Levenshtein, Entry, Min3;
    EntryEdges(left, right);
    var previous := seq(|right| + 1, j => j);
    for i := 0 to |left|
      invariant |previous| == |right| + 1
      invariant forall j :: 0 <= j <= |right| ==> previous[j] == Entry(left, i, right, j)
    {
      var current := [i + 1];
      for j := 0 to |right|
        invariant |current| == j + 1
        invariant forall k :: 0 <= k <= j ==> current[k] == Entry(left, i + 1, right, k)
      {
        EntryStep(left, i, right, j);
        current := current + [Min3(previous[j + 1] + 1, current[j] + 1, previous[j] + if left[i] != right[j] then 1
          else 0)];
      }
      previous := current;
    }
    distance := previous[|right|];
  }

  lemma {:induction false} DistanceIsSymmetric<T>(a: seq<T>, b: seq<T>)
    ensures Levenshtein(a, b) == Levenshtein(b, a)
    decreases |a| + |b|
  {
    if a != [] && b != [] {
      var m, n := |a| - 1, |b| - 1;
      DistanceIsSymmetric(a[..m], b);
      DistanceIsSymmetric(a, b[..n]);
      DistanceIsSymmetric(a[..m], b[..n]);
    }
  }

  lemma {:induction false} ZeroIsEqual<T>(a: seq<T>, b: seq<T>)
    ensures Levenshtein(a, b) == 0 <==> a == b
    decreases |a| + |b|
  {
    if a != [] && b != [] {
      var m, n := |a| - 1, |b| - 1;
      ZeroIsEqual(a[..m], b[..n]);
      assert a == a[..m] + [a[m]] && b == b[..n] + [b[n]];
    }
  }

  /** One insertion changes a distance by at most one, and distances differ by no more than lengths allow. */
  lemma {:induction false} EmptyIsFar<T>(a: seq<T>, b: seq<T>)
    ensures |a| <= |b| + Levenshtein(a, b)
    decreases |a| + |b|
  {
    if a != [] && b != [] {
      var m, n := |a| - 1, |b| - 1;
      EmptyIsFar(a[..m], b);
      EmptyIsFar(a, b[..n]);
      EmptyIsFar(a[..m], b[..n]);
    }
  }

  lemma {:induction false} TriangleInequality<T>(a: seq<T>, b: seq<T>, c: seq<T>)
    ensures Levenshtein(a, c) <= Levenshtein(a, b) + Levenshtein(b, c)
    decreases |a| + |b| + |c|
  {
    if a == [] {
      DistanceIsSymmetric(b, c);
      EmptyIsFar(c, b);
    } else if c == [] {
      EmptyIsFar(a, b);
    } else if b == [] {
      RemoveAll(a, c);
    } else {
      var k, m, n := |a| - 1, |b| - 1, |c| - 1;
      TriangleInequality(a[..k], b, c);
      TriangleInequality(a, b, c[..n]);
      TriangleInequality(a, b[..m], c);
      TriangleInequality(a, b[..m], c[..n]);
      TriangleInequality(a[..k], b[..m], c);
      TriangleInequality(a[..k], b[..m], c[..n]);
    }
  }

  /** No distance exceeds deleting everything and inserting everything. */
  lemma {:induction false} RemoveAll<T>(a: seq<T>, c: seq<T>)
    ensures Levenshtein(a, c) <= |a| + |c|
    decreases |a| + |c|
  {
    if a != [] && c != [] { RemoveAll(a[..|a| - 1], c); }
  }

  // ----- edit scripts -----

  datatype Edit<T> = Keep | Delete | Insert(x: T) | Replace(x: T)

  /** What a script of edits, each for the next element, makes of `a`, if it fits. */
  function Edited<T>(a: seq<T>, script: seq<Edit<T>>): Option<seq<T>>
    decreases |script|
  {
    if script == [] then (if a == [] then Some([]) else None)
    else
      var n := |script| - 1;
      match script[n]
      case Insert(x) => Then(Edited(a, script[..n]), [x])
      case Keep => if a == [] then None else Then(Edited(a[..|a| - 1], script[..n]), [a[|a| - 1]])
      case Delete => if a == [] then None else Edited(a[..|a| - 1], script[..n])
      case Replace(x) => if a == [] then None else Then(Edited(a[..|a| - 1], script[..n]), [x])
  }

  function Then<T>(r: Option<seq<T>>, rest: seq<T>): Option<seq<T>> {
    match r case None => None case Some(s) => Some(s + rest)
  }

  /** Everything but keeping costs one. */
  function Cost<T>(script: seq<Edit<T>>): nat {
    if script == [] then 0 else Cost(script[..|script| - 1]) + if script[|script| - 1].Keep? then 0 else 1
  }

  lemma OneMoreCosts<T>(a: seq<T>, b: seq<T>, x: T)
    ensures Levenshtein(a, b + [x]) <= Levenshtein(a, b) + 1 && Levenshtein(b + [x], a) <= Levenshtein(b, a) + 1
    ensures forall y :: Levenshtein(a + [y], b + [x]) <= Levenshtein(a, b) + if x == y then 0 else 1
  {
    assert (b + [x])[..|b|] == b;
    forall y ensures Levenshtein(a + [y], b + [x]) <= Levenshtein(a, b) + if x == y then 0 else 1 {
      assert (a + [y])[..|a|] == a;
    }
  }

  /** No script from one sequence to the other is cheaper than their distance. */
  lemma {:induction false} NoScriptIsCheaper<T>(a: seq<T>, b: seq<T>, script: seq<Edit<T>>)
    requires Edited(a, script) == Some(b)
    ensures Levenshtein(a, b) <= Cost(script)
    decreases |script|
  {
    hide Levenshtein;
    if script == [] {
      ZeroIsEqual(a, b);
    } else {
      var n := |script| - 1;
      var before := script[..n];
      if script[n].Insert? {
        var c := Edited(a, before).value;
        NoScriptIsCheaper(a, c, before);
        OneMoreCosts(a, c, script[n].x);
      } else {
        var m := |a| - 1;
        var c := Edited(a[..m], before).value;
        NoScriptIsCheaper(a[..m], c, before);
        assert a == a[..m] + [a[m]];
        if script[n].Delete? { OneMoreCosts(c, a[..m], a[m]); } else { OneMoreCosts(a[..m], c, b[|b| - 1]); }
      }
    }
  }

  /** The distance is what some script costs. */
  lemma {:induction false} SomeScriptCosts<T>(a: seq<T>, b: seq<T>) returns (script: seq<Edit<T>>)
    ensures Edited(a, script) == Some(b) && Cost(script) == Levenshtein(a, b)
    decreases |a| + |b|
  {
    var last: Edit<T>;
    if a == [] && b == [] {
      return [];
    } else if a == [] || (b != [] && Levenshtein(a, b) == Levenshtein(a, b[..|b| - 1]) + 1) {
      script := SomeScriptCosts(a, b[..|b| - 1]);
      last := Insert(b[|b| - 1]);
      assert b == b[..|b| - 1] + [b[|b| - 1]];
    } else if b == [] || Levenshtein(a, b) == Levenshtein(a[..|a| - 1], b) + 1 {
      script := SomeScriptCosts(a[..|a| - 1], b);
      last := Delete;
    } else {
      script := SomeScriptCosts(a[..|a| - 1], b[..|b| - 1]);
      last := if a[|a| - 1] == b[|b| - 1] then Keep else Replace(b[|b| - 1]);
      assert b == b[..|b| - 1] + [b[|b| - 1]];
    }
    assert (script + [last])[..|script|] == script;
    script := script + [last];
  }

  // ----- suggestions -----

  /** Nearer, or as near and earlier in the alphabet. */
  predicate Better(value: string, a: string, b: string) {
    Levenshtein(value, a) < Levenshtein(value, b) ||
      (Levenshtein(value, a) == Levenshtein(value, b) && (a == b || Less(a, b)))
  }

  const NEAR: nat := 2

  lemma BetterTransitive(value: string, a: string, b: string, c: string)
    requires Better(value, a, b) && Better(value, b, c)
    ensures Better(value, a, c)
  {
    hide Levenshtein;
    if Less(a, b) && Less(b, c) { LessTransitive(a, b, c); }
  }

  /** A suggestion is a nearest instruction, and there is one exactly when some instruction lies within distance 2. */
  method ClosestInstruction(value: string, instructions: seq<string>) returns (closest: Option<string>)
    ensures closest.Some? <==> exists c :: c in instructions && Levenshtein(value, c) <= 2
    ensures closest.Some? ==>
      && closest.value in instructions && Levenshtein(value, closest.value) <= 2
      && forall c :: c in instructions ==> Better(value, closest.value, c)
  {
    hide Levenshtein, Less;
    closest := None;
    var best := 0;
    for i := 0 to |instructions|
      invariant closest.Some? <==> exists c :: c in instructions[..i] && Levenshtein(value, c) <= NEAR
      invariant closest.Some? ==>
        && closest.value in instructions[..i] && best == Levenshtein(value, closest.value) <= NEAR
        && forall c :: c in instructions[..i] ==> Better(value, closest.value, c)
    {
      var candidate := instructions[i];
      assert instructions[..i + 1] == instructions[..i] + [candidate];
      var distance := EditDistance(value, candidate);
      if distance <= NEAR &&
        (closest.None? || distance < best || (distance == best && Less(candidate, closest.value))) {
        if closest.Some? {
          forall c | c in instructions[..i]
            ensures Better(value, candidate, c)
          {
            BetterTransitive(value, candidate, closest.value, c);
          }
        }
        closest, best := Some(candidate), distance;
      } else if closest.Some? {
        LessTotal(candidate, closest.value);
      }
    }
    assert instructions[..|instructions|] == instructions;
  }
}
