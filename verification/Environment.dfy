/** How labels and bindings fare when lines are deleted. */
module Environment {
  import opened Prelude
  import opened Text
  import opened Machine
  import opened Relinking

  lemma {:induction false} LabelLineIs(p: seq<LineKind>, name: string, i: nat)
    requires i < |p| && p[i] == Label(name) && forall j :: i < j < |p| ==> p[j] != Label(name)
    ensures LabelLine(p, name) == Some(i)
  {
    if i < |p| - 1 { LabelLineIs(p[..|p| - 1], name, i); }
  }

  lemma {:induction false} NoLabelLine(p: seq<LineKind>, name: string)
    requires Label(name) !in p
    ensures LabelLine(p, name) == None
  {
    if p != [] { NoLabelLine(p[..|p| - 1], name); }
  }

  lemma {:induction false} LabelLineIsLast(p: seq<LineKind>, name: string)
    ensures LabelLine(p, name).None? ==> Label(name) !in p
    ensures LabelLine(p, name).Some? ==>
      forall j :: LabelLine(p, name).value < j < |p| ==> p[j] != Label(name)
  {
    if p != [] {
      LabelLineIsLast(p[..|p| - 1], name);
      assert p == p[..|p| - 1] + [p[|p| - 1]];
    }
  }

  ghost predicate BindsLast(p: seq<LineKind>, directive: string, name: string, i: nat) {
    i < |p| && Binds(p[i], directive, name) && forall j :: i < j < |p| ==> !Binds(p[j], directive, name)
  }

  lemma {:induction false} BindingIs(p: seq<LineKind>, directive: string, name: string, i: nat)
    requires BindsLast(p, directive, name, i)
    ensures Binding(p, directive, name) == Some(p[i].operands[1])
  {
    if i < |p| - 1 { BindingIs(p[..|p| - 1], directive, name, i); }
  }

  lemma {:induction false} NoBinding(p: seq<LineKind>, directive: string, name: string)
    requires forall i :: 0 <= i < |p| ==> !Binds(p[i], directive, name)
    ensures Binding(p, directive, name) == None
  {
    if p != [] { NoBinding(p[..|p| - 1], directive, name); }
  }

  /** A binding comes from the last directive line for the name. */
  lemma {:induction false} BindingIsLast(p: seq<LineKind>, directive: string, name: string) returns (i: nat)
    ensures match Binding(p, directive, name)
      case None => forall j :: 0 <= j < |p| ==> !Binds(p[j], directive, name)
      case Some(v) => (BindsLast(p, directive, name, i) && p[i].operands[1] == v)
  {
    i := 0;
    if p != [] {
      if Binds(p[|p| - 1], directive, name) {
        i := |p| - 1;
      } else {
        i := BindingIsLast(p[..|p| - 1], directive, name);
      }
    }
  }

  function MovedLine(kept: seq<nat>, n: nat, line: Option<nat>): Option<nat> {
    match line case None => None case Some(t) => Some(Rank(kept, n, t))
  }

  /** A label none of whose lines is deleted moves to the rank of its line. */
  lemma LabelMoves(p: seq<LineKind>, q: seq<LineKind>, kept: seq<nat>, name: string)
    requires Increasing(kept, |p|) && |kept| == |q|
    requires forall g :: 0 <= g < |q| ==> (q[g] == Label(name) <==> p[kept[g]] == Label(name))
    requires forall i :: 0 <= i < |p| && p[i] == Label(name) ==> i in kept
    ensures LabelLine(q, name) == MovedLine(kept, |p|, LabelLine(p, name))
  {
    LabelLineIsLast(p, name);
    match LabelLine(p, name)
    case None => NoLabelLine(q, name);
    case Some(t) =>
      var g :| 0 <= g < |kept| && kept[g] == t;
      RankOfKept(kept, |p|, g);
      LabelLineIs(q, name, g);
  }

  /** A binding whose lines all survive, under a new name or the old one. */
  lemma BindingMoves(p: seq<LineKind>, q: seq<LineKind>, kept: seq<nat>, directive: string, name: string,
                     renamed: string) returns (g: nat)
    requires Increasing(kept, |p|) && |kept| == |q|
    requires forall h :: 0 <= h < |q| ==> (Binds(q[h], directive, renamed) <==> Binds(p[kept[h]], directive, name))
    requires forall i :: 0 <= i < |p| && Binds(p[i], directive, name) ==> i in kept
    ensures match Binding(p, directive, name)
      case None => Binding(q, directive, renamed) == None
      case Some(v) =>
        (g < |q| && Binds(p[kept[g]], directive, name) && Binds(q[g], directive, renamed) && v == p[kept[g]].operands[1]
        && Binding(q, directive, renamed) == Some(q[g].operands[1]))
  {
    hide Binds;
    g := 0;
    var i := BindingIsLast(p, directive, name);
    match Binding(p, directive, name)
    case None => NoBinding(q, directive, renamed);
    case Some(v) =>
      g :| 0 <= g < |kept| && kept[g] == i;
      BindingIs(q, directive, renamed, g);
  }
}
