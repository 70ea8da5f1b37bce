/** The compiler's output lines, the map from source to generated lines, and branch adjustment. */
module Lines {
  import opened Prelude
  import opened Text
  import opened Literals
  import opened Symbols
  import opened Machine
  import opened Relinking
  import opened Carrying
  import opened Words

  datatype OutputLine = OutputLine(sourceLine: nat, text: string, mnemonic: Option<string>, operands: seq<string>)

  datatype BuildError = BuildError(code: string, sourceLine: Option<nat>)

  // ----- lines that stay -----

  function MnemonicOf(k: LineKind): Option<string> { if k.Instruction? then Some(Lower(k.mnemonic)) else None }

  function OperandsOf(k: LineKind): seq<string> { if k.Instruction? then k.operands else [] }

  /** Trimmed code, if there is any. */
  function OutputOf(index: nat, raw: string): (r: seq<OutputLine>)
    ensures |r| <= 1 && (r != [] ==> r[0].sourceLine == index)
  {
    var kind := ParseLine(raw).kind;
    var code := Trim(CodePart(raw));
    if code == [] then [] else [OutputLine(index, code, MnemonicOf(kind), OperandsOf(kind))]
  }

  /** The code of every line that has any. */
  function KeptLines(raw: seq<string>): seq<OutputLine> {
    if raw == [] then [] else KeptLines(raw[..|raw| - 1]) + OutputOf(|raw| - 1, raw[|raw| - 1])
  }

  method KeepLines(raw: seq<string>, lines: seq<ParsedLine>) returns (output: seq<OutputLine>)
    requires lines == ParseLines(raw)
    ensures output == KeptLines(raw)
  {
    output := [];
    for index := 0 to |raw|
      invariant output == KeptLines(raw[..index])
    {
      assert raw[..index + 1][..index] == raw[..index];
      var code := Trim(CodePart(raw[index]));
      if code != [] {
        var kind := lines[index].kind;
        output := output + [OutputLine(index, code, MnemonicOf(kind), OperandsOf(kind))];
      }
    }
    assert raw[..|raw|] == raw;
  }

  function KeptOf(output: seq<OutputLine>): (kept: seq<nat>)
    ensures |kept| == |output|
  {
    seq(|output|, i requires 0 <= i < |output| => output[i].sourceLine)
  }

  // ----- the line map -----

  function LineMap(n: nat, kept: seq<nat>): (m: seq<Option<nat>>)
    requires forall g :: 0 <= g < |kept| ==> kept[g] < n
    ensures |m| == n
  {
    if kept == [] then seq(n, _ => None)
    else LineMap(n, kept[..|kept| - 1])[kept[|kept| - 1] := Some(|kept| - 1)]
  }

  /** `generated_line_map`. */
  method GeneratedLineMap(n: nat, output: seq<OutputLine>) returns (result: seq<Option<nat>>)
    requires forall g :: 0 <= g < |output| ==> output[g].sourceLine < n
    ensures result == LineMap(n, KeptOf(output))
  {
    result := seq(n, _ => None);
    var kept := KeptOf(output);
    for generated := 0 to |output|
      invariant result == LineMap(n, kept[..generated])
    {
      assert kept[..generated + 1][..generated] == kept[..generated];
      result := result[output[generated].sourceLine := Some(generated)];
    }
    assert kept[..|output|] == kept;
  }

  function FirstSome(m: seq<Option<nat>>): Option<nat> {
    if m == [] then None else if m[0].Some? then m[0] else FirstSome(m[1..])
  }

  /** Where source line `target` went: the first generated line at or after it. */
  function TranslateTarget(target: nat, m: seq<Option<nat>>): Option<nat> {
    if target > |m| then None else FirstSome(m[target..])
  }

  lemma {:induction false} LineMapAt(n: nat, kept: seq<nat>, i: nat)
    requires Increasing(kept, n) && i < n
    ensures match LineMap(n, kept)[i]
      case None => i !in kept
      case Some(g) => g < |kept| && kept[g] == i
  {
    if kept != [] {
      LineMapAt(n, kept[..|kept| - 1], i);
    }
  }

  lemma {:induction false} BelowIs(kept: seq<nat>, n: nat, t: nat, b: nat)
    requires Increasing(kept, n) && b <= |kept|
    requires b < |kept| ==> t <= kept[b]
    requires b > 0 ==> kept[b - 1] < t
    ensures Below(kept, t) == b
  {
    if b < |kept| { BelowIsPrefix(kept, n, t, b); }
    if b > 0 { BelowIsPrefix(kept, n, t, b - 1); }
  }

  /** A line map translates a target to its rank among the surviving lines, if any line is left there. */
  lemma {:induction false} TranslateIsBelow(n: nat, kept: seq<nat>, t: nat)
    requires Increasing(kept, n) && t <= n
    ensures TranslateTarget(t, LineMap(n, kept)) == if Below(kept, t) < |kept| then Some(Below(kept, t)) else None
    decreases n - t
  {
    var m := LineMap(n, kept);
    if t == n {
      BelowAll(kept, n);
    } else {
      assert m[t..][1..] == m[t + 1..];
      LineMapAt(n, kept, t);
      if m[t].Some? {
        RankOfKept(kept, n, m[t].value);
      } else {
        TranslateIsBelow(n, kept, t + 1);
        var b := Below(kept, t + 1);
        if b < |kept| { BelowIsPrefix(kept, n, t + 1, b); }
        if b > 0 { BelowIsPrefix(kept, n, t + 1, b - 1); assert kept[b - 1] in kept; }
        BelowIs(kept, n, t, b);
      }
    }
  }

  /** The law behind every relinked branch: translation is the lower adjoint of the source map. */
  lemma TranslateIsLowerAdjoint(n: nat, kept: seq<nat>, t: nat, g: nat)
    requires Increasing(kept, n) && t <= n && g < |kept|
    ensures (TranslateTarget(t, LineMap(n, kept)).Some? && TranslateTarget(t, LineMap(n, kept)).value <= g) <==>
        t <= kept[g]
  {
    TranslateIsBelow(n, kept, t);
    BelowIsPrefix(kept, n, t, g);
  }

  // ----- branch adjustment -----

  datatype Context = Context(table: Table, lineMap: seq<Option<nat>>, topologyChanged: bool, relabelled: set<nat>)

  function LiteralAdjustment(lineMap: seq<Option<nat>>, g: nat, sourceLine: nat, relative: bool,
                          value: int): Result<Option<int>, BuildError> {
    var target := if relative then sourceLine + value else value;
    if target < 0 || target >= |lineMap| then Err(BuildError("branch-out-of-range", Some(sourceLine + 1)))
    else match TranslateTarget(target, lineMap)
      case None => Err(BuildError("unmappable-branch", Some(sourceLine + 1)))
      case Some(t) =>
        var adjusted := if relative then t - g else t;
        Ok(if adjusted != value then Some(adjusted) else None)
  }

  /** The new literal target of a branch, if it needs one. */
  function Adjustment(x: Context, g: nat, line: OutputLine): Result<Option<int>, BuildError> {
    if line.mnemonic.None? || line.operands == [] then Ok(None)
    else
      var m, token := line.mnemonic.value, line.operands[|line.operands| - 1];
      var relative, absolute := IsRelative(m), IsAbsoluteBranch(m);
      if !relative && !absolute then Ok(None)
      else if absolute && (line.sourceLine in x.relabelled || IsLabelSymbol(x.table, token)) then Ok(None)
      else match ParseInteger(token)
        case None =>
          if x.topologyChanged then
            Err(BuildError(if relative then "unsafe-relative-branch"
              else "unsafe-absolute-branch", Some(line.sourceLine + 1)))
          else Ok(None)
        case Some(value) =>
          LiteralAdjustment(x.lineMap, g, line.sourceLine, relative, value)
  }

  function Retargeted(line: OutputLine, target: Option<int>): OutputLine {
    if target.None? || line.operands == [] then line
    else
      var last := |line.operands| - 1;
      var text := IntText(target.value);
      line.(text := ReplaceLastToken(line.text, line.operands[last], text), operands := line.operands[..last] + [text])
  }

  datatype Adjusted = Adjusted(lines: seq<OutputLine>, relative: nat, absolute: nat)

  /** The first `k` lines adjusted, with counts, or the first error. */
  function AdjustUpTo(x: Context, output: seq<OutputLine>, k: nat): (r: Result<Adjusted, BuildError>)
    requires k <= |output|
    ensures r.Ok? ==> |r.value.lines| == k
  {
    if k == 0 then Ok(Adjusted([], 0, 0))
    else match AdjustUpTo(x, output, k - 1)
      case Err(e) => Err(e)
      case Ok(a) =>
        match Adjustment(x, k - 1, output[k - 1])
        case Err(e) => Err(e)
        case Ok(target) =>
          var relative := output[k - 1].mnemonic.Some? && IsRelative(output[k - 1].mnemonic.value);
          Ok(Adjusted(a.lines + [Retargeted(output[k - 1], target)],
                      a.relative + (if target.Some? && relative then 1 else 0),
                      a.absolute + (if target.Some? && !relative then 1 else 0)))
  }

  function AdjustAll(x: Context, output: seq<OutputLine>): Result<Adjusted, BuildError> {
    AdjustUpTo(x, output, |output|)
  }

  method AdjustBranches(x: Context, output: seq<OutputLine>) returns (r: Result<Adjusted, BuildError>)
    ensures r == AdjustAll(x, output)
  {
    hide AdjustUpTo, Adjustment, Retargeted;
    var lines, relative, absolute := output, 0, 0;
    NoneAdjusted(x, output);
    for g := 0 to |output|
      invariant |lines| == |output| && lines[g..] == output[g..]
      invariant AdjustUpTo(x, output, g) == Ok(Adjusted(lines[..g], relative, absolute))
    {
      var line := lines[g];
      assert line == lines[g..][0] == output[g];
      AdjustStep(x, output, g);
      match Adjustment(x, g, line) {
        case Err(e) =>
          ErrorStays(x, output, g + 1);
          return Err(e);
        case Ok(target) =>
          if target.Some? {
            if IsRelative(line.mnemonic.value) { relative := relative + 1; } else { absolute := absolute + 1; }
          }
          lines := lines[g := Retargeted(line, target)];
      }
      assert lines[..g + 1] == lines[..g] + [lines[g]];
    }
    assert lines[..|output|] == lines;
    r := Ok(Adjusted(lines, relative, absolute));
  }

  lemma NoneAdjusted(x: Context, output: seq<OutputLine>)
    ensures AdjustUpTo(x, output, 0) == Ok(Adjusted([], 0, 0))
  {}

  /** One more line adjusted; only a line with a mnemonic ever is. */
  lemma AdjustStep(x: Context, output: seq<OutputLine>, g: nat)
    requires g < |output| && AdjustUpTo(x, output, g).Ok?
    ensures match Adjustment(x, g, output[g])
      case Err(e) => AdjustUpTo(x, output, g + 1) == Err(e)
      case Ok(target) =>
        ((target.Some? ==> output[g].mnemonic.Some?)
        && var a := AdjustUpTo(x, output, g).value;
            var relative := output[g].mnemonic.Some? && IsRelative(output[g].mnemonic.value);
          AdjustUpTo(x, output, g + 1) == Ok(Adjusted(a.lines + [Retargeted(output[g], target)],
            a.relative + (if target.Some? && relative then 1 else 0), a.absolute +
              (if target.Some? && !relative then 1 else 0))))
  {
    hide Retargeted, LiteralAdjustment, IsRelative, IsAbsoluteBranch, ParseInteger;
  }

  lemma {:induction false} ErrorStays(x: Context, output: seq<OutputLine>, k: nat)
    requires k <= |output| && AdjustUpTo(x, output, k).Err?
    ensures AdjustAll(x, output) == AdjustUpTo(x, output, k)
    decreases |output| - k
  {
    hide Adjustment, Retargeted;
    if k < |output| { ErrorStays(x, output, k + 1); }
  }

  lemma {:induction false} AdjustedLine(x: Context, output: seq<OutputLine>, k: nat, g: nat)
    requires g < k <= |output| && AdjustUpTo(x, output, k).Ok?
    ensures Adjustment(x, g, output[g]).Ok?
    ensures AdjustUpTo(x, output, k).value.lines[g] == Retargeted(output[g], Adjustment(x, g, output[g]).value)
  {
    hide Adjustment, Retargeted;
    if g < k - 1 { AdjustedLine(x, output, k - 1, g); }
  }

  lemma {:induction false} NothingAdjusted(x: Context, output: seq<OutputLine>, k: nat)
    requires k <= |output| && forall g :: 0 <= g < k ==> Adjustment(x, g, output[g]) == Ok(None)
    ensures AdjustUpTo(x, output, k) == Ok(Adjusted(output[..k], 0, 0))
  {
    hide Adjustment;
    if k > 0 {
      NothingAdjusted(x, output, k - 1);
      assert output[..k] == output[..k - 1] + [output[k - 1]];
    }
  }
}
