/**
  The newer hierarchy builder, `process_hierarchical_data` in
  ghg_processing/unfccc/process_hierarchy.py: parse every category, carry the current
  context along the rows, add one depth column per position, a label, a memo flag and a
  Level tag, then split the rows into nine level frames and a memo frame.
*/
module Hierarchy {
  import opened Wrappers
  import opened Text
  import opened Tables
  import opened Category

  // ---------------------------------------------------------------- the context pass

  /** A row that sets the context: numbered, with segments. */
  predicate IsAnchor(p: CategoryNode) {
    p.isNumbered && p.levels != []
  }

  /** A row that takes its path from the context: unnumbered, not Total, not a memo item. */
  predicate TakesContext(p: CategoryNode) {
    !p.isNumbered && !StartsWith(p.title, "Total") && !p.isMemo
  }

  /** The path a row ends up with, given the context in force when it is reached. */
  function Assigned(context: seq<string>, p: CategoryNode): seq<string> {
    if TakesContext(p) then (if context != [] then context + ["child"] else ["1"]) else p.levels
  }

  /** The context after a row. */
  function Advance(context: seq<string>, p: CategoryNode): seq<string> {
    if IsAnchor(p) then p.levels else context
  }

  /** The context pass as a fold over the rows from the front. */
  function Propagate(context: seq<string>, ps: seq<CategoryNode>): (r: seq<CategoryNode>)
    ensures |r| == |ps|
    decreases |ps|
  {
    if ps == [] then []
    else [ps[0].(levels := Assigned(context, ps[0]))] + Propagate(Advance(context, ps[0]), ps[1..])
  }

  /** The context after the rows `qs`: the segments of the last anchor among them, else `context`. */
  function ContextAfter(context: seq<string>, qs: seq<CategoryNode>): seq<string>
    decreases |qs|
  {
    if qs == [] then context
    else if IsAnchor(qs[|qs| - 1]) then qs[|qs| - 1].levels
    else ContextAfter(context, qs[..|qs| - 1])
  }

  lemma {:induction false} ContextAfterCons(context: seq<string>, q: CategoryNode, qs: seq<CategoryNode>)
    ensures ContextAfter(Advance(context, q), qs) == ContextAfter(context, [q] + qs)
    decreases |qs|
  {
    if qs == [] {
      assert [q] + qs == [q];
      assert [q][..0] == [];
    } else {
      var all := [q] + qs;
      assert all[|all| - 1] == qs[|qs| - 1];
      assert all[..|all| - 1] == [q] + qs[..|qs| - 1];
      ContextAfterCons(context, q, qs[..|qs| - 1]);
    }
  }

  /** Row `i` after the pass: its own fields, with the path given by the last anchor above it. */
  lemma {:induction false} PropagateAt(context: seq<string>, ps: seq<CategoryNode>, i: nat)
    requires i < |ps|
    ensures Propagate(context, ps)[i] == ps[i].(levels := Assigned(ContextAfter(context, ps[..i]), ps[i]))
    decreases i
  {
    if i == 0 {
      assert ps[..0] == [];
    } else {
      PropagateAt(Advance(context, ps[0]), ps[1..], i - 1);
      ContextAfterCons(context, ps[0], ps[1..][..i - 1]);
      assert [ps[0]] + ps[1..][..i - 1] == ps[..i];
    }
  }

  /** The loop that rewrites the path of each prose row in place, carrying the context. */
  method AssignContext(parsed: array<CategoryNode>)
    modifies parsed
    ensures parsed[..] == Propagate([], old(parsed[..]))
  {
    ghost var ps := parsed[..];
    var context: seq<string> := [];
    var i := 0;
    while i < parsed.Length
      invariant 0 <= i <= parsed.Length
      invariant context == ContextAfter([], ps[..i])
      invariant forall j :: i <= j < parsed.Length ==> parsed[j] == ps[j]
      invariant forall j :: 0 <= j < i ==> parsed[j] == Propagate([], ps)[j]
    {
      var p := parsed[i];
      PropagateAt([], ps, i);
      if IsAnchor(p) {
        context := p.levels;
      } else if TakesContext(p) {
        if context != [] {
          parsed[i] := p.(levels := context + ["child"]);
        } else {
          parsed[i] := p.(levels := ["1"]);
        }
      }
      assert ps[..i + 1][..i] == ps[..i];
      i := i + 1;
    }
  }

  /** The shape `ParseCategory` guarantees: numbered rows have a non-empty first segment, others none. */
  predicate Shaped(p: CategoryNode) {
    && (p.isNumbered ==> p.levels != [] && p.levels[0] != [])
    && (!p.isNumbered ==> p.levels == [])
  }

  lemma ParsedIsShaped(raw: string)
    ensures Shaped(ParseCategory(raw))
  {
  }

  /** Over shaped rows, the context is empty or starts with a non-empty segment. */
  lemma {:induction false} ContextShape(qs: seq<CategoryNode>)
    requires forall i :: 0 <= i < |qs| ==> Shaped(qs[i])
    ensures ContextAfter([], qs) == [] || ContextAfter([], qs)[0] != []
    decreases |qs|
  {
    if qs != [] && !IsAnchor(qs[|qs| - 1]) {
      ContextShape(qs[..|qs| - 1]);
    }
  }

  /** The pass changes paths only: labels, memo and numbering flags stay, and so does every path not taken from the context. */
  lemma PropagateKeeps(ps: seq<CategoryNode>, i: nat)
    requires i < |ps|
    ensures var q := Propagate([], ps)[i];
            && q.title == ps[i].title && q.isMemo == ps[i].isMemo && q.isNumbered == ps[i].isNumbered
            && (!TakesContext(ps[i]) ==> q.levels == ps[i].levels)
  {
    PropagateAt([], ps, i);
  }

  /** Row order matters: a prose row below an anchor is its child, above it a top-level row. */
  lemma PropagateOrderMatters()
    ensures var anchor := CategoryNode(["1", "A"], "Fuel combustion", false, true);
            var prose := CategoryNode([], "Other", false, false);
            && Propagate([], [anchor, prose])[1].levels == ["1", "A", "child"]
            && Propagate([], [prose, anchor])[0].levels == ["1"]
  {
    var anchor := CategoryNode(["1", "A"], "Fuel combustion", false, true);
    var prose := CategoryNode([], "Other", false, false);
    assert !StartsWith("Other", "Total") by { assert "Other"[0] != "Total"[0]; }
    assert [anchor, prose][1..] == [prose];
  }

  // ---------------------------------------------------------------- maximum depth

  /** The longest path, or `None` when no row has a path (Python's `max` of nothing raises). */
  function MaxDepth(ps: seq<CategoryNode>): (m: Option<nat>)
    ensures m.None? <==> forall i :: 0 <= i < |ps| ==> ps[i].levels == []
    ensures m.Some? ==> m.value >= 1 && exists i :: 0 <= i < |ps| && |ps[i].levels| == m.value
    ensures m.Some? ==> forall i :: 0 <= i < |ps| ==> |ps[i].levels| <= m.value
  {
    if ps == [] then None
    else
      var rest := MaxDepth(ps[1..]);
      assert forall i :: 1 <= i < |ps| ==> ps[i] == ps[1..][i - 1];
      var here := |ps[0].levels|;
      match rest
      case None => if here == 0 then None else Some(here)
      case Some(k) =>
        var j :| 0 <= j < |ps[1..]| && |ps[1..][j].levels| == k;
        assert ps[j + 1] == ps[1..][j];
        Some(if here > k then here else k)
  }

  /**
    The pass leaves every path empty (so `max` raises) exactly when every parsed row is
    unnumbered and is a Total row or a memo item.
  */
  lemma NoLevelsIff(ps: seq<CategoryNode>)
    requires forall i :: 0 <= i < |ps| ==> Shaped(ps[i])
    ensures MaxDepth(Propagate([], ps)).None?
            <==> forall i :: 0 <= i < |ps| ==> !ps[i].isNumbered && (StartsWith(ps[i].title, "Total") || ps[i].isMemo)
  {
    var qs := Propagate([], ps);
    forall i | 0 <= i < |ps|
      ensures qs[i].levels == [] <==> !ps[i].isNumbered && (StartsWith(ps[i].title, "Total") || ps[i].isMemo)
    {
      PropagateAt([], ps, i);
    }
  }

  // ---------------------------------------------------------------- depth-column names

  const FixedLevelNames: seq<string> :=
    ["Sector", "Subsector", "Sub_subsector", "Sub_sub_subsector", "Level_5", "Level_6", "Level_7", "Level_8"]

  /** The depth-column names for a longest path of `maxLen` segments. */
  function DepthNames(maxLen: nat): (names: seq<string>)
    ensures |names| == if maxLen > 8 then maxLen else 8
    ensures names[..8] == FixedLevelNames
    ensures forall i :: 8 <= i < |names| ==> names[i] == "Level_" + IntToString(i + 1)
  {
    var fixed := FixedLevelNames;
    assert |fixed| == 8;
    var names := seq(if maxLen > 8 then maxLen else 8, i requires 0 <= i => if i < 8 then fixed[i] else "Level_" + IntToString(i + 1));
    assert names[..8] == fixed;
    names
  }

  /** The loop that extends the fixed names with Level_9 .. Level_maxLen. */
  method LevelNames(maxLen: nat) returns (names: seq<string>)
    ensures names == DepthNames(maxLen)
  {
    names := FixedLevelNames;
    if maxLen > |names| {
      var i := |names| + 1;
      while i <= maxLen
        invariant 9 <= i <= maxLen + 1
        invariant names == DepthNames(i - 1)
      {
        DepthNamesSnoc(i);
        names := names + ["Level_" + IntToString(i)];
        i := i + 1;
      }
    }
  }

  /** One more segment of depth adds the next Level_<n> name at the end. */
  lemma DepthNamesSnoc(n: nat)
    requires n >= 9
    ensures DepthNames(n) == DepthNames(n - 1) + ["Level_" + IntToString(n)]
  {
    var a, b := DepthNames(n), DepthNames(n - 1) + ["Level_" + IntToString(n)];
    assert |a| == |b|;
    forall i | 0 <= i < |a| ensures a[i] == b[i] {
      if i < 8 {
        assert a[i] == a[..8][i] && b[i] == DepthNames(n - 1)[..8][i];
      }
    }
  }

  /** The fixed names from the fifth on already follow the Level_<n> pattern. */
  lemma FixedNamesPattern()
    ensures forall i :: 4 <= i < 8 ==> FixedLevelNames[i] == "Level_" + IntToString(i + 1)
  {
    assert IntToString(5) == "5" && IntToString(6) == "6" && IntToString(7) == "7" && IntToString(8) == "8";
  }

  lemma IntToStringInjective(a: nat, b: nat)
    requires IntToString(a) == IntToString(b)
    ensures a == b
  {
    ParseIntOfIntToString(a);
    ParseIntOfIntToString(b);
  }

  /** The depth-column names are pairwise distinct and differ from "Label", "Is_Memo" and "Level". */
  lemma DepthNamesDistinct(maxLen: nat)
    ensures var names := DepthNames(maxLen);
            && (forall i, j :: 0 <= i < j < |names| ==> names[i] != names[j])
            && "Label" !in names && "Is_Memo" !in names && "Level" !in names
  {
    DepthNamesPairwise(maxLen);
    DepthNamesReserved(maxLen);
  }

  /** From the fifth on, every depth-column name is Level_<position>. */
  lemma DepthNamesPattern(maxLen: nat)
    ensures var names := DepthNames(maxLen);
            forall i :: 4 <= i < |names| ==> names[i] == "Level_" + IntToString(i + 1)
  {
    var names := DepthNames(maxLen);
    FixedNamesPattern();
    forall i | 4 <= i < |names| ensures names[i] == "Level_" + IntToString(i + 1) {
      if i < 8 { assert names[i] == names[..8][i]; }
    }
  }

  lemma DepthNamesPairwise(maxLen: nat)
    ensures var names := DepthNames(maxLen);
            forall i, j :: 0 <= i < j < |names| ==> names[i] != names[j]
  {
    var names := DepthNames(maxLen);
    DepthNamesPattern(maxLen);
    forall i, j | 0 <= i < j < |names| ensures names[i] != names[j] {
      if i < 4 {
        assert names[i] == names[..8][i];
        if j < 8 { assert names[j] == names[..8][j]; } else { assert names[j][0] == 'L'; }
      } else if names[i] == names[j] {
        var pre := "Level_";
        assert names[i][|pre|..] == IntToString(i + 1);
        assert names[j][|pre|..] == IntToString(j + 1);
        IntToStringInjective(i + 1, j + 1);
      }
    }
  }

  lemma DepthNamesReserved(maxLen: nat)
    ensures var names := DepthNames(maxLen);
            "Label" !in names && "Is_Memo" !in names && "Level" !in names
  {
    var names := DepthNames(maxLen);
    forall i | 0 <= i < |names| ensures names[i] != "Label" && names[i] != "Is_Memo" && names[i] != "Level" {
      if i < 8 {
        assert names[i] == names[..8][i];
      } else {
        assert names[i][..6] == "Level_";
      }
    }
  }

  // ---------------------------------------------------------------- classification

  /** The Level tag; `Depth(0)` is a sector, `Depth(7)` is Level-8. */
  datatype Level = Total | Depth(k: nat) | Unknown

  function LevelName(l: Level): string {
    match l
    case Total => "Total"
    case Unknown => "Unknown"
    case Depth(k) =>
      if k == 0 then "Sector" else if k == 1 then "Subsector" else if k == 2 then "Sub-subsector"
      else if k == 3 then "Sub-sub-subsector" else if k == 4 then "Level-5" else if k == 5 then "Level-6"
      else if k == 6 then "Level-7" else if k == 7 then "Level-8" else "Unknown"
  }

  /** The segment at depth `k`, or NaN when the path is shorter. */
  function Seg(levels: seq<string>, k: nat): Option<string> {
    if k < |levels| then Some(levels[k]) else None
  }

  /** Python truthiness of a depth cell: present and non-empty. */
  predicate Truthy(c: Option<string>) {
    c.Some? && c.value != []
  }

  /** The `if`/`elif` chain that tags one row. */
  function Classify(p: CategoryNode): (r: Level)
    ensures r.Depth? ==> r.k < 8
  {
    var d := p.levels;
    if StartsWith(p.title, "Total") then Total
    else if Truthy(Seg(d, 0)) && !Truthy(Seg(d, 1)) then Depth(0)
    else if Truthy(Seg(d, 1)) && !Truthy(Seg(d, 2)) then Depth(1)
    else if Truthy(Seg(d, 2)) && !Truthy(Seg(d, 3)) then Depth(2)
    else if Truthy(Seg(d, 3)) && !Truthy(Seg(d, 4)) then Depth(3)
    else if Truthy(Seg(d, 4)) && !Truthy(Seg(d, 5)) then Depth(4)
    else if Truthy(Seg(d, 5)) && !Truthy(Seg(d, 6)) then Depth(5)
    else if Truthy(Seg(d, 6)) && !Truthy(Seg(d, 7)) then Depth(6)
    else if Truthy(Seg(d, 7)) then Depth(7)
    else Unknown
  }

  /** Depth `k` is a leaf: its segment is non-empty and the next is absent or empty (nothing after depth 7 counts). */
  predicate LeafAt(levels: seq<string>, k: nat) {
    Truthy(Seg(levels, k)) && (k == 7 || !Truthy(Seg(levels, k + 1)))
  }

  /** A row is tagged Total iff its label starts with "Total", numbered or not. */
  lemma ClassifyTotal(p: CategoryNode)
    ensures Classify(p) == Total <==> StartsWith(p.title, "Total")
  {
  }

  /** Otherwise the tag is the first leaf depth among the first eight. */
  lemma ClassifyDepth(p: CategoryNode, k: nat)
    requires k < 8
    ensures Classify(p) == Depth(k)
            <==> !StartsWith(p.title, "Total") && LeafAt(p.levels, k) && forall j :: 0 <= j < k ==> !LeafAt(p.levels, j)
  {
    var d := p.levels;
    if Classify(p) == Depth(k) {
      forall j | 0 <= j < k ensures !LeafAt(d, j) {
        assert j == 0 || j == 1 || j == 2 || j == 3 || j == 4 || j == 5 || j == 6;
      }
    }
    if !StartsWith(p.title, "Total") && LeafAt(d, k) && forall j :: 0 <= j < k ==> !LeafAt(d, j) {
      if k > 0 { assert !LeafAt(d, 0); }
      if k > 1 { assert !LeafAt(d, 1); }
      if k > 2 { assert !LeafAt(d, 2); }
      if k > 3 { assert !LeafAt(d, 3); }
      if k > 4 { assert !LeafAt(d, 4); }
      if k > 5 { assert !LeafAt(d, 5); }
      if k > 6 { assert !LeafAt(d, 6); }
    }
  }

  /** Unknown iff not Total and none of the first eight segments is non-empty. */
  lemma ClassifyUnknown(p: CategoryNode)
    ensures Classify(p) == Unknown
            <==> !StartsWith(p.title, "Total") && forall k :: 0 <= k < 8 ==> !Truthy(Seg(p.levels, k))
  {
    if !StartsWith(p.title, "Total") && Classify(p) == Unknown {
      forall k | 0 <= k < 8 ensures !Truthy(Seg(p.levels, k)) {
        ClassifyUnknownDown(p, k);
      }
    }
  }

  lemma {:induction false} ClassifyUnknownDown(p: CategoryNode, k: nat)
    requires k < 8 && !StartsWith(p.title, "Total") && Classify(p) == Unknown
    ensures !Truthy(Seg(p.levels, k))
    decreases 8 - k
  {
    if k < 7 {
      ClassifyUnknownDown(p, k + 1);
    }
  }

  /** A path with eight or more non-empty segments is tagged Level-8. */
  lemma DeepPathIsLevel8(p: CategoryNode)
    requires !StartsWith(p.title, "Total") && |p.levels| >= 8
    requires forall k :: 0 <= k < |p.levels| ==> p.levels[k] != []
    ensures LevelName(Classify(p)) == "Level-8"
  {
  }

  /** The loop that tags every row. */
  method ClassifyRows(ps: seq<CategoryNode>) returns (tags: seq<Level>)
    ensures tags == seq(|ps|, i requires 0 <= i < |ps| => Classify(ps[i]))
  {
    tags := [];
    var i := 0;
    while i < |ps|
      invariant 0 <= i <= |ps|
      invariant tags == seq(i, j requires 0 <= j < i => Classify(ps[j]))
    {
      tags := tags + [Classify(ps[i])];
      i := i + 1;
    }
  }

  /** After the pass over parsed rows, no row that is not a memo item is tagged Unknown. */
  lemma NonMemoNeverUnknown(ps: seq<CategoryNode>, i: nat)
    requires forall j :: 0 <= j < |ps| ==> Shaped(ps[j])
    requires i < |ps| && !ps[i].isMemo
    ensures Classify(Propagate([], ps)[i]) != Unknown
  {
    var q := Propagate([], ps)[i];
    PropagateAt([], ps, i);
    var context := ContextAfter([], ps[..i]);
    assert forall j :: 0 <= j < i ==> ps[..i][j] == ps[j];
    ContextShape(ps[..i]);
    if !StartsWith(q.title, "Total") {
      assert q.levels != [] && q.levels[0] != [];
      assert Truthy(Seg(q.levels, 0));
      ClassifyUnknown(q);
    }
  }

  // ---------------------------------------------------------------- the output frame and its split

  /** The cells of depth column `k`: segment `k` of each path, or NaN. */
  function DepthCells(ps: seq<CategoryNode>, k: nat): (cells: seq<Cell>)
    ensures |cells| == |ps|
  {
    seq(|ps|, i requires 0 <= i < |ps| => if k < |ps[i].levels| then Some(Str(ps[i].levels[k])) else None)
  }

  /** `df[name] = ...` for the first `n` depth names. */
  function SetDepthColumns(f: Frame, ps: seq<CategoryNode>, names: seq<string>, n: nat): (g: Frame)
    requires WellFormed(f) && |ps| == |f.rows| && n <= |names|
    ensures WellFormed(g) && |g.rows| == |f.rows|
  {
    if n == 0 then f else SetColumn(SetDepthColumns(f, ps, names, n - 1), names[n - 1], DepthCells(ps, n - 1))
  }

  function LabelCells(ps: seq<CategoryNode>): seq<Cell> {
    seq(|ps|, i requires 0 <= i < |ps| => Some(Str(ps[i].title)))
  }

  function MemoCells(ps: seq<CategoryNode>): seq<Cell> {
    seq(|ps|, i requires 0 <= i < |ps| => Some(Flag(ps[i].isMemo)))
  }

  function LevelCells(ps: seq<CategoryNode>): seq<Cell> {
    seq(|ps|, i requires 0 <= i < |ps| => Some(Str(LevelName(Classify(ps[i])))))
  }

  /** The input frame with the depth columns, Label, Is_Memo and Level added. */
  function Decorate(f: Frame, ps: seq<CategoryNode>, names: seq<string>): (g: Frame)
    requires WellFormed(f) && |ps| == |f.rows|
    ensures WellFormed(g) && |g.rows| == |f.rows|
  {
    var g1 := SetDepthColumns(f, ps, names, |names|);
    var g2 := SetColumn(g1, "Label", LabelCells(ps));
    var g3 := SetColumn(g2, "Is_Memo", MemoCells(ps));
    SetColumn(g3, "Level", LevelCells(ps))
  }

  /** The Level names of the nine level frames, in the order they are returned. */
  const FrameLevelNames: seq<string> :=
    ["Total", "Sector", "Subsector", "Sub-subsector", "Sub-sub-subsector", "Level-5", "Level-6", "Level-7", "Level-8"]

  /** The nine level frames (Total first, Level-8 last) and the memo frame. */
  datatype Leveled = Leveled(frames: seq<Frame>, memo: Frame)

  predicate HasSplitColumns(g: Frame) {
    WellFormed(g) && "Is_Memo" in g.columns && "Level" in g.columns
  }

  function MemoColumn(g: Frame): nat
    requires HasSplitColumns(g)
  {
    Find(g.columns, "Is_Memo").value
  }

  function LevelColumn(g: Frame): nat
    requires HasSplitColumns(g)
  {
    Find(g.columns, "Level").value
  }

  /** Every row carries a memo flag, and every non-memo row's Level names one of the nine frames. */
  predicate LevelsAssigned(g: Frame)
    requires HasSplitColumns(g)
  {
    && (forall i :: 0 <= i < |g.rows| ==> g.rows[i][MemoColumn(g)].Some? && g.rows[i][MemoColumn(g)].value.Flag?)
    && (forall i :: 0 <= i < |g.rows| && g.rows[i][MemoColumn(g)] != Some(Flag(true))
          ==> g.rows[i][LevelColumn(g)] in Names(9))
  }

  /** `df['Is_Memo']` as a mask. */
  function MemoMask(g: Frame): (m: seq<bool>)
    requires HasSplitColumns(g)
    ensures |m| == |g.rows|
  {
    seq(|g.rows|, i requires 0 <= i < |g.rows| => g.rows[i][MemoColumn(g)] == Some(Flag(true)))
  }

  function Not(m: seq<bool>): (r: seq<bool>)
    ensures |r| == |m|
  {
    seq(|m|, i requires 0 <= i < |m| => !m[i])
  }

  /** `main_df['Level'] == name` as a mask over the rows of `main`. */
  function LevelMask(main: Frame, column: nat, name: string): (m: seq<bool>)
    requires WellFormed(main) && column < |main.columns|
    ensures |m| == |main.rows|
    ensures forall j :: 0 <= j < |m| ==> (m[j] <==> main.rows[j][column] == Some(Str(name)))
  {
    Matches(main.rows, column, name)
  }

  /** `rows[column] == name`, row by row. */
  function Matches(rows: seq<seq<Cell>>, column: nat, name: string): (m: seq<bool>)
    requires forall j :: 0 <= j < |rows| ==> column < |rows[j]|
    ensures |m| == |rows|
    ensures forall j :: 0 <= j < |m| ==> (m[j] <==> rows[j][column] == Some(Str(name)))
  {
    seq(|rows|, j requires 0 <= j < |rows| => rows[j][column] == Some(Str(name)))
  }

  /** `main_df = df[~df['Is_Memo']]`, `memo_df = df[df['Is_Memo']]`, and one level frame per Level name. */
  function SplitLevels(g: Frame): (r: Leveled)
    requires HasSplitColumns(g)
    ensures |r.frames| == 9
  {
    var main := Mask(g, Not(MemoMask(g)));
    Leveled(LevelFrames(main, LevelColumn(g)), Mask(g, MemoMask(g)))
  }

  /** `main_df[main_df['Level'] == name]` for each of the nine Level names. */
  function LevelFrames(main: Frame, column: nat): (frames: seq<Frame>)
    requires WellFormed(main) && column < |main.columns|
    ensures |frames| == 9
    ensures forall s :: 0 <= s < 9 ==> frames[s] == Mask(main, LevelMask(main, column, FrameLevelNames[s]))
  {
    seq(9, s requires 0 <= s < 9 => Mask(main, LevelMask(main, column, FrameLevelNames[s])))
  }

  /** The parsed category of every row. */
  function ParsedRows(f: Frame, c: nat): (ps: seq<CategoryNode>)
    requires WellFormed(f) && c < |f.columns|
    ensures |ps| == |f.rows|
  {
    seq(|f.rows|, i requires 0 <= i < |f.rows| => ParseCategory(CellText(f.rows[i][c])))
  }

  /** The two ValueErrors the builder raises. */
  datatype HierarchyError = CategoryColumnNotFound | NoLevels

  /** `process_hierarchical_data` as a function of the input frame (diagnostic printing left out). */
  function ProcessHierarchy(f: Frame): Result<Leveled, HierarchyError>
    requires WellFormed(f)
  {
    match CategoryColumnIndex(f.columns)
    case None => Err(CategoryColumnNotFound)
    case Some(c) =>
      var ps := Propagate([], ParsedRows(f, c));
      match MaxDepth(ps)
      case None => Err(NoLevels)
      case Some(m) =>
        DecorateHasSplitColumns(f, ps, DepthNames(m));
        Ok(SplitLevels(Decorate(f, ps, DepthNames(m))))
  }

  lemma SetDepthColumnsStep(f: Frame, ps: seq<CategoryNode>, names: seq<string>, k: nat)
    requires WellFormed(f) && |ps| == |f.rows| && k < |names|
    ensures SetDepthColumns(f, ps, names, k + 1) == SetColumn(SetDepthColumns(f, ps, names, k), names[k], DepthCells(ps, k))
  {
  }

  /** The loop `for i, name in enumerate(level_names): df[name] = ...`. */
  method AddDepthColumns(f: Frame, ps: seq<CategoryNode>, names: seq<string>) returns (g: Frame)
    requires WellFormed(f) && |ps| == |f.rows|
    ensures g == SetDepthColumns(f, ps, names, |names|)
  {
    g := f;
    var k := 0;
    while k < |names|
      invariant 0 <= k <= |names|
      invariant g == SetDepthColumns(f, ps, names, k)
      invariant WellFormed(g) && |g.rows| == |ps|
    {
      SetDepthColumnsStep(f, ps, names, k);
      g := SetColumn(g, names[k], DepthCells(ps, k));
      k := k + 1;
    }
  }

  /** The steps after the context pass: names, columns, tags and the split. */
  method FinishHierarchy(f: Frame, ps: seq<CategoryNode>, maxLen: nat) returns (r: Leveled)
    requires WellFormed(f) && |ps| == |f.rows|
    ensures HasSplitColumns(Decorate(f, ps, DepthNames(maxLen)))
    ensures r == SplitLevels(Decorate(f, ps, DepthNames(maxLen)))
  {
    var names := LevelNames(maxLen);
    var g := AddDepthColumns(f, ps, names);
    g := SetColumn(g, "Label", LabelCells(ps));
    g := SetColumn(g, "Is_Memo", MemoCells(ps));
    var tags := ClassifyRows(ps);
    var levels := seq(|tags|, i requires 0 <= i < |tags| => Some(Str(LevelName(tags[i]))));
    LevelCellsOfTags(ps, tags);
    g := SetColumn(g, "Level", levels);
    DecorateHasSplitColumns(f, ps, names);
    r := SplitLevels(g);
  }

  /** The Level cells written from the tags of the rows are the Level cells of the rows. */
  lemma LevelCellsOfTags(ps: seq<CategoryNode>, tags: seq<Level>)
    requires tags == seq(|ps|, i requires 0 <= i < |ps| => Classify(ps[i]))
    ensures seq(|tags|, i requires 0 <= i < |tags| => Some(Str(LevelName(tags[i])))) == LevelCells(ps)
  {
  }

  /** The builder, step by step as the source runs it. */
  method BuildHierarchy(f: Frame) returns (r: Result<Leveled, HierarchyError>)
    requires WellFormed(f)
    ensures r == ProcessHierarchy(f)
  {
    var c := FindCategoryColumn(f.columns);
    if c.None? {
      return Err(CategoryColumnNotFound);
    }
    var rows := ParsedRows(f, c.value);
    var parsed := new CategoryNode[|rows|](i requires 0 <= i < |rows| => rows[i]);
    assert parsed[..] == rows;
    AssignContext(parsed);
    var ps := parsed[..];
    var m := MaxDepth(ps);
    if m.None? {
      return Err(NoLevels);
    }
    var leveled := FinishHierarchy(f, ps, m.value);
    r := Ok(leveled);
  }

  // ---------------------------------------------------------------- facts about the columns

  lemma FindInPrefix(xs: seq<string>, ys: seq<string>, x: string)
    requires x in xs
    ensures Find(xs + ys, x) == Find(xs, x)
  {
    var k := Find(xs, x).value;
    assert (xs + ys)[k] == x;
    assert (xs + ys)[..k] == xs[..k];
    var k2 := Find(xs + ys, x).value;
    assert k2 <= k;
    assert (xs + ys)[..k2] == xs[..k2];
  }

  /** Setting one column leaves every other column where it was, with its cells. */
  lemma SetColumnHolds(f: Frame, name: string, values: seq<Cell>)
    requires WellFormed(f) && |values| == |f.rows|
    ensures var g := SetColumn(f, name, values);
            && name in g.columns
            && forall i :: 0 <= i < |g.rows| ==> g.rows[i][Find(g.columns, name).value] == values[i]
  {
    var g := SetColumn(f, name, values);
    assert g.columns[Find(g.columns, name).value] == name;
  }

  /** A column that already holds `cells` still holds them after another column is set. */
  lemma StepKeeps(prev: Frame, name: string, values: seq<Cell>, other: string, cells: seq<Cell>)
    requires WellFormed(prev) && |values| == |prev.rows| && other != name && other in prev.columns
    requires |cells| == |prev.rows|
    requires forall i :: 0 <= i < |prev.rows| ==> prev.rows[i][Find(prev.columns, other).value] == cells[i]
    ensures var g := SetColumn(prev, name, values);
            && other in g.columns
            && forall i :: 0 <= i < |g.rows| ==> g.rows[i][Find(g.columns, other).value] == cells[i]
  {
    SetColumnKeeps(prev, name, values, other);
  }

  lemma SetColumnKeeps(f: Frame, name: string, values: seq<Cell>, other: string)
    requires WellFormed(f) && |values| == |f.rows| && other != name && other in f.columns
    ensures var g := SetColumn(f, name, values);
            && other in g.columns
            && Find(g.columns, other) == Find(f.columns, other)
            && forall i :: 0 <= i < |g.rows| ==> g.rows[i][Find(g.columns, other).value] == f.rows[i][Find(f.columns, other).value]
  {
    var g := SetColumn(f, name, values);
    assert g.columns == f.columns + g.columns[|f.columns|..];
    FindInPrefix(f.columns, g.columns[|f.columns|..], other);
  }

  lemma DecorateHasSplitColumns(f: Frame, ps: seq<CategoryNode>, names: seq<string>)
    requires WellFormed(f) && |ps| == |f.rows|
    ensures HasSplitColumns(Decorate(f, ps, names))
  {
    var g1 := SetDepthColumns(f, ps, names, |names|);
    var g2 := SetColumn(g1, "Label", LabelCells(ps));
    var g3 := SetColumn(g2, "Is_Memo", MemoCells(ps));
    SetColumnKeeps(g3, "Level", LevelCells(ps), "Is_Memo");
  }

  /** In the decorated frame, Label, Is_Memo and Level hold the parsed label, the memo flag and the Level name. */
  lemma DecorateCells(f: Frame, ps: seq<CategoryNode>, names: seq<string>)
    requires WellFormed(f) && |ps| == |f.rows|
    ensures var g := Decorate(f, ps, names);
            && HasSplitColumns(g) && "Label" in g.columns
            && forall i :: 0 <= i < |g.rows| ==>
                 && g.rows[i][Find(g.columns, "Label").value] == Some(Str(ps[i].title))
                 && g.rows[i][MemoColumn(g)] == Some(Flag(ps[i].isMemo))
                 && g.rows[i][LevelColumn(g)] == Some(Str(LevelName(Classify(ps[i]))))
  {
    var g1 := SetDepthColumns(f, ps, names, |names|);
    var g2 := SetColumn(g1, "Label", LabelCells(ps));
    var g3 := SetColumn(g2, "Is_Memo", MemoCells(ps));
    SetColumnKeeps(g2, "Is_Memo", MemoCells(ps), "Label");
    SetColumnKeeps(g3, "Level", LevelCells(ps), "Label");
    SetColumnKeeps(g3, "Level", LevelCells(ps), "Is_Memo");
  }

  /** Column `name` of `g` holds `cells`, row by row. */
  predicate ColumnHolds(g: Frame, name: string, cells: seq<Cell>) {
    WellFormed(g) && name in g.columns && |cells| == |g.rows|
    && forall i :: 0 <= i < |g.rows| ==> g.rows[i][Find(g.columns, name).value] == cells[i]
  }

  /** After the first `n` depth columns are set, column `names[k]` (k < n) holds segment `k` of every path. */
  lemma {:induction false} SetDepthColumnsCells(f: Frame, ps: seq<CategoryNode>, names: seq<string>, n: nat, k: nat)
    requires WellFormed(f) && |ps| == |f.rows| && k < n <= |names|
    requires forall i, j :: 0 <= i < j < |names| ==> names[i] != names[j]
    ensures ColumnHolds(SetDepthColumns(f, ps, names, n), names[k], DepthCells(ps, k))
    decreases n
  {
    if k < n - 1 {
      SetDepthColumnsCells(f, ps, names, n - 1, k);
      DepthStepKeeps(f, ps, names, n - 1, k);
    } else {
      DepthStepSets(f, ps, names, k);
    }
  }

  /** Setting depth column `n` keeps what an earlier depth column `k` holds. */
  lemma DepthStepKeeps(f: Frame, ps: seq<CategoryNode>, names: seq<string>, n: nat, k: nat)
    requires WellFormed(f) && |ps| == |f.rows| && k < n < |names| && names[k] != names[n]
    requires ColumnHolds(SetDepthColumns(f, ps, names, n), names[k], DepthCells(ps, k))
    ensures ColumnHolds(SetDepthColumns(f, ps, names, n + 1), names[k], DepthCells(ps, k))
  {
    SetDepthColumnsStep(f, ps, names, n);
    StepKeeps(SetDepthColumns(f, ps, names, n), names[n], DepthCells(ps, n), names[k], DepthCells(ps, k));
  }

  /** Setting depth column `k` puts segment `k` of every path there. */
  lemma DepthStepSets(f: Frame, ps: seq<CategoryNode>, names: seq<string>, k: nat)
    requires WellFormed(f) && |ps| == |f.rows| && k < |names|
    ensures ColumnHolds(SetDepthColumns(f, ps, names, k + 1), names[k], DepthCells(ps, k))
  {
    SetDepthColumnsStep(f, ps, names, k);
    SetColumnHolds(SetDepthColumns(f, ps, names, k), names[k], DepthCells(ps, k));
  }

  /** Depth column `k` of the decorated frame holds segment `k` of each path, or NaN when the path is shorter. */
  lemma DepthColumnCells(f: Frame, ps: seq<CategoryNode>, maxLen: nat, k: nat)
    requires WellFormed(f) && |ps| == |f.rows| && k < |DepthNames(maxLen)|
    ensures var names := DepthNames(maxLen);
            var g := Decorate(f, ps, names);
            && names[k] in g.columns
            && forall i :: 0 <= i < |g.rows| ==>
                 g.rows[i][Find(g.columns, names[k]).value] == (if k < |ps[i].levels| then Some(Str(ps[i].levels[k])) else None)
  {
    var names := DepthNames(maxLen);
    DepthNamesDistinct(maxLen);
    var g1 := SetDepthColumns(f, ps, names, |names|);
    SetDepthColumnsCells(f, ps, names, |names|, k);
    var g2 := SetColumn(g1, "Label", LabelCells(ps));
    var g3 := SetColumn(g2, "Is_Memo", MemoCells(ps));
    SetColumnKeeps(g1, "Label", LabelCells(ps), names[k]);
    SetColumnKeeps(g2, "Is_Memo", MemoCells(ps), names[k]);
    SetColumnKeeps(g3, "Level", LevelCells(ps), names[k]);
  }

  // ---------------------------------------------------------------- facts about the split

  /** The number of level frames' rows, summed over the first `n` frames. */
  function FrameRows(frames: seq<Frame>, n: nat): nat
    requires n <= |frames|
  {
    if n == 0 then 0 else FrameRows(frames, n - 1) + |frames[n - 1].rows|
  }

  function RowsIn(rows: seq<seq<Cell>>, column: nat, name: string): nat
    requires forall j :: 0 <= j < |rows| ==> column < |rows[j]|
  {
    Count(Matches(rows, column, name))
  }

  function RowsInFirst(rows: seq<seq<Cell>>, column: nat, n: nat): nat
    requires forall j :: 0 <= j < |rows| ==> column < |rows[j]|
    requires n <= 9
  {
    if n == 0 then 0 else RowsInFirst(rows, column, n - 1) + RowsIn(rows, column, FrameLevelNames[n - 1])
  }

  lemma {:induction false} RowsInCons(rows: seq<seq<Cell>>, column: nat, name: string)
    requires rows != [] && forall j :: 0 <= j < |rows| ==> column < |rows[j]|
    ensures RowsIn(rows, column, name) == (if rows[0][column] == Some(Str(name)) then 1 else 0) + RowsIn(rows[1..], column, name)
  {
    assert Matches(rows, column, name)[1..] == Matches(rows[1..], column, name);
  }

  lemma {:induction false} RowsInFirstCons(rows: seq<seq<Cell>>, column: nat, n: nat)
    requires rows != [] && forall j :: 0 <= j < |rows| ==> column < |rows[j]|
    requires n <= 9
    ensures RowsInFirst(rows, column, n)
            == (if rows[0][column] in Names(n) then 1 else 0) + RowsInFirst(rows[1..], column, n)
  {
    if n > 0 {
      RowsInFirstCons(rows, column, n - 1);
      RowsInCons(rows, column, FrameLevelNames[n - 1]);
      assert Names(n) == Names(n - 1) + [Some(Str(FrameLevelNames[n - 1]))];
      assert Some(Str(FrameLevelNames[n - 1])) !in Names(n - 1) by { FrameLevelNamesDistinct(n); }
    }
  }

  /** The Level cells of the first `n` frames. */
  function Names(n: nat): seq<Cell>
    requires n <= 9
  {
    seq(n, s requires 0 <= s < n => Some(Str(FrameLevelNames[s])))
  }

  lemma FrameLevelNamesDistinct(n: nat)
    requires 0 < n <= 9
    ensures forall s :: 0 <= s < n - 1 ==> FrameLevelNames[s] != FrameLevelNames[n - 1]
  {
  }

  lemma {:induction false} RowsInFirstEmpty(rows: seq<seq<Cell>>, column: nat, n: nat)
    requires rows == [] && n <= 9
    ensures RowsInFirst(rows, column, n) == 0
  {
    if n > 0 {
      RowsInFirstEmpty(rows, column, n - 1);
      assert RowsIn(rows, column, FrameLevelNames[n - 1]) == 0;
    }
  }

  /** When every row's Level cell names one of the nine frames, the nine counts add up to all rows. */
  lemma {:induction false} RowsInAllFrames(rows: seq<seq<Cell>>, column: nat)
    requires forall j :: 0 <= j < |rows| ==> column < |rows[j]| && rows[j][column] in Names(9)
    ensures RowsInFirst(rows, column, 9) == |rows|
  {
    if rows == [] {
      RowsInFirstEmpty(rows, column, 9);
    } else {
      RowsInFirstCons(rows, column, 9);
      assert rows[0][column] in Names(9);
      assert forall j :: 0 <= j < |rows[1..]| ==> rows[1..][j] == rows[j + 1];
      RowsInAllFrames(rows[1..], column);
    }
  }

  lemma {:induction false} FrameRowsCount(main: Frame, column: nat, n: nat)
    requires WellFormed(main) && column < |main.columns| && n <= 9
    ensures FrameRows(LevelFrames(main, column), n) == RowsInFirst(main.rows, column, n)
  {
    if n > 0 {
      FrameRowsCount(main, column, n - 1);
      var name := FrameLevelNames[n - 1];
      assert LevelFrames(main, column)[n - 1] == Mask(main, LevelMask(main, column, name));
    }
  }

  lemma {:induction false} CountNot(m: seq<bool>)
    ensures Count(Not(m)) + Count(m) == |m|
  {
    if m != [] {
      assert Not(m)[1..] == Not(m[1..]);
      CountNot(m[1..]);
    }
  }

  /**
    Partition completeness: when every row carries a memo flag and every non-memo row's Level
    names one of the nine frames, the memo frame and the nine level frames together hold every row.
  */
  lemma SplitLevelsComplete(g: Frame)
    requires HasSplitColumns(g)
    requires LevelsAssigned(g)
    ensures var r := SplitLevels(g);
            |r.memo.rows| + FrameRows(r.frames, 9) == |g.rows|
  {
    var main := Mask(g, Not(MemoMask(g)));
    var column := LevelColumn(g);
    FrameRowsCount(main, column, 9);
    forall j | 0 <= j < |main.rows| ensures main.rows[j][column] in Names(9) {
      SelectMember(g.rows, Not(MemoMask(g)), main.rows[j]);
    }
    RowsInAllFrames(main.rows, column);
    CountNot(MemoMask(g));
  }

  /**
    Every row of level frame `s` is a non-memo row whose Level is that frame's name; every row of
    the memo frame is a memo row; and each frame keeps the rows in their original order.
  */
  lemma SplitLevelsContents(g: Frame, s: nat)
    requires HasSplitColumns(g) && s < 9
    ensures var r := SplitLevels(g);
            && (forall row :: row in r.frames[s].rows ==>
                  row in g.rows && row[MemoColumn(g)] != Some(Flag(true)) && row[LevelColumn(g)] == Some(Str(FrameLevelNames[s])))
            && (forall row :: row in r.memo.rows ==> row in g.rows && row[MemoColumn(g)] == Some(Flag(true)))
            && Subsequence(r.frames[s].rows, g.rows) && Subsequence(r.memo.rows, g.rows)
  {
    var notMemo := Not(MemoMask(g));
    var main := Mask(g, notMemo);
    var inner := LevelMask(main, LevelColumn(g), FrameLevelNames[s]);
    forall row | row in Select(main.rows, inner)
      ensures row in g.rows && row[MemoColumn(g)] != Some(Flag(true)) && row[LevelColumn(g)] == Some(Str(FrameLevelNames[s]))
    {
      SelectMember(main.rows, inner, row);
      SelectMember(g.rows, notMemo, row);
    }
    forall row | row in Select(g.rows, MemoMask(g)) ensures row in g.rows && row[MemoColumn(g)] == Some(Flag(true)) {
      SelectMember(g.rows, MemoMask(g), row);
    }
    SelectSelect(g.rows, notMemo, inner);
    SelectSubsequence(g.rows, Combine(notMemo, inner));
    SelectSubsequence(g.rows, MemoMask(g));
  }

  // ---------------------------------------------------------------- the builder end to end

  /** The builder raises "category column not found" iff no column name contains the category phrase. */
  lemma HierarchyMissingColumn(f: Frame)
    requires WellFormed(f)
    ensures ProcessHierarchy(f) == Err(CategoryColumnNotFound)
            <==> forall j :: 0 <= j < |f.columns| ==> !Contains(f.columns[j], CategoryPhrase)
  {
  }

  /**
    With a category column present, `max` raises iff every row parses as an unnumbered Total
    row or an unnumbered memo item (in particular when there are no rows).
  */
  lemma HierarchyNoLevels(f: Frame)
    requires WellFormed(f) && CategoryColumnIndex(f.columns).Some?
    ensures var ps := ParsedRows(f, CategoryColumnIndex(f.columns).value);
            ProcessHierarchy(f) == Err(NoLevels)
            <==> forall i :: 0 <= i < |ps| ==> !ps[i].isNumbered && (StartsWith(ps[i].title, "Total") || ps[i].isMemo)
  {
    var ps := ParsedRows(f, CategoryColumnIndex(f.columns).value);
    forall i | 0 <= i < |ps| ensures Shaped(ps[i]) {
      ParsedIsShaped(CellText(f.rows[i][CategoryColumnIndex(f.columns).value]));
    }
    NoLevelsIff(ps);
  }

  /** In the decorated frame of the builder, every non-memo row's Level names one of the nine frames. */
  lemma DecoratedLevelsNamed(f: Frame, ps0: seq<CategoryNode>, maxLen: nat)
    requires WellFormed(f) && |ps0| == |f.rows|
    requires forall i :: 0 <= i < |ps0| ==> Shaped(ps0[i])
    ensures var g := Decorate(f, Propagate([], ps0), DepthNames(maxLen));
            && HasSplitColumns(g)
            && LevelsAssigned(g)
  {
    var ps := Propagate([], ps0);
    DecorateCells(f, ps, DepthNames(maxLen));
    LevelCellsNamed(Decorate(f, ps, DepthNames(maxLen)), ps0);
  }

  /** A frame whose Is_Memo and Level cells are those of the propagated rows names a frame in every non-memo row. */
  lemma LevelCellsNamed(g: Frame, ps0: seq<CategoryNode>)
    requires HasSplitColumns(g) && |ps0| == |g.rows|
    requires forall i :: 0 <= i < |ps0| ==> Shaped(ps0[i])
    requires forall i :: 0 <= i < |g.rows| ==>
               && g.rows[i][MemoColumn(g)] == Some(Flag(Propagate([], ps0)[i].isMemo))
               && g.rows[i][LevelColumn(g)] == Some(Str(LevelName(Classify(Propagate([], ps0)[i]))))
    ensures LevelsAssigned(g)
  {
    forall i | 0 <= i < |g.rows| && g.rows[i][MemoColumn(g)] != Some(Flag(true))
      ensures g.rows[i][LevelColumn(g)] in Names(9)
    {
      PropagateKeeps(ps0, i);
      NonMemoNeverUnknown(ps0, i);
      LevelNameInNames(Classify(Propagate([], ps0)[i]));
    }
  }

  lemma LevelNameInNames(l: Level)
    requires l != Unknown && (l.Depth? ==> l.k < 8)
    ensures Some(Str(LevelName(l))) in Names(9)
  {
    assert Names(9)[if l.Total? then 0 else l.k + 1] == Some(Str(LevelName(l)));
  }

  /** Every input row lands in exactly one returned frame: the memo frame or one of the nine level frames. */
  lemma HierarchyPartition(f: Frame)
    requires WellFormed(f) && ProcessHierarchy(f).Ok?
    ensures var r := ProcessHierarchy(f).value;
            |r.memo.rows| + FrameRows(r.frames, 9) == |f.rows|
  {
    var c := CategoryColumnIndex(f.columns).value;
    var ps0 := ParsedRows(f, c);
    var m := MaxDepth(Propagate([], ps0)).value;
    forall i | 0 <= i < |ps0| ensures Shaped(ps0[i]) {
      ParsedIsShaped(CellText(f.rows[i][c]));
    }
    DecoratedLevelsNamed(f, ps0, m);
    SplitLevelsComplete(Decorate(f, Propagate([], ps0), DepthNames(m)));
  }
}
