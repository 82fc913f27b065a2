/**
  Data frames as the pipeline sees them: named columns over rows of cells, a cell
  being a value or NaN. Numeric emission values are opaque: only whether a cell is
  present matters, so they travel as `Str` of their printed form.
*/
module Tables {
  import opened Wrappers
  import opened Text

  /** A non-missing cell value: text, an integer (the Year column) or a flag (the Is_Memo column). */
  datatype Value = Str(s: string) | Num(n: int) | Flag(b: bool)

  /** `None` is NaN. */
  type Cell = Option<Value>

  /** A data frame: column names and rows of cells, one cell per column. */
  datatype Frame = Frame(columns: seq<string>, rows: seq<seq<Cell>>)

  predicate WellFormed(f: Frame) {
    forall i :: 0 <= i < |f.rows| ==> |f.rows[i]| == |f.columns|
  }

  /** Python `str(cell)`: NaN prints as "nan". */
  function CellText(c: Cell): string {
    match c
    case None => "nan"
    case Some(Str(s)) => s
    case Some(Num(n)) => IntToString(n)
    case Some(Flag(b)) => if b then "True" else "False"
  }

  /** The header phrase that marks the category column. */
  const CategoryPhrase: string := "GREENHOUSE GAS SOURCE AND SINK CATEGORIES"

  /** The first column whose name contains the category phrase. */
  function CategoryColumnIndex(columns: seq<string>): (r: Option<nat>)
    ensures r.Some? ==> r.value < |columns| && Contains(columns[r.value], CategoryPhrase)
    ensures r.Some? ==> forall j :: 0 <= j < r.value ==> !Contains(columns[j], CategoryPhrase)
    ensures r.None? <==> forall j :: 0 <= j < |columns| ==> !Contains(columns[j], CategoryPhrase)
  {
    if columns == [] then None
    else if Contains(columns[0], CategoryPhrase) then Some(0)
    else match CategoryColumnIndex(columns[1..])
      case None => None
      case Some(k) => Some(k + 1)
  }

  /** The loop that looks for the category column, stopping at the first hit. */
  method FindCategoryColumn(columns: seq<string>) returns (r: Option<nat>)
    ensures r == CategoryColumnIndex(columns)
  {
    r := None;
    var i := 0;
    while i < |columns|
      invariant 0 <= i <= |columns|
      invariant forall j :: 0 <= j < i ==> !Contains(columns[j], CategoryPhrase)
    {
      if Contains(columns[i], CategoryPhrase) {
        r := Some(i);
        break;
      }
      i := i + 1;
    }
  }

  /** The position of the first occurrence of `x`. */
  function Find<T(==)>(s: seq<T>, x: T): (r: Option<nat>)
    ensures r.None? <==> x !in s
    ensures r.Some? ==> r.value < |s| && s[r.value] == x && x !in s[..r.value]
  {
    if s == [] then None
    else if s[0] == x then Some(0)
    else match Find(s[1..], x)
      case None => None
      case Some(i) => assert s[..i + 1] == [s[0]] + s[1..][..i]; Some(i + 1)
  }

  /** The elements of `s` that satisfy `p`, in order (a boolean-mask selection). */
  function Filter<T>(s: seq<T>, p: T -> bool): (r: seq<T>)
    ensures |r| <= |s|
    ensures forall x :: x in r ==> x in s && p(x)
    ensures forall i :: 0 <= i < |s| && p(s[i]) ==> s[i] in r
  {
    if s == [] then [] else (if p(s[0]) then [s[0]] else []) + Filter(s[1..], p)
  }

  /** The first element a filter keeps is the first element of the sequence that passes it. */
  lemma {:induction false} FilterFirst<T>(s: seq<T>, p: T -> bool)
    ensures Filter(s, p) != [] ==>
              exists i :: 0 <= i < |s| && Filter(s, p)[0] == s[i] && p(s[i]) && forall j :: 0 <= j < i ==> !p(s[j])
  {
    if s != [] && Filter(s, p) != [] {
      if p(s[0]) {
        assert Filter(s, p)[0] == s[0];
      } else {
        assert Filter(s, p) == Filter(s[1..], p);
        FilterFirst(s[1..], p);
        var i :| 0 <= i < |s[1..]| && Filter(s[1..], p)[0] == s[1..][i] && p(s[1..][i])
                  && forall j :: 0 <= j < i ==> !p(s[1..][j]);
        assert s[i + 1] == s[1..][i];
        forall j | 0 <= j < i + 1 ensures !p(s[j]) {
          if j > 0 {
            assert s[j] == s[1..][j - 1];
          }
        }
      }
    }
  }

  /** A filter that every element passes keeps the sequence whole. */
  lemma {:induction false} FilterAll<T>(s: seq<T>, p: T -> bool)
    requires forall i :: 0 <= i < |s| ==> p(s[i])
    ensures Filter(s, p) == s
  {
    if s != [] {
      FilterAll(s[1..], p);
      assert s == [s[0]] + s[1..];
    }
  }

  /** A filter that no element passes leaves nothing. */
  lemma {:induction false} FilterNone<T>(s: seq<T>, p: T -> bool)
    requires forall i :: 0 <= i < |s| ==> !p(s[i])
    ensures Filter(s, p) == []
  {
    if s != [] {
      FilterNone(s[1..], p);
    }
  }

  /** `a` is `b` with some elements left out, the rest in their order. */
  predicate Subsequence<T(==)>(a: seq<T>, b: seq<T>)
    decreases |b|
  {
    if a == [] then true
    else if b == [] then false
    else if a[0] == b[0] then Subsequence(a[1..], b[1..])
    else Subsequence(a, b[1..])
  }

  lemma {:induction false} FilterSubsequence<T>(s: seq<T>, p: T -> bool)
    ensures Subsequence(Filter(s, p), s)
  {
    if s != [] {
      FilterSubsequence(s[1..], p);
      var rest := Filter(s[1..], p);
      if p(s[0]) {
        assert Filter(s, p) == [s[0]] + rest;
        assert ([s[0]] + rest)[1..] == rest;
      } else {
        assert Filter(s, p) == rest;
        SubsequenceDropHead(rest, s);
      }
    }
  }

  /** Leaving out the first element of the longer sequence keeps a subsequence one. */
  lemma SubsequenceDropHead<T>(a: seq<T>, b: seq<T>)
    requires b != [] && Subsequence(a, b[1..])
    ensures Subsequence(a, b)
    decreases |b|, 0
  {
    if a != [] && a[0] == b[0] {
      SubsequenceHeadTail(a, b[1..]);
    }
  }

  lemma SubsequenceHeadTail<T>(a: seq<T>, b: seq<T>)
    requires a != [] && Subsequence(a, b)
    ensures Subsequence(a[1..], b)
    decreases |b|, 1
  {
    if a[0] == b[0] {
      if a[1..] != [] { SubsequenceDropHead(a[1..], b); }
    } else {
      SubsequenceHeadTail(a, b[1..]);
      SubsequenceDropHead(a[1..], b);
    }
  }

  /** Selecting with a stronger condition keeps a sub-selection. */
  lemma {:induction false} FilterMonotone<T>(s: seq<T>, p: T -> bool, q: T -> bool)
    requires forall x :: x in s && p(x) ==> q(x)
    ensures Subsequence(Filter(s, p), Filter(s, q))
  {
    if s != [] {
      FilterMonotone(s[1..], p, q);
      var rp := Filter(s[1..], p);
      var rq := Filter(s[1..], q);
      if p(s[0]) {
        assert Filter(s, p) == [s[0]] + rp;
        assert Filter(s, q) == [s[0]] + rq;
        assert ([s[0]] + rp)[1..] == rp;
        assert ([s[0]] + rq)[1..] == rq;
      } else if q(s[0]) {
        assert Filter(s, q) == [s[0]] + rq;
        assert ([s[0]] + rq)[1..] == rq;
        SubsequenceDropHead(rp, [s[0]] + rq);
        assert Filter(s, p) == rp;
      } else {
        assert Filter(s, p) == rp && Filter(s, q) == rq;
      }
    }
  }

  /**
    `df[name] = values`: overwrite the first column called `name`, or append a new one;
    every other column keeps its name and its cells.
  */
  function SetColumn(f: Frame, name: string, values: seq<Cell>): (g: Frame)
    requires WellFormed(f) && |values| == |f.rows|
    ensures WellFormed(g) && |g.rows| == |f.rows|
    ensures Find(g.columns, name).Some?
    ensures forall i :: 0 <= i < |g.rows| ==> g.rows[i][Find(g.columns, name).value] == values[i]
    ensures |f.columns| <= |g.columns| <= |f.columns| + 1 && g.columns[..|f.columns|] == f.columns
    ensures name in f.columns ==> g.columns == f.columns
    ensures forall i, j {:trigger g.rows[i][j]} :: 0 <= i < |g.rows| && 0 <= j < |f.columns| && f.columns[j] != name
              ==> g.rows[i][j] == f.rows[i][j]
  {
    match Find(f.columns, name)
    case Some(k) =>
      Frame(f.columns, seq(|f.rows|, i requires 0 <= i < |f.rows| => f.rows[i][k := values[i]]))
    case None =>
      assert Find(f.columns + [name], name) == Some(|f.columns|) by {
        assert (f.columns + [name])[..|f.columns|] == f.columns;
      }
      assert (f.columns + [name])[..|f.columns|] == f.columns;
      Frame(f.columns + [name], seq(|f.rows|, i requires 0 <= i < |f.rows| => f.rows[i] + [values[i]]))
  }

  // ---------------------------------------------------------------- boolean masks

  /** The number of `true` entries. */
  function Count(keep: seq<bool>): (n: nat)
    ensures n <= |keep|
  {
    if keep == [] then 0 else (if keep[0] then 1 else 0) + Count(keep[1..])
  }

  /** `xs[mask]`: the entries whose mask entry is true, in order. */
  function Select<T>(xs: seq<T>, keep: seq<bool>): (r: seq<T>)
    requires |keep| == |xs|
    ensures |r| == Count(keep)
  {
    if xs == [] then [] else (if keep[0] then [xs[0]] else []) + Select(xs[1..], keep[1..])
  }

  /** Every selected entry sits at a position whose mask entry is true. */
  lemma {:induction false} SelectMember<T>(xs: seq<T>, keep: seq<bool>, x: T)
    requires |keep| == |xs| && x in Select(xs, keep)
    ensures exists i :: 0 <= i < |xs| && keep[i] && xs[i] == x
  {
    var rest := Select(xs[1..], keep[1..]);
    if keep[0] && x == xs[0] {
    } else {
      assert x in rest;
      SelectMember(xs[1..], keep[1..], x);
      var i :| 0 <= i < |xs[1..]| && keep[1..][i] && xs[1..][i] == x;
      assert keep[i + 1] && xs[i + 1] == x;
    }
  }

  /** Every entry whose mask entry is true is selected. */
  lemma {:induction false} SelectKeeps<T>(xs: seq<T>, keep: seq<bool>, i: nat)
    requires |keep| == |xs| && i < |xs| && keep[i]
    ensures xs[i] in Select(xs, keep)
  {
    if i > 0 {
      SelectKeeps(xs[1..], keep[1..], i - 1);
    }
  }

  /** A selection is a subsequence of what it selects from. */
  lemma {:induction false} SelectSubsequence<T>(xs: seq<T>, keep: seq<bool>)
    requires |keep| == |xs|
    ensures Subsequence(Select(xs, keep), xs)
  {
    if xs != [] {
      SelectSubsequence(xs[1..], keep[1..]);
      var rest := Select(xs[1..], keep[1..]);
      if keep[0] {
        assert Select(xs, keep) == [xs[0]] + rest;
        assert ([xs[0]] + rest)[1..] == rest;
      } else {
        assert Select(xs, keep) == rest;
        SubsequenceDropHead(rest, xs);
      }
    }
  }

  /** A mask that keeps less selects a subsequence of what a mask that keeps more selects. */
  lemma {:induction false} SelectMonotone<T>(xs: seq<T>, fewer: seq<bool>, more: seq<bool>)
    requires |fewer| == |xs| && |more| == |xs|
    requires forall i :: 0 <= i < |xs| && fewer[i] ==> more[i]
    ensures Subsequence(Select(xs, fewer), Select(xs, more))
  {
    if xs != [] {
      SelectMonotone(xs[1..], fewer[1..], more[1..]);
      var a := Select(xs[1..], fewer[1..]);
      var b := Select(xs[1..], more[1..]);
      if fewer[0] {
        assert Select(xs, fewer) == [xs[0]] + a && Select(xs, more) == [xs[0]] + b;
        assert ([xs[0]] + a)[1..] == a && ([xs[0]] + b)[1..] == b;
      } else if more[0] {
        assert Select(xs, fewer) == a && Select(xs, more) == [xs[0]] + b;
        assert ([xs[0]] + b)[1..] == b;
        SubsequenceDropHead(a, [xs[0]] + b);
      } else {
        assert Select(xs, fewer) == a && Select(xs, more) == b;
      }
    }
  }

  /** Selecting twice is selecting once with the combined mask. */
  lemma {:induction false} SelectSelect<T>(xs: seq<T>, outer: seq<bool>, inner: seq<bool>)
    requires |outer| == |xs| && |inner| == Count(outer)
    ensures Select(Select(xs, outer), inner) == Select(xs, Combine(outer, inner))
  {
    if xs != [] {
      var rest := Select(xs[1..], outer[1..]);
      if outer[0] {
        assert Select(xs, outer) == [xs[0]] + rest;
        assert ([xs[0]] + rest)[1..] == rest;
        assert Combine(outer, inner) == [inner[0]] + Combine(outer[1..], inner[1..]);
        SelectSelect(xs[1..], outer[1..], inner[1..]);
      } else {
        assert Select(xs, outer) == rest;
        assert Combine(outer, inner) == [false] + Combine(outer[1..], inner);
        SelectSelect(xs[1..], outer[1..], inner);
      }
    }
  }

  /** The mask over `outer`'s domain that keeps what `inner` keeps among `outer`'s selection. */
  function Combine(outer: seq<bool>, inner: seq<bool>): (r: seq<bool>)
    requires |inner| == Count(outer)
    ensures |r| == |outer|
  {
    if outer == [] then []
    else if outer[0] then [inner[0]] + Combine(outer[1..], inner[1..])
    else [false] + Combine(outer[1..], inner)
  }

  /** `df[mask]`: a boolean-mask selection of rows. */
  function Mask(f: Frame, keep: seq<bool>): (g: Frame)
    requires WellFormed(f) && |keep| == |f.rows|
    ensures WellFormed(g) && g.columns == f.columns && |g.rows| == Count(keep)
  {
    var rows := Select(f.rows, keep);
    assert forall r :: r in rows ==> |r| == |f.columns| by {
      forall r | r in rows ensures |r| == |f.columns| { SelectMember(f.rows, keep, r); }
    }
    Frame(f.columns, rows)
  }
}
