/**
  The part of a pandas DataFrame the scripts touch: an ordered list of
  column labels, one column of cells per label, and a row count. Cells are
  JSON-like values (`Null` stands for a missing value).
 */
module Frames {
  import opened Outcomes
  import opened Json

  datatype Frame = Frame(names: seq<string>, cols: seq<seq<Json>>, height: nat)

  /** Errors pandas raises from the column operations the scripts use. */
  datatype FrameError =
    | LengthMismatch  // a column's values do not match the number of rows
    | AlreadyExists   // `insert` of a label that is already a column

  /** Every label has a column and every column has one cell per row. */
  predicate Rectangular(f: Frame)
  {
    |f.cols| == |f.names| && forall i :: 0 <= i < |f.cols| ==> |f.cols[i]| == f.height
  }

  predicate Distinct(names: seq<string>)
  {
    forall i, j :: 0 <= i < j < |names| ==> names[i] != names[j]
  }

  /** A frame as `read_excel` produces it: rectangular with distinct labels. */
  predicate Wf(f: Frame)
  {
    Rectangular(f) && Distinct(f.names)
  }

  /** `columns.get_loc(name)` for a label that is present. */
  function IndexOf(names: seq<string>, name: string): (k: nat)
    requires name in names
    ensures k < |names| && names[k] == name && name !in names[..k]
  {
    if names[0] == name then 0
    else
      assert names == [names[0]] + names[1..];
      1 + IndexOf(names[1..], name)
  }

  /** `df[name]` as a list of cells. */
  function Column(f: Frame, name: string): (c: seq<Json>)
    requires Rectangular(f) && name in f.names
    ensures |c| == f.height
  {
    f.cols[IndexOf(f.names, name)]
  }

  /** `df[name] = values`: replaces the column in place when the label
      exists, appends it at the end otherwise; raises when the number of
      values differs from the number of rows. */
  function Assign(f: Frame, name: string, values: seq<Json>): (r: Result<Frame, FrameError>)
    requires Wf(f)
    ensures r.Failure? <==> |values| != f.height
    ensures r.Success? ==> Wf(r.value) && r.value.height == f.height
    ensures r.Success? ==> name in r.value.names && Column(r.value, name) == values
    ensures r.Success? && name in f.names ==> r.value.names == f.names
    ensures r.Success? && name !in f.names ==> r.value.names == f.names + [name]
    ensures r.Success? ==> forall k :: 0 <= k < |f.names| && f.names[k] != name ==> r.value.cols[k] == f.cols[k]
  {
    if |values| != f.height then Failure(LengthMismatch)
    else if name in f.names then
      var k := IndexOf(f.names, name);
      Success(Frame(f.names, f.cols[k := values], f.height))
    else
      Success(Frame(f.names + [name], f.cols + [values], f.height))
  }

  /** `df.insert(loc, name, values)`: places the new column at position
      `loc`, shifting later columns right; raises when the label already
      exists or the number of values differs from the number of rows. */
  function Insert(f: Frame, loc: nat, name: string, values: seq<Json>): (r: Result<Frame, FrameError>)
    requires Wf(f) && loc <= |f.names|
    ensures name in f.names ==> r == Failure(AlreadyExists)
    ensures name !in f.names && |values| != f.height ==> r == Failure(LengthMismatch)
    ensures r.Success? <==> name !in f.names && |values| == f.height
    ensures r.Success? ==> Wf(r.value) && r.value.height == f.height
    ensures r.Success? ==> r.value.names == f.names[..loc] + [name] + f.names[loc..]
    ensures r.Success? ==> r.value.cols[loc] == values
    ensures r.Success? ==> forall k :: 0 <= k < |f.names| ==>
              r.value.cols[if k < loc then k else k + 1] == f.cols[k]
  {
    if name in f.names then Failure(AlreadyExists)
    else if |values| != f.height then Failure(LengthMismatch)
    else
      var g := Frame(f.names[..loc] + [name] + f.names[loc..], f.cols[..loc] + [values] + f.cols[loc..], f.height);
      assert forall i :: 0 <= i < |g.names| ==> g.names[i] == (if i < loc then f.names[i] else if i == loc then name else f.names[i - 1]);
      Success(g)
  }

  /** `df.rename(columns=m)`: relabels the columns found in `m`; the cells
      and the order are unchanged. */
  function Rename(f: Frame, m: map<string, string>): (r: Frame)
    ensures |r.names| == |f.names| && r.cols == f.cols && r.height == f.height
    ensures forall i :: 0 <= i < |f.names| ==>
              r.names[i] == (if f.names[i] in m then m[f.names[i]] else f.names[i])
  {
    Frame(seq(|f.names|, i requires 0 <= i < |f.names| =>
                if f.names[i] in m then m[f.names[i]] else f.names[i]),
          f.cols, f.height)
  }

  /** A renaming that sends different labels to different labels, and
      never onto a label already present (other than the label itself),
      keeps the labels distinct. */
  lemma RenameKeepsDistinct(f: Frame, m: map<string, string>)
    requires Distinct(f.names)
    requires forall a, b :: a in m && b in m && a != b ==> m[a] != m[b]
    requires forall a :: a in m && a in f.names ==> m[a] == a || m[a] !in f.names
    ensures Distinct(Rename(f, m).names)
  {
    var r := Rename(f, m);
    forall i, j | 0 <= i < j < |r.names|
      ensures r.names[i] != r.names[j]
    {
      assert f.names[i] != f.names[j];
    }
  }

  /** `[c for c in wanted if c in names]`. */
  function Present(wanted: seq<string>, names: seq<string>): (r: seq<string>)
    ensures forall c :: c in r <==> c in wanted && c in names
    ensures |r| <= |wanted|
  {
    if wanted == [] then []
    else (if wanted[0] in names then [wanted[0]] else []) + Present(wanted[1..], names)
  }

  /** Indices of the columns labelled `key`, in order. */
  function Matching(names: seq<string>, key: string): (r: seq<nat>)
    ensures forall k :: 0 <= k < |r| ==> r[k] < |names| && names[r[k]] == key
    ensures forall i :: 0 <= i < |names| && names[i] == key ==> i in r
  {
    if names == [] then []
    else
      var rest := Matching(names[..|names| - 1], key);
      if names[|names| - 1] == key then rest + [|names| - 1] else rest
  }

  /** `df[keys]`: the columns labelled by each key in turn (every column with
      that label when a label is repeated). A key that is absent selects
      nothing here, where pandas raises `KeyError`; every call in these
      scripts first filters the keys through `Present`, so no call reaches
      that case. */
  function Project(f: Frame, keys: seq<string>): (r: Frame)
    requires Rectangular(f)
    ensures Rectangular(r) && r.height == f.height
    ensures forall k :: 0 <= k < |r.names| ==> r.names[k] in keys && r.names[k] in f.names
    ensures forall k :: 0 <= k < |r.cols| ==> r.cols[k] in f.cols
    decreases |keys|
  {
    if keys == [] then Frame([], [], f.height)
    else
      var idx := Matching(f.names, keys[0]);
      var rest := Project(f, keys[1..]);
      assert |idx| > 0 ==> f.names[idx[0]] == keys[0];
      assert forall x :: x in keys[1..] ==> x in keys;
      Frame(seq(|idx|, _ => keys[0]) + rest.names,
            seq(|idx|, k requires 0 <= k < |idx| => f.cols[idx[k]]) + rest.cols,
            f.height)
  }

  /** With distinct labels each key present selects exactly its own
      column, so `df[keys]` has the labels `keys` in that order. */
  lemma {:induction false} ProjectDistinct(f: Frame, keys: seq<string>)
    requires Wf(f)
    requires forall k :: 0 <= k < |keys| ==> keys[k] in f.names
    ensures Project(f, keys).names == keys
    ensures forall k :: 0 <= k < |keys| ==> Project(f, keys).cols[k] == Column(f, keys[k])
    decreases |keys|
  {
    if keys != [] {
      MatchingDistinct(f.names, keys[0]);
      ProjectDistinct(f, keys[1..]);
      var r := Project(f, keys);
      forall k | 0 <= k < |keys|
        ensures r.cols[k] == Column(f, keys[k])
      {
        if k > 0 {
          assert keys[k] == keys[1..][k - 1];
        }
      }
    }
  }

  /** Two labels that the renaming sends to the same label both end up
      under it: the labels are no longer distinct. */
  lemma RenameMerges(f: Frame, m: map<string, string>, a: string, b: string)
    requires a in f.names && b in f.names && a != b
    requires b !in m && a in m && m[a] == b
    ensures b in Rename(f, m).names && !Distinct(Rename(f, m).names)
    ensures |Matching(Rename(f, m).names, b)| >= 2
  {
    var r := Rename(f, m);
    var i, j := IndexOf(f.names, a), IndexOf(f.names, b);
    assert i != j;
    assert r.names[i] == b && r.names[j] == b;
    TwoMembers(Matching(r.names, b), i, j);
  }

  /** With distinct labels, when `a` is the only label the renaming sends
      to the present label `b`, exactly the columns of `a` and `b` match
      `b` afterwards, in frame order. */
  lemma RenameMergesPair(f: Frame, m: map<string, string>, a: string, b: string)
    requires Distinct(f.names) && a in f.names && b in f.names && a != b
    requires b !in m && a in m && m[a] == b
    requires forall x :: x in m && x != a ==> m[x] != b
    ensures var i, j := IndexOf(f.names, a), IndexOf(f.names, b);
            Matching(Rename(f, m).names, b) == if i < j then [i, j] else [j, i]
  {
    var r := Rename(f, m);
    var i, j := IndexOf(f.names, a), IndexOf(f.names, b);
    forall k | 0 <= k < |r.names| && r.names[k] == b
      ensures k == i || k == j
    {
      IndexOfDistinct(f.names, k);
    }
    if i < j {
      MatchingPair(r.names, b, i, j);
    } else {
      MatchingPair(r.names, b, j, i);
    }
  }

  lemma TwoMembers(xs: seq<nat>, i: nat, j: nat)
    requires i in xs && j in xs && i != j
    ensures |xs| >= 2
  {
  }

  /** A first key that matches two columns selects both, one after the other. */
  lemma ProjectRepeated(f: Frame, keys: seq<string>)
    requires Rectangular(f) && keys != [] && |Matching(f.names, keys[0])| >= 2
    ensures |Project(f, keys).names| >= 2
    ensures Project(f, keys).names[0] == keys[0] && Project(f, keys).names[1] == keys[0]
    ensures Project(f, keys).cols[0] == f.cols[Matching(f.names, keys[0])[0]]
    ensures Project(f, keys).cols[1] == f.cols[Matching(f.names, keys[0])[1]]
  {
  }

  /** The matching indices strictly increase: `df[key]` keeps the columns
      in frame order. */
  lemma {:induction false} MatchingIncreasing(names: seq<string>, key: string)
    ensures forall k, l :: 0 <= k < l < |Matching(names, key)| ==> Matching(names, key)[k] < Matching(names, key)[l]
    decreases |names|
  {
    if names != [] {
      MatchingIncreasing(names[..|names| - 1], key);
    }
  }

  /** A label carried by exactly the two columns `i < j` matches exactly
      those two, in that order. */
  lemma MatchingPair(names: seq<string>, key: string, i: nat, j: nat)
    requires i < j < |names| && names[i] == key && names[j] == key
    requires forall k :: 0 <= k < |names| && names[k] == key ==> k == i || k == j
    ensures Matching(names, key) == [i, j]
  {
    MatchingPairPrefix(names, key, i, j, |names|);
    assert names[..|names|] == names;
  }

  /** `MatchingPair` for the first `n` labels. */
  lemma {:induction false} MatchingPairPrefix(names: seq<string>, key: string, i: nat, j: nat, n: nat)
    requires i < j < |names| && names[i] == key && names[j] == key
    requires forall k :: 0 <= k < |names| && names[k] == key ==> k == i || k == j
    requires n <= |names|
    ensures Matching(names[..n], key) == (if n <= i then [] else if n <= j then [i] else [i, j])
    decreases n
  {
    if n > 0 {
      MatchingPairPrefix(names, key, i, j, n - 1);
      MatchingSnoc(names, key, n);
      var prev := Matching(names[..n - 1], key);
      if n - 1 == i {
        assert prev == [];
      } else if n - 1 == j {
        assert prev == [i];
      } else {
        assert names[n - 1] != key;
      }
    }
  }

  /** One more label adds its index when it matches. */
  lemma MatchingSnoc(names: seq<string>, key: string, n: nat)
    requires 0 < n <= |names|
    ensures Matching(names[..n], key)
            == Matching(names[..n - 1], key) + (if names[n - 1] == key then [n - 1] else [])
  {
    assert names[..n][..n - 1] == names[..n - 1];
  }

  /** With distinct labels, the only column matching a present label is
      the one `get_loc` finds. */
  lemma {:induction false} MatchingDistinct(names: seq<string>, key: string)
    requires Distinct(names) && key in names
    ensures Matching(names, key) == [IndexOf(names, key)]
    decreases |names|
  {
    var init := names[..|names| - 1];
    if names[|names| - 1] == key {
      assert key !in init;
      MatchingAbsent(init, key);
      assert names[..|names| - 1] == init;
    } else {
      assert key in init;
      MatchingDistinct(init, key);
      var k := IndexOf(init, key);
      assert names[..k] == init[..k];
    }
  }

  /** No column matches a label that is absent. */
  lemma {:induction false} MatchingAbsent(names: seq<string>, key: string)
    requires key !in names
    ensures Matching(names, key) == []
    decreases |names|
  {
    if names != [] {
      var init := names[..|names| - 1];
      assert forall c :: c in init ==> c in names;
      MatchingAbsent(init, key);
    }
  }

  /** With distinct labels, the label at position `k` is found at `k`. */
  lemma IndexOfDistinct(names: seq<string>, k: nat)
    requires Distinct(names) && k < |names|
    ensures IndexOf(names, names[k]) == k
  {
  }

  /** With distinct labels, `df[names[k]]` is the `k`-th column. */
  lemma ColumnAt(f: Frame, k: nat)
    requires Wf(f) && k < |f.names|
    ensures Column(f, f.names[k]) == f.cols[k]
  {
    IndexOfDistinct(f.names, k);
  }

  /** Selecting distinct present keys keeps each selected column's cells. */
  lemma ProjectColumn(f: Frame, keys: seq<string>, x: string)
    requires Wf(f) && Distinct(keys) && x in keys
    requires forall k :: 0 <= k < |keys| ==> keys[k] in f.names
    ensures Wf(Project(f, keys)) && Project(f, keys).names == keys
    ensures Column(Project(f, keys), x) == Column(f, x)
  {
    ProjectDistinct(f, keys);
    var j := IndexOf(keys, x);
    ColumnAt(Project(f, keys), j);
  }

  /** After a renaming that keeps the labels distinct, the column under a
      label's new name holds that label's cells. */
  lemma RenameColumn(f: Frame, m: map<string, string>, a: string)
    requires Wf(f) && Distinct(Rename(f, m).names) && a in f.names
    ensures (if a in m then m[a] else a) in Rename(f, m).names
    ensures Column(Rename(f, m), if a in m then m[a] else a) == Column(f, a)
  {
    var r := Rename(f, m);
    var k := IndexOf(f.names, a);
    assert r.names[k] == (if a in m then m[a] else a);
    ColumnAt(r, k);
  }

  /** A label that the renaming neither moves nor produces is present after
      it exactly when it was before. */
  lemma RenamedKept(f: Frame, m: map<string, string>, x: string)
    requires x !in m && forall a :: a in m ==> m[a] != x
    ensures x in Rename(f, m).names <==> x in f.names
  {
    var r := Rename(f, m);
    if x in r.names {
      var i :| 0 <= i < |r.names| && r.names[i] == x;
      assert f.names[i] == x;
    }
    if x in f.names {
      var i :| 0 <= i < |f.names| && f.names[i] == x;
      assert r.names[i] == x;
    }
  }

  /** The label that only `src` is renamed to is present after the renaming
      exactly when `src` or the label itself was present before. */
  lemma RenamedOnto(f: Frame, m: map<string, string>, src: string, dst: string)
    requires src in m && m[src] == dst && dst !in m
    requires forall a :: a in m && a != src ==> m[a] != dst
    ensures dst in Rename(f, m).names <==> src in f.names || dst in f.names
  {
    var r := Rename(f, m);
    if dst in r.names {
      var i :| 0 <= i < |r.names| && r.names[i] == dst;
      assert f.names[i] == src || f.names[i] == dst;
      assert f.names[i] in f.names;
    }
    if src in f.names {
      var i :| 0 <= i < |f.names| && f.names[i] == src;
      assert r.names[i] == dst;
    }
    if dst in f.names {
      var i :| 0 <= i < |f.names| && f.names[i] == dst;
      assert r.names[i] == dst;
    }
  }

  /** One step of `[c for c in wanted if c in names]`. */
  lemma PresentCons(x: string, rest: seq<string>, names: seq<string>)
    ensures Present([x] + rest, names) == (if x in names then [x] else []) + Present(rest, names)
  {
    assert ([x] + rest)[1..] == rest;
  }

  /** After a successful `insert`, the new label holds the given values and
      every old label keeps its cells. */
  lemma InsertColumns(f: Frame, loc: nat, name: string, values: seq<Json>, a: string)
    requires Wf(f) && loc <= |f.names| && Insert(f, loc, name, values).Success? && a in f.names
    ensures name in Insert(f, loc, name, values).value.names
    ensures Column(Insert(f, loc, name, values).value, name) == values
    ensures a in Insert(f, loc, name, values).value.names
    ensures Column(Insert(f, loc, name, values).value, a) == Column(f, a)
  {
    var g := Insert(f, loc, name, values).value;
    assert g.names[loc] == name;
    ColumnAt(g, loc);
    var k := IndexOf(f.names, a);
    var j := if k < loc then k else k + 1;
    assert g.names[j] == a;
    ColumnAt(g, j);
  }

  /** A successful `insert` keeps the old columns in their order: a label
      before `loc` keeps its position, a later one moves up by one. */
  lemma InsertIndex(f: Frame, loc: nat, name: string, values: seq<Json>, a: string)
    requires Wf(f) && loc <= |f.names| && Insert(f, loc, name, values).Success? && a in f.names
    ensures a in Insert(f, loc, name, values).value.names
    ensures IndexOf(Insert(f, loc, name, values).value.names, a)
            == (if IndexOf(f.names, a) < loc then IndexOf(f.names, a) else IndexOf(f.names, a) + 1)
  {
    var g := Insert(f, loc, name, values).value;
    var k := IndexOf(f.names, a);
    var j := if k < loc then k else k + 1;
    assert g.names[j] == a;
    IndexOfDistinct(g.names, j);
  }

  /** A successful `insert` keeps the relative order of two old labels. */
  lemma InsertOrder(f: Frame, loc: nat, name: string, values: seq<Json>, a: string, b: string)
    requires Wf(f) && loc <= |f.names| && Insert(f, loc, name, values).Success? && a in f.names && b in f.names
    ensures a in Insert(f, loc, name, values).value.names && b in Insert(f, loc, name, values).value.names
    ensures IndexOf(Insert(f, loc, name, values).value.names, a) < IndexOf(Insert(f, loc, name, values).value.names, b)
            <==> IndexOf(f.names, a) < IndexOf(f.names, b)
  {
    InsertIndex(f, loc, name, values, a);
    InsertIndex(f, loc, name, values, b);
  }

  /** After a successful `insert` the labels are the old ones and the new one. */
  lemma InsertLabels(f: Frame, loc: nat, name: string, values: seq<Json>)
    requires Wf(f) && loc <= |f.names| && Insert(f, loc, name, values).Success?
    ensures forall x :: x in Insert(f, loc, name, values).value.names <==> x in f.names || x == name
  {
    var g := Insert(f, loc, name, values).value;
    assert f.names == f.names[..loc] + f.names[loc..];
  }

  /** A successful assignment leaves every other column where it was. */
  lemma AssignKeeps(f: Frame, name: string, values: seq<Json>, a: string)
    requires Wf(f) && Assign(f, name, values).Success? && a in f.names && a != name
    ensures a in Assign(f, name, values).value.names
    ensures Column(Assign(f, name, values).value, a) == Column(f, a)
  {
    var g := Assign(f, name, values).value;
    var k := IndexOf(f.names, a);
    assert g.names[k] == a;
    IndexOfDistinct(g.names, k);
  }
}
