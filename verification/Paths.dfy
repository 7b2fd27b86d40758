/** `std::path::Path` as its `components()` yield it: separators and interior `.` already gone,
    so a `CurDir` only ever leads a relative path. */
module Paths {
  import opened Wrappers

  datatype Part = CurDir | ParentDir | Normal(name: string)

  datatype Path = Path(absolute: bool, parts: seq<Part>) {

    function Parent(): Option<Path> {
      if parts == [] then None else Some(Path(absolute, parts[..|parts| - 1]))
    }

    function FileName(): Option<string> {
      if parts != [] && parts[|parts| - 1].Normal? then Some(parts[|parts| - 1].name) else None
    }

    function Child(name: string): Path {
      Path(absolute, parts + [Normal(name)])
    }

    /** Whole components, never string prefixes. */
    predicate StartsWith(root: Path) {
      root.parts <= parts && (root.absolute == absolute || (!root.absolute && root.parts == []))
    }

    function Join(other: Path): Path {
      if other.absolute then other
      else if other.parts != [] && other.parts[0].CurDir? && (absolute || parts != []) then Path(absolute, parts + other.parts[1..])
      else Path(absolute, parts + other.parts)
    }

    predicate DotFree() {
      forall part | part in parts :: part.Normal?
    }
  }

  /** The part of `path` below `root`, and nothing lost. */
  function Remainder(path: Path, root: Path): (rest: seq<Part>)
    requires path.StartsWith(root)
    ensures path.parts == root.parts + rest
  {
    path.parts[|root.parts|..]
  }

  // ----- The order results are sorted in -----

  predicate TextLe(a: string, b: string) {
    a == "" || (b != "" && (a[0] < b[0] || (a[0] == b[0] && TextLe(a[1..], b[1..]))))
  }

  function Rank(part: Part): nat {
    match part case CurDir => 0 case ParentDir => 1 case Normal(_) => 2
  }

  predicate PartLe(a: Part, b: Part) {
    Rank(a) < Rank(b) || (Rank(a) == Rank(b) && (a.Normal? ==> TextLe(a.name, b.name)))
  }

  predicate PartsLe(a: seq<Part>, b: seq<Part>) {
    a == [] || (b != [] && ((a[0] != b[0] && PartLe(a[0], b[0])) || (a[0] == b[0] && PartsLe(a[1..], b[1..]))))
  }

  /** A root directory sorts ahead of every other component. */
  predicate Le(a: Path, b: Path) {
    if a.absolute == b.absolute then PartsLe(a.parts, b.parts)
    else (a.absolute && b.parts != []) || (b.absolute && a.parts == [])
  }

  lemma {:induction false} TextLeIsTotal(a: string, b: string)
    ensures TextLe(a, b) || TextLe(b, a)
    ensures TextLe(a, b) && TextLe(b, a) ==> a == b
  {
    if a != "" && b != "" && a[0] == b[0] {
      TextLeIsTotal(a[1..], b[1..]);
      assert a == [a[0]] + a[1..] && b == [b[0]] + b[1..];
    }
  }

  lemma {:induction false} TextLeIsTransitive(a: string, b: string, c: string)
    requires TextLe(a, b) && TextLe(b, c)
    ensures TextLe(a, c)
  {
    if a != "" && a[0] == b[0] == c[0] {
      TextLeIsTransitive(a[1..], b[1..], c[1..]);
    }
  }

  lemma PartLeIsOrder(a: Part, b: Part, c: Part)
    ensures PartLe(a, b) || PartLe(b, a)
    ensures PartLe(a, b) && PartLe(b, a) ==> a == b
    ensures PartLe(a, b) && PartLe(b, c) ==> PartLe(a, c)
  {
    if a.Normal? && b.Normal? {
      TextLeIsTotal(a.name, b.name);
      if c.Normal? && PartLe(a, b) && PartLe(b, c) { TextLeIsTransitive(a.name, b.name, c.name); }
    }
  }

  lemma {:induction false} PartsLeIsTotal(a: seq<Part>, b: seq<Part>)
    ensures PartsLe(a, b) || PartsLe(b, a)
    ensures PartsLe(a, b) && PartsLe(b, a) ==> a == b
  {
    if a != [] && b != [] {
      PartLeIsOrder(a[0], b[0], b[0]);
      if a[0] == b[0] {
        PartsLeIsTotal(a[1..], b[1..]);
        assert a == [a[0]] + a[1..] && b == [b[0]] + b[1..];
      }
    }
  }

  lemma {:induction false} PartsLeIsTransitive(a: seq<Part>, b: seq<Part>, c: seq<Part>)
    requires PartsLe(a, b) && PartsLe(b, c)
    ensures PartsLe(a, c)
  {
    if a != [] {
      PartLeIsOrder(a[0], b[0], c[0]);
      PartLeIsOrder(b[0], c[0], a[0]);
      PartLeIsOrder(c[0], b[0], a[0]);
      if a[0] == b[0] == c[0] {
        PartsLeIsTransitive(a[1..], b[1..], c[1..]);
      }
    }
  }

  lemma LeIsOrder(a: Path, b: Path, c: Path)
    ensures Le(a, b) || Le(b, a)
    ensures Le(a, b) && Le(b, a) ==> a == b
    ensures Le(a, b) && Le(b, c) ==> Le(a, c)
  {
    PartsLeIsTotal(a.parts, b.parts);
    if PartsLe(a.parts, b.parts) && PartsLe(b.parts, c.parts) { PartsLeIsTransitive(a.parts, b.parts, c.parts); }
  }

  predicate Sorted(paths: seq<Path>) {
    forall i, j | 0 <= i < j < |paths| :: Le(paths[i], paths[j])
  }

  function Insert(path: Path, sorted: seq<Path>): (more: seq<Path>)
    requires Sorted(sorted)
    ensures Sorted(more) && multiset(more) == multiset(sorted) + multiset{path}
  {
    if sorted == [] then [path]
    else if Le(path, sorted[0]) then
      InsertFront(path, sorted);
      [path] + sorted
    else
      assert sorted == [sorted[0]] + sorted[1..];
      var rest := Insert(path, sorted[1..]);
      InsertBehind(path, sorted, rest);
      [sorted[0]] + rest
  }

  lemma InsertFront(path: Path, sorted: seq<Path>)
    requires Sorted(sorted) && sorted != [] && Le(path, sorted[0])
    ensures Sorted([path] + sorted)
  {
    forall j | 0 < j < |sorted| ensures Le(path, sorted[j]) {
      LeIsOrder(path, sorted[0], sorted[j]);
    }
  }

  lemma InsertBehind(path: Path, sorted: seq<Path>, rest: seq<Path>)
    requires sorted != [] && Sorted(sorted) && !Le(path, sorted[0])
    requires Sorted(rest) && multiset(rest) == multiset(sorted[1..]) + multiset{path}
    ensures Sorted([sorted[0]] + rest)
  {
    LeIsOrder(path, sorted[0], path);
    forall j | 0 <= j < |rest| ensures Le(sorted[0], rest[j]) {
      assert rest[j] in multiset(rest);
      if rest[j] != path {
        assert rest[j] in sorted[1..];
      }
    }
  }

  function Sort(paths: seq<Path>): (sorted: seq<Path>)
    ensures Sorted(sorted) && multiset(sorted) == multiset(paths)
  {
    if paths == [] then []
    else
      assert paths == [paths[0]] + paths[1..];
      Insert(paths[0], Sort(paths[1..]))
  }

  lemma SameLeast(a: seq<Path>, b: seq<Path>)
    requires a != [] && b != [] && Sorted(a) && Sorted(b)
    requires a[0] in b && b[0] in a
    ensures a[0] == b[0]
  {
    var i :| 0 <= i < |b| && b[i] == a[0];
    var j :| 0 <= j < |a| && a[j] == b[0];
    LeIsOrder(a[0], b[0], a[0]);
  }

  /** Sorting erases the order paths were met in: the order being total, a bag has one sorted form. */
  lemma {:induction false} SortedFormIsUnique(a: seq<Path>, b: seq<Path>)
    requires Sorted(a) && Sorted(b) && multiset(a) == multiset(b)
    ensures a == b
  {
    if a == [] {
      assert |multiset(b)| == 0;
    } else {
      assert a[0] in multiset(b);
      assert b[0] in multiset(a);
      SameLeast(a, b);
      assert a == [a[0]] + a[1..] && b == [b[0]] + b[1..];
      assert multiset(a[1..]) == multiset(a) - multiset{a[0]};
      SortedFormIsUnique(a[1..], b[1..]);
    }
  }
}
