/** The bounded walk of `fs_guard.rs`, in both its descents: by path and by descriptor. A
    directory is the entries it lists, in the order it lists them; links are never descended. */
module FsWalk {
  import opened Wrappers
  import opened Paths
  import opened FsGuard

  /** `typed` is whether the entry's type could be told at all. */
  datatype Entry = Entry(name: string, typed: bool, node: Node)

  datatype Node = Dir(readable: bool, entries: seq<Entry>) | File | Link | Special

  datatype ReadableWalk = ReadableWalk(files: seq<Path>, truncated: bool)

  // ----- Trees -----

  predicate WellFormed(node: Node) {
    node.Dir? ==>
      && (forall i, j | 0 <= i < j < |node.entries| :: node.entries[i].name != node.entries[j].name)
      && forall i | 0 <= i < |node.entries| :: WellFormed(node.entries[i].node)
  }

  function Size(node: Node): nat
    decreases node, 1
  {
    1 + if node.Dir? then SizeOf(node.entries) else 0
  }

  function SizeOf(entries: seq<Entry>): nat
    decreases entries, 0
  {
    if entries == [] then 0 else Size(entries[0].node) + SizeOf(entries[1..])
  }

  predicate Lists(node: Node) {
    node.Dir? && node.readable
  }

  function Find(entries: seq<Entry>, name: string): (found: Option<Entry>)
    ensures found.Some? ==> found.value in entries && found.value.name == name
    ensures found.None? ==> forall entry | entry in entries :: entry.name != name
  {
    if entries == [] then None
    else if entries[0].name == name then Some(entries[0])
    else Find(entries[1..], name)
  }

  lemma {:induction false} FindEntry(entries: seq<Entry>, i: nat)
    requires i < |entries|
    requires forall j, k | 0 <= j < k < |entries| :: entries[j].name != entries[k].name
    ensures Find(entries, entries[i].name) == Some(entries[i])
  {
    if i > 0 {
      FindEntry(entries[1..], i - 1);
    }
  }

  /** What a path below the walk's root names, following no link. */
  function Lookup(node: Node, parts: seq<Part>): Option<Node>
    decreases |parts|
  {
    if parts == [] then Some(node)
    else if !node.Dir? || !parts[0].Normal? then None
    else
      var entry := Find(node.entries, parts[0].name);
      if entry.None? then None else Lookup(entry.value.node, parts[1..])
  }

  lemma {:induction false} LookupChild(node: Node, parts: seq<Part>, name: string)
    requires Lookup(node, parts).Some? && Lookup(node, parts).value.Dir?
    requires Find(Lookup(node, parts).value.entries, name).Some?
    ensures Lookup(node, parts + [Normal(name)]) == Some(Find(Lookup(node, parts).value.entries, name).value.node)
    decreases |parts|
  {
    if parts != [] {
      assert (parts + [Normal(name)])[1..] == parts[1..] + [Normal(name)];
      LookupChild(Find(node.entries, parts[0].name).value.node, parts[1..], name);
    }
  }

  // ----- What a walk collects -----

  /** Where a link found in a walk resolves, if the granted set still covers it. */
  function WalkedLink(guard: Guard, fs: Fs, link: Path): Option<Path> {
    match fs.resolve(link)
    case Failed(_) => None
    case Resolved(resolved) =>
      if MovedRoot(fs, link, guard.readable).Some? || Containing(fs, resolved, guard.readable).Outside? then None
      else if fs.isFile(resolved) then Some(resolved)
      else None
  }

  function Collected(guard: Guard, fs: Fs, at: Path, entry: Entry): seq<Path> {
    if !entry.typed then []
    else
      match entry.node
      case Link =>
        var resolved := WalkedLink(guard, fs, at.Child(entry.name));
        if resolved.Some? then [resolved.value] else []
      case File => [at.Child(entry.name)]
      case _ => []
  }

  // ----- What a walk records of the links it refuses -----

  /** Why a link is left out of a walk, if it resolves and the granted set is why. */
  function LinkRefusal(guard: Guard, fs: Fs, link: Path): Option<Reason> {
    match fs.resolve(link)
    case Failed(_) => None
    case Resolved(resolved) =>
      if MovedRoot(fs, link, guard.readable).Some? then Some(RootWasReplaced)
      else
        match Containing(fs, resolved, guard.readable)
        case Outside(moved) => Some(if moved.Some? then RootWasReplaced else OutsideTheRoots)
        case Inside(_) => None
  }

  function Noted(guard: Guard, fs: Fs, link: Path): seq<Record> {
    var refusal := LinkRefusal(guard, fs, link);
    if refusal.Some? then [DeniedRecord(Reading, link, refusal.value)] else []
  }

  function NotedAt(guard: Guard, fs: Fs, at: Path, entry: Entry): seq<Record> {
    if entry.typed && entry.node.Link? then Noted(guard, fs, at.Child(entry.name)) else []
  }

  /** The records of one level, up to the first file there is no room for. */
  function NotesOf(guard: Guard, fs: Fs, at: Path, entries: seq<Entry>, room: nat): seq<Record> {
    if entries == [] then []
    else
      var files := |Collected(guard, fs, at, entries[0])|;
      if files > room then []
      else NotedAt(guard, fs, at, entries[0]) + NotesOf(guard, fs, at, entries[1..], room - files)
  }

  lemma OneMoreNote(guard: Guard, fs: Fs, at: Path, entries: seq<Entry>, j: nat, room: nat)
    requires j < |entries|
    ensures var files := |Collected(guard, fs, at, entries[j])|;
            NotesOf(guard, fs, at, entries[j..], room) ==
            if files > room then []
            else NotedAt(guard, fs, at, entries[j]) + NotesOf(guard, fs, at, entries[j + 1..], room - files)
  {
    assert entries[j..][1..] == entries[j + 1..];
  }

  type Level = (Path, Node)

  function Descended(at: Path, entry: Entry): seq<Level> {
    if entry.typed && entry.node.Dir? then [(at.Child(entry.name), entry.node)] else []
  }

  function Files(guard: Guard, fs: Fs, at: Path, entries: seq<Entry>): seq<Path> {
    if entries == [] then []
    else Files(guard, fs, at, entries[..|entries| - 1]) + Collected(guard, fs, at, entries[|entries| - 1])
  }

  function Subdirs(at: Path, entries: seq<Entry>): seq<Level> {
    if entries == [] then []
    else Subdirs(at, entries[..|entries| - 1]) + Descended(at, entries[|entries| - 1])
  }

  function StackSize(stack: seq<Level>): nat {
    if stack == [] then 0 else StackSize(stack[..|stack| - 1]) + Size(stack[|stack| - 1].1)
  }

  lemma {:induction false} StackSizeSplits(a: seq<Level>, b: seq<Level>)
    ensures StackSize(a + b) == StackSize(a) + StackSize(b)
    decreases b
  {
    if b == [] {
      assert a + b == a;
    } else {
      assert (a + b)[..|a + b| - 1] == a + b[..|b| - 1];
      StackSizeSplits(a, b[..|b| - 1]);
    }
  }

  lemma {:induction false} SizeOfSplits(entries: seq<Entry>)
    requires entries != []
    ensures SizeOf(entries) == SizeOf(entries[..|entries| - 1]) + Size(entries[|entries| - 1].node)
  {
    if |entries| > 1 {
      assert entries[1..][..|entries| - 2] == entries[..|entries| - 1][1..];
      SizeOfSplits(entries[1..]);
    }
  }

  lemma {:induction false} SubdirsFit(at: Path, entries: seq<Entry>)
    ensures StackSize(Subdirs(at, entries)) <= SizeOf(entries)
  {
    if entries != [] {
      var front, last := entries[..|entries| - 1], entries[|entries| - 1];
      SizeOfSplits(entries);
      SubdirsFit(at, front);
      StackSizeSplits(Subdirs(at, front), Descended(at, last));
    }
  }

  /** Listing the level on top leaves less tree to visit: why the walk ends, links or no. */
  lemma ListingShrinks(stack: seq<Level>)
    requires stack != []
    ensures var level, rest := stack[|stack| - 1], stack[..|stack| - 1];
            && StackSize(rest) < StackSize(stack)
            && (level.1.Dir? ==> StackSize(rest + Subdirs(level.0, level.1.entries)) < StackSize(stack))
  {
    var (at, node) := stack[|stack| - 1];
    if node.Dir? {
      SubdirsFit(at, node.entries);
      StackSizeSplits(stack[..|stack| - 1], Subdirs(at, node.entries));
    }
  }

  /** Every permitted file, in the order a last-in first-out descent meets it. */
  function Visit(guard: Guard, fs: Fs, stack: seq<Level>): seq<Path>
    decreases StackSize(stack)
  {
    if stack == [] then []
    else
      ListingShrinks(stack);
      var (at, node), rest := stack[|stack| - 1], stack[..|stack| - 1];
      if Lists(node) then
        Files(guard, fs, at, node.entries) + Visit(guard, fs, rest + Subdirs(at, node.entries))
      else Visit(guard, fs, rest)
  }

  /** The records of a whole visit, cut off where the walk stops. */
  function Notes(guard: Guard, fs: Fs, stack: seq<Level>, room: nat): seq<Record>
    decreases StackSize(stack)
  {
    if stack == [] then []
    else
      ListingShrinks(stack);
      var (at, node), rest := stack[|stack| - 1], stack[..|stack| - 1];
      if Lists(node) then
        var files := |Files(guard, fs, at, node.entries)|;
        NotesOf(guard, fs, at, node.entries, room)
        + if files > room then [] else Notes(guard, fs, rest + Subdirs(at, node.entries), room - files)
      else Notes(guard, fs, rest, room)
  }

  function Take(all: seq<Path>, maxFiles: nat): seq<Path> {
    if |all| <= maxFiles then all else all[..maxFiles]
  }

  function Walked(all: seq<Path>, maxFiles: nat): ReadableWalk {
    ReadableWalk(Sort(Take(all, maxFiles)), |all| > maxFiles)
  }

  // ----- The two descents -----

  /** Each path on the stack still finds the directory it was pushed for. */
  ghost predicate Finds(tree: Node, top: Path, stack: seq<Path>, levels: seq<Level>) {
    && |stack| == |levels|
    && forall i | 0 <= i < |stack| ::
         && stack[i] == levels[i].0 && WellFormed(levels[i].1)
         && stack[i].StartsWith(top) && Lookup(tree, Remainder(stack[i], top)) == Some(levels[i].1)
  }

  lemma FindsChild(tree: Node, top: Path, stack: seq<Path>, levels: seq<Level>, at: Path, node: Node, j: nat)
    requires Finds(tree, top, stack, levels)
    requires at.StartsWith(top) && Lookup(tree, Remainder(at, top)) == Some(node)
    requires node.Dir? && WellFormed(node) && j < |node.entries|
    ensures var child := at.Child(node.entries[j].name);
            Finds(tree, top, stack + [child], levels + [(child, node.entries[j].node)])
  {
    var child := at.Child(node.entries[j].name);
    FindEntry(node.entries, j);
    LookupChild(tree, Remainder(at, top), node.entries[j].name);
    assert Remainder(child, top) == Remainder(at, top) + [Normal(node.entries[j].name)];
  }

  lemma FindsTop(tree: Node, top: Path, stack: seq<Path>, levels: seq<Level>)
    requires Finds(tree, top, stack, levels) && stack != []
    ensures var at, level := stack[|stack| - 1], levels[|levels| - 1];
            && at == level.0 && WellFormed(level.1)
            && at.StartsWith(top) && Lookup(tree, Remainder(at, top)) == Some(level.1)
    ensures Finds(tree, top, stack[..|stack| - 1], levels[..|levels| - 1])
  {
  }

  lemma NotListed(guard: Guard, fs: Fs, levels: seq<Level>)
    requires levels != [] && !Lists(levels[|levels| - 1].1)
    ensures Visit(guard, fs, levels) == Visit(guard, fs, levels[..|levels| - 1])
    ensures forall room: nat :: Notes(guard, fs, levels, room) == Notes(guard, fs, levels[..|levels| - 1], room)
  {
  }

  /** What listing one level does to the result: it takes every file of the level, or stops at
      the first file past the cap. */
  ghost predicate Listed(guard: Guard, fs: Fs, at: Path, entries: seq<Entry>, before: seq<Path>, after: seq<Path>,
                         maxFiles: nat, truncated: bool)
  {
    var every := before + Files(guard, fs, at, entries);
    && |after| <= maxFiles
    && (if truncated then |after| == maxFiles && after <= every && |after| < |every| else after == every)
  }

  /** One level, `j` entries in: what is collected, and what is recorded now and still to be. */
  ghost predicate SoFar(guard: Guard, fs: Fs, at: Path, entries: seq<Entry>, j: nat, found: seq<Path>, files: seq<Path>,
                        trail: seq<Record>, owed: seq<Record>, maxFiles: nat)
    requires j <= |entries|
  {
    && |files| <= maxFiles && files == found + Files(guard, fs, at, entries[..j])
    && trail + NotesOf(guard, fs, at, entries[j..], maxFiles - |files|) == owed
  }

  lemma LevelBegins(guard: Guard, fs: Fs, at: Path, entries: seq<Entry>, found: seq<Path>, noted: seq<Record>, maxFiles: nat)
    requires |found| <= maxFiles
    ensures SoFar(guard, fs, at, entries, 0, found, found, noted,
                  noted + NotesOf(guard, fs, at, entries, maxFiles - |found|), maxFiles)
    ensures Subdirs(at, entries[..0]) == []
  {
    assert entries[0..] == entries;
  }

  lemma LevelGoesOn(guard: Guard, fs: Fs, at: Path, entries: seq<Entry>, j: nat, found: seq<Path>, files: seq<Path>,
                    trail: seq<Record>, owed: seq<Record>, maxFiles: nat)
    requires j < |entries| && SoFar(guard, fs, at, entries, j, found, files, trail, owed, maxFiles)
    requires |files| + |Collected(guard, fs, at, entries[j])| <= maxFiles
    ensures SoFar(guard, fs, at, entries, j + 1, found, files + Collected(guard, fs, at, entries[j]),
                  trail + NotedAt(guard, fs, at, entries[j]), owed, maxFiles)
  {
    FilesGoOn(guard, fs, at, entries, j, found, files, trail, owed, maxFiles);
    NotesGoOn(guard, fs, at, entries, j, files, trail, owed, maxFiles);
  }

  lemma FilesGoOn(guard: Guard, fs: Fs, at: Path, entries: seq<Entry>, j: nat, found: seq<Path>, files: seq<Path>,
                  trail: seq<Record>, owed: seq<Record>, maxFiles: nat)
    requires j < |entries| && SoFar(guard, fs, at, entries, j, found, files, trail, owed, maxFiles)
    ensures files + Collected(guard, fs, at, entries[j]) == found + Files(guard, fs, at, entries[..j + 1])
  {
    FilesMove(guard, fs, at, entries, j, found);
  }

  lemma NotesGoOn(guard: Guard, fs: Fs, at: Path, entries: seq<Entry>, j: nat, files: seq<Path>,
                  trail: seq<Record>, owed: seq<Record>, maxFiles: nat)
    requires j < |entries| && |files| + |Collected(guard, fs, at, entries[j])| <= maxFiles
    requires trail + NotesOf(guard, fs, at, entries[j..], maxFiles - |files|) == owed
    ensures trail + NotedAt(guard, fs, at, entries[j])
            + NotesOf(guard, fs, at, entries[j + 1..], maxFiles - |files + Collected(guard, fs, at, entries[j])|) == owed
  {
    NoteMoves(guard, fs, at, entries, j, trail, maxFiles - |files|);
  }

  lemma FilesMove(guard: Guard, fs: Fs, at: Path, entries: seq<Entry>, j: nat, found: seq<Path>)
    requires j < |entries|
    ensures found + Files(guard, fs, at, entries[..j + 1])
         == found + Files(guard, fs, at, entries[..j]) + Collected(guard, fs, at, entries[j])
  {
    assert entries[..j + 1][..j] == entries[..j];
  }

  lemma NoteMoves(guard: Guard, fs: Fs, at: Path, entries: seq<Entry>, j: nat, trail: seq<Record>, room: nat)
    requires j < |entries| && |Collected(guard, fs, at, entries[j])| <= room
    ensures trail + NotesOf(guard, fs, at, entries[j..], room) ==
            trail + NotedAt(guard, fs, at, entries[j])
            + NotesOf(guard, fs, at, entries[j + 1..], room - |Collected(guard, fs, at, entries[j])|)
  {
    OneMoreNote(guard, fs, at, entries, j, room);
    Regroup(trail, NotedAt(guard, fs, at, entries[j]),
            NotesOf(guard, fs, at, entries[j + 1..], room - |Collected(guard, fs, at, entries[j])|));
  }

  lemma Regroup(a: seq<Record>, b: seq<Record>, c: seq<Record>)
    ensures a + (b + c) == a + b + c
  {
  }

  lemma LevelIsFull(guard: Guard, fs: Fs, at: Path, entries: seq<Entry>, j: nat, found: seq<Path>, files: seq<Path>,
                    trail: seq<Record>, owed: seq<Record>, maxFiles: nat)
    requires j < |entries| && SoFar(guard, fs, at, entries, j, found, files, trail, owed, maxFiles)
    requires |files| + |Collected(guard, fs, at, entries[j])| > maxFiles
    ensures Listed(guard, fs, at, entries, found, files, maxFiles, true) && trail == owed
  {
    OneMoreNote(guard, fs, at, entries, j, maxFiles - |files|);
    assert trail + [] == trail;
    FilesGrow(guard, fs, at, entries, j);
  }

  lemma LevelEnds(guard: Guard, fs: Fs, at: Path, entries: seq<Entry>, found: seq<Path>, files: seq<Path>,
                  trail: seq<Record>, owed: seq<Record>, maxFiles: nat)
    requires SoFar(guard, fs, at, entries, |entries|, found, files, trail, owed, maxFiles)
    ensures Listed(guard, fs, at, entries, found, files, maxFiles, false) && trail == owed
    ensures Subdirs(at, entries[..|entries|]) == Subdirs(at, entries)
  {
    assert entries[..|entries|] == entries && entries[|entries|..] == [];
    assert trail + [] == trail;
  }

  /** What one entry that is no directory adds to the result and the trail, if there is room. */
  method TakeEntry(guard: Guard, fs: Fs, at: Path, entry: Entry, found: seq<Path>, noted: seq<Record>, maxFiles: nat)
    returns (files: seq<Path>, trail: seq<Record>, full: bool)
    requires |found| <= maxFiles
    ensures full <==> |found| + |Collected(guard, fs, at, entry)| > maxFiles
    ensures files == if full then found else found + Collected(guard, fs, at, entry)
    ensures !full ==> trail == noted + NotedAt(guard, fs, at, entry)
    ensures full ==> trail == noted
  {
    files, trail, full := found, noted, false;
    if !entry.typed {
      return;
    }
    var child := at.Child(entry.name);
    match entry.node {
      case Link =>
        trail := trail + Noted(guard, fs, child);
        var resolved := WalkedLink(guard, fs, child);
        if resolved.Some? {
          if |files| == maxFiles {
            return files, noted, true;
          }
          files := files + [resolved.value];
        }
      case File =>
        if |files| == maxFiles {
          return files, noted, true;
        }
        files := files + [child];
      case _ =>
    }
  }

  lemma PathPushed(tree: Node, top: Path, stack: seq<Path>, levels: seq<Level>, at: Path, node: Node, j: nat, held: seq<Level>)
    requires Finds(tree, top, stack, levels)
    requires at.StartsWith(top) && Lookup(tree, Remainder(at, top)) == Some(node)
    requires node.Dir? && WellFormed(node) && j < |node.entries|
    requires levels == held + Subdirs(at, node.entries[..j])
    ensures var entry := node.entries[j];
            var child := at.Child(entry.name);
            var pushed := entry.typed && entry.node.Dir?;
            && Finds(tree, top, stack + (if pushed then [child] else []), levels + if pushed then [(child, entry.node)] else [])
            && levels + (if pushed then [(child, entry.node)] else []) == held + Subdirs(at, node.entries[..j + 1])
  {
    OneMoreEntry(at, node.entries, j, held);
    if node.entries[j].typed && node.entries[j].node.Dir? {
      FindsChild(tree, top, stack, levels, at, node, j);
    } else {
      assert stack + [] == stack && levels + [] == levels;
    }
  }

  method ListByPath(guard: Guard, fs: Fs, at: Path, entries: seq<Entry>, found: seq<Path>, pending: seq<Path>, maxFiles: nat,
                    noted: seq<Record>, ghost tree: Node, ghost top: Path, ghost readable: bool, ghost held: seq<Level>)
    returns (files: seq<Path>, stack: seq<Path>, truncated: bool, trail: seq<Record>, ghost levels: seq<Level>)
    requires Finds(tree, top, pending, held) && |found| <= maxFiles
    requires at.StartsWith(top) && Lookup(tree, Remainder(at, top)) == Some(Dir(readable, entries))
    requires WellFormed(Dir(readable, entries))
    ensures Listed(guard, fs, at, entries, found, files, maxFiles, truncated)
    ensures trail == noted + NotesOf(guard, fs, at, entries, maxFiles - |found|)
    ensures !truncated ==> Finds(tree, top, stack, levels) && levels == held + Subdirs(at, entries)
  {
    files, stack, truncated, trail, levels := found, pending, false, noted, held;
    ghost var owed := noted + NotesOf(guard, fs, at, entries, maxFiles - |found|);
    LevelBegins(guard, fs, at, entries, found, noted, maxFiles);
    for j := 0 to |entries|
      invariant Finds(tree, top, stack, levels)
      invariant levels == held + Subdirs(at, entries[..j])
      invariant SoFar(guard, fs, at, entries, j, found, files, trail, owed, maxFiles)
    {
      var entry := entries[j];
      ghost var before, told := files, trail;
      files, trail, truncated := TakeEntry(guard, fs, at, entry, files, trail, maxFiles);
      if truncated {
        LevelIsFull(guard, fs, at, entries, j, found, before, told, owed, maxFiles);
        return;
      }
      LevelGoesOn(guard, fs, at, entries, j, found, before, told, owed, maxFiles);
      PathPushed(tree, top, stack, levels, at, Dir(readable, entries), j, held);
      var child := at.Child(entry.name);
      var pushed := entry.typed && entry.node.Dir?;
      stack := stack + if pushed then [child] else [];
      levels := levels + if pushed then [(child, entry.node)] else [];
    }
    LevelEnds(guard, fs, at, entries, found, files, trail, owed, maxFiles);
    truncated := false;
  }

  /** By path: each directory is found again from the root by its own path. */
  method WalkByPath(guard: Guard, fs: Fs, top: Path, tree: Node, maxFiles: nat)
    returns (walk: ReadableWalk, trail: seq<Record>)
    requires WellFormed(tree)
    ensures walk == Walked(Visit(guard, fs, [(top, tree)]), maxFiles)
    ensures trail == Notes(guard, fs, [(top, tree)], maxFiles)
  {
    trail := [];
    var files: seq<Path> := [];
    var truncated := false;
    var stack := [top];
    ghost var levels := [(top, tree)];
    ghost var all, owed := Visit(guard, fs, levels), Notes(guard, fs, levels, maxFiles);
    assert Remainder(top, top) == [];
    WalkBegins(guard, fs, levels, maxFiles);
    while stack != [] && !truncated
      invariant !truncated ==> Finds(tree, top, stack, levels)
      invariant Underway(guard, fs, levels, files, trail, all, owed, maxFiles, truncated)
      invariant |stack| == |levels| || truncated
      decreases StackSize(levels), !truncated
    {
      ListingShrinks(levels);
      FindsTop(tree, top, stack, levels);
      ghost var was := levels;
      var at := stack[|stack| - 1];
      stack, levels := stack[..|stack| - 1], levels[..|levels| - 1];
      var listed := Lookup(tree, Remainder(at, top));
      if listed.None? || !Lists(listed.value) {
        LevelSkipped(guard, fs, was, files, trail, all, owed, maxFiles);
        continue;
      }
      var entries := listed.value.entries;
      ghost var before, told := files, trail;
      files, stack, truncated, trail, levels :=
        ListByPath(guard, fs, at, entries, files, stack, maxFiles, trail, tree, top, true, levels);
      LevelDone(guard, fs, was, before, files, told, trail, all, owed, maxFiles, truncated);
      if truncated { levels := was[..|was| - 1]; }
    }
    WalkDone(guard, fs, levels, files, trail, all, owed, maxFiles, truncated);
    walk := ReadableWalk(Sort(files), truncated);
  }

  /** Between levels: what is collected and recorded, and what the stack still owes of each, are
      the whole visit's. */
  ghost predicate Underway(guard: Guard, fs: Fs, levels: seq<Level>, files: seq<Path>, trail: seq<Record>,
                           all: seq<Path>, owed: seq<Record>, maxFiles: nat, truncated: bool)
  {
    && Collecting(guard, fs, levels, files, all, maxFiles, truncated)
    && Noting(guard, fs, levels, files, trail, owed, maxFiles, truncated)
  }

  ghost predicate Collecting(guard: Guard, fs: Fs, levels: seq<Level>, files: seq<Path>, all: seq<Path>, maxFiles: nat,
                             truncated: bool)
  {
    && |files| <= maxFiles
    && (if truncated then |files| == maxFiles && files <= all && |files| < |all|
        else files + Visit(guard, fs, levels) == all)
  }

  ghost predicate Noting(guard: Guard, fs: Fs, levels: seq<Level>, files: seq<Path>, trail: seq<Record>, owed: seq<Record>,
                         maxFiles: nat, truncated: bool)
  {
    && |files| <= maxFiles
    && trail + (if truncated then [] else Notes(guard, fs, levels, maxFiles - |files|)) == owed
  }

  lemma WalkBegins(guard: Guard, fs: Fs, levels: seq<Level>, maxFiles: nat)
    ensures Underway(guard, fs, levels, [], [], Visit(guard, fs, levels), Notes(guard, fs, levels, maxFiles), maxFiles, false)
  {
  }

  lemma LevelSkipped(guard: Guard, fs: Fs, levels: seq<Level>, files: seq<Path>, trail: seq<Record>,
                     all: seq<Path>, owed: seq<Record>, maxFiles: nat)
    requires levels != [] && !Lists(levels[|levels| - 1].1)
    requires Underway(guard, fs, levels, files, trail, all, owed, maxFiles, false)
    ensures Underway(guard, fs, levels[..|levels| - 1], files, trail, all, owed, maxFiles, false)
  {
    NotListed(guard, fs, levels);
  }

  lemma LevelCollected(guard: Guard, fs: Fs, below: seq<Level>, level: Level, before: seq<Path>, files: seq<Path>,
                       all: seq<Path>, maxFiles: nat, truncated: bool)
    requires Lists(level.1)
    requires Collecting(guard, fs, below + [level], before, all, maxFiles, false)
    requires Listed(guard, fs, level.0, level.1.entries, before, files, maxFiles, truncated)
    ensures Collecting(guard, fs, below + Subdirs(level.0, level.1.entries), files, all, maxFiles, truncated)
  {
    var taken := Files(guard, fs, level.0, level.1.entries);
    var rest := Visit(guard, fs, below + Subdirs(level.0, level.1.entries));
    VisitOnTop(guard, fs, below, level);
    assert before + (taken + rest) == (before + taken) + rest;
  }

  /** The level on top was listed. */
  lemma LevelDone(guard: Guard, fs: Fs, levels: seq<Level>, before: seq<Path>, files: seq<Path>, told: seq<Record>,
                  trail: seq<Record>, all: seq<Path>, owed: seq<Record>, maxFiles: nat, truncated: bool)
    requires levels != [] && Lists(levels[|levels| - 1].1)
    requires Underway(guard, fs, levels, before, told, all, owed, maxFiles, false)
    requires var level := levels[|levels| - 1];
             && Listed(guard, fs, level.0, level.1.entries, before, files, maxFiles, truncated)
             && trail == told + NotesOf(guard, fs, level.0, level.1.entries, maxFiles - |before|)
    ensures var level := levels[|levels| - 1];
            Underway(guard, fs, levels[..|levels| - 1] + Subdirs(level.0, level.1.entries), files, trail, all, owed,
                     maxFiles, truncated)
  {
    TopCollected(guard, fs, levels, before, files, all, maxFiles, truncated);
    TopNoted(guard, fs, levels, before, files, told, owed, maxFiles, truncated);
  }

  lemma TopCollected(guard: Guard, fs: Fs, levels: seq<Level>, before: seq<Path>, files: seq<Path>,
                     all: seq<Path>, maxFiles: nat, truncated: bool)
    requires levels != [] && Lists(levels[|levels| - 1].1)
    requires Collecting(guard, fs, levels, before, all, maxFiles, false)
    requires var level := levels[|levels| - 1];
             Listed(guard, fs, level.0, level.1.entries, before, files, maxFiles, truncated)
    ensures var level := levels[|levels| - 1];
            Collecting(guard, fs, levels[..|levels| - 1] + Subdirs(level.0, level.1.entries), files, all, maxFiles, truncated)
  {
    var below, level := levels[..|levels| - 1], levels[|levels| - 1];
    assert levels == below + [level];
    LevelCollected(guard, fs, below, level, before, files, all, maxFiles, truncated);
  }

  lemma TopNoted(guard: Guard, fs: Fs, levels: seq<Level>, before: seq<Path>, files: seq<Path>, told: seq<Record>,
                 owed: seq<Record>, maxFiles: nat, truncated: bool)
    requires levels != [] && Lists(levels[|levels| - 1].1)
    requires Noting(guard, fs, levels, before, told, owed, maxFiles, false)
    requires var level := levels[|levels| - 1];
             Listed(guard, fs, level.0, level.1.entries, before, files, maxFiles, truncated)
    ensures var level := levels[|levels| - 1];
            Noting(guard, fs, levels[..|levels| - 1] + Subdirs(level.0, level.1.entries), files,
                   told + NotesOf(guard, fs, level.0, level.1.entries, maxFiles - |before|), owed, maxFiles, truncated)
  {
    var below, level := levels[..|levels| - 1], levels[|levels| - 1];
    assert levels == below + [level];
    LevelNoted(guard, fs, below, level, before, files, told, owed, maxFiles, truncated);
  }

  lemma NotesOfLevel(guard: Guard, fs: Fs, below: seq<Level>, level: Level, room: nat)
    requires Lists(level.1)
    ensures var files := |Files(guard, fs, level.0, level.1.entries)|;
            Notes(guard, fs, below + [level], room) ==
            NotesOf(guard, fs, level.0, level.1.entries, room)
            + if files > room then [] else Notes(guard, fs, below + Subdirs(level.0, level.1.entries), room - files)
  {
    var stack := below + [level];
    assert stack[|stack| - 1] == level && stack[..|stack| - 1] == below;
  }

  lemma LevelNoted(guard: Guard, fs: Fs, below: seq<Level>, level: Level, before: seq<Path>, files: seq<Path>,
                   told: seq<Record>, owed: seq<Record>, maxFiles: nat, truncated: bool)
    requires Lists(level.1)
    requires Noting(guard, fs, below + [level], before, told, owed, maxFiles, false)
    requires Listed(guard, fs, level.0, level.1.entries, before, files, maxFiles, truncated)
    ensures Noting(guard, fs, below + Subdirs(level.0, level.1.entries), files,
                       told + NotesOf(guard, fs, level.0, level.1.entries, maxFiles - |before|), owed, maxFiles, truncated)
  {
    var room, taken := maxFiles - |before|, |Files(guard, fs, level.0, level.1.entries)|;
    var notes := NotesOf(guard, fs, level.0, level.1.entries, room);
    NotesOfLevel(guard, fs, below, level, room);
    assert truncated <==> taken > room;
    Regroup(told, notes, if truncated then [] else Notes(guard, fs, below + Subdirs(level.0, level.1.entries), room - taken));
  }

  lemma OneMoreEntry(at: Path, entries: seq<Entry>, j: nat, held: seq<Level>)
    requires j < |entries|
    ensures held + Subdirs(at, entries[..j + 1]) == (held + Subdirs(at, entries[..j])) + Descended(at, entries[j])
  {
    assert entries[..j + 1][..j] == entries[..j];
  }

  lemma WalkDone(guard: Guard, fs: Fs, levels: seq<Level>, files: seq<Path>, trail: seq<Record>, all: seq<Path>,
                 owed: seq<Record>, maxFiles: nat, truncated: bool)
    requires Underway(guard, fs, levels, files, trail, all, owed, maxFiles, truncated)
    requires truncated || levels == []
    ensures files == Take(all, maxFiles) && (truncated <==> |all| > maxFiles) && trail == owed
  {
  }

  /** Stopping where a file would enter the result leaves at least that file out of it. */
  lemma {:induction false} FilesGrow(guard: Guard, fs: Fs, at: Path, entries: seq<Entry>, j: nat)
    requires j < |entries| && Collected(guard, fs, at, entries[j]) != []
    ensures var some, every := Files(guard, fs, at, entries[..j]), Files(guard, fs, at, entries);
            some <= every && |some| < |every|
  {
    var front := entries[..|entries| - 1];
    if j < |front| {
      assert front[..j] == entries[..j];
      FilesGrow(guard, fs, at, front, j);
    } else {
      assert front == entries[..j];
    }
  }

  // ----- By descriptor -----

  /** A directory yet to be listed, opened beneath its parent only once it is popped; `None` is
      the walk's own root, already open. A descriptor is the node it holds. */
  datatype Pending = Pending(parent: Node, name: Option<string>, at: Path)

  function OpenDirAt(parent: Node, name: string): Option<Node>
    requires parent.Dir?
  {
    var entry := Find(parent.entries, name);
    if entry.Some? && Lists(entry.value.node) then Some(entry.value.node) else None
  }

  ghost predicate Opens(stack: seq<Pending>, levels: seq<Level>) {
    && |stack| == |levels|
    && forall i | 0 <= i < |stack| ::
         && stack[i].at == levels[i].0 && WellFormed(levels[i].1) && stack[i].parent.Dir?
         && (match stack[i].name
             case None => stack[i].parent == levels[i].1 && Lists(levels[i].1)
             case Some(name) =>
               var entry := Find(stack[i].parent.entries, name);
               entry.Some? && entry.value.node == levels[i].1)
  }

  lemma OpensChild(stack: seq<Pending>, levels: seq<Level>, at: Path, dir: Node, j: nat)
    requires Opens(stack, levels) && dir.Dir? && WellFormed(dir) && j < |dir.entries|
    ensures var entry := dir.entries[j];
            var child := at.Child(entry.name);
            Opens(stack + [Pending(dir, Some(entry.name), child)], levels + [(child, entry.node)])
  {
    FindEntry(dir.entries, j);
  }

  lemma HandlePushed(stack: seq<Pending>, levels: seq<Level>, at: Path, dir: Node, j: nat, held: seq<Level>)
    requires Opens(stack, levels) && dir.Dir? && WellFormed(dir) && j < |dir.entries|
    requires levels == held + Subdirs(at, dir.entries[..j])
    ensures var entry := dir.entries[j];
            var child := at.Child(entry.name);
            var pushed := entry.typed && entry.node.Dir?;
            && Opens(stack + (if pushed then [Pending(dir, Some(entry.name), child)] else []),
                     levels + if pushed then [(child, entry.node)] else [])
            && levels + (if pushed then [(child, entry.node)] else []) == held + Subdirs(at, dir.entries[..j + 1])
  {
    OneMoreEntry(at, dir.entries, j, held);
    if dir.entries[j].typed && dir.entries[j].node.Dir? {
      OpensChild(stack, levels, at, dir, j);
    } else {
      assert stack + [] == stack && levels + [] == levels;
    }
  }

  method ListByHandle(guard: Guard, fs: Fs, at: Path, dir: Node, found: seq<Path>, pending: seq<Pending>, maxFiles: nat,
                      noted: seq<Record>, ghost held: seq<Level>)
    returns (files: seq<Path>, stack: seq<Pending>, truncated: bool, trail: seq<Record>, ghost levels: seq<Level>)
    requires Opens(pending, held) && |found| <= maxFiles && dir.Dir? && WellFormed(dir)
    ensures Listed(guard, fs, at, dir.entries, found, files, maxFiles, truncated)
    ensures trail == noted + NotesOf(guard, fs, at, dir.entries, maxFiles - |found|)
    ensures !truncated ==> Opens(stack, levels) && levels == held + Subdirs(at, dir.entries)
  {
    files, stack, truncated, trail, levels := found, pending, false, noted, held;
    var entries := dir.entries;
    ghost var owed := noted + NotesOf(guard, fs, at, entries, maxFiles - |found|);
    LevelBegins(guard, fs, at, entries, found, noted, maxFiles);
    for j := 0 to |entries|
      invariant Opens(stack, levels)
      invariant levels == held + Subdirs(at, entries[..j])
      invariant SoFar(guard, fs, at, entries, j, found, files, trail, owed, maxFiles)
    {
      var entry := entries[j];
      ghost var before, told := files, trail;
      files, trail, truncated := TakeEntry(guard, fs, at, entry, files, trail, maxFiles);
      if truncated {
        LevelIsFull(guard, fs, at, entries, j, found, before, told, owed, maxFiles);
        return;
      }
      LevelGoesOn(guard, fs, at, entries, j, found, before, told, owed, maxFiles);
      HandlePushed(stack, levels, at, dir, j, held);
      var child := at.Child(entry.name);
      var pushed := entry.typed && entry.node.Dir?;
      stack := stack + if pushed then [Pending(dir, Some(entry.name), child)] else [];
      levels := levels + if pushed then [(child, entry.node)] else [];
    }
    LevelEnds(guard, fs, at, entries, found, files, trail, owed, maxFiles);
    truncated := false;
  }

  /** By descriptor, beneath a root already open. */
  method WalkBeneath(guard: Guard, fs: Fs, top: Path, tree: Node, maxFiles: nat)
    returns (walk: ReadableWalk, trail: seq<Record>)
    requires WellFormed(tree) && Lists(tree)
    ensures walk == Walked(Visit(guard, fs, [(top, tree)]), maxFiles)
    ensures trail == Notes(guard, fs, [(top, tree)], maxFiles)
  {
    trail := [];
    var files: seq<Path> := [];
    var truncated := false;
    var stack := [Pending(tree, None, top)];
    ghost var levels := [(top, tree)];
    ghost var all, owed := Visit(guard, fs, levels), Notes(guard, fs, levels, maxFiles);
    WalkBegins(guard, fs, levels, maxFiles);
    while stack != [] && !truncated
      invariant !truncated ==> Opens(stack, levels)
      invariant Underway(guard, fs, levels, files, trail, all, owed, maxFiles, truncated)
      invariant |stack| == |levels| || truncated
      decreases StackSize(levels), !truncated
    {
      ListingShrinks(levels);
      ghost var was := levels;
      var Pending(parent, name, at) := stack[|stack| - 1];
      stack, levels := stack[..|stack| - 1], levels[..|levels| - 1];
      var dir := match name
        case None => Some(parent)
        case Some(name) => OpenDirAt(parent, name);
      if dir.None? {
        LevelSkipped(guard, fs, was, files, trail, all, owed, maxFiles);
        continue;
      }
      ghost var before, told := files, trail;
      files, stack, truncated, trail, levels :=
        ListByHandle(guard, fs, at, dir.value, files, stack, maxFiles, trail, levels);
      LevelDone(guard, fs, was, before, files, told, trail, all, owed, maxFiles, truncated);
      if truncated { levels := was[..|was| - 1]; }
    }
    WalkDone(guard, fs, levels, files, trail, all, owed, maxFiles, truncated);
    walk := ReadableWalk(Sort(files), truncated);
  }

  /** The public walk, and what it leaves on the audit trail: one record for the walk whichever way
      it went, after those of the links it refused. `escaped` is `openat2` answering that the root
      was moved out from under its descriptor, the one refusal a by-path descent cannot make. */
  method WalkReadable(guard: Guard, fs: Fs, requested: Path, tree: Node, maxFiles: nat, escaped: bool)
    returns (result: Result<ReadableWalk, SandboxError>, trail: seq<Record>)
    requires WellFormed(tree)
    ensures var checked := CheckRead(guard, fs, requested);
            && (checked.result.Err? ==> result == Err(checked.result.error) && trail == checked.trail)
            && (checked.result.Ok? ==>
                  var permitted := checked.result.value;
                  if permitted.root.Some? && escaped then
                    && result == Err(Unresolvable(requested, OtherErrno))
                    && trail == [DeniedRecord(Reading, requested, EscapedTheRoot)]
                  else
                    && result == Ok(Walked(Visit(guard, fs, [(permitted.resolved, tree)]), maxFiles))
                    && trail == Notes(guard, fs, [(permitted.resolved, tree)], maxFiles) + [AllowedRecord(Reading, requested)])
  {
    var checked := CheckRead(guard, fs, requested);
    if checked.result.Err? {
      return Err(checked.result.error), checked.trail;
    }
    var permitted := checked.result.value;
    var walk: ReadableWalk;
    if permitted.root.None? {
      walk, trail := WalkByPath(guard, fs, permitted.resolved, tree, maxFiles);
    } else if escaped {
      return Err(Unresolvable(requested, OtherErrno)), [DeniedRecord(Reading, requested, EscapedTheRoot)];
    } else if Lists(tree) {
      walk, trail := WalkBeneath(guard, fs, permitted.resolved, tree, maxFiles);
    } else {
      NotListed(guard, fs, [(permitted.resolved, tree)]);
      walk, trail := ReadableWalk([], false), [];
    }
    trail := trail + [AllowedRecord(Reading, requested)];
    result := Ok(walk);
  }

  // ----- What a walk returns -----

  /** Every permitted file below `node`, by recursion on the tree. */
  function Every(guard: Guard, fs: Fs, at: Path, node: Node): seq<Path>
    decreases node, 1
  {
    if Lists(node) then EveryIn(guard, fs, at, node.entries) else []
  }

  function EveryIn(guard: Guard, fs: Fs, at: Path, entries: seq<Entry>): seq<Path>
    decreases entries, 0
  {
    if entries == [] then []
    else
      Collected(guard, fs, at, entries[0])
      + (if entries[0].typed then Every(guard, fs, at.Child(entries[0].name), entries[0].node) else [])
      + EveryIn(guard, fs, at, entries[1..])
  }

  function EveryOn(guard: Guard, fs: Fs, stack: seq<Level>): seq<Path> {
    if stack == [] then []
    else EveryOn(guard, fs, stack[..|stack| - 1]) + Every(guard, fs, stack[|stack| - 1].0, stack[|stack| - 1].1)
  }

  lemma {:induction false} EveryOnSplits(guard: Guard, fs: Fs, a: seq<Level>, b: seq<Level>)
    ensures EveryOn(guard, fs, a + b) == EveryOn(guard, fs, a) + EveryOn(guard, fs, b)
    decreases b
  {
    if b == [] {
      assert a + b == a;
    } else {
      assert (a + b)[..|a + b| - 1] == a + b[..|b| - 1];
      EveryOnSplits(guard, fs, a, b[..|b| - 1]);
    }
  }

  lemma {:induction false} FilesFromTheFront(guard: Guard, fs: Fs, at: Path, entries: seq<Entry>)
    requires entries != []
    ensures Files(guard, fs, at, entries) == Collected(guard, fs, at, entries[0]) + Files(guard, fs, at, entries[1..])
  {
    var front, tail := entries[..|entries| - 1], entries[1..];
    if front != [] {
      assert tail[..|tail| - 1] == front[1..] && tail[|tail| - 1] == entries[|entries| - 1];
      FilesFromTheFront(guard, fs, at, front);
      var last := Collected(guard, fs, at, entries[|entries| - 1]);
      assert Files(guard, fs, at, tail) == Files(guard, fs, at, front[1..]) + last;
    } else {
      assert Files(guard, fs, at, front) == [] && Files(guard, fs, at, tail) == [];
    }
  }

  lemma {:induction false} SubdirsFromTheFront(at: Path, entries: seq<Entry>)
    requires entries != []
    ensures Subdirs(at, entries) == Descended(at, entries[0]) + Subdirs(at, entries[1..])
  {
    var front, tail := entries[..|entries| - 1], entries[1..];
    if front != [] {
      assert tail[..|tail| - 1] == front[1..];
      SubdirsFromTheFront(at, front);
    }
  }

  lemma Regrouped(here: seq<Path>, files: seq<Path>, below: seq<Path>, deeper: seq<Path>, rest: seq<Path>)
    requires multiset(files) + multiset(deeper) == multiset(rest)
    ensures multiset(here + files) + multiset(below + deeper) == multiset(here + below + rest)
  {
  }

  /** Listing a level's files first and its directories after moves nothing in or out. */
  lemma {:induction false} LevelByLevel(guard: Guard, fs: Fs, at: Path, entries: seq<Entry>)
    ensures multiset(Files(guard, fs, at, entries)) + multiset(EveryOn(guard, fs, Subdirs(at, entries)))
         == multiset(EveryIn(guard, fs, at, entries))
  {
    if entries != [] {
      var first, later := entries[0], entries[1..];
      LevelByLevel(guard, fs, at, later);
      FilesFromTheFront(guard, fs, at, entries);
      SubdirsFromTheFront(at, entries);
      EveryOnSplits(guard, fs, Descended(at, first), Subdirs(at, later));
      DescendedHolds(guard, fs, at, first);
      Regrouped(Collected(guard, fs, at, first), Files(guard, fs, at, later), EveryOn(guard, fs, Descended(at, first)),
                EveryOn(guard, fs, Subdirs(at, later)), EveryIn(guard, fs, at, later));
    }
  }

  lemma DescendedHolds(guard: Guard, fs: Fs, at: Path, entry: Entry)
    ensures EveryOn(guard, fs, Descended(at, entry)) ==
            if entry.typed then Every(guard, fs, at.Child(entry.name), entry.node) else []
  {
    if Descended(at, entry) != [] { OneLevelHolds(guard, fs, at.Child(entry.name), entry.node); }
  }

  lemma {:induction false} VisitMeetsEveryFile(guard: Guard, fs: Fs, stack: seq<Level>)
    ensures multiset(Visit(guard, fs, stack)) == multiset(EveryOn(guard, fs, stack))
    decreases StackSize(stack)
  {
    if stack != [] {
      ListingShrinks(stack);
      var (at, node) := stack[|stack| - 1];
      var rest := stack[..|stack| - 1];
      if Lists(node) {
        VisitMeetsEveryFile(guard, fs, rest + Subdirs(at, node.entries));
        EveryOnSplits(guard, fs, rest, Subdirs(at, node.entries));
        LevelByLevel(guard, fs, at, node.entries);
      } else {
        VisitMeetsEveryFile(guard, fs, rest);
      }
    }
  }

  /** Sorted, exactly as many as the cap lets through, all of them from `every`, and each as
      often as there unless the cap was reached, which `truncated` tells exactly. */
  ghost predicate Holds(walk: ReadableWalk, every: seq<Path>, maxFiles: nat) {
    && Sorted(walk.files)
    && |walk.files| == (if |every| <= maxFiles then |every| else maxFiles)
    && (walk.truncated <==> |every| > maxFiles)
    && multiset(walk.files) <= multiset(every)
    && (!walk.truncated ==> walk.files == Sort(every))
  }

  /** The stack-driven walk returns what the tree recursion names. */
  lemma WalkReturnsTheTree(guard: Guard, fs: Fs, top: Path, tree: Node, maxFiles: nat)
    ensures Holds(Walked(Visit(guard, fs, [(top, tree)]), maxFiles), Every(guard, fs, top, tree), maxFiles)
  {
    var level := [(top, tree)];
    VisitMeetsEveryFile(guard, fs, level);
    OneLevelHolds(guard, fs, top, tree);
    CappedWalk(Visit(guard, fs, level), Every(guard, fs, top, tree), maxFiles);
  }

  lemma OneLevelHolds(guard: Guard, fs: Fs, at: Path, node: Node)
    ensures EveryOn(guard, fs, [(at, node)]) == Every(guard, fs, at, node)
  {
    assert [(at, node)][..0] == [];
    assert EveryOn(guard, fs, []) == [];
  }

  lemma CappedWalk(all: seq<Path>, every: seq<Path>, maxFiles: nat)
    requires multiset(all) == multiset(every)
    ensures Holds(Walked(all, maxFiles), every, maxFiles)
  {
    var kept := Take(all, maxFiles);
    var sorted := Sort(kept);
    SameBagSameSize(all, every);
    SameBagSameSize(sorted, kept);
    TakenIsPart(all, maxFiles);
    if |all| <= maxFiles {
      SortedFormIsUnique(sorted, Sort(every));
    }
  }

  lemma TakenIsPart(all: seq<Path>, maxFiles: nat)
    ensures multiset(Take(all, maxFiles)) <= multiset(all)
  {
    assert all == Take(all, maxFiles) + all[|Take(all, maxFiles)|..];
  }

  lemma SameBagSameSize(a: seq<Path>, b: seq<Path>)
    requires multiset(a) == multiset(b)
    ensures |a| == |b|
  {
    assert |multiset(a)| == |a| && |multiset(b)| == |b|;
  }

  /** What the names in `parts`, followed from `node` through directories that list, come to. */
  function Yields(guard: Guard, fs: Fs, at: Path, node: Node, parts: seq<string>): seq<Path>
    decreases |parts|
  {
    if parts == [] || !Lists(node) then []
    else
      var entry := Find(node.entries, parts[0]);
      if entry.None? then []
      else if |parts| == 1 then Collected(guard, fs, at, entry.value)
      else if !entry.value.typed then []
      else Yields(guard, fs, at.Child(parts[0]), entry.value.node, parts[1..])
  }

  /** A chain of names into the entries from `from` on. */
  predicate Heads(parts: seq<string>, entries: seq<Entry>, from: nat) {
    parts != [] && exists i :: from <= i < |entries| && entries[i].name == parts[0]
  }

  ghost predicate Yielded(guard: Guard, fs: Fs, at: Path, node: Node, file: Path) {
    exists parts :: file in Yields(guard, fs, at, node, parts)
  }

  ghost predicate Chained(guard: Guard, fs: Fs, at: Path, node: Node, from: nat, file: Path)
    requires node.Dir?
  {
    exists parts | Heads(parts, node.entries, from) :: file in Yields(guard, fs, at, node, parts)
  }

  /** A file is in the walk exactly when some chain of names, through directories alone, yields it. */
  lemma {:induction false} EveryIsWhatChainsYield(guard: Guard, fs: Fs, at: Path, node: Node, file: Path)
    requires WellFormed(node)
    ensures file in Every(guard, fs, at, node) <==> Yielded(guard, fs, at, node, file)
    decreases node, 1
  {
    if Lists(node) {
      EveryInIsWhatChainsYield(guard, fs, at, node, 0, file);
      assert node.entries[0..] == node.entries;
      YieldedIsChained(guard, fs, at, node, file);
    }
  }

  lemma YieldedIsChained(guard: Guard, fs: Fs, at: Path, node: Node, file: Path)
    requires node.Dir?
    ensures Yielded(guard, fs, at, node, file) <==> Chained(guard, fs, at, node, 0, file)
  {
    forall parts | file in Yields(guard, fs, at, node, parts) ensures Heads(parts, node.entries, 0) {
      ChainsHaveHeads(guard, fs, at, node, parts);
    }
  }

  lemma ChainsHaveHeads(guard: Guard, fs: Fs, at: Path, node: Node, parts: seq<string>)
    requires Yields(guard, fs, at, node, parts) != []
    ensures Heads(parts, node.entries, 0)
  {
    assert Find(node.entries, parts[0]).value in node.entries;
  }

  lemma {:induction false} EveryInIsWhatChainsYield(guard: Guard, fs: Fs, at: Path, node: Node, from: nat, file: Path)
    requires WellFormed(node) && Lists(node) && from <= |node.entries|
    ensures file in EveryIn(guard, fs, at, node.entries[from..]) <==> Chained(guard, fs, at, node, from, file)
    decreases node, 0, |node.entries| - from
  {
    if from < |node.entries| {
      var entry, rest := node.entries[from], node.entries[from..];
      assert rest[1..] == node.entries[from + 1..] && rest[0] == entry;
      EveryInIsWhatChainsYield(guard, fs, at, node, from + 1, file);
      EveryIsWhatChainsYield(guard, fs, at.Child(entry.name), entry.node, file);
      OneEntryChains(guard, fs, at, node, from, file);
    }
  }

  /** The chains through one entry. */
  lemma OneEntryChains(guard: Guard, fs: Fs, at: Path, node: Node, from: nat, file: Path)
    requires WellFormed(node) && Lists(node) && from < |node.entries|
    ensures var entry := node.entries[from];
            var child := at.Child(entry.name);
            Chained(guard, fs, at, node, from, file) <==>
              || Chained(guard, fs, at, node, from + 1, file)
              || file in Collected(guard, fs, at, entry)
              || (entry.typed && Yielded(guard, fs, child, entry.node, file))
  {
    var entry := node.entries[from];
    var child, one := at.Child(entry.name), [entry.name];
    FindEntry(node.entries, from);
    assert Heads(one, node.entries, from);
    if entry.typed && Yielded(guard, fs, child, entry.node, file) {
      var parts :| file in Yields(guard, fs, child, entry.node, parts);
      var longer := one + parts;
      assert longer[1..] == parts && Heads(longer, node.entries, from);
      assert file in Yields(guard, fs, at, node, longer);
    }
    if file in Collected(guard, fs, at, entry) {
      assert file in Yields(guard, fs, at, node, one);
    }
    if Chained(guard, fs, at, node, from + 1, file) {
      var parts :| Heads(parts, node.entries, from + 1) && file in Yields(guard, fs, at, node, parts);
      assert Heads(parts, node.entries, from);
    }
    if Chained(guard, fs, at, node, from, file) {
      var parts :| Heads(parts, node.entries, from) && file in Yields(guard, fs, at, node, parts);
      if !Heads(parts, node.entries, from + 1) {
        ChainThroughEntry(guard, fs, at, node, from, parts, file);
      }
    }
  }

  lemma ChainThroughEntry(guard: Guard, fs: Fs, at: Path, node: Node, from: nat, parts: seq<string>, file: Path)
    requires WellFormed(node) && Lists(node) && from < |node.entries|
    requires parts != [] && parts[0] == node.entries[from].name && file in Yields(guard, fs, at, node, parts)
    ensures var entry := node.entries[from];
            file in Collected(guard, fs, at, entry)
            || (entry.typed && Yielded(guard, fs, at.Child(entry.name), entry.node, file))
  {
    FindEntry(node.entries, from);
    if |parts| > 1 {
      assert file in Yields(guard, fs, at.Child(parts[0]), node.entries[from].node, parts[1..]);
    }
  }

  /** Every file a permitted walk returns lies beneath a root that confirms. */
  lemma {:induction false} EveryFileIsCovered(guard: Guard, fs: Fs, at: Path, node: Node)
    requires Covered(fs, at, guard.readable)
    ensures forall file | file in Every(guard, fs, at, node) :: Covered(fs, file, guard.readable)
    decreases node, 1
  {
    if Lists(node) { EveryFileInIsCovered(guard, fs, at, node.entries); }
  }

  lemma {:induction false} EveryFileInIsCovered(guard: Guard, fs: Fs, at: Path, entries: seq<Entry>)
    requires Covered(fs, at, guard.readable)
    ensures forall file | file in EveryIn(guard, fs, at, entries) :: Covered(fs, file, guard.readable)
    decreases entries, 0
  {
    if entries != [] {
      var child := at.Child(entries[0].name);
      var root :| root in guard.readable && Confirms(fs, root, at);
      assert Confirms(fs, root, child);
      EveryFileIsCovered(guard, fs, child, entries[0].node);
      EveryFileInIsCovered(guard, fs, at, entries[1..]);
    }
  }

  /** So nothing outside the granted set comes back from a walk that was let through. */
  lemma WalkStaysWithinTheGrants(guard: Guard, fs: Fs, requested: Path, tree: Node, maxFiles: nat)
    requires CheckRead(guard, fs, requested).result.Ok?
    ensures var at := CheckRead(guard, fs, requested).result.value.resolved;
            forall file | file in Walked(Visit(guard, fs, [(at, tree)]), maxFiles).files :: Covered(fs, file, guard.readable)
  {
    var at := CheckRead(guard, fs, requested).result.value.resolved;
    PermittedMeansConfirmed(guard, fs, requested, Reading);
    EveryFileIsCovered(guard, fs, at, tree);
    WalkReturnsTheTree(guard, fs, at, tree, maxFiles);
    var files := Walked(Visit(guard, fs, [(at, tree)]), maxFiles).files;
    forall file | file in files ensures file in Every(guard, fs, at, tree) {
      assert file in multiset(files);
    }
  }

  // ----- What a walk records -----

  function AsSet(records: seq<Record>): set<Record> {
    set record | record in records
  }

  /** The records of every refused link below `node`, by recursion on the tree. */
  function NotedBelow(guard: Guard, fs: Fs, at: Path, node: Node): set<Record>
    decreases node, 1
  {
    if Lists(node) then NotedIn(guard, fs, at, node.entries) else {}
  }

  function NotedIn(guard: Guard, fs: Fs, at: Path, entries: seq<Entry>): set<Record>
    decreases entries, 0
  {
    if entries == [] then {}
    else
      AsSet(NotedAt(guard, fs, at, entries[0]))
      + (if entries[0].typed then NotedBelow(guard, fs, at.Child(entries[0].name), entries[0].node) else {})
      + NotedIn(guard, fs, at, entries[1..])
  }

  function NotedOn(guard: Guard, fs: Fs, stack: seq<Level>): set<Record> {
    if stack == [] then {}
    else NotedOn(guard, fs, stack[..|stack| - 1]) + NotedBelow(guard, fs, stack[|stack| - 1].0, stack[|stack| - 1].1)
  }

  /** The records of one level's own links. */
  function NotedHere(guard: Guard, fs: Fs, at: Path, entries: seq<Entry>): set<Record> {
    if entries == [] then {} else AsSet(NotedAt(guard, fs, at, entries[0])) + NotedHere(guard, fs, at, entries[1..])
  }

  lemma {:induction false} NotedOnSplits(guard: Guard, fs: Fs, a: seq<Level>, b: seq<Level>)
    ensures NotedOn(guard, fs, a + b) == NotedOn(guard, fs, a) + NotedOn(guard, fs, b)
    decreases b
  {
    if b == [] {
      assert a + b == a;
    } else {
      assert (a + b)[..|a + b| - 1] == a + b[..|b| - 1];
      NotedOnSplits(guard, fs, a, b[..|b| - 1]);
    }
  }

  lemma DescendedNotes(guard: Guard, fs: Fs, at: Path, entry: Entry)
    ensures NotedOn(guard, fs, Descended(at, entry)) ==
            if entry.typed then NotedBelow(guard, fs, at.Child(entry.name), entry.node) else {}
  {
    if Descended(at, entry) != [] {
      assert Descended(at, entry)[..0] == [];
      assert NotedOn(guard, fs, []) == {};
    }
  }

  lemma UnionsRegroup(here: set<Record>, below: set<Record>, later: set<Record>, deeper: set<Record>)
    ensures here + below + (later + deeper) == (here + later) + (below + deeper)
  {
  }

  lemma {:induction false} LinksLevelByLevel(guard: Guard, fs: Fs, at: Path, entries: seq<Entry>)
    ensures NotedIn(guard, fs, at, entries) == NotedHere(guard, fs, at, entries) + NotedOn(guard, fs, Subdirs(at, entries))
  {
    if entries != [] {
      var first, later := entries[0], entries[1..];
      LinksLevelByLevel(guard, fs, at, later);
      SubdirsFromTheFront(at, entries);
      NotedOnSplits(guard, fs, Descended(at, first), Subdirs(at, later));
      DescendedNotes(guard, fs, at, first);
      UnionsRegroup(AsSet(NotedAt(guard, fs, at, first)), NotedOn(guard, fs, Descended(at, first)),
                    NotedHere(guard, fs, at, later), NotedOn(guard, fs, Subdirs(at, later)));
    }
  }

  lemma {:induction false} LevelNotesItsLinks(guard: Guard, fs: Fs, at: Path, entries: seq<Entry>, room: nat)
    ensures AsSet(NotesOf(guard, fs, at, entries, room)) <= NotedHere(guard, fs, at, entries)
    ensures |Files(guard, fs, at, entries)| <= room ==>
              AsSet(NotesOf(guard, fs, at, entries, room)) == NotedHere(guard, fs, at, entries)
  {
    if entries != [] {
      FilesFromTheFront(guard, fs, at, entries);
      var files := |Collected(guard, fs, at, entries[0])|;
      if files <= room {
        LevelNotesItsLinks(guard, fs, at, entries[1..], room - files);
        SetsJoin(NotedAt(guard, fs, at, entries[0]), NotesOf(guard, fs, at, entries[1..], room - files));
      }
    }
  }

  lemma SetsJoin(a: seq<Record>, b: seq<Record>)
    ensures AsSet(a + b) == AsSet(a) + AsSet(b)
  {
  }

  /** Records of nothing but `links`, and of each of them if there was `room` for every file. */
  ghost predicate Tells(records: seq<Record>, links: set<Record>, room: bool) {
    AsSet(records) <= links && (room ==> AsSet(records) == links)
  }

  /** A walk records only links the granted set refuses, and all of them unless the cap stopped it. */
  lemma {:induction false} WalkNotesTheRefusedLinks(guard: Guard, fs: Fs, stack: seq<Level>, room: nat)
    ensures Tells(Notes(guard, fs, stack, room), NotedOn(guard, fs, stack), |Visit(guard, fs, stack)| <= room)
    decreases StackSize(stack)
  {
    if stack != [] {
      ListingShrinks(stack);
      var rest, level := stack[..|stack| - 1], stack[|stack| - 1];
      assert stack == rest + [level];
      if Lists(level.1) {
        var files := |Files(guard, fs, level.0, level.1.entries)|;
        if files <= room { WalkNotesTheRefusedLinks(guard, fs, rest + Subdirs(level.0, level.1.entries), room - files); }
        LevelOnTop(guard, fs, rest, level, room);
      } else {
        WalkNotesTheRefusedLinks(guard, fs, rest, room);
      }
    }
  }

  lemma LevelOnTop(guard: Guard, fs: Fs, rest: seq<Level>, level: Level, room: nat)
    requires Lists(level.1)
    requires var below, files := rest + Subdirs(level.0, level.1.entries), |Files(guard, fs, level.0, level.1.entries)|;
             files <= room ==>
               Tells(Notes(guard, fs, below, room - files), NotedOn(guard, fs, below), |Visit(guard, fs, below)| <= room - files)
    ensures Tells(Notes(guard, fs, rest + [level], room), NotedOn(guard, fs, rest + [level]),
                  |Visit(guard, fs, rest + [level])| <= room)
  {
    var below, files := rest + Subdirs(level.0, level.1.entries), |Files(guard, fs, level.0, level.1.entries)|;
    var later := if files > room then [] else Notes(guard, fs, below, room - files);
    var fits := |Visit(guard, fs, rest + [level])| <= room;
    FitsOnTop(guard, fs, rest, level, room);
    BelowTells(later, NotedOn(guard, fs, below), files <= room, fits, |Visit(guard, fs, below)| <= room - files);
    LevelTells(guard, fs, rest, level, room, later, fits);
    NotesOfLevel(guard, fs, rest, level, room);
  }

  lemma FitsOnTop(guard: Guard, fs: Fs, rest: seq<Level>, level: Level, room: nat)
    requires Lists(level.1)
    ensures var below, files := rest + Subdirs(level.0, level.1.entries), |Files(guard, fs, level.0, level.1.entries)|;
            |Visit(guard, fs, rest + [level])| <= room <==> files <= room && |Visit(guard, fs, below)| <= room - files
  {
    VisitOnTop(guard, fs, rest, level);
  }

  lemma BelowTells(later: seq<Record>, links: set<Record>, some: bool, fits: bool, fitsBelow: bool)
    requires if some then Tells(later, links, fitsBelow) else later == []
    requires fits ==> some && fitsBelow
    ensures Tells(later, links, fits)
  {
  }

  lemma LevelTells(guard: Guard, fs: Fs, rest: seq<Level>, level: Level, room: nat, later: seq<Record>, fits: bool)
    requires Lists(level.1) && (fits ==> |Files(guard, fs, level.0, level.1.entries)| <= room)
    requires Tells(later, NotedOn(guard, fs, rest + Subdirs(level.0, level.1.entries)), fits)
    ensures Tells(NotesOf(guard, fs, level.0, level.1.entries, room) + later, NotedOn(guard, fs, rest + [level]), fits)
  {
    var here := NotesOf(guard, fs, level.0, level.1.entries, room);
    LevelNotesItsLinks(guard, fs, level.0, level.1.entries, room);
    TellsBoth(here, later, NotedHere(guard, fs, level.0, level.1.entries),
              NotedOn(guard, fs, rest + Subdirs(level.0, level.1.entries)), fits);
    NotedOnTop(guard, fs, rest, level);
  }

  lemma TellsBoth(here: seq<Record>, later: seq<Record>, links: set<Record>, below: set<Record>, room: bool)
    requires Tells(here, links, room) && Tells(later, below, room)
    ensures Tells(here + later, links + below, room)
  {
    SetsJoin(here, later);
  }

  lemma NotedOnTop(guard: Guard, fs: Fs, rest: seq<Level>, level: Level)
    requires Lists(level.1)
    ensures NotedOn(guard, fs, rest + [level]) ==
            NotedHere(guard, fs, level.0, level.1.entries) + NotedOn(guard, fs, rest + Subdirs(level.0, level.1.entries))
  {
    assert (rest + [level])[..|rest|] == rest;
    LinksLevelByLevel(guard, fs, level.0, level.1.entries);
    NotedOnSplits(guard, fs, rest, Subdirs(level.0, level.1.entries));
  }

  lemma VisitOnTop(guard: Guard, fs: Fs, rest: seq<Level>, level: Level)
    requires Lists(level.1)
    ensures Visit(guard, fs, rest + [level]) ==
            Files(guard, fs, level.0, level.1.entries) + Visit(guard, fs, rest + Subdirs(level.0, level.1.entries))
  {
    assert (rest + [level])[..|rest|] == rest;
  }

  // ----- The tree and the filesystem as one -----

  /** Resolving is final: what a path resolves to is canonical, and resolves to itself. */
  ghost predicate Canonical(fs: Fs) {
    forall path: Path | fs.resolve(path).Resolved? :: IsReal(fs, fs.resolve(path).path)
  }

  predicate IsReal(fs: Fs, path: Path) {
    path.absolute && path.DotFree() && fs.resolve(path) == Resolved(path)
  }

  /** The tree listed at `at` is what the filesystem says is there. */
  ghost predicate Pictures(fs: Fs, at: Path, node: Node)
    decreases node, 1
  {
    match node
    case Dir(_, entries) => IsReal(fs, at) && !fs.isFile(at) && PicturesAll(fs, at, entries)
    case File => IsReal(fs, at) && fs.isFile(at) && !fs.isLink(at)
    case Link => fs.isLink(at)
    case Special => !fs.isFile(at)
  }

  ghost predicate PicturesAll(fs: Fs, at: Path, entries: seq<Entry>)
    decreases entries, 0
  {
    entries != [] ==> Pictures(fs, at.Child(entries[0].name), entries[0].node) && PicturesAll(fs, at, entries[1..])
  }

  lemma {:induction false} EveryFileIsReal(guard: Guard, fs: Fs, at: Path, node: Node)
    requires Canonical(fs) && Pictures(fs, at, node)
    ensures forall file | file in Every(guard, fs, at, node) :: IsReal(fs, file) && fs.isFile(file)
    decreases node, 1
  {
    if Lists(node) { EveryFileInIsReal(guard, fs, at, node.entries); }
  }

  lemma {:induction false} EveryFileInIsReal(guard: Guard, fs: Fs, at: Path, entries: seq<Entry>)
    requires Canonical(fs) && PicturesAll(fs, at, entries)
    ensures forall file | file in EveryIn(guard, fs, at, entries) :: IsReal(fs, file) && fs.isFile(file)
    decreases entries, 0
  {
    if entries != [] {
      EveryFileIsReal(guard, fs, at.Child(entries[0].name), entries[0].node);
      EveryFileInIsReal(guard, fs, at, entries[1..]);
    }
  }

  /** A canonical path under a confirmed root passes the read check as itself. */
  lemma CoveredIsReadable(guard: Guard, fs: Fs, path: Path)
    requires IsReal(fs, path) && Covered(fs, path, guard.readable)
    requires fs.cwd.Some? ==> fs.cwd.value.absolute
    ensures CheckRead(guard, fs, path).result.Ok? && CheckRead(guard, fs, path).result.value.resolved == path
  {
    CollapsedIsCanonical(fs.cwd, path);
  }

  /** Where tree and filesystem are one state, what a walk names are that filesystem's own regular
      files, by their canonical names, and every one of them the read check lets through. */
  lemma WalkNamesReadableFiles(guard: Guard, fs: Fs, requested: Path, tree: Node, maxFiles: nat)
    requires Canonical(fs) && (fs.cwd.Some? ==> fs.cwd.value.absolute)
    requires CheckRead(guard, fs, requested).result.Ok?
    requires Pictures(fs, CheckRead(guard, fs, requested).result.value.resolved, tree)
    ensures var at := CheckRead(guard, fs, requested).result.value.resolved;
            forall file | file in Walked(Visit(guard, fs, [(at, tree)]), maxFiles).files ::
              && fs.isFile(file) && IsReal(fs, file)
              && CheckRead(guard, fs, file).result.Ok? && CheckRead(guard, fs, file).result.value.resolved == file
  {
    var at := CheckRead(guard, fs, requested).result.value.resolved;
    var files := Walked(Visit(guard, fs, [(at, tree)]), maxFiles).files;
    WalkStaysWithinTheGrants(guard, fs, requested, tree, maxFiles);
    WalkReturnsTheTree(guard, fs, at, tree, maxFiles);
    EveryFileIsReal(guard, fs, at, tree);
    forall file | file in files
      ensures fs.isFile(file) && IsReal(fs, file)
      ensures CheckRead(guard, fs, file).result.Ok? && CheckRead(guard, fs, file).result.value.resolved == file
    {
      assert file in multiset(files);
      assert file in Every(guard, fs, at, tree);
      CoveredIsReadable(guard, fs, file);
    }
  }
}
