/** What the filesystem gate and the walk answer, said of paths and of the tree themselves rather than
    of the functions that search them. */
module FsLaws {
  import opened Wrappers
  import opened Paths
  import opened Policy
  import opened FsGuard
  import opened FsWalk

  // ----- The nearest ancestor is the nearest -----

  function Prefix(path: Path, n: nat): Path
    requires n <= |path.parts|
  {
    Path(path.absolute, path.parts[..n])
  }

  /** Of the proper prefixes of a request the one found resolves, and every longer one fails; where
      none is found, all of them fail. */
  lemma {:induction false} NearestAncestorIsDeepest(fs: Fs, requested: Path)
    ensures var area := NearestAncestor(fs, requested);
            && (area.None? ==> forall n | 0 <= n < |requested.parts| :: fs.resolve(Prefix(requested, n)).Failed?)
            && (area.Some? ==>
                  var (ancestor, existing) := area.value;
                  && |ancestor.parts| < |requested.parts| && ancestor == Prefix(requested, |ancestor.parts|)
                  && fs.resolve(ancestor) == Resolved(existing)
                  && forall n | |ancestor.parts| < n < |requested.parts| :: fs.resolve(Prefix(requested, n)).Failed?)
    decreases |requested.parts|
  {
    if requested.parts != [] {
      var parent := requested.Parent().value;
      assert parent == Prefix(requested, |requested.parts| - 1);
      if fs.resolve(parent).Failed? {
        NearestAncestorIsDeepest(fs, parent);
        forall n | 0 <= n < |parent.parts| ensures Prefix(parent, n) == Prefix(requested, n) {
          assert parent.parts[..n] == requested.parts[..n];
        }
      }
    }
  }

  /** Reaching plainly is: no `..` in the request, and no link from the request itself up to the
      ancestor, the ancestor excepted. */
  lemma {:induction false} PlainMeansNoLink(fs: Fs, path: Path, ancestor: nat)
    requires ancestor <= |path.parts|
    ensures NoLinkBelow(fs, path, Prefix(path, ancestor)) <==>
            forall n | ancestor < n <= |path.parts| :: !fs.isLink(Prefix(path, n))
    decreases |path.parts|
  {
    assert path == Prefix(path, |path.parts|);
    if ancestor < |path.parts| {
      var parent := path.Parent().value;
      PlainMeansNoLink(fs, parent, ancestor);
      assert forall n | 0 <= n <= |parent.parts| :: parent.parts[..n] == path.parts[..n];
      assert Prefix(parent, ancestor) == Prefix(path, ancestor);
      assert forall n | ancestor < n <= |parent.parts| :: Prefix(parent, n) == Prefix(path, n);
    }
  }

  /** A name that is not there, in a directory that is, within a granted root: the answer is that it is
      not there. */
  lemma AMissingFileIsNotFound(guard: Guard, fs: Fs, requested: Path, errno: Errno, dir: Path)
    requires fs.resolve(requested) == Failed(errno) && requested.parts != []
    requires fs.resolve(requested.Parent().value) == Resolved(dir) && Covered(fs, dir, guard.readable)
    requires ParentDir !in requested.parts && !fs.isLink(requested)
    requires !NamesAMovedRoot(fs, requested, guard.readable)
    ensures CheckRead(guard, fs, requested) ==
            if errno in {ENOENT, ENOTDIR, ENAMETOOLONG}
            then Checked(Err(NotFound(requested, errno)), [AbsentRecord(Reading, requested)])
            else Checked(Err(Unresolvable(requested, errno)), [DeniedRecord(Reading, requested, DoesNotResolve)])
  {
    MovedRootIsNamed(fs, requested, guard.readable);
    var parent := requested.Parent().value;
    assert NearestAncestor(fs, requested) == Some((parent, dir));
    assert NoLinkBelow(fs, requested, parent);
  }

  /** Where a write's directory is missing too, it is the directory that is said to be missing, as long
      as the one above it is within a granted root. */
  lemma AMissingDirectoryIsNotFound(guard: Guard, fs: Fs, requested: Path, name: string, errno: Errno, above: Path)
    requires fs.resolve(requested).Failed? && requested.FileName() == Some(name) && |requested.parts| >= 2
    requires fs.resolve(requested.Parent().value) == Failed(errno)
    requires fs.resolve(requested.Parent().value.Parent().value) == Resolved(above) && Covered(fs, above, guard.writable)
    requires ParentDir !in requested.parts && !fs.isLink(requested) && !fs.isLink(requested.Parent().value)
    requires !NamesAMovedRoot(fs, requested, guard.writable)
    ensures CheckWrite(guard, fs, requested) ==
            if errno in {ENOENT, ENOTDIR, ENAMETOOLONG}
            then Checked(Err(NotFound(requested.Parent().value, errno)), [AbsentRecord(Writing, requested)])
            else Checked(Err(Unresolvable(requested.Parent().value, errno)), [DeniedRecord(Writing, requested, DoesNotResolve)])
  {
    MovedRootIsNamed(fs, requested, guard.writable);
    var parent := requested.Parent().value;
    assert NearestAncestor(fs, requested) == Some((parent.Parent().value, above));
    assert NoLinkBelow(fs, requested, parent.Parent().value);
  }

  /** A new file may be written where its directory resolves into a granted root: under that
      directory's own name, and the name it was asked for by. */
  lemma ANewFileMayBeWritten(guard: Guard, fs: Fs, requested: Path, name: string, dir: Path)
    requires fs.resolve(requested).Failed? && !fs.isLink(requested) && requested.FileName() == Some(name)
    requires fs.resolve(requested.Parent().value) == Resolved(dir)
    requires !NamesAMovedRoot(fs, requested, guard.writable)
    ensures CheckWrite(guard, fs, requested).result.Ok? <==> Covered(fs, dir.Child(name), guard.writable)
    ensures CheckWrite(guard, fs, requested).result.Ok? ==>
              CheckWrite(guard, fs, requested).result.value.resolved == Path(dir.absolute, dir.parts + [Normal(name)])
  {
    MovedRootIsNamed(fs, requested, guard.writable);
  }

  /** What exists may be read or written exactly where it resolves into a root granted for that, unless
      its spelling names a replaced one. */
  lemma WhatExistsIsPermittedWhereItIs(guard: Guard, fs: Fs, requested: Path, access: Access, resolved: Path)
    requires fs.resolve(requested) == Resolved(resolved)
    ensures var checked := Check(guard, fs, requested, access);
            && (checked.result.Ok? <==>
                  Covered(fs, resolved, Roots(guard, access)) && !NamesAMovedRoot(fs, requested, Roots(guard, access)))
            && (checked.result.Ok? ==> checked.result.value.resolved == resolved)
  {
    MovedRootIsNamed(fs, requested, Roots(guard, access));
  }

  /** A replaced root that is reported is a granted one, with the object it was vetted on and the one
      it was found to hold, and a spelling of the request lies beneath it. */
  lemma TheReplacedRootIsReported(guard: Guard, fs: Fs, requested: Path, access: Access)
    ensures var checked := Check(guard, fs, requested, access);
            var collapsed := Collapsed(fs.cwd, requested);
            checked.result.Err? && checked.result.error.RootReplaced? ==>
              var error := checked.result.error;
              exists root | root in Roots(guard, access) ::
                && root.path == error.granted && root.objectId == error.vetted
                && fs.measure(root) == Replaced(error.found)
                && (requested.StartsWith(root.path) || (collapsed.Some? && collapsed.value.StartsWith(root.path)))
  {
    var roots := Roots(guard, access);
    var moved := MovedRoot(fs, requested, roots);
    if moved.Some? {
      AMovedSpellingIsCovered(fs, requested, roots);
      var collapsed := Collapsed(fs.cwd, requested);
      if collapsed.Some? { AMovedSpellingIsCovered(fs, collapsed.value, roots); }
    }
  }

  lemma AMovedSpellingIsCovered(fs: Fs, form: Path, roots: seq<Root>)
    ensures var moved := SpellingMoved(fs, form, roots);
            moved.Some? ==>
              exists root | root in roots ::
                && root.path == moved.value.granted && root.objectId == moved.value.vetted
                && fs.measure(root) == Replaced(moved.value.found) && form.StartsWith(root.path)
  {
  }

  /** Collapsing, part by part from the front: a name goes one down, `..` one up and never above the
      top, `.` nowhere; a relative request starts from the working directory. */
  lemma {:induction false} CollapsingGoesPartByPart(parts: seq<Part>, last: Part, form: seq<Part>)
    requires forall part | part in form :: part.Normal?
    ensures var sofar := CollapsedParts(parts, form);
            CollapsedParts(parts + [last], form) ==
            if last.Normal? then sofar + [last]
            else if last.CurDir? || sofar == [] then sofar
            else sofar[..|sofar| - 1]
    decreases |parts|
  {
    if parts == [] {
      assert [last][1..] == [] && parts + [last] == [last];
    } else {
      assert (parts + [last])[1..] == parts[1..] + [last];
      CollapsingGoesPartByPart(parts[1..], last,
                               match parts[0]
                               case ParentDir => Popped(form)
                               case CurDir => form
                               case Normal(_) => form + [parts[0]]);
    }
  }

  lemma ARelativeRequestStartsInTheDirectory(cwd: Path, parts: seq<Part>)
    requires cwd.absolute
    ensures Collapsed(Some(cwd), Path(false, parts)) == Some(Path(true, CollapsedParts(cwd.parts + parts, [])))
    ensures Collapsed(None, Path(false, parts)) == None
  {
    if parts != [] && parts[0].CurDir? { LeadingDotIsNothing(cwd.parts, parts); }
  }

  lemma {:induction false} LeadingDotIsNothing(before: seq<Part>, parts: seq<Part>)
    requires parts != [] && parts[0].CurDir?
    ensures CollapsedParts(before + parts, []) == CollapsedParts(before + parts[1..], [])
  {
    DotIsNothing(before, parts[1..], []);
    assert before + parts == before + [CurDir] + parts[1..];
  }

  lemma {:induction false} DotIsNothing(before: seq<Part>, after: seq<Part>, form: seq<Part>)
    requires forall part | part in form :: part.Normal?
    ensures CollapsedParts(before + [CurDir] + after, form) == CollapsedParts(before + after, form)
    decreases |before|
  {
    if before == [] {
      assert before + [CurDir] + after == [CurDir] + after && ([CurDir] + after)[1..] == after && before + after == after;
    } else {
      assert (before + [CurDir] + after)[1..] == before[1..] + [CurDir] + after && (before + after)[1..] == before[1..] + after;
      DotIsNothing(before[1..], after,
                   match before[0]
                   case ParentDir => Popped(form)
                   case CurDir => form
                   case Normal(_) => form + [before[0]]);
    }
  }

  // ----- What a walk names -----

  /** Where names lead, through entries that are typed directories and can be listed. */
  function Reached(node: Node, names: seq<string>): (entry: Option<Entry>)
    decreases |names|
  {
    if names == [] || !node.Dir? || !node.readable then None
    else
      var entry := Find(node.entries, names[0]);
      if entry.None? || |names| == 1 then entry
      else if entry.value.typed then Reached(entry.value.node, names[1..])
      else None
  }

  function Below(at: Path, names: seq<string>): Path
    decreases |names|
  {
    if names == [] then at else Below(at.Child(names[0]), names[1..])
  }

  /** A typed regular file, by its own path; or a typed link that resolves, under a spelling that names
      no replaced root, to a regular file beneath a confirmed one, by that file's. */
  ghost predicate Names(guard: Guard, fs: Fs, entry: Entry, own: Path, file: Path) {
    && entry.typed
    && (|| (entry.node.File? && file == own)
        || (&& entry.node.Link? && fs.resolve(own) == Resolved(file) && Covered(fs, file, guard.readable)
            && fs.isFile(file) && !NamesAMovedRoot(fs, own, guard.readable)))
  }

  lemma AnEntryNamesWhatItShould(guard: Guard, fs: Fs, at: Path, entry: Entry, file: Path)
    ensures file in Collected(guard, fs, at, entry) <==> Names(guard, fs, entry, at.Child(entry.name), file)
  {
    if entry.node.Link? { MovedRootIsNamed(fs, at.Child(entry.name), guard.readable); }
  }

  lemma {:induction false} AChainNamesItsEntry(guard: Guard, fs: Fs, at: Path, node: Node, names: seq<string>, file: Path)
    ensures file in Yields(guard, fs, at, node, names) <==>
            Reached(node, names).Some? && Names(guard, fs, Reached(node, names).value, Below(at, names), file)
    decreases |names|
  {
    if names != [] && Lists(node) {
      var entry := Find(node.entries, names[0]);
      if entry.Some? {
        if |names| == 1 {
          AnEntryNamesWhatItShould(guard, fs, at, entry.value, file);
          assert names[1..] == [] && Below(at.Child(names[0]), []) == at.Child(names[0]);
        } else if entry.value.typed {
          AChainNamesItsEntry(guard, fs, at.Child(names[0]), entry.value.node, names[1..], file);
        }
      }
    }
  }

  /** Some chain of names leads to an entry that names the file. */
  ghost predicate Named(guard: Guard, fs: Fs, at: Path, tree: Node, file: Path) {
    exists names :: IsNamedBy(guard, fs, at, tree, names, file)
  }

  ghost predicate IsNamedBy(guard: Guard, fs: Fs, at: Path, tree: Node, names: seq<string>, file: Path) {
    Reached(tree, names).Some? && Names(guard, fs, Reached(tree, names).value, Below(at, names), file)
  }

  lemma EveryFileIsNamed(guard: Guard, fs: Fs, at: Path, tree: Node, file: Path)
    requires WellFormed(tree)
    ensures file in Every(guard, fs, at, tree) <==> Named(guard, fs, at, tree, file)
  {
    EveryIsWhatChainsYield(guard, fs, at, tree, file);
    forall names ensures file in Yields(guard, fs, at, tree, names) <==> IsNamedBy(guard, fs, at, tree, names, file) {
      AChainNamesItsEntry(guard, fs, at, tree, names, file);
    }
  }

  /** A walk names only files the tree and the grants name, and when it was not cut short every one of
      them. */
  lemma AWalkNamesTheFiles(guard: Guard, fs: Fs, at: Path, tree: Node, maxFiles: nat, file: Path)
    requires WellFormed(tree)
    ensures var walk := Walked(Visit(guard, fs, [(at, tree)]), maxFiles);
            && (file in walk.files ==> Named(guard, fs, at, tree, file))
            && (!walk.truncated ==> (file in walk.files <==> Named(guard, fs, at, tree, file)))
  {
    WalkReturnsTheTree(guard, fs, at, tree, maxFiles);
    EveryFileIsNamed(guard, fs, at, tree, file);
    var walk, every := Walked(Visit(guard, fs, [(at, tree)]), maxFiles), Every(guard, fs, at, tree);
    assert file in walk.files <==> file in multiset(walk.files);
    assert file in every <==> file in multiset(every);
    if !walk.truncated { assert multiset(walk.files) == multiset(every); }
  }

  /** So with the files of the public walk, whose root is what the read check resolved. */
  lemma APermittedWalkNamesTheFiles(guard: Guard, fs: Fs, requested: Path, tree: Node, maxFiles: nat)
    requires WellFormed(tree) && CheckRead(guard, fs, requested).result.Ok?
    ensures var at := CheckRead(guard, fs, requested).result.value.resolved;
            var walk := Walked(Visit(guard, fs, [(at, tree)]), maxFiles);
            && (forall file | file in walk.files :: Named(guard, fs, at, tree, file))
            && (!walk.truncated ==> forall file | Named(guard, fs, at, tree, file) :: file in walk.files)
  {
    var at := CheckRead(guard, fs, requested).result.value.resolved;
    var walk := Walked(Visit(guard, fs, [(at, tree)]), maxFiles);
    forall file
      ensures file in walk.files ==> Named(guard, fs, at, tree, file)
      ensures !walk.truncated && Named(guard, fs, at, tree, file) ==> file in walk.files
    {
      AWalkNamesTheFiles(guard, fs, at, tree, maxFiles, file);
    }
  }

  // ----- What a walk records -----

  /** The record of one refused link: one that resolves, and is spelled through a replaced root or
      resolves beneath none that holds. */
  ghost predicate Refuses(guard: Guard, fs: Fs, entry: Entry, own: Path, record: Record) {
    && entry.typed && entry.node.Link? && fs.resolve(own).Resolved?
    && var resolved := fs.resolve(own).path;
       var replaced := exists root | root in guard.readable :: resolved.StartsWith(root.path) && fs.measure(root).Replaced?;
       && (NamesAMovedRoot(fs, own, guard.readable) || !Covered(fs, resolved, guard.readable))
       && record == DeniedRecord(Reading, own, if NamesAMovedRoot(fs, own, guard.readable) || replaced
                                               then RootWasReplaced else OutsideTheRoots)
  }

  lemma AnEntryRecordsItsRefusal(guard: Guard, fs: Fs, at: Path, entry: Entry, record: Record)
    ensures record in NotedAt(guard, fs, at, entry) <==> Refuses(guard, fs, entry, at.Child(entry.name), record)
  {
    if entry.node.Link? { MovedRootIsNamed(fs, at.Child(entry.name), guard.readable); }
  }

  /** Only links below, through directories that list, are recorded, each as it was refused; and every
      refused one is. */
  lemma {:induction false} TheRecordsAreOfRefusedLinks(guard: Guard, fs: Fs, at: Path, tree: Node, record: Record)
    requires WellFormed(tree)
    ensures record in NotedBelow(guard, fs, at, tree) <==>
            exists names :: IsRefusedAt(guard, fs, at, tree, names, record)
    decreases tree, 1
  {
    if Lists(tree) {
      EntriesRecordTheirLinks(guard, fs, at, tree, 0, record);
      assert tree.entries[0..] == tree.entries;
      forall names | IsRefusedAt(guard, fs, at, tree, names, record) ensures Heads(names, tree.entries, 0) {
        assert Find(tree.entries, names[0]).value in tree.entries;
      }
    }
  }

  ghost predicate IsRefusedAt(guard: Guard, fs: Fs, at: Path, tree: Node, names: seq<string>, record: Record) {
    Reached(tree, names).Some? && Refuses(guard, fs, Reached(tree, names).value, Below(at, names), record)
  }

  ghost predicate RefusedFrom(guard: Guard, fs: Fs, at: Path, tree: Node, from: nat, record: Record)
    requires tree.Dir?
  {
    exists names :: Heads(names, tree.entries, from) && IsRefusedAt(guard, fs, at, tree, names, record)
  }

  lemma {:induction false} EntriesRecordTheirLinks(guard: Guard, fs: Fs, at: Path, tree: Node, from: nat, record: Record)
    requires WellFormed(tree) && Lists(tree) && from <= |tree.entries|
    ensures record in NotedIn(guard, fs, at, tree.entries[from..]) <==> RefusedFrom(guard, fs, at, tree, from, record)
    decreases tree, 0, |tree.entries| - from
  {
    if from < |tree.entries| {
      var entry, rest := tree.entries[from], tree.entries[from..];
      assert rest[1..] == tree.entries[from + 1..] && rest[0] == entry;
      EntriesRecordTheirLinks(guard, fs, at, tree, from + 1, record);
      TheRecordsAreOfRefusedLinks(guard, fs, at.Child(entry.name), entry.node, record);
      OneEntryRecords(guard, fs, at, tree, from, record);
    }
  }

  lemma OneEntryRecords(guard: Guard, fs: Fs, at: Path, tree: Node, from: nat, record: Record)
    requires WellFormed(tree) && Lists(tree) && from < |tree.entries|
    ensures var entry := tree.entries[from];
            RefusedFrom(guard, fs, at, tree, from, record) <==>
              || record in NotedAt(guard, fs, at, entry)
              || (entry.typed && exists names :: IsRefusedAt(guard, fs, at.Child(entry.name), entry.node, names, record))
              || RefusedFrom(guard, fs, at, tree, from + 1, record)
  {
    var entry := tree.entries[from];
    AnEntryRecordsItsRefusal(guard, fs, at, entry, record);
    FindEntry(tree.entries, from);
    if record in NotedAt(guard, fs, at, entry) {
      var names := [entry.name];
      ThroughEntry(guard, fs, at, tree, from, names, record);
      assert Heads(names, tree.entries, from);
    }
    forall names | entry.typed && IsRefusedAt(guard, fs, at.Child(entry.name), entry.node, names, record)
      ensures RefusedFrom(guard, fs, at, tree, from, record)
    {
      var longer := [entry.name] + names;
      ThroughEntry(guard, fs, at, tree, from, longer, record);
      assert longer[1..] == names;
      assert Heads(longer, tree.entries, from);
    }
    forall names | Heads(names, tree.entries, from) && IsRefusedAt(guard, fs, at, tree, names, record)
      ensures || record in NotedAt(guard, fs, at, entry)
              || (entry.typed && exists more :: IsRefusedAt(guard, fs, at.Child(entry.name), entry.node, more, record))
              || RefusedFrom(guard, fs, at, tree, from + 1, record)
    {
      if names[0] == entry.name {
        ThroughEntry(guard, fs, at, tree, from, names, record);
      } else {
        assert Heads(names, tree.entries, from + 1);
      }
    }
    forall names | Heads(names, tree.entries, from + 1) ensures Heads(names, tree.entries, from) {
    }
  }

  lemma ThroughEntry(guard: Guard, fs: Fs, at: Path, tree: Node, from: nat, names: seq<string>, record: Record)
    requires WellFormed(tree) && Lists(tree) && from < |tree.entries| && names != [] && names[0] == tree.entries[from].name
    ensures var entry := tree.entries[from];
            IsRefusedAt(guard, fs, at, tree, names, record) <==>
              if |names| == 1 then record in NotedAt(guard, fs, at, entry)
              else entry.typed && IsRefusedAt(guard, fs, at.Child(entry.name), entry.node, names[1..], record)
  {
    FindEntry(tree.entries, from);
    AnEntryRecordsItsRefusal(guard, fs, at, tree.entries[from], record);
    if |names| == 1 { assert names[1..] == [] && Below(at.Child(names[0]), []) == at.Child(names[0]); }
  }
}
