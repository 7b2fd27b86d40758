/** The in-process filesystem gate (`fs_guard.rs`): whether a path may be read or written, and
    what a refusal is allowed to say. The filesystem is what it answers: how a path resolves,
    whether one is a symlink, and which object each granted root holds. */
module FsGuard {
  import opened Wrappers
  import opened Paths
  import opened Policy

  datatype Errno = ENOENT | ENOTDIR | ENAMETOOLONG | EACCES | ELOOP | OtherErrno

  datatype Resolution = Resolved(path: Path) | Failed(errno: Errno)

  datatype Confirmation = Vetted | Replaced(found: ObjectId) | Unmeasurable

  /** A granted root; `dir` is the descriptor held on it, if one is. */
  datatype Root = Root(path: Path, objectId: ObjectId, dir: Option<nat>)

  datatype Fs = Fs(
    resolve: Path -> Resolution,
    isLink: Path -> bool,
    isFile: Path -> bool,
    measure: Root -> Confirmation,
    cwd: Option<Path>)

  datatype Guard = Guard(readable: seq<Root>, writable: seq<Root>)

  datatype Access = Reading | Writing

  datatype SandboxError =
    | PathNotAllowed(requested: Path, access: Access)
    | RootReplaced(granted: Path, vetted: ObjectId, found: ObjectId)
    | NotFound(requested: Path, errno: Errno)
    | Unresolvable(requested: Path, errno: Errno)

  datatype Reason = OutsideTheRoots | RootWasReplaced | DoesNotResolve | LinkLeaf | NamesNoFile | EscapedTheRoot

  datatype Record =
    | DeniedRecord(access: Access, subject: Path, reason: Reason)
    | AbsentRecord(access: Access, subject: Path)
    | AllowedRecord(access: Access, subject: Path)

  datatype Rooted = Rooted(dir: nat, granted: Path)

  datatype Replacement = Replacement(granted: Path, vetted: ObjectId, found: ObjectId)

  datatype Containment = Inside(root: Option<Rooted>) | Outside(moved: Option<Replacement>)

  datatype Permitted = Permitted(resolved: Path, root: Option<Rooted>)

  /** A check's answer, and what it wrote to the audit trail. */
  datatype Checked = Checked(result: Result<Permitted, SandboxError>, trail: seq<Record>)

  // ----- Where a path sits among the roots -----

  function First(roots: seq<Root>, wanted: Root -> bool): (found: Option<Root>)
    ensures found.Some? ==> found.value in roots && wanted(found.value)
    ensures found.None? ==> forall root | root in roots :: !wanted(root)
  {
    if roots == [] then None
    else if wanted(roots[0]) then Some(roots[0])
    else First(roots[1..], wanted)
  }

  predicate Confirms(fs: Fs, root: Root, path: Path) {
    path.StartsWith(root.path) && fs.measure(root).Vetted?
  }

  /** Beneath a root that still holds the object it was vetted on. */
  predicate Covered(fs: Fs, path: Path, roots: seq<Root>) {
    exists root | root in roots :: Confirms(fs, root, path)
  }

  function RootedCover(fs: Fs, path: Path): Root -> bool {
    (root: Root) => Confirms(fs, root, path) && root.dir.Some?
  }

  function ReplacedCover(fs: Fs, path: Path): Root -> bool {
    (root: Root) => path.StartsWith(root.path) && fs.measure(root).Replaced?
  }

  function Containing(fs: Fs, path: Path, roots: seq<Root>): Containment {
    var rooted := First(roots, RootedCover(fs, path));
    if rooted.Some? then Inside(Some(Rooted(rooted.value.dir.value, rooted.value.path)))
    else if Covered(fs, path, roots) then Inside(None)
    else
      var moved := First(roots, ReplacedCover(fs, path));
      Outside(if moved.None? then None else
                Some(Replacement(moved.value.path, moved.value.objectId, fs.measure(moved.value).found)))
  }

  lemma {:induction false} FirstInPrefix(roots: seq<Root>, wanted: Root -> bool, i: nat)
    requires i < |roots|
    ensures First(roots[..i + 1], wanted)
         == if First(roots[..i], wanted).Some? then First(roots[..i], wanted)
            else if wanted(roots[i]) then Some(roots[i]) else None
    decreases i
  {
    if i > 0 {
      assert roots[..i + 1][1..] == roots[1..][..i] && roots[..i][1..] == roots[1..][..i - 1];
      FirstInPrefix(roots[1..], wanted, i - 1);
    }
  }

  lemma {:induction false} FirstSettles(roots: seq<Root>, wanted: Root -> bool, i: nat)
    requires i <= |roots| && First(roots[..i], wanted).Some?
    ensures First(roots, wanted) == First(roots[..i], wanted)
    decreases i
  {
    if i > 0 && !wanted(roots[0]) {
      assert roots[..i][1..] == roots[1..][..i - 1];
      FirstSettles(roots[1..], wanted, i - 1);
    }
  }

  /** The scan: the first confirmed root settles the verdict, but the scan goes on for one that
      also holds a descriptor. */
  method Contains(fs: Fs, path: Path, roots: seq<Root>) returns (placed: Containment)
    ensures placed == Containing(fs, path, roots)
  {
    var moved: Option<Replacement> := None;
    var confirmed := false;
    ghost var rooted := RootedCover(fs, path);
    ghost var replaced := ReplacedCover(fs, path);
    for i := 0 to |roots|
      invariant First(roots[..i], rooted).None?
      invariant confirmed <==> Covered(fs, path, roots[..i])
      invariant First(roots[..i], replaced).None? <==> moved.None?
      invariant moved.Some? ==>
        var root := First(roots[..i], replaced).value;
        moved.value == Replacement(root.path, root.objectId, fs.measure(root).found)
    {
      var root := roots[i];
      FirstInPrefix(roots, rooted, i);
      FirstInPrefix(roots, replaced, i);
      assert roots[..i + 1] == roots[..i] + [root];
      assert Covered(fs, path, roots[..i + 1]) <==> Covered(fs, path, roots[..i]) || Confirms(fs, root, path) by {
        assert root in roots[..i + 1];
      }
      if path.StartsWith(root.path) {
        match fs.measure(root)
        case Vetted =>
          if root.dir.Some? {
            FirstSettles(roots, rooted, i + 1);
            return Inside(Some(Rooted(root.dir.value, root.path)));
          }
          confirmed := true;
        case Replaced(found) =>
          if moved.None? { moved := Some(Replacement(root.path, root.objectId, found)); }
        case Unmeasurable =>
      }
    }
    assert roots[..|roots|] == roots;
    return if confirmed then Inside(None) else Outside(moved);
  }

  // ----- The two spellings of a request -----

  function Popped(form: seq<Part>): seq<Part> {
    if form == [] then [] else form[..|form| - 1]
  }

  function CollapsedParts(parts: seq<Part>, form: seq<Part>): (collapsed: seq<Part>)
    requires forall part | part in form :: part.Normal?
    ensures forall part | part in collapsed :: part.Normal?
    decreases |parts|
  {
    if parts == [] then form
    else
      match parts[0]
      case ParentDir => CollapsedParts(parts[1..], Popped(form))
      case CurDir => CollapsedParts(parts[1..], form)
      case Normal(_) => CollapsedParts(parts[1..], form + [parts[0]])
  }

  function AbsoluteForm(cwd: Option<Path>, requested: Path): Option<Path> {
    if requested.absolute then Some(requested)
    else if cwd.None? then None
    else Some(cwd.value.Join(requested))
  }

  function Collapsed(cwd: Option<Path>, requested: Path): Option<Path> {
    var absolute := AbsoluteForm(cwd, requested);
    if absolute.None? then None else Some(Path(absolute.value.absolute, CollapsedParts(absolute.value.parts, [])))
  }

  /** `requested` made absolute with `.` and `..` resolved away, touching no filesystem. */
  method Collapse(cwd: Option<Path>, requested: Path) returns (collapsed: Option<Path>)
    ensures collapsed == Collapsed(cwd, requested)
  {
    var absolute := AbsoluteForm(cwd, requested);
    if absolute.None? {
      return None;
    }
    var parts := absolute.value.parts;
    var form: seq<Part> := [];
    for i := 0 to |parts|
      invariant forall part | part in form :: part.Normal?
      invariant CollapsedParts(parts[i..], form) == CollapsedParts(parts, [])
    {
      assert parts[i..][1..] == parts[i + 1..];
      match parts[i] {
        case ParentDir => form := Popped(form);
        case CurDir =>
        case Normal(_) => form := form + [parts[i]];
      }
    }
    return Some(Path(absolute.value.absolute, form));
  }

  lemma {:induction false} NormalPartsStay(parts: seq<Part>, form: seq<Part>)
    requires forall part | part in parts :: part.Normal?
    requires forall part | part in form :: part.Normal?
    ensures CollapsedParts(parts, form) == form + parts
    ensures form == [] ==> CollapsedParts(parts, form) == parts
    decreases |parts|
  {
    if parts == [] {
      assert form + parts == form;
    } else {
      NormalPartsStay(parts[1..], form + [parts[0]]);
      assert parts[0].Normal? && form + [parts[0]] + parts[1..] == form + parts;
    }
  }

  /** The collapsed form is absolute and dot-free, collapsing it again changes nothing, and a
      request that was already so is left alone. */
  lemma CollapsedIsCanonical(cwd: Option<Path>, requested: Path)
    requires cwd.Some? ==> cwd.value.absolute
    ensures Collapsed(cwd, requested).None? <==> !requested.absolute && cwd.None?
    ensures Collapsed(cwd, requested).Some? ==>
              var form := Collapsed(cwd, requested).value;
              form.absolute && form.DotFree() && Collapsed(cwd, form) == Some(form)
    ensures requested.absolute && requested.DotFree() ==> Collapsed(cwd, requested) == Some(requested)
  {
    if Collapsed(cwd, requested).Some? {
      NormalPartsStay(Collapsed(cwd, requested).value.parts, []);
    }
    if requested.DotFree() {
      NormalPartsStay(requested.parts, []);
    }
  }

  function SpellingMoved(fs: Fs, form: Path, roots: seq<Root>): Option<Replacement> {
    match Containing(fs, form, roots)
    case Outside(moved) => moved
    case Inside(_) => None
  }

  /** The root the spelling names when it no longer holds its object: the request as it stands,
      then as it collapses. */
  function MovedRoot(fs: Fs, requested: Path, roots: seq<Root>): Option<Replacement> {
    var asWritten := SpellingMoved(fs, requested, roots);
    var collapsed := Collapsed(fs.cwd, requested);
    if asWritten.Some? then asWritten
    else if collapsed.Some? && collapsed.value != requested then SpellingMoved(fs, collapsed.value, roots)
    else None
  }

  // ----- The checks -----

  function Deny(moved: Option<Replacement>, requested: Path, access: Access): Checked {
    match moved
    case None => Checked(Err(PathNotAllowed(requested, access)), [DeniedRecord(access, requested, OutsideTheRoots)])
    case Some(Replacement(granted, vetted, found)) =>
      Checked(Err(RootReplaced(granted, vetted, found)), [DeniedRecord(access, requested, RootWasReplaced)])
  }

  function Permit(fs: Fs, resolved: Path, roots: seq<Root>, requested: Path, access: Access): Checked {
    var moved := MovedRoot(fs, requested, roots);
    if moved.Some? then Deny(moved, requested, access)
    else
      match Containing(fs, resolved, roots)
      case Inside(root) => Checked(Ok(Permitted(resolved, root)), [])
      case Outside(_) => Deny(None, requested, access)
  }

  predicate NamesNothing(errno: Errno) {
    errno in {ENOENT, ENOTDIR, ENAMETOOLONG}
  }

  /** The deepest proper ancestor that resolves, and where to. */
  function NearestAncestor(fs: Fs, requested: Path): (area: Option<(Path, Path)>)
    ensures area.Some? ==> fs.resolve(area.value.0) == Resolved(area.value.1) && requested.StartsWith(area.value.0)
    decreases |requested.parts|
  {
    var parent := requested.Parent();
    if parent.None? then None
    else
      match fs.resolve(parent.value)
      case Resolved(existing) => Some((parent.value, existing))
      case Failed(_) => NearestAncestor(fs, parent.value)
  }

  /** No step from `path` up to but not including `ancestor` is a symlink. */
  predicate NoLinkBelow(fs: Fs, path: Path, ancestor: Path)
    decreases |path.parts|
  {
    path == ancestor || (!fs.isLink(path) && (path.Parent().None? || NoLinkBelow(fs, path.Parent().value, ancestor)))
  }

  predicate ReachesPlainly(fs: Fs, requested: Path, ancestor: Path) {
    ParentDir !in requested.parts && NoLinkBelow(fs, requested, ancestor)
  }

  function ConcealUnlessGranted(fs: Fs, requested: Path, failed: Path, errno: Errno, roots: seq<Root>, access: Access): Checked {
    var moved := MovedRoot(fs, requested, roots);
    if moved.Some? then Deny(moved, requested, access)
    else
      var area := NearestAncestor(fs, requested);
      if area.None? || Containing(fs, area.value.1, roots).Outside? then Deny(None, requested, access)
      else if !ReachesPlainly(fs, requested, area.value.0) then Deny(None, requested, access)
      else if NamesNothing(errno) then Checked(Err(NotFound(failed, errno)), [AbsentRecord(access, requested)])
      else Checked(Err(Unresolvable(failed, errno)), [DeniedRecord(access, requested, DoesNotResolve)])
  }

  function CheckRead(guard: Guard, fs: Fs, requested: Path): Checked {
    match fs.resolve(requested)
    case Resolved(resolved) => Permit(fs, resolved, guard.readable, requested, Reading)
    case Failed(errno) => ConcealUnlessGranted(fs, requested, requested, errno, guard.readable, Reading)
  }

  function RefuseWrite(requested: Path, reason: Reason): Checked {
    Checked(Err(PathNotAllowed(requested, Writing)), [DeniedRecord(Writing, requested, reason)])
  }

  function CheckWrite(guard: Guard, fs: Fs, requested: Path): Checked {
    match fs.resolve(requested)
    case Resolved(existing) => Permit(fs, existing, guard.writable, requested, Writing)
    case Failed(_) =>
      var moved := MovedRoot(fs, requested, guard.writable);
      if moved.Some? then Deny(moved, requested, Writing)
      else if fs.isLink(requested) then RefuseWrite(requested, LinkLeaf)
      else if requested.Parent().None? || requested.FileName().None? then RefuseWrite(requested, NamesNoFile)
      else
        var parent := requested.Parent().value;
        match fs.resolve(parent)
        case Resolved(dir) => Permit(fs, dir.Child(requested.FileName().value), guard.writable, requested, Writing)
        case Failed(errno) => ConcealUnlessGranted(fs, requested, parent, errno, guard.writable, Writing)
  }

  // ----- What the verdict means -----

  function Roots(guard: Guard, access: Access): seq<Root> {
    if access.Reading? then guard.readable else guard.writable
  }

  function Check(guard: Guard, fs: Fs, requested: Path, access: Access): Checked {
    if access.Reading? then CheckRead(guard, fs, requested) else CheckWrite(guard, fs, requested)
  }

  /** Ok says: beneath a root that confirms, with a descriptor whenever any such root holds one,
      and then nothing of the path is lost below the root it is found beneath. A pass is not
      yet an access and records nothing; a refusal records exactly once. */
  lemma PermittedMeansConfirmed(guard: Guard, fs: Fs, requested: Path, access: Access)
    ensures var checked := Check(guard, fs, requested, access);
            var roots := Roots(guard, access);
            match checked.result
            case Err(_) => |checked.trail| == 1
            case Ok(permitted) =>
              && checked.trail == []
              && Covered(fs, permitted.resolved, roots)
              && (permitted.root.Some? <==>
                  exists root | root in roots :: Confirms(fs, root, permitted.resolved) && root.dir.Some?)
              && (permitted.root.Some? ==>
                    && permitted.resolved.StartsWith(permitted.root.value.granted)
                    && exists root | root in roots ::
                         && Confirms(fs, root, permitted.resolved)
                         && root.path == permitted.root.value.granted && root.dir == Some(permitted.root.value.dir))
  {
  }

  /** The record and the error cannot disagree about what was decided. */
  lemma TrailAgreesWithTheError(guard: Guard, fs: Fs, requested: Path, access: Access)
    ensures var checked := Check(guard, fs, requested, access);
            checked.result.Err? ==>
              match checked.result.error
              case RootReplaced(_, _, _) => checked.trail == [DeniedRecord(access, requested, RootWasReplaced)]
              case NotFound(_, _) => checked.trail == [AbsentRecord(access, requested)]
              case Unresolvable(_, _) => checked.trail == [DeniedRecord(access, requested, DoesNotResolve)]
              case PathNotAllowed(path, axis) =>
                && path == requested && axis == access
                && exists reason :: checked.trail == [DeniedRecord(access, requested, reason)]
                                 && reason in {OutsideTheRoots, LinkLeaf, NamesNoFile}
  {
  }

  /** Inside or outside alike, and alike as to a descriptor and a replaced root. */
  predicate SamePlace(a: Containment, b: Containment) {
    && (a.Inside? <==> b.Inside?)
    && (a.Inside? ==> (a.root.Some? <==> b.root.Some?))
    && (a.Outside? ==> (a.moved.Some? <==> b.moved.Some?))
  }

  lemma ContainingIgnoresOrder(fs: Fs, path: Path, roots: seq<Root>, shuffled: seq<Root>)
    requires forall root :: root in roots <==> root in shuffled
    ensures SamePlace(Containing(fs, path, roots), Containing(fs, path, shuffled))
  {
    assert Covered(fs, path, roots) <==> Covered(fs, path, shuffled);
  }

  lemma MovedIgnoresOrder(fs: Fs, requested: Path, roots: seq<Root>, shuffled: seq<Root>)
    requires forall root :: root in roots <==> root in shuffled
    ensures MovedRoot(fs, requested, roots).Some? <==> MovedRoot(fs, requested, shuffled).Some?
  {
    var collapsed := Collapsed(fs.cwd, requested);
    ContainingIgnoresOrder(fs, requested, roots, shuffled);
    if collapsed.Some? { ContainingIgnoresOrder(fs, collapsed.value, roots, shuffled); }
  }

  /** One verdict, one kind of refusal, and a descriptor in both or in neither; a refusal that names
      no replaced root is the same word for word. */
  predicate SameVerdict(a: Checked, b: Checked) {
    && (a.result.Ok? <==> b.result.Ok?)
    && (a.result.Ok? ==>
          && a.result.value.resolved == b.result.value.resolved
          && (a.result.value.root.Some? <==> b.result.value.root.Some?))
    && (a.result.Err? ==>
          (a.result.error.RootReplaced? <==> b.result.error.RootReplaced?)
          && (!a.result.error.RootReplaced? ==> a == b))
  }

  lemma PermitIgnoresOrder(fs: Fs, resolved: Path, roots: seq<Root>, shuffled: seq<Root>, requested: Path, access: Access)
    requires forall root :: root in roots <==> root in shuffled
    ensures SameVerdict(Permit(fs, resolved, roots, requested, access), Permit(fs, resolved, shuffled, requested, access))
  {
    MovedIgnoresOrder(fs, requested, roots, shuffled);
    ContainingIgnoresOrder(fs, resolved, roots, shuffled);
  }

  lemma ConcealingIgnoresOrder(fs: Fs, requested: Path, failed: Path, errno: Errno, roots: seq<Root>, shuffled: seq<Root>,
                               access: Access)
    requires forall root :: root in roots <==> root in shuffled
    ensures SameVerdict(ConcealUnlessGranted(fs, requested, failed, errno, roots, access),
                        ConcealUnlessGranted(fs, requested, failed, errno, shuffled, access))
  {
    MovedIgnoresOrder(fs, requested, roots, shuffled);
    var area := NearestAncestor(fs, requested);
    if area.Some? { ContainingIgnoresOrder(fs, area.value.1, roots, shuffled); }
  }

  function SameRoots(guard: Guard, access: Access, roots: seq<Root>): Guard {
    if access.Reading? then guard.(readable := roots) else guard.(writable := roots)
  }

  /** Neither the verdict, nor the kind of refusal, nor whether a descriptor is carried depends
      on the order the roots were granted in. */
  lemma VerdictIgnoresRootOrder(guard: Guard, fs: Fs, requested: Path, access: Access, shuffled: seq<Root>)
    requires forall root :: root in Roots(guard, access) <==> root in shuffled
    ensures SameVerdict(Check(guard, fs, requested, access), Check(SameRoots(guard, access, shuffled), fs, requested, access))
  {
    var roots := Roots(guard, access);
    match fs.resolve(requested)
    case Resolved(resolved) => PermitIgnoresOrder(fs, resolved, roots, shuffled, requested, access);
    case Failed(errno) =>
      if access.Reading? {
        ConcealingIgnoresOrder(fs, requested, requested, errno, roots, shuffled, access);
      } else {
        WriteIgnoresOrder(guard, fs, requested, shuffled);
      }
  }

  lemma WriteIgnoresOrder(guard: Guard, fs: Fs, requested: Path, shuffled: seq<Root>)
    requires forall root :: root in guard.writable <==> root in shuffled
    requires fs.resolve(requested).Failed?
    ensures SameVerdict(CheckWrite(guard, fs, requested), CheckWrite(guard.(writable := shuffled), fs, requested))
  {
    MovedIgnoresOrder(fs, requested, guard.writable, shuffled);
    var parent := requested.Parent();
    if parent.Some? && requested.FileName().Some? {
      match fs.resolve(parent.value)
      case Resolved(dir) =>
        PermitIgnoresOrder(fs, dir.Child(requested.FileName().value), guard.writable, shuffled, requested, Writing);
      case Failed(errno) =>
        ConcealingIgnoresOrder(fs, requested, parent.value, errno, guard.writable, shuffled, Writing);
    }
  }

  /** Some spelling of the request lies beneath a root that was replaced, and beneath none that
      confirms. */
  predicate NamesAMovedRoot(fs: Fs, requested: Path, roots: seq<Root>) {
    var collapsed := Collapsed(fs.cwd, requested);
    || SpelledMoved(fs, requested, roots)
    || (collapsed.Some? && SpelledMoved(fs, collapsed.value, roots))
  }

  predicate SpelledMoved(fs: Fs, form: Path, roots: seq<Root>) {
    !Covered(fs, form, roots) && exists root | root in roots :: form.StartsWith(root.path) && fs.measure(root).Replaced?
  }

  lemma MovedRootIsNamed(fs: Fs, requested: Path, roots: seq<Root>)
    ensures MovedRoot(fs, requested, roots).Some? <==> NamesAMovedRoot(fs, requested, roots)
  {
  }

  lemma {:induction false} FirstOfMore(roots: seq<Root>, extra: Root, wanted: Root -> bool)
    ensures First(roots + [extra], wanted) ==
            if First(roots, wanted).Some? then First(roots, wanted) else if wanted(extra) then Some(extra) else None
  {
    if roots == [] {
      assert roots + [extra] == [extra];
    } else {
      assert (roots + [extra])[1..] == roots[1..] + [extra];
      FirstOfMore(roots[1..], extra, wanted);
    }
  }

  /** What an extra root changes about where a path sits. */
  lemma ContainingOneMore(fs: Fs, path: Path, roots: seq<Root>, extra: Root)
    ensures var before, after := Containing(fs, path, roots), Containing(fs, path, roots + [extra]);
            && (after.Inside? <==> before.Inside? || Confirms(fs, extra, path))
            && (after.Outside? ==>
                  (after.moved.Some? <==> before.moved.Some? || (path.StartsWith(extra.path) && fs.measure(extra).Replaced?)))
  {
    FirstOfMore(roots, extra, RootedCover(fs, path));
    FirstOfMore(roots, extra, ReplacedCover(fs, path));
    CoveredOneMore(fs, path, roots, extra);
  }

  lemma CoveredOneMore(fs: Fs, path: Path, roots: seq<Root>, extra: Root)
    ensures Covered(fs, path, roots + [extra]) <==> Covered(fs, path, roots) || Confirms(fs, extra, path)
  {
    assert extra in roots + [extra];
    assert forall root :: root in roots + [extra] <==> root in roots || root == extra;
  }

  lemma SpellingOneMore(fs: Fs, form: Path, roots: seq<Root>, extra: Root)
    requires SpellingMoved(fs, form, roots).None?
    ensures SpellingMoved(fs, form, roots + [extra]).Some? <==>
            form.StartsWith(extra.path) && fs.measure(extra).Replaced? && !Covered(fs, form, roots)
  {
    ContainingOneMore(fs, form, roots, extra);
  }

  /** The path a passing request comes down to. */
  lemma PassesAtItsLanding(guard: Guard, fs: Fs, requested: Path, access: Access)
    ensures var roots, landing := Roots(guard, access), Landing(fs, requested, access);
            Check(guard, fs, requested, access).result.Ok? <==>
              && MovedRoot(fs, requested, roots).None?
              && landing.Some? && Containing(fs, landing.value, roots).Inside?
              && !(access.Writing? && fs.resolve(requested).Failed? && fs.isLink(requested))
  {
  }

  /** Some spelling of the request lies beneath `root`, and beneath no root that confirms. */
  predicate NamedOnlyThrough(fs: Fs, requested: Path, root: Root, roots: seq<Root>) {
    var collapsed := Collapsed(fs.cwd, requested);
    || (requested.StartsWith(root.path) && !Covered(fs, requested, roots))
    || (collapsed.Some? && collapsed.value.StartsWith(root.path) && !Covered(fs, collapsed.value, roots))
  }

  /** One more root that confirms never turns a pass into a refusal. One that was replaced does,
      and exactly when a spelling of the request lies beneath it and beneath no confirmed root. */
  lemma OneMoreRoot(guard: Guard, fs: Fs, requested: Path, access: Access, extra: Root)
    requires Check(guard, fs, requested, access).result.Ok?
    ensures var roots := Roots(guard, access);
            Check(SameRoots(guard, access, roots + [extra]), fs, requested, access).result.Err? <==>
              fs.measure(extra).Replaced? && NamedOnlyThrough(fs, requested, extra, roots)
  {
    var roots := Roots(guard, access);
    var collapsed := Collapsed(fs.cwd, requested);
    PassesAtItsLanding(guard, fs, requested, access);
    PassesAtItsLanding(SameRoots(guard, access, roots + [extra]), fs, requested, access);
    ContainingOneMore(fs, Landing(fs, requested, access).value, roots, extra);
    SpellingOneMore(fs, requested, roots, extra);
    if collapsed.Some? && collapsed.value != requested { SpellingOneMore(fs, collapsed.value, roots, extra); }
  }

  /** A read allowed through one root, refused once a replaced root is granted beside it: the
      spelling goes in by the replaced root and comes out, by a link, in the other. */
  lemma AReplacedRootCanRefuse() returns (guard: Guard, fs: Fs, requested: Path, extra: Root)
    ensures Check(guard, fs, requested, Reading).result.Ok?
    ensures fs.measure(extra).Replaced?
    ensures Check(SameRoots(guard, Reading, Roots(guard, Reading) + [extra]), fs, requested, Reading).result.Err?
  {
    var held := Root(Path(true, [Normal("held")]), ObjectId(1, 1), None);
    var target := Path(true, [Normal("held"), Normal("file")]);
    extra := Root(Path(true, [Normal("moved")]), ObjectId(1, 2), None);
    requested := Path(true, [Normal("moved"), Normal("link")]);
    guard := Guard([held], []);
    fs := Fs((path: Path) => Resolved(target), (path: Path) => false, (path: Path) => true,
             (root: Root) => if root == held then Vetted else Replaced(ObjectId(1, 3)), None);
    assert requested.parts[0] != held.path.parts[0] && target.parts[..1] == held.path.parts;
    assert requested.parts[..1] == extra.path.parts;
    assert !requested.StartsWith(held.path) && target.StartsWith(held.path) && requested.StartsWith(extra.path);
    NormalPartsStay(requested.parts, []);
    assert Collapsed(None, requested) == Some(requested);
    assert held in guard.readable && Confirms(fs, held, target);
    PassesAtItsLanding(guard, fs, requested, Reading);
    OneMoreRoot(guard, fs, requested, Reading, extra);
  }

  // ----- What a refusal gives away -----

  /** What the request comes down to, for the purposes of its access. */
  function Landing(fs: Fs, requested: Path, access: Access): Option<Path> {
    match fs.resolve(requested)
    case Resolved(path) => Some(path)
    case Failed(_) =>
      if access.Writing? && requested.Parent().Some? && requested.FileName().Some? && fs.resolve(requested.Parent().value).Resolved?
      then Some(fs.resolve(requested.Parent().value).path.Child(requested.FileName().value))
      else None
  }

  /** Neither the request nor its nearest resolving ancestor lands inside a confirmed root. */
  predicate Hidden(fs: Fs, requested: Path, roots: seq<Root>, access: Access) {
    var landing, area := Landing(fs, requested, access), NearestAncestor(fs, requested);
    && (landing.Some? ==> !Covered(fs, landing.value, roots))
    && (area.Some? ==> !Covered(fs, area.value.1, roots))
  }

  lemma MovedRootReadsOnlyMeasurements(one: Fs, other: Fs, requested: Path, roots: seq<Root>)
    requires one.cwd == other.cwd && forall root | root in roots :: one.measure(root) == other.measure(root)
    ensures MovedRoot(one, requested, roots) == MovedRoot(other, requested, roots)
  {
    forall form ensures Containing(one, form, roots) == Containing(other, form, roots) {
      ContainingReadsOnlyMeasurements(one, other, form, roots);
    }
  }

  lemma {:induction false} FirstAgrees(roots: seq<Root>, wanted: Root -> bool, same: Root -> bool)
    requires forall root | root in roots :: wanted(root) == same(root)
    ensures First(roots, wanted) == First(roots, same)
  {
    if roots != [] { FirstAgrees(roots[1..], wanted, same); }
  }

  lemma ContainingReadsOnlyMeasurements(one: Fs, other: Fs, form: Path, roots: seq<Root>)
    requires forall root | root in roots :: one.measure(root) == other.measure(root)
    ensures Containing(one, form, roots) == Containing(other, form, roots)
  {
    FirstAgrees(roots, RootedCover(one, form), RootedCover(other, form));
    FirstAgrees(roots, ReplacedCover(one, form), ReplacedCover(other, form));
    assert Covered(one, form, roots) <==> Covered(other, form, roots);
  }

  /** What the trail of a hidden request says. A write says more than its error: which of its own
      branches refused it. */
  function HiddenReason(fs: Fs, requested: Path, roots: seq<Root>, access: Access): Reason {
    if MovedRoot(fs, requested, roots).Some? then RootWasReplaced
    else if access.Reading? || fs.resolve(requested).Resolved? then OutsideTheRoots
    else if fs.isLink(requested) then LinkLeaf
    else if requested.Parent().None? || requested.FileName().None? then NamesNoFile
    else OutsideTheRoots
  }

  /** Two filesystems that agree on what the roots hold, and in which the request is hidden, get
      the very same refusal: whether anything is there, and why not, cannot be told from it. The
      trails, which the caller never sees, agree exactly when the same branch refused; a read has
      only the one. */
  lemma RefusalsGiveNothingAway(guard: Guard, one: Fs, other: Fs, requested: Path, access: Access)
    requires one.cwd == other.cwd
    requires forall root | root in Roots(guard, access) :: one.measure(root) == other.measure(root)
    requires Hidden(one, requested, Roots(guard, access), access)
    requires Hidden(other, requested, Roots(guard, access), access)
    ensures var a, b := Check(guard, one, requested, access), Check(guard, other, requested, access);
            var roots := Roots(guard, access);
            && a.result.Err? && a.result == b.result
            && (access.Reading? ==> a.trail == b.trail)
            && (a.trail == b.trail <==>
                  HiddenReason(one, requested, roots, access) == HiddenReason(other, requested, roots, access))
  {
    MovedRootReadsOnlyMeasurements(one, other, requested, Roots(guard, access));
    HiddenIsDenied(guard, one, requested, access);
    HiddenIsDenied(guard, other, requested, access);
  }

  /** A hidden request is refused by what its spelling names, and recorded once, by the branch
      that refused it. */
  lemma HiddenIsDenied(guard: Guard, fs: Fs, requested: Path, access: Access)
    requires Hidden(fs, requested, Roots(guard, access), access)
    ensures var roots := Roots(guard, access);
            Check(guard, fs, requested, access) ==
            Checked(Deny(MovedRoot(fs, requested, roots), requested, access).result,
                    [DeniedRecord(access, requested, HiddenReason(fs, requested, roots, access))])
  {
  }

  /** No root granted, and a name that is a dangling link in one filesystem and nothing at all in
      the other: one error, two trails. */
  lemma WriteTrailsCanDiffer() returns (guard: Guard, one: Fs, other: Fs, requested: Path)
    ensures one.cwd == other.cwd && Roots(guard, Writing) == []
    ensures Hidden(one, requested, [], Writing) && Hidden(other, requested, [], Writing)
    ensures Check(guard, one, requested, Writing).result == Check(guard, other, requested, Writing).result
    ensures Check(guard, one, requested, Writing).trail != Check(guard, other, requested, Writing).trail
  {
    guard, requested := Guard([], []), Path(true, [Normal("name")]);
    var nothing := (path: Path) => if path.parts == [] then Resolved(path) else Failed(ENOENT);
    one := Fs(nothing, (path: Path) => path == requested, (path: Path) => false, (root: Root) => Vetted, None);
    other := one.(isLink := (path: Path) => false);
    HiddenIsDenied(guard, one, requested, Writing);
    HiddenIsDenied(guard, other, requested, Writing);
    assert MovedRoot(one, requested, []).None? && MovedRoot(other, requested, []).None?;
  }

  /** An absent name is admitted to, and an unresolvable one called that, exactly when nothing
      about the spelling was replaced, the nearest resolving ancestor is inside a confirmed
      root, and it reaches the request plainly. */
  lemma AbsenceIsAdmittedExactlyWithin(guard: Guard, fs: Fs, requested: Path, access: Access)
    ensures var roots, checked := Roots(guard, access), Check(guard, fs, requested, access);
            var area := NearestAncestor(fs, requested);
            (checked.result.Err? && (checked.result.error.NotFound? || checked.result.error.Unresolvable?)) <==>
              && fs.resolve(requested).Failed?
              && (access.Writing? ==>
                    && !fs.isLink(requested) && requested.FileName().Some?
                    && fs.resolve(requested.Parent().value).Failed?)
              && !NamesAMovedRoot(fs, requested, roots)
              && area.Some? && Covered(fs, area.value.1, roots) && ReachesPlainly(fs, requested, area.value.0)
  {
    MovedRootIsNamed(fs, requested, Roots(guard, access));
  }

  /** Of the two, absence is claimed exactly for the errors that name nothing. */
  lemma AbsenceNamesNothing(guard: Guard, fs: Fs, requested: Path, access: Access)
    ensures var checked := Check(guard, fs, requested, access);
            checked.result.Err? ==>
              && (checked.result.error.NotFound? ==> NamesNothing(checked.result.error.errno))
              && (checked.result.error.Unresolvable? ==> !NamesNothing(checked.result.error.errno))
  {
  }
}
