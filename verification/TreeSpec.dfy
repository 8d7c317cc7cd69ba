/** What the operations promise about a tree of named byte strings, with no clusters, sectors or slots in sight. */
module TreeSpec {
  import opened Bytes
  import opened Volumes
  import opened Slots
  import opened Names83
  import opened FileWrite
  import opened Paths
  import opened Plans
  import opened FileTree

  // ---------------------------------------------------------------- paths

  datatype Seen = SeenDirectory(id: nat) | SeenName(dir: nat, name: Name83) | SeenNot(status: Status)

  function Seek(a: Model, d: nat, cs: seq<seq<byte>>): (r: Seen)
    ensures r.SeenName? ==> r.dir in a && r.name in a[r.dir]
    ensures r.SeenNot? ==> r.status in {Error, NotFound, NotADirectory}
    decreases |cs|
  {
    if cs == [] then SeenDirectory(d)
    else if d !in a then SeenNot(Error)
    else if !Accepted(cs[0]) || Encode(cs[0]) !in a[d] then SeenNot(NotFound)
    else if |cs| == 1 then SeenName(d, Encode(cs[0]))
    else
      match a[d][Encode(cs[0])]
      case File(_) => SeenNot(NotADirectory)
      case Directory(e) => Seek(a, e, cs[1..])
  }

  function SeekPath(a: Model, root: nat, path: seq<byte>): (r: Seen)
    ensures r.SeenName? ==> r.dir in a && r.name in a[r.dir]
    ensures r.SeenNot? ==> r.status in {Error, NotFound, NotADirectory}
  {
    if path == [] || path[0] != SLASH then SeenNot(Error) else Seek(a, root, Components(path[1..]))
  }

  function SeekParent(a: Model, root: nat, path: Text): (r: Parent)
    ensures r.NoParent? ==> r.status in {Error, NotFound, NotADirectory}
  {
    match Split(path)
    case None => NoParent(Error)
    case Some(parts) =>
      match SeekPath(a, root, parts.0)
      case SeenNot(st) => NoParent(st)
      case SeenDirectory(d) => Parent(d, parts.1)
      case SeenName(e, n) => if a[e][n].Directory? then Parent(a[e][n].id, parts.1) else NoParent(NotADirectory)
  }

  /** Where a name not yet bound is to be bound. */
  function NewName(a: Model, root: nat, path: Text): (r: Seen)
    ensures r.SeenName? ==> r.dir in a && r.name !in a[r.dir]
    ensures r.SeenNot? ==> r.status in {Error, NotFound, NotADirectory}
  {
    match SeekParent(a, root, path)
    case NoParent(st) => SeenNot(st)
    case Parent(d, name) =>
      if d !in a || !Accepted(name) || Encode(name) in a[d] then SeenNot(Error) else SeenName(d, Encode(name))
  }

  /** The name a path's last component is bound under. */
  function OldName(a: Model, root: nat, path: Text): (r: Seen)
    ensures r.SeenName? ==> r.dir in a && r.name in a[r.dir]
    ensures r.SeenNot? ==> r.status in {Error, NotFound, NotADirectory}
  {
    match SeekParent(a, root, path)
    case NoParent(st) => SeenNot(st)
    case Parent(d, name) => Seek(a, d, [name])
  }

  // ---------------------------------------------------------------- operations

  datatype Op =
    | Create(path: Text)
    | MakeDirectory(path: Text)
    | Remove(path: Text)
    | RemoveDirectory(path: Text)
    | Rename(from: Text, to: Text)
    | WriteAt(path: Text, position: nat, data: seq<byte>)
    | CutTo(path: Text, size: nat)

  datatype Outcome = Refuse(status: Status) | Yield(tree: Model)

  function RefusalOf(r: Seen): Status {
    if r.SeenNot? then r.status else Error
  }

  function MakeEffect(a: Model, root: nat, path: Text, c: nat): Outcome {
    var r := NewName(a, root, path);
    if !r.SeenName? then Refuse(RefusalOf(r)) else Yield(Bind(a, r.dir, r.name, Directory(c))[c := map[]])
  }

  function CreateEffect(a: Model, root: nat, path: Text): Outcome {
    var r := NewName(a, root, path);
    if !r.SeenName? then Refuse(RefusalOf(r)) else Yield(Bind(a, r.dir, r.name, File([])))
  }

  function RemoveEffect(a: Model, root: nat, path: Text): Outcome {
    var r := OldName(a, root, path);
    if !r.SeenName? then Refuse(RefusalOf(r))
    else if a[r.dir][r.name].Directory? then Refuse(NotAFile)
    else Yield(Unbind(a, r.dir, r.name))
  }

  function RemoveDirectoryEffect(a: Model, root: nat, path: Text): Outcome {
    var r := OldName(a, root, path);
    if !r.SeenName? then Refuse(RefusalOf(r))
    else
      match a[r.dir][r.name]
      case File(_) => Refuse(NotADirectory)
      case Directory(e) =>
        if e !in a then Refuse(Error)
        else if a[e] != map[] then Refuse(DirectoryNotEmpty)
        else Yield(Unbind(a, r.dir, r.name) - {e})
  }

  function RenameEffect(a: Model, root: nat, from: Text, to: Text): Outcome {
    if Split(from).None? || Split(to).None? then Refuse(Error)
    else
      var r := OldName(a, root, from);
      if !r.SeenName? then Refuse(RefusalOf(r))
      else if a[r.dir][r.name].Directory? then Refuse(NotAFile)
      else
        var q := NewName(a, root, to);
        if !q.SeenName? then Refuse(RefusalOf(q))
        else Yield(Unbind(Bind(a, q.dir, q.name, a[r.dir][r.name]), r.dir, r.name))
  }

  /** The file a path leads to. */
  function FileSeen(a: Model, root: nat, path: Text): (r: Seen)
    ensures r.SeenName? ==> r.dir in a && r.name in a[r.dir] && a[r.dir][r.name].File?
    ensures r.SeenNot? ==> r.status in {Error, NotFound, NotADirectory, NotAFile}
  {
    match SeekPath(a, root, path)
    case SeenNot(st) => SeenNot(st)
    case SeenDirectory(_) => SeenNot(NotAFile)
    case SeenName(d, n) => if a[d][n].Directory? then SeenNot(NotAFile) else SeenName(d, n)
  }

  function WriteEffect(a: Model, root: nat, path: Text, position: nat, data: seq<byte>): Outcome {
    var r := FileSeen(a, root, path);
    if !r.SeenName? then Refuse(RefusalOf(r))
    else if data == [] then Yield(a)
    else
      var b := a[r.dir][r.name].bytes;
      if !Sensible(position, |b|, |data|) then Refuse(Error)
      else Yield(Bind(a, r.dir, r.name, File(Spliced(b, position, data))))
  }

  function CutEffect(a: Model, root: nat, path: Text, size: nat): Outcome {
    var r := FileSeen(a, root, path);
    if !r.SeenName? then Refuse(RefusalOf(r))
    else
      var b := a[r.dir][r.name].bytes;
      if size > |b| then Refuse(Error) else Yield(Bind(a, r.dir, r.name, File(b[..size])))
  }

  /** What an operation does to the tree; c is the identity a new directory gets. */
  function Effect(a: Model, root: nat, op: Op, c: nat): Outcome {
    match op
    case Create(path) => CreateEffect(a, root, path)
    case MakeDirectory(path) => MakeEffect(a, root, path, c)
    case Remove(path) => RemoveEffect(a, root, path)
    case RemoveDirectory(path) => RemoveDirectoryEffect(a, root, path)
    case Rename(from, to) => RenameEffect(a, root, from, to)
    case WriteAt(path, position, data) => WriteEffect(a, root, path, position, data)
    case CutTo(path, size) => CutEffect(a, root, path, size)
  }

  /** Whether an operation is refused, and how, does not depend on the identity; a refusal is never OK. */
  lemma Refusals(a: Model, root: nat, op: Op, c: nat)
    ensures Effect(a, root, op, c).Refuse? ==> Effect(a, root, op, c) == Effect(a, root, op, 0)
    ensures Effect(a, root, op, c).Yield? ==> Effect(a, root, op, 0).Yield?
    ensures Effect(a, root, op, c).Refuse? ==> Effect(a, root, op, c).status != Ok
  {
    hide NewName, OldName, FileSeen, Bind, Unbind, Spliced, SplitInto;
  }

  /** A new name the operation is to bind does not begin with the byte that marks deleted slots. */
  predicate NameBound(op: Op) {
    match op
    case Create(path) => OrdinaryName(path)
    case MakeDirectory(path) => OrdinaryName(path)
    case Rename(_, to) => OrdinaryName(to)
    case _ => true
  }

  /** What is left of the effect when the new name is not bound: a rename still unbinds the old one. */
  function Unnoticed(a: Model, root: nat, op: Op): Model {
    match op
    case Rename(from, _) => var r := OldName(a, root, from); if r.SeenName? then Unbind(a, r.dir, r.name) else a
    case _ => a
  }

  /** What the code makes of an operation: its effect, except that a name that begins with 0xE5 is never bound. */
  function Done(a: Model, root: nat, op: Op, c: nat): Outcome {
    match Effect(a, root, op, c)
    case Refuse(st) => Refuse(st)
    case Yield(b) => if NameBound(op) then Yield(b) else Yield(Unnoticed(a, root, op))
  }
}
