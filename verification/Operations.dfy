/** The intercepted operations: their statistics category and position, and the class and
    context under which a request is submitted to the stage. */
module Operations {

  datatype OperationType = MetadataCalls | DataCalls | DirectoryCalls | ExtAttrCalls | SpecialCalls

  /** One constructor per operation that has a statistics entry. `Open`, `Openat` and `Open64`
      are the forms without a mode, the `Variadic` ones those that create and take a mode. */
  datatype Op =
    | Open | OpenVariadic | Open64 | Open64Variadic | Creat | Creat64 | Openat | OpenatVariadic
    | Close | Sync
    | Statfs | Fstatfs | Statfs64 | Fstatfs64
    | Unlink | Unlinkat | Rename | Renameat
    | Fopen | Fopen64 | Fclose
    | Read | Write | Pread | Pwrite | Pread64 | Pwrite64 | Mmap | Munmap
    | Mkdir | Mkdirat | Rmdir | Mknod | Mknodat
    | Getxattr | Lgetxattr | Fgetxattr
    | Setxattr | Lsetxattr | Fsetxattr
    | Listxattr | Llistxattr | Flistxattr
    | Socket | Fcntl

  function Kind(op: Op): OperationType {
    match op
    case Read | Write | Pread | Pwrite | Pread64 | Pwrite64 | Mmap | Munmap => DataCalls
    case Mkdir | Mkdirat | Rmdir | Mknod | Mknodat => DirectoryCalls
    case Getxattr | Lgetxattr | Fgetxattr | Setxattr | Lsetxattr | Fsetxattr
      | Listxattr | Llistxattr | Flistxattr => ExtAttrCalls
    case Socket | Fcntl => SpecialCalls
    case _ => MetadataCalls
  }

  /** Names of the entries of a category, in the order of its enumeration; entry 0 is no operation. */
  function Names(kind: OperationType): (names: seq<string>)
    ensures |names| == Size(kind)
  {
    match kind
    case MetadataCalls =>
      ["no_op", "open", "open_variadic", "open64", "open64_variadic", "creat", "creat64", "openat",
       "openat_variadic", "close", "sync", "statfs", "fstatfs", "statfs64", "fstatfs64", "unlink",
       "unlinkat", "rename", "renameat", "fopen", "fopen64", "fclose"]
    case DataCalls =>
      ["no_op", "read", "write", "pread", "pwrite", "pread64", "pwrite64", "mmap", "munmap"]
    case DirectoryCalls =>
      ["no_op", "mkdir", "mkdirat", "rmdir", "mknod", "mknodat"]
    case ExtAttrCalls =>
      ["no_op", "getxattr", "lgetxattr", "fgetxattr", "setxattr", "lsetxattr", "fsetxattr",
       "listxattr", "llistxattr", "flistxattr"]
    case SpecialCalls =>
      ["no_op", "socket", "fcntl"]
  }

  function Size(kind: OperationType): nat {
    match kind
    case MetadataCalls => 22
    case DataCalls => 9
    case DirectoryCalls => 6
    case ExtAttrCalls => 10
    case SpecialCalls => 3
  }

  /** The value of the operation in the enumeration of its category. */
  function Position(op: Op): (p: nat)
    ensures 0 < p < Size(Kind(op))
  {
    match op
    case Open => 1 case OpenVariadic => 2 case Open64 => 3 case Open64Variadic => 4
    case Creat => 5 case Creat64 => 6 case Openat => 7 case OpenatVariadic => 8
    case Close => 9 case Sync => 10
    case Statfs => 11 case Fstatfs => 12 case Statfs64 => 13 case Fstatfs64 => 14
    case Unlink => 15 case Unlinkat => 16 case Rename => 17 case Renameat => 18
    case Fopen => 19 case Fopen64 => 20 case Fclose => 21
    case Read => 1 case Write => 2 case Pread => 3 case Pwrite => 4
    case Pread64 => 5 case Pwrite64 => 6 case Mmap => 7 case Munmap => 8
    case Mkdir => 1 case Mkdirat => 2 case Rmdir => 3 case Mknod => 4 case Mknodat => 5
    case Getxattr => 1 case Lgetxattr => 2 case Fgetxattr => 3
    case Setxattr => 4 case Lsetxattr => 5 case Fsetxattr => 6
    case Listxattr => 7 case Llistxattr => 8 case Flistxattr => 9
    case Socket => 1 case Fcntl => 2
  }

  /** The operation a category counts at a position (`Fcntl` where it counts none). */
  function OpAt(kind: OperationType, p: nat): Op {
    match kind
    case MetadataCalls =>
      (match p
       case 1 => Open case 2 => OpenVariadic case 3 => Open64 case 4 => Open64Variadic
       case 5 => Creat case 6 => Creat64 case 7 => Openat case 8 => OpenatVariadic
       case 9 => Close case 10 => Sync
       case 11 => Statfs case 12 => Fstatfs case 13 => Statfs64 case 14 => Fstatfs64
       case 15 => Unlink case 16 => Unlinkat case 17 => Rename case 18 => Renameat
       case 19 => Fopen case 20 => Fopen64 case 21 => Fclose case _ => Fcntl)
    case DataCalls =>
      (match p
       case 1 => Read case 2 => Write case 3 => Pread case 4 => Pwrite
       case 5 => Pread64 case 6 => Pwrite64 case 7 => Mmap case 8 => Munmap case _ => Fcntl)
    case DirectoryCalls =>
      (match p
       case 1 => Mkdir case 2 => Mkdirat case 3 => Rmdir case 4 => Mknod case 5 => Mknodat
       case _ => Fcntl)
    case ExtAttrCalls =>
      (match p
       case 1 => Getxattr case 2 => Lgetxattr case 3 => Fgetxattr
       case 4 => Setxattr case 5 => Lsetxattr case 6 => Fsetxattr
       case 7 => Listxattr case 8 => Llistxattr case 9 => Flistxattr case _ => Fcntl)
    case SpecialCalls =>
      if p == 1 then Socket else Fcntl
  }

  lemma OpAtPosition(op: Op)
    ensures OpAt(Kind(op), Position(op)) == op
  {
  }

  /** No two operations share a statistics entry. */
  lemma PositionInjective(a: Op, b: Op)
    requires Kind(a) == Kind(b) && Position(a) == Position(b)
    ensures a == b
  {
    OpAtPosition(a);
    OpAtPosition(b);
  }

  /** The wrappers of one family differ only in the tags below and in the libc symbol they call. */
  datatype Family =
    | Transfer | MapMemory | UnmapMemory
    | OpenFile | CloseFile | Flush | PathCall | FdCall
    | OpenStream | CloseStream | MakeSocket | Control

  function FamilyOf(op: Op): Family {
    match op
    case Read | Write | Pread | Pwrite | Pread64 | Pwrite64 => Transfer
    case Mmap => MapMemory
    case Munmap => UnmapMemory
    case Open | OpenVariadic | Open64 | Open64Variadic | Creat | Creat64 | Openat
      | OpenatVariadic => OpenFile
    case Close => CloseFile
    case Sync => Flush
    case Fstatfs | Fstatfs64 | Fgetxattr | Fsetxattr | Flistxattr => FdCall
    case Fopen | Fopen64 => OpenStream
    case Fclose => CloseStream
    case Socket => MakeSocket
    case Fcntl => Control
    case _ => PathCall
  }

  /** The class (`paio::core::POSIX`) under which the wrapper submits its request, named by the
      operation that gives the class its name. */
  function ClassOf(op: Op): Op {
    match op
    case OpenVariadic | Open64 | Open64Variadic | Creat | Creat64 | Openat | OpenatVariadic => Open
    case Unlinkat => Unlink
    case Renameat => Rename
    case Mkdirat => Mkdir
    case Mknodat => Mknod
    case Lgetxattr | Fgetxattr => Getxattr
    case Lsetxattr | Fsetxattr => Setxattr
    case Llistxattr | Flistxattr => Listxattr
    case _ => op
  }

  datatype Context = DataContext | MetaContext | DirContext

  /** The context (`paio::core::POSIX_META`) of the request; only rmdir kept the directory context. */
  function ContextOf(op: Op): Context {
    if Kind(op) == DataCalls then DataContext
    else if op == Rmdir then DirContext
    else MetaContext
  }

  /** `sync`, `socket` and `fcntl` never submit anything to the stage. */
  predicate Submits(op: Op) {
    op != Sync && op != Socket && op != Fcntl
  }

  /** The operations submitted under a class. */
  function Members(class_: Op): seq<Op> {
    match class_
    case Open => [Open, OpenVariadic, Open64, Open64Variadic, Creat, Creat64, Openat, OpenatVariadic]
    case Unlink => [Unlink, Unlinkat]
    case Rename => [Rename, Renameat]
    case Mkdir => [Mkdir, Mkdirat]
    case Mknod => [Mknod, Mknodat]
    case Getxattr => [Getxattr, Lgetxattr, Fgetxattr]
    case Setxattr => [Setxattr, Lsetxattr, Fsetxattr]
    case Listxattr => [Listxattr, Llistxattr, Flistxattr]
    case OpenVariadic | Open64 | Open64Variadic | Creat | Creat64 | Openat | OpenatVariadic
      | Unlinkat | Renameat | Mkdirat | Mknodat | Lgetxattr | Fgetxattr | Lsetxattr | Fsetxattr
      | Llistxattr | Flistxattr | Sync | Socket | Fcntl => []
    case _ => [class_]
  }

  ghost predicate NoRepeats<T>(s: seq<T>) {
    forall i, j | 0 <= i < j < |s| :: s[i] != s[j]
  }

  /** The member list of a class is exactly the operations that submit under it. */
  lemma MembersAreTheClass(class_: Op, op: Op)
    ensures op in Members(class_) <==> Submits(op) && ClassOf(op) == class_
  {
    ClassHasItsMembers(op);
    if op in Members(class_) {
      var i :| 0 <= i < |Members(class_)| && Members(class_)[i] == op;
      MembersSubmitUnderIt(class_, i);
    }
  }

  lemma ClassHasItsMembers(op: Op)
    ensures Submits(op) ==> op in Members(ClassOf(op))
  {
    var members := Members(ClassOf(op));
    if Submits(op) {
      assert members[if |members| == 1 then 0 else
                     match op
                     case OpenVariadic | Unlinkat | Renameat | Mkdirat | Mknodat
                       | Lgetxattr | Lsetxattr | Llistxattr => 1
                     case Open64 | Fgetxattr | Fsetxattr | Flistxattr => 2
                     case Open64Variadic => 3
                     case Creat => 4
                     case Creat64 => 5
                     case Openat => 6
                     case OpenatVariadic => 7
                     case _ => 0] == op;
    }
  }

  lemma MembersSubmitUnderIt(class_: Op, i: nat)
    requires i < |Members(class_)|
    ensures Submits(Members(class_)[i]) && ClassOf(Members(class_)[i]) == class_
  {
    if |Members(class_)| > 1 {
      ManyMembers(class_, i);
    } else {
      OnlyMember(class_);
    }
  }

  lemma ManyMembers(class_: Op, i: nat)
    requires 1 < |Members(class_)| && i < |Members(class_)|
    ensures Submits(Members(class_)[i]) && ClassOf(Members(class_)[i]) == class_
  {
  }

  lemma OnlyMember(class_: Op)
    requires |Members(class_)| == 1
    ensures Members(class_)[0] == class_ && Submits(class_) && ClassOf(class_) == class_
  {
  }

  lemma MembersDistinct(class_: Op)
    ensures NoRepeats(Members(class_))
  {
  }

  // What each operation is called and what it is given, one by one

  /** The name the enumerations give an operation. */
  function NameOf(op: Op): string {
    match op
    case Open => "open" case OpenVariadic => "open_variadic"
    case Open64 => "open64" case Open64Variadic => "open64_variadic"
    case Creat => "creat" case Creat64 => "creat64"
    case Openat => "openat" case OpenatVariadic => "openat_variadic"
    case Close => "close" case Sync => "sync"
    case Statfs => "statfs" case Fstatfs => "fstatfs" case Statfs64 => "statfs64" case Fstatfs64 => "fstatfs64"
    case Unlink => "unlink" case Unlinkat => "unlinkat" case Rename => "rename" case Renameat => "renameat"
    case Fopen => "fopen" case Fopen64 => "fopen64" case Fclose => "fclose"
    case Read => "read" case Write => "write" case Pread => "pread" case Pwrite => "pwrite"
    case Pread64 => "pread64" case Pwrite64 => "pwrite64" case Mmap => "mmap" case Munmap => "munmap"
    case Mkdir => "mkdir" case Mkdirat => "mkdirat" case Rmdir => "rmdir"
    case Mknod => "mknod" case Mknodat => "mknodat"
    case Getxattr => "getxattr" case Lgetxattr => "lgetxattr" case Fgetxattr => "fgetxattr"
    case Setxattr => "setxattr" case Lsetxattr => "lsetxattr" case Fsetxattr => "fsetxattr"
    case Listxattr => "listxattr" case Llistxattr => "llistxattr" case Flistxattr => "flistxattr"
    case Socket => "socket" case Fcntl => "fcntl"
  }

  /** Every operation is counted under its own name. */
  lemma EntryIsNamed(op: Op)
    ensures Names(Kind(op))[Position(op)] == NameOf(op)
  {
    match Kind(op) {
      case MetadataCalls => MetadataEntryIsNamed(op);
      case DataCalls => DataEntryIsNamed(op);
      case DirectoryCalls =>
      case ExtAttrCalls => ExtAttrEntryIsNamed(op);
      case SpecialCalls =>
    }
  }

  lemma MetadataEntryIsNamed(op: Op)
    requires Kind(op) == MetadataCalls
    ensures Names(MetadataCalls)[Position(op)] == NameOf(op)
  {
  }

  lemma DataEntryIsNamed(op: Op)
    requires Kind(op) == DataCalls
    ensures Names(DataCalls)[Position(op)] == NameOf(op)
  {
  }

  lemma ExtAttrEntryIsNamed(op: Op)
    requires Kind(op) == ExtAttrCalls
    ensures Names(ExtAttrCalls)[Position(op)] == NameOf(op)
  {
  }

  /** The reads and writes. */
  predicate MovesBytes(op: Op) {
    op in {Read, Write, Pread, Pwrite, Pread64, Pwrite64}
  }

  /** The operations on an open descriptor, but close, munmap and fcntl. */
  predicate TakesDescriptor(op: Op) {
    MovesBytes(op) || op in {Mmap, Fstatfs, Fstatfs64, Fgetxattr, Fsetxattr, Flistxattr}
  }

  predicate OpensFile(op: Op) {
    op in {Open, OpenVariadic, Open64, Open64Variadic, Creat, Creat64, Openat, OpenatVariadic}
  }

  predicate OpensStream(op: Op) {
    op in {Fopen, Fopen64}
  }

  predicate TakesPath(op: Op) {
    || OpensFile(op) || OpensStream(op)
    || op in {Statfs, Statfs64, Unlink, Unlinkat, Rename, Renameat, Mkdir, Mkdirat, Rmdir, Mknod, Mknodat,
              Getxattr, Lgetxattr, Setxattr, Lsetxattr, Listxattr, Llistxattr}
  }

  /** The families gather exactly these operations. */
  lemma FamilyByDescriptor(op: Op)
    ensures FamilyOf(op) == Transfer <==> MovesBytes(op)
    ensures FamilyOf(op) in {Transfer, MapMemory, FdCall} <==> TakesDescriptor(op)
  {
  }

  lemma FamilyByOpening(op: Op)
    ensures FamilyOf(op) == OpenFile <==> OpensFile(op)
    ensures FamilyOf(op) == OpenStream <==> OpensStream(op)
  {
  }

  lemma FamilyByPath(op: Op)
    ensures FamilyOf(op) in {OpenFile, OpenStream, PathCall} <==> TakesPath(op)
  {
  }

  lemma FamilyOfOne(op: Op)
    ensures FamilyOf(op) == CloseFile <==> op == Close
    ensures FamilyOf(op) == CloseStream <==> op == Fclose
    ensures FamilyOf(op) == Flush <==> op == Sync
    ensures FamilyOf(op) == Control <==> op == Fcntl
    ensures FamilyOf(op) == UnmapMemory <==> op == Munmap
    ensures FamilyOf(op) == MakeSocket <==> op == Socket
    ensures FamilyOf(op) == MapMemory <==> op == Mmap
  {
  }

  /** Requests of data calls are submitted under the data context, those of rmdir under the directory
      context and all others under the metadata context. */
  lemma ContextByOperation(op: Op)
    ensures ContextOf(op) == if MovesBytes(op) || op == Mmap || op == Munmap then DataContext
                             else if op == Rmdir then DirContext else MetaContext
  {
  }

  /** A class keeps what matters of its members: the context and whether it is a read or a write. */
  lemma ClassKeeps(op: Op)
    ensures ContextOf(ClassOf(op)) == ContextOf(op)
    ensures MovesBytes(ClassOf(op)) <==> MovesBytes(op)
  {
  }
}
