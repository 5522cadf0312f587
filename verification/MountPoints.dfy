/** Options, path classification, and the two indexes of the mount point table as plain maps. */
module MountPoints {
  import opened Words
  import opened Operations

  datatype MountPoint = KNone | KLocal | KRemote

  /** `option_default_remote_mount_point`. */
  const REMOTE_MOUNT_POINT := "/tmp"

  /** `static_cast<uint32_t> (-1)`: no workflow, and the unused metadata server unit. */
  const NO_WORKFLOW: u32 := 0xFFFF_FFFF
  const NO_UNIT: u32 := 0xFFFF_FFFF

  /** The largest number of workflows whose ids, multiples of 1000, all fit an `int`. */
  const MAX_WORKFLOWS := 2147483

  /** Configuration: `option_mount_point_differentiation_enabled`, `option_hard_remove`, the
      number of workflows, the intercept flags that are on, the statistic collection of each back
      end, and the addresses of stdin, stdout and stderr. */
  datatype RawConfig = Config(
    differentiate: bool,
    hardRemove: bool,
    workflows: nat,
    intercept: set<Op>,
    collectLd: bool,
    collectPt: bool,
    standardStreams: set<int>)

  type Config = c: RawConfig | 1 <= c.workflows <= MAX_WORKFLOWS
    witness Config(true, false, 1, {OpenVariadic, Open}, true, true, {})

  // Paths

  predicate OccursAt(pattern: string, path: string, i: nat) {
    i + |pattern| <= |path| && path[i..i + |pattern|] == pattern
  }

  /** `path.find (pattern) != npos`. */
  predicate Occurs(pattern: string, path: string) {
    exists i | 0 <= i <= |path| :: OccursAt(pattern, path, i)
  }

  /** `MountPointTable::extract_mount_point`. */
  function Classify(cfg: Config, path: string): MountPoint {
    if cfg.differentiate && Occurs(REMOTE_MOUNT_POINT, path) then KRemote else KNone
  }

  /** The paths whose requests are to be enforced. */
  predicate InScope(cfg: Config, path: string) {
    !cfg.differentiate || Occurs(REMOTE_MOUNT_POINT, path)
  }

  /** The path contains the remote mount point. */
  ghost predicate Mentions(path: string) {
    exists before, after :: path == before + REMOTE_MOUNT_POINT + after
  }

  lemma OccursIsMentions(path: string)
    ensures Occurs(REMOTE_MOUNT_POINT, path) <==> Mentions(path)
  {
    var n := |REMOTE_MOUNT_POINT|;
    if Occurs(REMOTE_MOUNT_POINT, path) {
      var i :| 0 <= i <= |path| && OccursAt(REMOTE_MOUNT_POINT, path, i);
      assert path == path[..i] + REMOTE_MOUNT_POINT + path[i + n..];
    }
    if Mentions(path) {
      var before, after :| path == before + REMOTE_MOUNT_POINT + after;
      assert path[|before|..|before| + n] == REMOTE_MOUNT_POINT;
      assert OccursAt(REMOTE_MOUNT_POINT, path, |before|);
    }
  }

  /** A path is classified as remote exactly if differentiation is on and it contains the remote mount
      point, else as none; and it is in scope exactly if differentiation is off or it contains it. */
  lemma ClassifyExactly(cfg: Config, path: string)
    ensures Classify(cfg, path) == if cfg.differentiate && Mentions(path) then KRemote else KNone
    ensures InScope(cfg, path) <==> !cfg.differentiate || Mentions(path)
  {
    OccursIsMentions(path);
  }

  /** A path stays in scope when it is extended on either side. */
  lemma InScopeExtends(cfg: Config, before: string, path: string, after: string)
    requires InScope(cfg, path)
    ensures InScope(cfg, before + path + after)
  {
    if cfg.differentiate {
      var i :| 0 <= i <= |path| && OccursAt(REMOTE_MOUNT_POINT, path, i);
      var extended := before + path + after;
      var j := |before| + i;
      assert extended[j..j + |REMOTE_MOUNT_POINT|] == path[i..i + |REMOTE_MOUNT_POINT|];
      assert OccursAt(REMOTE_MOUNT_POINT, extended, j);
    }
  }

  // Workflows

  /** The mount point whose workflows are registered. */
  function HomeMount(cfg: Config): MountPoint {
    if cfg.differentiate then KRemote else KNone
  }

  /** Ids 1000, 2000, ... of the remote mount point. */
  function RemoteWorkflows(n: nat): (ids: seq<u32>)
    requires n <= MAX_WORKFLOWS
    ensures |ids| == n
  {
    seq(n, i requires 0 <= i < n => (i + 1) * 1000)
  }

  function Workflows(cfg: Config): (ids: seq<u32>)
    ensures |ids| > 0
  {
    if cfg.differentiate then RemoteWorkflows(cfg.workflows) else [1000, 2000, 3000, 4000, 5000, 6000]
  }

  /** The registered ids are 1000, 2000, ... in order. */
  lemma WorkflowIds(cfg: Config)
    ensures |Workflows(cfg)| == if cfg.differentiate then cfg.workflows else 6
    ensures forall i | 0 <= i < |Workflows(cfg)| :: Workflows(cfg)[i] == (i + 1) * 1000
  {
  }

  /** The registered ids are strictly increasing and never the sentinel. */
  lemma WorkflowsAreSound(cfg: Config)
    ensures forall i | 0 <= i < |Workflows(cfg)| :: 0 < Workflows(cfg)[i] < TWO_31
    ensures NO_WORKFLOW !in Workflows(cfg)
    ensures forall i, j | 0 <= i < j < |Workflows(cfg)| :: Workflows(cfg)[i] < Workflows(cfg)[j]
  {
  }

  // The indexes

  datatype Entry = Entry(path: string, mount: MountPoint, unit: u32)

  /** An index of the table: entries by file descriptor or by stream address. */
  type Index = map<int, Entry>

  /** `is_file_descriptor_valid`. */
  predicate ValidFd(fd: int) {
    fd > 2
  }

  /** `is_file_pointer_valid`; 0 is the null pointer. */
  predicate ValidStream(cfg: Config, stream: int) {
    stream != 0 && stream !in cfg.standardStreams
  }

  function Created(index: Index, valid: bool, key: int, entry: Entry): (Index, bool) {
    if valid then (index[key := entry], key !in index) else (index, false)
  }

  function Removed(index: Index, valid: bool, key: int): (Index, bool) {
    if valid && key in index then (index - {key}, true) else (index, false)
  }

  /** Moving an entry to a new descriptor: an entry already there stays and the moved one is lost. */
  function Replaced(index: Index, oldFd: int, newFd: int): (Index, bool) {
    if ValidFd(oldFd) && ValidFd(newFd) && oldFd in index then
      var rest := index - {oldFd};
      (if newFd in rest then rest else rest[newFd := index[oldFd]], true)
    else
      (index, false)
  }

  // Calls on the descriptor index

  datatype TableCall = CreateCall(fd: int, entry: Entry) | RemoveCall(fd: int) | ReplaceCall(oldFd: int, newFd: int)

  function Served(index: Index, call: TableCall): (Index, bool) {
    match call
    case CreateCall(fd, entry) => Created(index, ValidFd(fd), fd, entry)
    case RemoveCall(fd) => Removed(index, ValidFd(fd), fd)
    case ReplaceCall(oldFd, newFd) => Replaced(index, oldFd, newFd)
  }

  function ServedAll(index: Index, calls: seq<TableCall>): Index {
    if calls == [] then index
    else Served(ServedAll(index, calls[..|calls| - 1]), calls[|calls| - 1]).0
  }

  /** What a call reports about the number of entries: creates and removes by their result, a
      replace only when it reports success onto another occupied descriptor. */
  function Balance(index: Index, call: TableCall): int {
    var ok := Served(index, call).1;
    match call
    case CreateCall(_, _) => if ok then 1 else 0
    case RemoveCall(_) => if ok then -1 else 0
    case ReplaceCall(oldFd, newFd) => if ok && oldFd != newFd && newFd in index then -1 else 0
  }

  function TotalBalance(index: Index, calls: seq<TableCall>): int {
    if calls == [] then 0
    else
      var front := calls[..|calls| - 1];
      TotalBalance(index, front) + Balance(ServedAll(index, front), calls[|calls| - 1])
  }

  lemma MapSizes(index: Index, key: int, entry: Entry)
    ensures |index[key := entry]| == |index| + if key in index then 0 else 1
    ensures |index - {key}| == |index| - if key in index then 1 else 0
  {
    assert (index - {key}).Keys == index.Keys - {key};
    assert index[key := entry].Keys == index.Keys + {key};
  }

  lemma ServedSize(index: Index, call: TableCall)
    ensures |Served(index, call).0| == |index| + Balance(index, call)
  {
    match call
    case CreateCall(fd, entry) => MapSizes(index, fd, entry);
    case RemoveCall(fd) => MapSizes(index, fd, Entry("", KNone, NO_UNIT));
    case ReplaceCall(oldFd, newFd) =>
      if ValidFd(oldFd) && ValidFd(newFd) && oldFd in index {
        ReplacedSize(index, oldFd, newFd);
      }
  }

  lemma ReplacedSize(index: Index, oldFd: int, newFd: int)
    requires ValidFd(oldFd) && ValidFd(newFd) && oldFd in index
    ensures |Replaced(index, oldFd, newFd).0|
         == |index| - if oldFd != newFd && newFd in index then 1 else 0
  {
    var rest := index - {oldFd};
    MapSizes(index, oldFd, index[oldFd]);
    MapSizes(rest, newFd, index[oldFd]);
    assert newFd in rest <==> newFd in index && newFd != oldFd;
  }

  /** Over any sequence of calls the size of the index moves by exactly what the calls reported. */
  lemma {:induction false} CardinalityConservation(index: Index, calls: seq<TableCall>)
    ensures |ServedAll(index, calls)| == |index| + TotalBalance(index, calls)
  {
    if calls != [] {
      var front := calls[..|calls| - 1];
      CardinalityConservation(index, front);
      ServedSize(ServedAll(index, front), calls[|calls| - 1]);
    }
  }

  /** Replacing a descriptor by itself changes nothing. */
  lemma ReplaceBySelf(index: Index, fd: int)
    ensures Replaced(index, fd, fd).0 == index
  {
    if fd in index {
      assert (index - {fd})[fd := index[fd]] == index;
    }
  }
}
