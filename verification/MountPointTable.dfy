/** The mount point table: both indexes, the registered workflows, and workflow selection. */
module MountPointTable {
  import opened Words
  import opened MountPoints

  /** The default workflows, with the ids of the remote mount point built by the constructor loop. */
  class MountPointWorkflows {
    const defaultMountPointWorkflows: seq<u32> := [1000, 2000, 3000, 4000, 5000, 6000]
    var defaultRemoteMountPointWorkflows: seq<u32>

    constructor (numWorkflows: int)
      requires 0 <= numWorkflows <= MAX_WORKFLOWS
      ensures defaultRemoteMountPointWorkflows == RemoteWorkflows(numWorkflows)
      ensures |defaultRemoteMountPointWorkflows| == numWorkflows
      ensures forall i | 0 <= i < numWorkflows :: defaultRemoteMountPointWorkflows[i] == (i + 1) * 1000
    {
      defaultRemoteMountPointWorkflows := [];
      new;
      for i := 1 to numWorkflows + 1
        invariant defaultRemoteMountPointWorkflows == RemoteWorkflows(i - 1)
      {
        assert 0 < i * 1000 < TWO_31;
        defaultRemoteMountPointWorkflows := defaultRemoteMountPointWorkflows + [i * 1000];
      }
    }
  }

  /** The workflow a generator output selects for a mount point, and the number of outputs drawn:
      none when the mount point has no registered workflows. */
  function Selection(cfg: Config, mount: MountPoint, output: u32): (u32, nat) {
    if mount == HomeMount(cfg) then (Workflows(cfg)[output % |Workflows(cfg)|], 1) else (NO_WORKFLOW, 0)
  }

  class MountPointTable {
    const cfg: Config
    var fds: Index
    var streams: Index
    var workflows: map<MountPoint, seq<u32>>
    /** Outputs of the pseudo-random generator, and how many have been drawn. */
    const outputs: nat -> u32
    var drawn: nat

    ghost predicate Valid()
      reads this
    {
      workflows == map[HomeMount(cfg) := Workflows(cfg)]
    }

    constructor (cfg: Config, outputs: nat -> u32)
      ensures Valid() && fds == map[] && streams == map[] && drawn == 0
      ensures this.cfg == cfg && this.outputs == outputs
    {
      this.cfg := cfg;
      this.outputs := outputs;
      fds, streams, workflows, drawn := map[], map[], map[], 0;
      new;
      Initialize();
    }

    method Initialize()
      requires workflows == map[]
      modifies `workflows
      ensures Valid()
    {
      var defaults := new MountPointWorkflows(cfg.workflows);
      if cfg.differentiate {
        RegisterMountPointType(KRemote, defaults.defaultRemoteMountPointWorkflows);
      } else {
        RegisterMountPointType(KNone, defaults.defaultMountPointWorkflows);
      }
    }

    method RegisterMountPointType(mount: MountPoint, ids: seq<u32>)
      modifies `workflows
      ensures workflows == old(workflows)[mount := ids]
    {
      workflows := workflows[mount := ids];
    }

    /** Registers a descriptor, replacing the entry it may have; true iff it had none. */
    method CreateFdEntry(fd: int, path: string, mount: MountPoint, unit: u32) returns (inserted: bool)
      modifies `fds
      ensures (fds, inserted) == Created(old(fds), ValidFd(fd), fd, Entry(path, mount, unit))
    {
      if !ValidFd(fd) {
        return false;
      }
      inserted := fd !in fds;
      fds := fds[fd := Entry(path, mount, unit)];
    }

    method CreateStreamEntry(stream: int, path: string, mount: MountPoint, unit: u32) returns (inserted: bool)
      modifies `streams
      ensures (streams, inserted)
           == Created(old(streams), ValidStream(cfg, stream), stream, Entry(path, mount, unit))
    {
      if !ValidStream(cfg, stream) {
        return false;
      }
      inserted := stream !in streams;
      streams := streams[stream := Entry(path, mount, unit)];
    }

    method GetFdEntry(fd: int) returns (found: bool, entry: Entry)
      ensures found <==> ValidFd(fd) && fd in fds
      ensures found ==> entry == fds[fd]
    {
      entry := Entry("", KNone, NO_UNIT);
      if !ValidFd(fd) {
        return false, entry;
      }
      found := fd in fds;
      if found {
        entry := fds[fd];
      }
    }

    method GetStreamEntry(stream: int) returns (found: bool, entry: Entry)
      ensures found <==> ValidStream(cfg, stream) && stream in streams
      ensures found ==> entry == streams[stream]
    {
      entry := Entry("", KNone, NO_UNIT);
      if !ValidStream(cfg, stream) {
        return false, entry;
      }
      found := stream in streams;
      if found {
        entry := streams[stream];
      }
    }

    method RemoveFdEntry(fd: int) returns (removed: bool)
      modifies `fds
      ensures (fds, removed) == Removed(old(fds), ValidFd(fd), fd)
    {
      if !ValidFd(fd) {
        return false;
      }
      removed := fd in fds;
      fds := fds - {fd};
      assert !removed ==> fds == old(fds);
    }

    method RemoveStreamEntry(stream: int) returns (removed: bool)
      modifies `streams
      ensures (streams, removed) == Removed(old(streams), ValidStream(cfg, stream), stream)
    {
      if !ValidStream(cfg, stream) {
        return false;
      }
      removed := stream in streams;
      streams := streams - {stream};
      assert !removed ==> streams == old(streams);
    }

    /** Extracts the entry of the old descriptor, changes its key and inserts it again. Inserting
        an extracted node keeps an element that already has the key and drops the node
        (section 26.2.7 of ISO/IEC 14882:2017). */
    method ReplaceFileDescriptor(oldFd: int, newFd: int) returns (replaced: bool)
      modifies `fds
      ensures (fds, replaced) == Replaced(old(fds), oldFd, newFd)
    {
      if !ValidFd(oldFd) || !ValidFd(newFd) {
        return false;
      }
      if oldFd !in fds {
        return false;
      }
      var node := fds[oldFd];
      fds := fds - {oldFd};
      if newFd !in fds {
        fds := fds[newFd := node];
      }
      return true;
    }

    method SelectWorkflowFromMountPoint(mount: MountPoint) returns (id: u32)
      requires Valid()
      modifies `drawn
      ensures (id, drawn - old(drawn)) == Selection(cfg, mount, outputs(old(drawn)))
      ensures mount == HomeMount(cfg)
          ==> id == Workflows(cfg)[outputs(old(drawn)) % |Workflows(cfg)|] && drawn == old(drawn) + 1
      ensures mount != HomeMount(cfg) ==> id == NO_WORKFLOW && drawn == old(drawn)
    {
      id := NO_WORKFLOW;
      if mount in workflows {
        var randomItem := outputs(drawn) % |workflows[mount]|;
        drawn := drawn + 1;
        id := workflows[mount][randomItem];
      }
    }

    method PickByPath(path: string) returns (mount: MountPoint, id: u32)
      requires Valid()
      modifies `drawn
      ensures mount == Classify(cfg, path)
      ensures mount == if cfg.differentiate && Mentions(path) then KRemote else KNone
      ensures (id, drawn - old(drawn)) == Selection(cfg, mount, outputs(old(drawn)))
    {
      mount := if !cfg.differentiate then KNone else Classify(cfg, path);
      ClassifyExactly(cfg, path);
      id := SelectWorkflowFromMountPoint(mount);
    }

    method PickByFd(fd: int) returns (id: u32)
      requires Valid()
      modifies `drawn
      ensures (id, drawn - old(drawn))
           == if ValidFd(fd) && fd in fds then Selection(cfg, fds[fd].mount, outputs(old(drawn)))
              else (NO_WORKFLOW, 0)
    {
      id := NO_WORKFLOW;
      var found, entry := GetFdEntry(fd);
      if found {
        id := SelectWorkflowFromMountPoint(entry.mount);
      }
    }

    method PickByForce() returns (id: u32)
      requires Valid()
      modifies `drawn
      ensures (id, drawn - old(drawn)) == Selection(cfg, HomeMount(cfg), outputs(old(drawn)))
    {
      var mount := if cfg.differentiate then KRemote else KNone;
      id := SelectWorkflowFromMountPoint(mount);
    }

    /** The pick of a close: by descriptor and, if that yields no workflow, by force. */
    method PickForClose(fd: int) returns (id: u32)
      requires Valid()
      modifies `drawn
      ensures (id, drawn - old(drawn)) == Selection(cfg, HomeMount(cfg), outputs(old(drawn)))
    {
      id := PickByFd(fd);
      if id == NO_WORKFLOW {
        WorkflowsAreSound(cfg);
        id := PickByForce();
      }
    }

    method PickByStream(stream: int) returns (id: u32)
      requires Valid()
      modifies `drawn
      ensures (id, drawn - old(drawn))
           == if ValidStream(cfg, stream) && stream in streams
              then Selection(cfg, streams[stream].mount, outputs(old(drawn)))
              else (NO_WORKFLOW, 0)
    {
      id := NO_WORKFLOW;
      var found, entry := GetStreamEntry(stream);
      if found {
        id := SelectWorkflowFromMountPoint(entry.mount);
      }
    }
  }
}
