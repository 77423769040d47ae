/** The file kernel as it is written: loops that advance one handle, over a file system that changes. */
module FileKernelRuntime {
  import opened Wrappers
  import opened FileSystem
  import opened FileKernel

  class Kernel {
    const host: Host
    const root: Inode
    var world: World

    constructor (host: Host, root: Inode, fs: Fs, inside: set<Inode>)
      ensures this.host == host && this.root == root && world == World(fs, inside, [])
    {
      this.host, this.root, world := host, root, World(fs, inside, []);
    }

    // ----- the calls it makes ------------------------------------------------------------

    method CallOpen(dir: Inode, name: string, flags: OpenFlags) returns (r: Outcome<Inode>)
      modifies this
      ensures Reply(world, r) == Openat(host, old(world), dir, name, flags)
    {
      var reply := Openat(host, world, dir, name, flags);
      world, r := reply.world, reply.outcome;
    }

    method CallMkdir(dir: Inode, name: string) returns (r: Outcome<()>)
      modifies this
      ensures Reply(world, r) == Mkdirat(host, old(world), dir, name)
    {
      var reply := Mkdirat(host, world, dir, name);
      world, r := reply.world, reply.outcome;
    }

    method CallOpenRoot() returns (r: Result<Inode>)
      modifies this
      ensures Answer(world, r) == OpenRoot(host, old(world), root)
    {
      var answer := OpenRoot(host, world, root);
      world, r := answer.world, answer.result;
    }

    // ----- the operations ----------------------------------------------------------------

    method OpenBeneath(rel: string, mode: OpenMode) returns (r: Result<Inode>)
      modifies this
      ensures Answer(world, r) == Open(host, old(world), root, rel, mode)
    {
      var split := SplitSegments(rel);
      if split.Err? {
        return Err(split.error);
      }
      var segments := split.value;
      var opening := CallOpenRoot();
      if opening.Err? {
        return opening;
      }
      var current := root;
      var index := 0;
      ghost var target := Walk(host, world, root, segments, LastFlags(mode));
      assert segments[0..] == segments;
      while index < |segments|
        invariant 0 <= index <= |segments|
        invariant Walk(host, world, current, segments[index..], LastFlags(mode)) == target
      {
        assert segments[index..][1..] == segments[index + 1..];
        var flags := Directory;
        if index == |segments| - 1 {
          flags := LastFlags(mode);
        }
        var next := CallOpen(current, segments[index], flags);
        if next.Failed? {
          return Err(MapErrno(next.errno, segments[index]));
        }
        current := next.value;
        index := index + 1;
      }
      assert segments[index..] == [];
      r := Ok(current);
    }

    method OpenParent(segments: seq<string>) returns (r: Result<Inode>, name: string)
      requires segments != []
      modifies this
      ensures Answer(world, r) == Parent(host, old(world), root, segments) && name == segments[|segments| - 1]
    {
      name := segments[|segments| - 1];
      r := CallOpenRoot();
      if r.Err? {
        return;
      }
      var init := segments[..|segments| - 1];
      var current := root;
      var index := 0;
      ghost var target := Walk(host, world, root, init, Directory);
      assert init[0..] == init;
      while index < |init|
        invariant 0 <= index <= |init|
        invariant Walk(host, world, current, init[index..], Directory) == target
      {
        assert init[index..][1..] == init[index + 1..];
        var next := CallOpen(current, init[index], Directory);
        if next.Failed? {
          return Err(MapErrno(next.errno, init[index])), name;
        }
        current := next.value;
        index := index + 1;
      }
      assert init[index..] == [];
      r := Ok(current);
    }

    method ReadBeneath(rel: string, maxBytes: nat) returns (r: Result<seq<byte>>)
      modifies this
      ensures Answer(world, r) == ReadFile(host, old(world), root, rel, maxBytes)
    {
      var handle := OpenBeneath(rel, Read);
      if handle.Err? {
        return Err(handle.error);
      }
      var fault := host.fault(|world.trace|);
      world := Interrupted(host, world);
      if fault.Some? {
        return Err(Io(""));
      }
      if !(handle.value in world.fs && world.fs[handle.value].File?) {
        return Err(InvalidPath);
      }
      var size := |world.fs[handle.value].data|;
      if size > maxBytes {
        return Err(TooLarge(size));
      }
      fault := host.fault(|world.trace|);
      world := Interrupted(host, world);
      if fault.Some? || !(handle.value in world.fs && world.fs[handle.value].File?) {
        return Err(Io(""));
      }
      r := Ok(world.fs[handle.value].data);
    }

    method WriteBeneath(rel: string, data: seq<byte>) returns (r: Result<()>)
      modifies this
      ensures Answer(world, r) == WriteFile(host, old(world), root, rel, data)
    {
      var handle := OpenBeneath(rel, Create);
      if handle.Err? {
        return Err(handle.error);
      }
      var reply := WriteHandle(host, world, handle.value, data);
      world := reply.world;
      if reply.outcome.Failed? {
        return Err(MapErrno(reply.outcome.errno, ""));
      }
      r := Ok(());
    }

    method RemoveBeneath(rel: string) returns (r: Result<()>)
      modifies this
      ensures Answer(world, r) == Remove(host, old(world), root, rel)
    {
      var split := SplitSegments(rel);
      if split.Err? {
        return Err(split.error);
      }
      SegmentsAreComponents(rel);
      var parent, name := OpenParent(split.value);
      if parent.Err? {
        return Err(parent.error);
      }
      var reply := Unlinkat(host, world, parent.value, name);
      world := reply.world;
      if reply.outcome.Failed? {
        return Err(MapErrno(reply.outcome.errno, name));
      }
      r := Ok(());
    }

    method MkdirBeneath(rel: string) returns (r: Result<()>)
      modifies this
      ensures Answer(world, r) == Mkdir(host, old(world), root, rel)
    {
      if rel == "" || rel == "." {
        return Ok(());
      }
      var split := SplitSegments(rel);
      if split.Err? {
        return Err(split.error);
      }
      var segments := split.value;
      var opening := CallOpenRoot();
      if opening.Err? {
        return Err(opening.error);
      }
      var current := root;
      var index := 0;
      ghost var target := MakeChain(host, world, root, segments);
      assert segments[0..] == segments;
      while index < |segments|
        invariant 0 <= index <= |segments|
        invariant MakeChain(host, world, current, segments[index..]) == target
      {
        assert segments[index..][1..] == segments[index + 1..];
        var segment := segments[index];
        var next := CallOpen(current, segment, Directory);
        if next.Failed? {
          if next.errno != NOENT {
            return Err(MapErrno(next.errno, segment));
          }
          var made := CallMkdir(current, segment);
          if made.Failed? {
            return Err(MapErrno(made.errno, segment));
          }
          next := CallOpen(current, segment, Directory);
          if next.Failed? {
            return Err(MapErrno(next.errno, segment));
          }
        }
        current := next.value;
        index := index + 1;
      }
      assert segments[index..] == [];
      r := Ok(());
    }

    method RenameBeneath(fromRel: string, toRel: string) returns (r: Result<()>)
      modifies this
      ensures Answer(world, r) == Rename(host, old(world), root, fromRel, toRel)
    {
      var fromSplit := SplitSegments(fromRel);
      if fromSplit.Err? {
        return Err(fromSplit.error);
      }
      var toSplit := SplitSegments(toRel);
      if toSplit.Err? {
        return Err(toSplit.error);
      }
      SegmentsAreComponents(fromRel);
      SegmentsAreComponents(toRel);
      var fromParent, fromName := OpenParent(fromSplit.value);
      if fromParent.Err? {
        return Err(fromParent.error);
      }
      var toParent, toName := OpenParent(toSplit.value);
      if toParent.Err? {
        return Err(toParent.error);
      }
      var reply := Renameat(host, world, fromParent.value, fromName, toParent.value, toName);
      world := reply.world;
      if reply.outcome.Failed? {
        return Err(MapErrno(reply.outcome.errno, toName));
      }
      r := Ok(());
    }
  }
}
