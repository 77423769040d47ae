/** Directories stay a tree through everything the file kernel does: no request makes a cycle, gives a
    directory a second place, or leaves an entry that leads nowhere. */
module FileKernelTree {
  import opened Wrappers
  import opened FileSystem
  import opened FileTree
  import opened FileKernel

  /** Others keep the tree as well, and new inodes are new. */
  ghost predicate Orderly(host: Host) {
    && (forall t: nat, w: World :: IsTree(w.fs) ==> IsTree(host.interfere(t, w).0))
    && (forall fs: Fs :: host.alloc(fs) !in fs)
  }

  // ----- call by call --------------------------------------------------------------------

  lemma OpenatTree(host: Host, w: World, dir: Inode, name: string, flags: OpenFlags)
    requires Orderly(host) && IsTree(w.fs)
    ensures IsTree(Openat(host, w, dir, name, flags).world.fs)
  {
    var w1 := Interrupted(host, w);
    assert IsTree(w1.fs);
    hide IsTree, Interrupted;
    if Refusal(host, w, name) == None && dir in w1.fs && w1.fs[dir].Dir? && flags == CreateTruncate {
      match Lookup(host, w1.fs, dir, name) {
        case None => BirthTree(w1.fs, dir, name, host.alloc(w1.fs), File([]));
        case Some(n) =>
          if n in w1.fs && w1.fs[n].File? {
            SameTree(w1.fs, w1.fs[n := File([])]);
          }
      }
    }
  }

  lemma MkdiratTree(host: Host, w: World, dir: Inode, name: string)
    requires Orderly(host) && IsTree(w.fs)
    ensures IsTree(Mkdirat(host, w, dir, name).world.fs)
  {
    var w1 := Interrupted(host, w);
    assert IsTree(w1.fs);
    hide IsTree, Interrupted;
    if dir in w1.fs && w1.fs[dir].Dir? {
      BirthTree(w1.fs, dir, name, host.alloc(w1.fs), Dir(map[], dir));
    }
  }

  lemma UnlinkatTree(host: Host, w: World, dir: Inode, name: string)
    requires Orderly(host) && IsTree(w.fs)
    ensures IsTree(Unlinkat(host, w, dir, name).world.fs)
  {
    var w1 := Interrupted(host, w);
    assert IsTree(w1.fs);
    hide IsTree, Interrupted;
    if dir in w1.fs && w1.fs[dir].Dir? {
      UnlinkTree(w1.fs, dir, name);
    }
  }

  /** Here refusing to move a directory into itself is what keeps the tree. */
  lemma RenameatTree(host: Host, w: World, from: Inode, name: string, to: Inode, newName: string)
    requires Orderly(host) && IsTree(w.fs) && Component(name)
    ensures IsTree(Renameat(host, w, from, name, to, newName).world.fs)
  {
    var w1 := Interrupted(host, w);
    assert IsTree(w1.fs);
    hide IsTree, Interrupted, Moved, IntoItself;
    var r := Renameat(host, w, from, name, to, newName);
    if r.world != w1 {
      MovedTree(w1.fs, from, name, to, newName, Lookup(host, w1.fs, from, name).value);
    }
  }

  lemma WriteHandleTree(host: Host, w: World, n: Inode, data: seq<byte>)
    requires Orderly(host) && IsTree(w.fs)
    ensures IsTree(WriteHandle(host, w, n, data).world.fs)
  {
    var w1 := Interrupted(host, w);
    assert IsTree(w1.fs);
    hide IsTree, Interrupted, Overwritten;
    if n in w1.fs && w1.fs[n].File? {
      SameTree(w1.fs, w1.fs[n := File(Overwritten(w1.fs[n].data, data))]);
    }
  }

  // ----- request by request --------------------------------------------------------------

  lemma {:induction false} WalkTree(host: Host, w: World, dir: Inode, segments: seq<string>, last: OpenFlags)
    requires Orderly(host) && IsTree(w.fs)
    ensures IsTree(Walk(host, w, dir, segments, last).world.fs)
    decreases |segments|
  {
    hide Orderly, IsTree, Openat;
    if segments != [] {
      var flags := if |segments| == 1 then last else Directory;
      OpenatTree(host, w, dir, segments[0], flags);
      var r := Openat(host, w, dir, segments[0], flags);
      if r.outcome.Done? {
        WalkTree(host, r.world, r.outcome.value, segments[1..], last);
      }
    }
  }

  lemma OpenRootTree(host: Host, w: World, root: Inode)
    requires Orderly(host) && IsTree(w.fs)
    ensures IsTree(OpenRoot(host, w, root).world.fs)
  {
    hide IsTree;
  }

  lemma OpenTree(host: Host, w: World, root: Inode, rel: string, mode: OpenMode)
    requires Orderly(host) && IsTree(w.fs)
    ensures IsTree(Open(host, w, root, rel, mode).world.fs)
  {
    hide Orderly, IsTree, Segments, Walk, OpenRoot;
    if Segments(rel).Ok? {
      OpenRootTree(host, w, root);
      WalkTree(host, OpenRoot(host, w, root).world, root, Segments(rel).value, LastFlags(mode));
    }
  }

  lemma ParentTree(host: Host, w: World, root: Inode, segments: seq<string>)
    requires Orderly(host) && IsTree(w.fs) && segments != []
    ensures IsTree(Parent(host, w, root, segments).world.fs)
  {
    hide Orderly, IsTree, Walk, OpenRoot;
    OpenRootTree(host, w, root);
    WalkTree(host, OpenRoot(host, w, root).world, root, segments[..|segments| - 1], Directory);
  }

  lemma {:induction false} MakeChainTree(host: Host, w: World, dir: Inode, segments: seq<string>)
    requires Orderly(host) && IsTree(w.fs)
    ensures IsTree(MakeChain(host, w, dir, segments).world.fs)
    decreases |segments|
  {
    hide Orderly, IsTree, EnterOrMake;
    if segments != [] {
      EnterOrMakeTree(host, w, dir, segments[0]);
      var r := EnterOrMake(host, w, dir, segments[0]);
      if r.result.Ok? {
        MakeChainTree(host, r.world, r.result.value, segments[1..]);
      }
    }
  }

  lemma EnterOrMakeTree(host: Host, w: World, dir: Inode, name: string)
    requires Orderly(host) && IsTree(w.fs)
    ensures IsTree(EnterOrMake(host, w, dir, name).world.fs)
  {
    hide Orderly, IsTree, Openat, Mkdirat;
    OpenatTree(host, w, dir, name, Directory);
    var r := Openat(host, w, dir, name, Directory);
    MkdiratTree(host, r.world, dir, name);
    OpenatTree(host, Mkdirat(host, r.world, dir, name).world, dir, name, Directory);
  }

  lemma RenameTree(host: Host, w: World, root: Inode, fromRel: string, toRel: string)
    requires Orderly(host) && IsTree(w.fs)
    ensures IsTree(Rename(host, w, root, fromRel, toRel).world.fs)
  {
    hide Orderly, IsTree, Segments, Parent, Renameat;
    SegmentsAreComponents(fromRel);
    SegmentsAreComponents(toRel);
    if Segments(fromRel).Ok? && Segments(toRel).Ok? {
      var from, to := Segments(fromRel).value, Segments(toRel).value;
      assert from[|from| - 1] in from;
      ParentTree(host, w, root, from);
      var a := Parent(host, w, root, from);
      ParentTree(host, a.world, root, to);
      var b := Parent(host, a.world, root, to);
      if a.result.Ok? && b.result.Ok? {
        RenameatTree(host, b.world, a.result.value, from[|from| - 1], b.result.value, to[|to| - 1]);
      }
    }
  }

  lemma RequestTree(host: Host, w: World, root: Inode, q: Request)
    requires Orderly(host) && IsTree(w.fs)
    ensures IsTree(Perform(host, w, root, q).fs)
  {
    hide IsTree, Segments, Parent, Open, Unlinkat, WriteHandle, Rename, MakeChain;
    match q
    case ReadRequest(rel, maxBytes) => OpenTree(host, w, root, rel, Read);
    case WriteRequest(rel, data) =>
      OpenTree(host, w, root, rel, Create);
      var r := Open(host, w, root, rel, Create);
      if r.result.Ok? {
        WriteHandleTree(host, r.world, r.result.value, data);
      }
    case RemoveRequest(rel) =>
      SegmentsAreComponents(rel);
      if Segments(rel).Ok? {
        var segments := Segments(rel).value;
        ParentTree(host, w, root, segments);
        var r := Parent(host, w, root, segments);
        if r.result.Ok? {
          UnlinkatTree(host, r.world, r.result.value, segments[|segments| - 1]);
        }
      }
    case MkdirRequest(rel) =>
      if Segments(rel).Ok? {
        OpenRootTree(host, w, root);
        MakeChainTree(host, OpenRoot(host, w, root).world, root, Segments(rel).value);
      }
    case RenameRequest(rel, toRel) => RenameTree(host, w, root, rel, toRel);
  }

  /** Over any sequence of requests, under any interference that keeps the tree, directories stay a tree. */
  lemma {:induction false} KernelKeepsTree(host: Host, w: World, root: Inode, requests: seq<Request>)
    requires Orderly(host) && IsTree(w.fs)
    ensures IsTree(PerformAll(host, w, root, requests).fs)
    decreases |requests|
  {
    hide Orderly, IsTree, Perform;
    if requests != [] {
      RequestTree(host, w, root, requests[0]);
      KernelKeepsTree(host, Perform(host, w, root, requests[0]), root, requests[1..]);
    }
  }
}
