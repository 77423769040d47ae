/** The file kernel with nobody in its way: a path leads to exactly the inode it names, and what is
    written is what is read. */
module FileKernelQuiet {
  import opened Wrappers
  import opened FileSystem
  import opened FileTree
  import opened FileKernel

  /** The system can hold each of these names. */
  predicate Accepts(host: Host, segments: seq<string>) {
    forall s :: s in segments ==> host.refuses(s) == None
  }

  /** What may be opened so: no symbolic link, a directory or none as asked, and a special file if it agrees. */
  predicate Openable(host: Host, fs: Fs, n: Inode, last: OpenFlags)
    requires last != CreateTruncate
  {
    && n in fs && !fs[n].Symlink? && (last == Directory ==> fs[n].Dir?) && (last == ReadWrite ==> !fs[n].Dir?)
    && (fs[n].Special? ==> host.special(fs, n, Opening(last)) == None)
  }

  lemma QuietOpenat(host: Host, w: World, dir: Inode, name: string, flags: OpenFlags)
    requires Quiet(host) && Component(name) && dir in w.fs && w.fs[dir].Dir? && flags != CreateTruncate
    ensures var r := Openat(host, w, dir, name, flags);
            && r.world.fs == w.fs
            && (r.outcome.Done? <==> && host.refuses(name) == None && Named(w.fs, dir, [name]).Some?
                                     && Openable(host, w.fs, Named(w.fs, dir, [name]).value, flags))
            && (r.outcome.Done? ==> Named(w.fs, dir, [name]) == Some(r.outcome.value))
  {
    assert [name][1..] == [];
  }

  lemma NamedStep(fs: Fs, dir: Inode, segments: seq<string>)
    requires segments != []
    ensures Named(fs, dir, segments) ==
            match Named(fs, dir, [segments[0]]) { case None => None case Some(n) => Named(fs, n, segments[1..]) }
  {
    assert [segments[0]][1..] == [];
  }

  lemma AcceptsCons(host: Host, segments: seq<string>)
    requires segments != []
    ensures Accepts(host, segments) <==> host.refuses(segments[0]) == None && Accepts(host, segments[1..])
  {
    assert segments == [segments[0]] + segments[1..];
  }

  lemma AcceptsLast(host: Host, segments: seq<string>)
    requires segments != []
    ensures var n := |segments| - 1;
            Accepts(host, segments) <==> Accepts(host, segments[..n]) && host.refuses(segments[n]) == None
  {
    var n := |segments| - 1;
    assert segments == segments[..n] + [segments[n]];
  }

  lemma NotADirectoryEnds(fs: Fs, n: Inode, segments: seq<string>)
    requires segments != [] && !(n in fs && fs[n].Dir?)
    ensures Named(fs, n, segments) == None
  {
  }

  /** Walking opens the inode the segments name if there is one that may be opened so, and else nothing. */
  lemma {:induction false} WalkIsNamed(host: Host, w: World, dir: Inode, segments: seq<string>, last: OpenFlags,
      n: Inode)
    requires Quiet(host) && segments != [] && AllComponents(segments) && dir in w.fs && w.fs[dir].Dir?
    requires last != CreateTruncate
    ensures var r := Walk(host, w, dir, segments, last);
            && r.world.fs == w.fs
            && (r.result == Ok(n) <==> && Accepts(host, segments) && Named(w.fs, dir, segments) == Some(n)
                                       && Openable(host, w.fs, n, last))
    decreases |segments|
  {
    hide Quiet, Openat, Named;
    var flags := if |segments| == 1 then last else Directory;
    var r := Openat(host, w, dir, segments[0], flags);
    assert segments[0] in segments;
    QuietOpenat(host, w, dir, segments[0], flags);
    NamedStep(w.fs, dir, segments);
    AcceptsCons(host, segments);
    if |segments| == 1 {
      assert segments == [segments[0]];
    } else {
      var first := Named(w.fs, dir, [segments[0]]);
      if r.outcome.Done? {
        WalkIsNamed(host, r.world, r.outcome.value, segments[1..], last, n);
      } else if first.Some? && host.refuses(segments[0]) == None {
        NotADirectoryEnds(w.fs, first.value, segments[1..]);
      }
    }
  }

  /** With no interference the handle is exactly the inode that the segments name; a symbolic link in any
      place, or a wrong kind of file at the end, gives none. */
  lemma OpenIsNamed(host: Host, w: World, root: Inode, rel: string, mode: OpenMode, n: Inode)
    requires Quiet(host) && root in w.fs && w.fs[root].Dir? && mode != Create && Segments(rel).Ok?
    ensures var r := Open(host, w, root, rel, mode);
            && r.world.fs == w.fs
            && (r.result == Ok(n) <==>
                  && Accepts(host, Segments(rel).value) && Named(w.fs, root, Segments(rel).value) == Some(n)
                  && n in w.fs && !w.fs[n].Symlink? && (mode == Write ==> !w.fs[n].Dir?)
                  && (w.fs[n].Special? ==> host.special(w.fs, n, Opening(LastFlags(mode))) == None))
  {
    SegmentsAreComponents(rel);
    var w1 := OpenRoot(host, w, root).world;
    assert w1.fs == w.fs && OpenRoot(host, w, root).result == Ok(root);
    hide Quiet, Segments, OpenRoot;
    WalkIsNamed(host, w1, root, Segments(rel).value, LastFlags(mode), n);
  }

  // ----- writing -------------------------------------------------------------------------

  /** Directories have at least the entries they had, and every inode keeps its kind. */
  ghost predicate Extends(fs: Fs, fs': Fs) {
    forall x :: x in fs ==> x in fs' && SameKind(fs[x], fs'[x])
                            && (fs[x].Dir? ==> forall name :: name in fs[x].entries ==>
                                  name in fs'[x].entries && fs'[x].entries[name] == fs[x].entries[name])
  }

  /** Only the file `n`, and the entry that leads to it if it is new. */
  ghost predicate OnlyTouches(fs: Fs, fs': Fs, n: Inode, name: string) {
    && fs'.Keys == fs.Keys + {n}
    && forall x :: x in fs && x != n ==>
         || fs'[x] == fs[x]
         || (fs[x].Dir? && name !in fs[x].entries && fs'[x] == fs[x].(entries := fs[x].entries[name := n]))
  }

  lemma QuietCreate(host: Host, w: World, dir: Inode, name: string)
    requires Quiet(host) && Component(name) && dir in w.fs && w.fs[dir].Dir?
    requires forall x :: x in w.fs[dir].entries ==> w.fs[dir].entries[x] in w.fs
    ensures var r := Openat(host, w, dir, name, CreateTruncate);
            r.outcome.Done? ==>
              var n := r.outcome.value;
              && Named(r.world.fs, dir, [name]) == Some(n)
              && Extends(w.fs, r.world.fs) && OnlyTouches(w.fs, r.world.fs, n, name)
              && (r.world.fs[n].File? ==> r.world.fs[n].data == [])
  {
    assert [name][1..] == [];
    var r := Openat(host, w, dir, name, CreateTruncate);
    if r.outcome.Done? {
      var n := r.outcome.value;
      if name in w.fs[dir].entries {
        assert w.fs.Keys + {n} == w.fs.Keys;
      } else {
        assert n == host.alloc(w.fs) && n !in w.fs;
      }
    }
  }

  lemma NamedAhead(fs: Fs, fs': Fs, dir: Inode, name: string)
    requires Extends(fs, fs') && Named(fs, dir, [name]).Some?
    ensures Named(fs', dir, [name]) == Named(fs, dir, [name])
  {
    assert [name][1..] == [];
  }

  /** Creating through a walk: afterwards the path names the handle, an empty file unless it is a special
      one, and nothing else has changed. */
  lemma {:induction false} WalkCreates(host: Host, w: World, dir: Inode, segments: seq<string>)
    requires Quiet(host) && NoDangling(w.fs) && segments != [] && AllComponents(segments) && dir in w.fs
    requires w.fs[dir].Dir?
    ensures var r := Walk(host, w, dir, segments, CreateTruncate);
            r.result.Ok? ==>
              var n := r.result.value;
              && Named(r.world.fs, dir, segments) == Some(n)
              && Extends(w.fs, r.world.fs) && OnlyTouches(w.fs, r.world.fs, n, segments[|segments| - 1])
              && n in r.world.fs && (r.world.fs[n].File? ==> r.world.fs[n].data == [])
    decreases |segments|
  {
    hide Quiet, Openat, Named, Extends, OnlyTouches;
    assert segments[0] in segments;
    if |segments| == 1 {
      assert segments == [segments[0]];
      CreateFacts(host, w, dir, segments[0]);
    } else {
      QuietOpenat(host, w, dir, segments[0], Directory);
      var r := Openat(host, w, dir, segments[0], Directory);
      if r.outcome.Done? {
        WalkCreates(host, r.world, r.outcome.value, segments[1..]);
        var end := Walk(host, w, dir, segments, CreateTruncate);
        if end.result.Ok? {
          NamedAhead(w.fs, end.world.fs, dir, segments[0]);
          NamedStep(end.world.fs, dir, segments);
        }
      }
    }
  }

  lemma CreateFacts(host: Host, w: World, dir: Inode, name: string)
    requires Quiet(host) && NoDangling(w.fs) && Component(name) && dir in w.fs && w.fs[dir].Dir?
    ensures var r := Openat(host, w, dir, name, CreateTruncate);
            r.outcome.Done? ==>
              var n := r.outcome.value;
              && Named(r.world.fs, dir, [name]) == Some(n) && n in r.world.fs
              && Extends(w.fs, r.world.fs) && OnlyTouches(w.fs, r.world.fs, n, name)
              && (r.world.fs[n].File? ==> r.world.fs[n].data == [])
  {
    QuietCreate(host, w, dir, name);
  }

  lemma WriteData(fs: Fs, fs1: Fs, n: Inode, name: string, data: seq<byte>)
    requires Extends(fs, fs1) && OnlyTouches(fs, fs1, n, name) && n in fs1 && fs1[n].File?
    ensures Extends(fs, fs1[n := File(data)]) && OnlyTouches(fs, fs1[n := File(data)], n, name)
    ensures Extends(fs1, fs1[n := File(data)])
  {
    assert fs1[n := File(data)].Keys == fs1.Keys;
  }

  lemma {:induction false} NamedStays(fs: Fs, fs': Fs, dir: Inode, segments: seq<string>)
    requires Extends(fs, fs') && Named(fs, dir, segments).Some?
    ensures Named(fs', dir, segments) == Named(fs, dir, segments)
    decreases |segments|
  {
    if segments != [] {
      NamedStays(fs, fs', fs[dir].entries[segments[0]], segments[1..]);
    }
  }

  /** A successful write: the path then names one file (or a special file), the file holds the data, and
      everything else is as it was, up to the entry of a new file. */
  lemma WriteIsExact(host: Host, w: World, root: Inode, rel: string, data: seq<byte>) returns (n: Inode)
    requires Quiet(host) && NoDangling(w.fs) && root in w.fs && w.fs[root].Dir?
    requires WriteFile(host, w, root, rel, data).result.Ok?
    ensures Segments(rel).Ok? && Segments(rel).value != []
    ensures var fs := WriteFile(host, w, root, rel, data).world.fs;
            var segments := Segments(rel).value;
            && Named(fs, root, segments) == Some(n) && n in fs && Extends(w.fs, fs)
            && OnlyTouches(w.fs, fs, n, segments[|segments| - 1])
            && (fs[n].File? ==> fs[n].data == data)
  {
    hide Quiet, Segments, OpenRoot, Open, Named, Extends, OnlyTouches, WriteHandle;
    OpenCreates(host, w, root, rel);
    var r := Open(host, w, root, rel, Create);
    n := r.result.value;
    WriteHandleQuiet(host, r.world, n, data);
    if r.world.fs[n].File? {
      var segments := Segments(rel).value;
      WriteData(w.fs, r.world.fs, n, segments[|segments| - 1], data);
      NamedStays(r.world.fs, r.world.fs[n := File(data)], root, segments);
    }
  }

  /** Opening for writing: the handle is the empty file (or special file) that the path then names. */
  lemma OpenCreates(host: Host, w: World, root: Inode, rel: string)
    requires Quiet(host) && NoDangling(w.fs) && root in w.fs && w.fs[root].Dir?
    ensures var r := Open(host, w, root, rel, Create);
            r.result.Ok? ==>
              && Segments(rel).Ok? && Segments(rel).value != []
              && var n, segments := r.result.value, Segments(rel).value;
              && Named(r.world.fs, root, segments) == Some(n)
              && Extends(w.fs, r.world.fs) && OnlyTouches(w.fs, r.world.fs, n, segments[|segments| - 1])
              && n in r.world.fs && (r.world.fs[n].File? ==> r.world.fs[n].data == [])
  {
    SegmentsAreComponents(rel);
    if Segments(rel).Ok? {
      var w1 := OpenRoot(host, w, root).world;
      assert w1.fs == w.fs && OpenRoot(host, w, root).result == Ok(root);
      hide Quiet, Segments, OpenRoot, Walk, Named, Extends, OnlyTouches;
      WalkCreates(host, w1, root, Segments(rel).value);
    }
  }

  lemma WriteHandleQuiet(host: Host, w: World, n: Inode, data: seq<byte>)
    requires Quiet(host) && n in w.fs && (w.fs[n].File? ==> w.fs[n].data == [])
    ensures WriteHandle(host, w, n, data).world.fs == if w.fs[n].File? then w.fs[n := File(data)] else w.fs
  {
    if w.fs[n].File? {
      assert Overwritten([], data) == data;
    }
  }

  /** Reading gives the bytes of the regular file the path names; anything else is refused. */
  lemma ReadIsNamed(host: Host, w: World, root: Inode, rel: string, maxBytes: nat, data: seq<byte>)
    requires Quiet(host) && root in w.fs && w.fs[root].Dir? && Segments(rel).Ok?
    ensures var r := ReadFile(host, w, root, rel, maxBytes);
            var named := Named(w.fs, root, Segments(rel).value);
            r.result == Ok(data) <==>
            && Accepts(host, Segments(rel).value)
            && named.Some? && named.value in w.fs && w.fs[named.value] == File(data) && |data| <= maxBytes
  {
    var r := Open(host, w, root, rel, Read);
    var named := Named(w.fs, root, Segments(rel).value);
    if r.result.Ok? {
      OpenIsNamed(host, w, root, rel, Read, r.result.value);
    } else if named.Some? {
      OpenIsNamed(host, w, root, rel, Read, named.value);
    }
    hide Named, Open, Segments;
  }

  /** What is written is what is read. */
  lemma WriteThenRead(host: Host, w: World, root: Inode, rel: string, data: seq<byte>, maxBytes: nat)
    requires Quiet(host) && NoDangling(w.fs) && root in w.fs && w.fs[root].Dir?
    requires WriteFile(host, w, root, rel, data).result.Ok? && |data| <= maxBytes
    ensures var w' := WriteFile(host, w, root, rel, data).world;
            var named := Named(w'.fs, root, Segments(rel).value);
            named.Some? && named.value in w'.fs
            && (ReadFile(host, w', root, rel, maxBytes).result == Ok(data) <==> w'.fs[named.value].File?)
  {
    hide WriteFile, ReadFile, Named, Segments, Quiet, OnlyTouches, NoDangling, Accepts, Holder;
    var n := WriteIsExact(host, w, root, rel, data);
    WriteSucceedsExactly(host, w, root, rel, data);
    var w' := WriteFile(host, w, root, rel, data).world;
    assert root in w'.fs && w'.fs[root].Dir?;
    ReadIsNamed(host, w', root, rel, maxBytes, data);
  }

  // ----- removing and moving -------------------------------------------------------------

  lemma ParentIsNamed(host: Host, w: World, root: Inode, segments: seq<string>, p: Inode)
    requires Quiet(host) && root in w.fs && w.fs[root].Dir? && segments != [] && AllComponents(segments)
    ensures var r := Parent(host, w, root, segments);
            && r.world.fs == w.fs
            && (r.result == Ok(p) <==> && Accepts(host, segments[..|segments| - 1])
                                       && Named(w.fs, root, segments[..|segments| - 1]) == Some(p)
                                       && p in w.fs && w.fs[p].Dir?)
  {
    var w1 := OpenRoot(host, w, root).world;
    assert w1.fs == w.fs && OpenRoot(host, w, root).result == Ok(root);
    hide Quiet, OpenRoot;
    if |segments| > 1 {
      WalkIsNamed(host, w1, root, segments[..|segments| - 1], Directory, p);
    }
  }

  /** The directory that holds the last segment, if the path leads to one. */
  function Holder(fs: Fs, root: Inode, segments: seq<string>): Option<Inode>
    requires segments != []
  {
    var p := Named(fs, root, segments[..|segments| - 1]);
    if p.Some? && p.value in fs && fs[p.value].Dir? then p else None
  }

  lemma ParentIsHolder(host: Host, w: World, root: Inode, segments: seq<string>)
    requires Quiet(host) && root in w.fs && w.fs[root].Dir? && segments != [] && AllComponents(segments)
    ensures var r := Parent(host, w, root, segments);
            && r.world.fs == w.fs
            && match Holder(w.fs, root, segments) {
                 case None => r.result.Err?
                 case Some(p) => if Accepts(host, segments[..|segments| - 1]) then r.result == Ok(p) else r.result.Err?
               }
  {
    hide Quiet, Named, Parent;
    var r := Parent(host, w, root, segments);
    var p := Holder(w.fs, root, segments);
    if r.result.Ok? {
      ParentIsNamed(host, w, root, segments, r.result.value);
    }
    ParentIsNamed(host, w, root, segments, if p.Some? then p.value else root);
  }

  /** Removing succeeds exactly when the path names something that is no directory - a symbolic link is
      removed itself - and then takes away that one entry and nothing else. */
  lemma RemoveIsExact(host: Host, w: World, root: Inode, rel: string)
    requires Quiet(host) && NoDangling(w.fs) && root in w.fs && w.fs[root].Dir? && Segments(rel).Ok?
    requires Segments(rel).value != []
    ensures var r := Remove(host, w, root, rel);
            var segments := Segments(rel).value;
            var name := segments[|segments| - 1];
            var p := Holder(w.fs, root, segments);
            && (r.result.Ok? <==> && Accepts(host, segments)
                                  && p.Some? && name in w.fs[p.value].entries
                                  && !w.fs[w.fs[p.value].entries[name]].Dir?)
            && r.world.fs == if r.result.Ok? then Unlink(w.fs, p.value, name) else w.fs
  {
    SegmentsAreComponents(rel);
    var segments := Segments(rel).value;
    hide Segments, Parent, Holder, NoDangling;
    ParentIsHolder(host, w, root, segments);
    assert segments[|segments| - 1] in segments;
    AcceptsLast(host, segments);
    if Holder(w.fs, root, segments).Some? {
      HolderIsDirectory(w.fs, root, segments);
      UnlinkatQuiet(host, Parent(host, w, root, segments).world, Holder(w.fs, root, segments).value,
          segments[|segments| - 1]);
    }
  }

  lemma HolderIsDirectory(fs: Fs, root: Inode, segments: seq<string>)
    requires segments != [] && Holder(fs, root, segments).Some?
    ensures Holder(fs, root, segments).value in fs && fs[Holder(fs, root, segments).value].Dir?
  {
  }

  lemma UnlinkatQuiet(host: Host, w: World, dir: Inode, name: string)
    requires Quiet(host) && NoDangling(w.fs) && dir in w.fs && w.fs[dir].Dir? && Component(name)
    ensures var r := Unlinkat(host, w, dir, name);
            && (r.outcome.Done? <==>
                  host.refuses(name) == None && name in w.fs[dir].entries && !w.fs[w.fs[dir].entries[name]].Dir?)
            && r.world.fs == if r.outcome.Done? then Unlink(w.fs, dir, name) else w.fs
  {
  }

  /** A successful move takes the entry from where it was to where it goes, and changes nothing else but
      the parent of a moved directory; moving something onto itself changes nothing. */
  lemma RenameIsExact(host: Host, w: World, root: Inode, fromRel: string, toRel: string)
    requires Quiet(host) && NoDangling(w.fs) && root in w.fs && w.fs[root].Dir?
    requires Rename(host, w, root, fromRel, toRel).result.Ok?
    ensures Segments(fromRel).Ok? && Segments(toRel).Ok? && Segments(fromRel).value != [] && Segments(toRel).value != []
    ensures var from, to := Segments(fromRel).value, Segments(toRel).value;
            var name, newName := from[|from| - 1], to[|to| - 1];
            var p, q := Holder(w.fs, root, from), Holder(w.fs, root, to);
            var fs := Rename(host, w, root, fromRel, toRel).world.fs;
            && p.Some? && q.Some? && name in w.fs[p.value].entries
            && var n := w.fs[p.value].entries[name];
               fs == if newName in w.fs[q.value].entries && w.fs[q.value].entries[newName] == n then w.fs
                     else Moved(w.fs, p.value, name, q.value, newName, n)
  {
    SegmentsAreComponents(fromRel);
    SegmentsAreComponents(toRel);
    var from, to := Segments(fromRel).value, Segments(toRel).value;
    assert from[|from| - 1] in from && to[|to| - 1] in to;
    hide Segments, Parent, Holder, NoDangling, Moved, Renameat;
    ParentIsHolder(host, w, root, from);
    var a := Parent(host, w, root, from);
    ParentIsHolder(host, a.world, root, to);
    var b := Parent(host, a.world, root, to);
    HolderIsDirectory(w.fs, root, from);
    HolderIsDirectory(w.fs, root, to);
    RenameatQuiet(host, b.world, a.result.value, from[|from| - 1], b.result.value, to[|to| - 1]);
  }

  lemma RenameatQuiet(host: Host, w: World, from: Inode, name: string, to: Inode, newName: string)
    requires Quiet(host) && NoDangling(w.fs) && Component(name) && Component(newName)
    requires from in w.fs && w.fs[from].Dir? && to in w.fs && w.fs[to].Dir?
    ensures var r := Renameat(host, w, from, name, to, newName);
            r.outcome.Done? ==>
              && name in w.fs[from].entries
              && var n := w.fs[from].entries[name];
                 r.world.fs == if newName in w.fs[to].entries && w.fs[to].entries[newName] == n then w.fs
                               else Moved(w.fs, from, name, to, newName, n)
  {
    hide Moved;
  }

  // ----- when they succeed ---------------------------------------------------------------

  /** A walk is the walk to the last directory, and one more call. */
  lemma {:induction false} WalkEndsWith(host: Host, w: World, dir: Inode, segments: seq<string>, last: OpenFlags)
    requires segments != []
    ensures var n := |segments| - 1;
            var r := Walk(host, w, dir, segments[..n], Directory);
            Walk(host, w, dir, segments, last) ==
            match r.result
            case Err(e) => r
            case Ok(p) =>
              var o := Openat(host, r.world, p, segments[n], last);
              match o.outcome
              case Failed(e) => Answer(o.world, Err(MapErrno(e, segments[n])))
              case Done(m) => Answer(o.world, Ok(m))
    decreases |segments|
  {
    hide Openat, MapErrno;
    var n := |segments| - 1;
    if n == 0 {
      assert segments[..0] == [] && segments[1..] == [];
    } else {
      var r := Openat(host, w, dir, segments[0], Directory);
      if r.outcome.Done? {
        WalkEndsWith(host, r.world, r.outcome.value, segments[1..], last);
        assert segments[1..][..n - 1] == segments[..n][1..];
        assert segments[..n][0] == segments[0];
      }
    }
  }

  /** Something a write may replace: a regular file, or a special file that agrees to be opened and, if
      there is anything to write, written. */
  predicate Writable(host: Host, fs: Fs, n: Inode, data: seq<byte>) {
    && n in fs && !fs[n].Symlink? && !fs[n].Dir?
    && (fs[n].Special? ==> && host.special(fs, n, Opening(CreateTruncate)) == None
                           && (data != [] ==> host.special(fs, n, Writing) == None))
  }

  /** Writing succeeds if and only if the system can hold the names, the path leads to a directory, and its
      last segment names nothing there, or something writable. A refusal changes nothing. */
  lemma WriteSucceedsExactly(host: Host, w: World, root: Inode, rel: string, data: seq<byte>)
    requires Quiet(host) && NoDangling(w.fs) && root in w.fs && w.fs[root].Dir?
    ensures WriteFile(host, w, root, rel, data).result.Ok? <==>
            && Segments(rel).Ok? && Segments(rel).value != [] && Accepts(host, Segments(rel).value)
            && var segments := Segments(rel).value;
               var name, p := segments[|segments| - 1], Holder(w.fs, root, segments);
               p.Some? && (name in w.fs[p.value].entries ==> Writable(host, w.fs, w.fs[p.value].entries[name], data))
    ensures WriteFile(host, w, root, rel, data).result.Err? ==> WriteFile(host, w, root, rel, data).world.fs == w.fs
  {
    SegmentsAreComponents(rel);
    if Segments(rel).Ok? {
      var segments := Segments(rel).value;
      var w1 := OpenRoot(host, w, root).world;
      assert OpenRoot(host, w, root).result == Ok(root);
      hide Segments, Holder, OpenRoot, NoDangling, WriteHandle;
      assert segments[|segments| - 1] in segments;
      ParentIsHolder(host, w, root, segments);
      AcceptsLast(host, segments);
      WalkEndsWith(host, w1, root, segments, CreateTruncate);
      var r := Parent(host, w, root, segments);
      if r.result.Ok? {
        HolderIsDirectory(w.fs, root, segments);
        CreateSucceeds(host, r.world, r.result.value, segments[|segments| - 1]);
      }
      var o := Open(host, w, root, rel, Create);
      if o.result.Ok? {
        WriteHandleSucceeds(host, o.world, o.result.value, data);
      }
    }
  }

  /** Opening for writing: a new file, an old one, or a special file that agrees. */
  lemma CreateSucceeds(host: Host, w: World, dir: Inode, name: string)
    requires Quiet(host) && NoDangling(w.fs) && Component(name) && dir in w.fs && w.fs[dir].Dir?
    ensures var r := Openat(host, w, dir, name, CreateTruncate);
            && (r.outcome.Done? <==> && host.refuses(name) == None
                                     && (name in w.fs[dir].entries ==>
                                           Writable(host, w.fs, w.fs[dir].entries[name], [])))
            && (r.outcome.Done? ==>
                  if name in w.fs[dir].entries && w.fs[w.fs[dir].entries[name]].Special? then
                    r.outcome.value == w.fs[dir].entries[name] && r.world.fs == w.fs
                  else r.outcome.value in r.world.fs && r.world.fs[r.outcome.value].File?)
            && (r.outcome.Failed? ==> r.world.fs == w.fs)
  {
  }

  lemma WriteHandleSucceeds(host: Host, w: World, n: Inode, data: seq<byte>)
    requires Quiet(host)
    ensures WriteHandle(host, w, n, data).outcome.Done? <==>
            !(n in w.fs && w.fs[n].Special? && data != [] && host.special(w.fs, n, Writing).Some?)
    ensures WriteHandle(host, w, n, data).outcome.Failed? ==> WriteHandle(host, w, n, data).world.fs == w.fs
  {
  }

  /** Moving `n` onto an entry: nothing there, itself, an empty directory under a directory, or no
      directory under something that is none. */
  predicate MayReplace(fs: Fs, n: Inode, to: Inode, newName: string)
    requires n in fs && to in fs && fs[to].Dir?
  {
    newName in fs[to].entries && fs[to].entries[newName] in fs ==>
      var m := fs[to].entries[newName];
      m == n || (fs[n].Dir? && fs[m].Dir? && fs[m].entries == map[]) || (!fs[n].Dir? && !fs[m].Dir?)
  }

  /** Renaming succeeds if and only if the system can hold the names, both paths lead to directories, the
      first one names something there, that may replace what the second one names, and no directory moves to
      where it lies below itself. A refusal changes nothing. */
  lemma RenameSucceedsExactly(host: Host, w: World, root: Inode, fromRel: string, toRel: string)
    requires Quiet(host) && NoDangling(w.fs) && root in w.fs && w.fs[root].Dir?
    ensures Rename(host, w, root, fromRel, toRel).result.Ok? <==>
            && Segments(fromRel).Ok? && Segments(toRel).Ok?
            && Segments(fromRel).value != [] && Segments(toRel).value != []
            && var from, to := Segments(fromRel).value, Segments(toRel).value;
               var name, newName := from[|from| - 1], to[|to| - 1];
               var p, q := Holder(w.fs, root, from), Holder(w.fs, root, to);
               && Accepts(host, from) && Accepts(host, to)
               && p.Some? && q.Some? && name in w.fs[p.value].entries && w.fs[p.value].entries[name] in w.fs
               && var n := w.fs[p.value].entries[name];
                  MayReplace(w.fs, n, q.value, newName) && !(w.fs[n].Dir? && Leads(w.fs, n, q.value))
    ensures Rename(host, w, root, fromRel, toRel).result.Err? ==> Rename(host, w, root, fromRel, toRel).world.fs == w.fs
  {
    hide Segments, Parent, Holder, NoDangling, Renameat, MayReplace, Accepts, Quiet;
    SegmentsAreComponents(fromRel);
    SegmentsAreComponents(toRel);
    if Segments(fromRel).Ok? && Segments(toRel).Ok? {
      var from, to := Segments(fromRel).value, Segments(toRel).value;
      assert from[|from| - 1] in from && to[|to| - 1] in to;
      ParentIsHolder(host, w, root, from);
      AcceptsLast(host, from);
      AcceptsLast(host, to);
      var a := Parent(host, w, root, from);
      ParentIsHolder(host, a.world, root, to);
      var b := Parent(host, a.world, root, to);
      if a.result.Ok? && b.result.Ok? {
        HolderIsDirectory(w.fs, root, from);
        HolderIsDirectory(w.fs, root, to);
        RenameatSucceeds(host, b.world, a.result.value, from[|from| - 1], b.result.value, to[|to| - 1]);
      }
    }
  }

  /** In a tree the last condition is one on the path: it does not go through the directory it moves. */
  lemma RenameInTreeExactly(host: Host, w: World, root: Inode, fromRel: string, toRel: string)
    requires Quiet(host) && IsTree(w.fs) && root in w.fs && w.fs[root].Dir?
    ensures Rename(host, w, root, fromRel, toRel).result.Ok? <==>
            && Segments(fromRel).Ok? && Segments(toRel).Ok?
            && Segments(fromRel).value != [] && Segments(toRel).value != []
            && var from, to := Segments(fromRel).value, Segments(toRel).value;
               var name, newName := from[|from| - 1], to[|to| - 1];
               var p, q := Holder(w.fs, root, from), Holder(w.fs, root, to);
               && Accepts(host, from) && Accepts(host, to)
               && p.Some? && q.Some? && name in w.fs[p.value].entries && w.fs[p.value].entries[name] in w.fs
               && var n := w.fs[p.value].entries[name];
                  && MayReplace(w.fs, n, q.value, newName)
                  && !(w.fs[n].Dir? && exists k :: 0 <= k < |to| && Named(w.fs, root, to[..k]) == Some(n))
  {
    hide Quiet, Segments, Accepts, MayReplace, Rename, Leads;
    RenameSucceedsExactly(host, w, root, fromRel, toRel);
    if Segments(fromRel).Ok? && Segments(toRel).Ok? && Segments(fromRel).value != [] && Segments(toRel).value != [] {
      var from, to := Segments(fromRel).value, Segments(toRel).value;
      var p, q := Holder(w.fs, root, from), Holder(w.fs, root, to);
      if p.Some? && q.Some? && from[|from| - 1] in w.fs[p.value].entries {
        HeldIsNamed(w.fs, root, from);
        ThroughHolder(w.fs, root, from, w.fs[p.value].entries[from[|from| - 1]], to);
      }
    }
  }

  /** What the holder lists under the last segment is what the path names. */
  lemma HeldIsNamed(fs: Fs, root: Inode, segments: seq<string>)
    requires NoDangling(fs) && segments != [] && Holder(fs, root, segments).Some?
    ensures var p, name := Holder(fs, root, segments).value, segments[|segments| - 1];
            name in fs[p].entries ==> Named(fs, root, segments) == Some(fs[p].entries[name])
  {
    var k := |segments| - 1;
    assert segments == segments[..k] + [segments[k]];
    NamedAppend(fs, root, segments[..k], [segments[k]]);
    assert [segments[k]][1..] == [];
  }

  lemma ThroughHolder(fs: Fs, root: Inode, from: seq<string>, n: Inode, to: seq<string>)
    requires IsTree(fs) && from != [] && Named(fs, root, from) == Some(n) && to != [] && Holder(fs, root, to).Some?
    ensures Leads(fs, n, Holder(fs, root, to).value) <==>
            exists k :: 0 <= k < |to| && Named(fs, root, to[..k]) == Some(n)
  {
    hide IsTree, Leads, Named;
    var up := to[..|to| - 1];
    ThroughExactly(fs, root, from, n, up, Holder(fs, root, to).value);
    forall k | 0 <= k < |to| ensures up[..k] == to[..k] {
    }
    if k :| 0 <= k < |to| && Named(fs, root, to[..k]) == Some(n) {
      assert Named(fs, root, up[..k]) == Some(n);
    }
    if k :| 0 <= k <= |up| && Named(fs, root, up[..k]) == Some(n) {
      assert Named(fs, root, to[..k]) == Some(n);
    }
  }

  /** So moving the directory "a" to "a/b" is refused, and nothing moves. */
  lemma IntoItselfIsRefused(host: Host)
    requires Quiet(host)
    ensures var fs: Fs := map[0 := Dir(map["a" := 1], 0), 1 := Dir(map[], 0)];
            var r := Rename(host, World(fs, {0, 1}, []), 0, "a", "a/b");
            r.result.Err? && r.world.fs == fs
  {
    hide Rename, Segments, Quiet, Accepts, MayReplace;
    var fs: Fs := map[0 := Dir(map["a" := 1], 0), 1 := Dir(map[], 0)];
    SegmentsOfTwo('b');
    assert "a/" + ['b'] == "a/b";
    RenameSucceedsExactly(host, World(fs, {0, 1}, []), 0, "a", "a/b");
    assert Named(fs, 1, []) == Some(1);
    assert ["a"][..0] == [] && ["a", "b"][..1] == ["a"] && ["a"][1..] == [];
    assert Named(fs, 0, ["a"]) == Some(1);
  }

  lemma SegmentsOfTwo(c: char)
    requires !IsSeparator(c) && c != '.'
    ensures Segments("a") == Ok(["a"]) && Segments("a/" + [c]) == Ok(["a", [c]])
  {
    var rel := "a/" + [c];
    assert PieceLength("a") == PieceLength([c]) == PieceLength(rel) == 1;
    assert rel[..1] == "a" && rel[2..] == [c];
    assert Pieces("a") == ["a"] && Pieces(rel) == ["a"] + Pieces([c]) == ["a", [c]];
    assert ["a"][1..] == [] && ["a", [c]][1..] == [[c]] && [[c]][1..] == [];
    assert Kept([[c]]) == [[c]] && Kept(["a"]) == ["a"] && Kept(["a", [c]]) == ["a"] + Kept([[c]]);
  }

  lemma RenameatSucceeds(host: Host, w: World, from: Inode, name: string, to: Inode, newName: string)
    requires Quiet(host) && NoDangling(w.fs) && Component(name) && Component(newName)
    requires from in w.fs && w.fs[from].Dir? && to in w.fs && w.fs[to].Dir?
    ensures Renameat(host, w, from, name, to, newName).outcome.Done? <==>
            && host.refuses(name) == None && host.refuses(newName) == None
            && name in w.fs[from].entries && w.fs[from].entries[name] in w.fs
            && var n := w.fs[from].entries[name];
               MayReplace(w.fs, n, to, newName) && !(w.fs[n].Dir? && Leads(w.fs, n, to))
    ensures var r := Renameat(host, w, from, name, to, newName); r.outcome.Failed? ==> r.world.fs == w.fs
  {
    hide Moved, Below, Leads;
    if name in w.fs[from].entries && w.fs[from].entries[name] in w.fs {
      BelowExactly(w.fs, w.fs[from].entries[name], to);
    }
  }

  // ----- making directories --------------------------------------------------------------

  /** Nothing that was there is changed but for new entries that lead to new inodes. */
  ghost predicate OnlyAdds(fs: Fs, fs': Fs) {
    && Extends(fs, fs')
    && forall x :: x in fs ==> fs'[x] == fs[x] || (fs[x].Dir? && fs'[x].Dir? && fs'[x].up == fs[x].up
                               && forall name :: name in fs'[x].entries && name !in fs[x].entries ==>
                                  fs'[x].entries[name] !in fs)
  }

  lemma OnlyAddsSame(fs: Fs)
    ensures OnlyAdds(fs, fs)
  {
  }

  lemma OnlyAddsTrans(a: Fs, b: Fs, c: Fs)
    requires OnlyAdds(a, b) && OnlyAdds(b, c)
    ensures OnlyAdds(a, c)
  {
    forall x | x in a
      ensures c[x] == a[x] || (a[x].Dir? && c[x].Dir? && c[x].up == a[x].up
                               && forall name :: name in c[x].entries && name !in a[x].entries ==>
                                  c[x].entries[name] !in a)
    {
      assert x in b;
    }
  }

  /** Entering a directory that is there, making one that is missing, or refusing anything else. */
  lemma EnterOrMakeQuiet(host: Host, w: World, dir: Inode, name: string)
    requires Quiet(host) && NoDangling(w.fs) && Component(name) && dir in w.fs && w.fs[dir].Dir?
    requires host.linkAsDirectory != NOENT
    ensures var r := EnterOrMake(host, w, dir, name);
            if host.refuses(name).Some? then r.result.Err? && r.world.fs == w.fs
            else if name in w.fs[dir].entries then
              && r.world.fs == w.fs
              && (r.result.Ok? <==> w.fs[w.fs[dir].entries[name]].Dir?)
              && (r.result.Ok? ==> r.result.value == w.fs[dir].entries[name])
            else
              && r.result.Ok? && r.result.value !in w.fs
              && r.world.fs == Link(w.fs, dir, name, r.result.value)[r.result.value := Dir(map[], dir)]
    ensures var r := EnterOrMake(host, w, dir, name);
            r.result.Ok? ==> r.result.value in r.world.fs && r.world.fs[r.result.value].Dir?
  {
    var n := host.alloc(w.fs);
    assert n !in w.fs;
    var made := Link(w.fs, dir, name, n)[n := Dir(map[], dir)];
    assert made[dir].Dir? && made[dir].entries[name] == n;
  }

  lemma MadeAdds(fs: Fs, dir: Inode, name: string, n: Inode)
    requires NoDangling(fs) && dir in fs && fs[dir].Dir? && name !in fs[dir].entries && n !in fs
    ensures var made := Link(fs, dir, name, n)[n := Dir(map[], dir)];
            OnlyAdds(fs, made) && NoDangling(made) && n in made && made[n] == Dir(map[], dir)
  {
    var made := Link(fs, dir, name, n)[n := Dir(map[], dir)];
    forall d, x | d in made && made[d].Dir? && x in made[d].entries ensures made[d].entries[x] in made {
      if d != n && !(d == dir && x == name) {
        assert x in fs[d].entries && made[d].entries[x] == fs[d].entries[x];
      }
    }
  }

  /** What is there already on the way is a directory. */
  predicate Passable(fs: Fs, dir: Inode, segments: seq<string>)
    decreases |segments|
  {
    segments == []
    || !(dir in fs && fs[dir].Dir? && segments[0] in fs[dir].entries && fs[dir].entries[segments[0]] in fs)
    || (fs[fs[dir].entries[segments[0]]].Dir? && Passable(fs, fs[dir].entries[segments[0]], segments[1..]))
  }

  /** So it is if and only if every part of the path that names something names a directory. */
  lemma {:induction false} PassableExactly(fs: Fs, dir: Inode, segments: seq<string>)
    requires dir in fs && fs[dir].Dir?
    ensures Passable(fs, dir, segments) <==>
            forall k :: 0 <= k <= |segments| && Named(fs, dir, segments[..k]).Some? ==>
                IsDirectory(fs, Named(fs, dir, segments[..k]).value)
    decreases |segments|
  {
    if segments != [] && segments[0] in fs[dir].entries && fs[dir].entries[segments[0]] in fs {
      var next := fs[dir].entries[segments[0]];
      forall k | 0 < k <= |segments| ensures Named(fs, dir, segments[..k]) == Named(fs, next, segments[1..][..k - 1]) {
        assert segments[..k][1..] == segments[1..][..k - 1];
      }
      if fs[next].Dir? {
        PassableExactly(fs, next, segments[1..]);
        forall k | 0 <= k < |segments|
          ensures Named(fs, next, segments[1..][..k]) == Named(fs, dir, segments[..k + 1])
        {
          assert segments[1..][..k] == segments[1..][..k + 1 - 1];
        }
      } else {
        assert Named(fs, dir, segments[..1]) == Named(fs, next, segments[1..][..0]);
      }
    } else {
      forall k | 0 <= k <= |segments| && Named(fs, dir, segments[..k]).Some? ensures k == 0 {
      }
    }
  }

  predicate IsDirectory(fs: Fs, n: Inode) {
    n in fs && fs[n].Dir?
  }

  /** How many of the names come before the first one that the system cannot hold. */
  function Holdable(host: Host, segments: seq<string>): (m: nat)
    ensures m <= |segments| && (m < |segments| <==> !Accepts(host, segments))
  {
    if segments == [] then 0
    else
      AcceptsCons(host, segments);
      if host.refuses(segments[0]).Some? then 0 else 1 + Holdable(host, segments[1..])
  }

  /** Making a chain of directories: if it succeeds the path names a directory; either way nothing that was
      there has changed. In an empty directory it succeeds if the system can hold the names. */
  lemma {:induction false} MakeChainQuiet(host: Host, w: World, dir: Inode, segments: seq<string>)
    requires Quiet(host) && NoDangling(w.fs) && AllComponents(segments) && dir in w.fs && w.fs[dir].Dir?
    requires host.linkAsDirectory != NOENT
    ensures var r := MakeChain(host, w, dir, segments);
            && OnlyAdds(w.fs, r.world.fs)
            && if r.result.Ok? then
                 && Named(r.world.fs, dir, segments).Some?
                 && Named(r.world.fs, dir, segments).value in r.world.fs
                 && r.world.fs[Named(r.world.fs, dir, segments).value].Dir?
               else Accepts(host, segments) ==> r.world.fs == w.fs && w.fs[dir].entries != map[]
    decreases |segments|
  {
    hide Quiet, EnterOrMake, NoDangling, OnlyAdds, Accepts;
    OnlyAddsSame(w.fs);
    if segments != [] {
      var name := segments[0];
      assert name in segments;
      AcceptsCons(host, segments);
      EnterOrMakeQuiet(host, w, dir, name);
      var r := EnterOrMake(host, w, dir, name);
      if r.result.Ok? {
        if name !in w.fs[dir].entries {
          MadeAdds(w.fs, dir, name, r.result.value);
        }
        MakeChainQuiet(host, r.world, r.result.value, segments[1..]);
        var end := MakeChain(host, w, dir, segments);
        OnlyAddsTrans(w.fs, r.world.fs, end.world.fs);
        if end.result.Ok? {
          EntryStays(r.world.fs, end.world.fs, dir, name);
        }
      }
    }
  }

  lemma EntryStays(fs: Fs, fs': Fs, dir: Inode, name: string)
    requires OnlyAdds(fs, fs') && dir in fs && fs[dir].Dir? && name in fs[dir].entries && fs[dir].entries[name] in fs
    ensures dir in fs' && fs'[dir].Dir? && name in fs'[dir].entries && fs'[dir].entries[name] == fs[dir].entries[name]
    ensures fs[dir].entries[name] in fs'
  {
  }

  /** A chain of directories can be made if and only if the system can hold the names and what is there
      already on the way is a directory. */
  lemma {:induction false} MakeChainSucceeds(host: Host, w: World, dir: Inode, segments: seq<string>)
    requires Quiet(host) && NoDangling(w.fs) && AllComponents(segments) && dir in w.fs && w.fs[dir].Dir?
    requires host.linkAsDirectory != NOENT
    ensures MakeChain(host, w, dir, segments).result.Ok? <==> Accepts(host, segments) && Passable(w.fs, dir, segments)
    decreases |segments|
  {
    hide Quiet, EnterOrMake, OnlyAdds, Accepts;
    if segments == [] {
      assert Accepts(host, segments) by { NoneRefused(host); }
    } else {
      var name := segments[0];
      assert name in segments;
      AcceptsCons(host, segments);
      EnterOrMakeQuiet(host, w, dir, name);
      var r := EnterOrMake(host, w, dir, name);
      if r.result.Ok? {
        if name in w.fs[dir].entries {
          assert w.fs[dir].entries[name] in w.fs;
        } else {
          MadeAdds(w.fs, dir, name, r.result.value);
        }
        MakeChainSucceeds(host, r.world, r.result.value, segments[1..]);
      }
    }
  }

  lemma NoneRefused(host: Host)
    ensures Accepts(host, [])
  {
  }

  /** Directories are left behind by a failure: the names up to the first one that the system cannot hold
      lead through directories, and not all the way. */
  predicate LeftBehind(host: Host, fs: Fs, dir: Inode, segments: seq<string>) {
    var m := Holdable(host, segments);
    m < |segments| && Passable(fs, dir, segments[..m]) && Named(fs, dir, segments[..m]) == None
  }

  lemma LeftBehindCons(host: Host, fs: Fs, dir: Inode, segments: seq<string>)
    requires segments != [] && host.refuses(segments[0]) == None && NoDangling(fs) && dir in fs && fs[dir].Dir?
    ensures LeftBehind(host, fs, dir, segments) <==>
            if segments[0] !in fs[dir].entries then !Accepts(host, segments[1..])
            else
              && fs[fs[dir].entries[segments[0]]].Dir?
              && LeftBehind(host, fs, fs[dir].entries[segments[0]], segments[1..])
  {
    hide Accepts;
    AcceptsCons(host, segments);
    var m := Holdable(host, segments);
    assert m == 1 + Holdable(host, segments[1..]);
    assert segments[..m][0] == segments[0] && segments[..m][1..] == segments[1..][..m - 1];
  }

  /** A failure changes something if and only if it leaves directories behind. */
  lemma {:induction false} MakeChainFails(host: Host, w: World, dir: Inode, segments: seq<string>)
    requires Quiet(host) && NoDangling(w.fs) && AllComponents(segments) && dir in w.fs && w.fs[dir].Dir?
    requires host.linkAsDirectory != NOENT && MakeChain(host, w, dir, segments).result.Err?
    ensures MakeChain(host, w, dir, segments).world.fs != w.fs <==> LeftBehind(host, w.fs, dir, segments)
    decreases |segments|
  {
    hide Quiet, EnterOrMake, OnlyAdds, Accepts, LeftBehind;
    var name := segments[0];
    assert name in segments;
    EnterOrMakeQuiet(host, w, dir, name);
    var r := EnterOrMake(host, w, dir, name);
    if host.refuses(name).Some? {
      NotLeftBehind(host, w.fs, dir, segments);
    } else {
      LeftBehindCons(host, w.fs, dir, segments);
      if name in w.fs[dir].entries {
        assert w.fs[dir].entries[name] in w.fs;
        if r.result.Ok? {
          MakeChainFails(host, r.world, r.result.value, segments[1..]);
        }
      } else {
        MadeAdds(w.fs, dir, name, r.result.value);
        MakeChainQuiet(host, r.world, r.result.value, segments[1..]);
        EntryStays(r.world.fs, MakeChain(host, w, dir, segments).world.fs, dir, name);
      }
    }
  }

  lemma NotLeftBehind(host: Host, fs: Fs, dir: Inode, segments: seq<string>)
    requires segments != [] && host.refuses(segments[0]).Some?
    ensures !LeftBehind(host, fs, dir, segments)
  {
    assert segments[..0] == [];
  }

  /** Making a directory: it succeeds if and only if the system can hold the names and every part of the path
      that names something names a directory. Then the path names a directory. Either way nothing that was
      there has changed, and a failure makes nothing, unless a name that the system cannot hold comes after
      one that was missing: then directories are left behind. */
  lemma MkdirIsExact(host: Host, w: World, root: Inode, rel: string)
    requires Quiet(host) && NoDangling(w.fs) && root in w.fs && w.fs[root].Dir? && host.linkAsDirectory != NOENT
    ensures var r := Mkdir(host, w, root, rel);
            if rel == "" || rel == "." then r == Answer(w, Ok(()))
            else if Segments(rel).Err? then r == Answer(w, Err(Segments(rel).error))
            else
              && OnlyAdds(w.fs, r.world.fs)
              && if r.result.Ok? then
                   && Named(r.world.fs, root, Segments(rel).value).Some?
                   && Named(r.world.fs, root, Segments(rel).value).value in r.world.fs
                   && r.world.fs[Named(r.world.fs, root, Segments(rel).value).value].Dir?
                 else r.world.fs != w.fs <==> LeftBehind(host, w.fs, root, Segments(rel).value)
    ensures Mkdir(host, w, root, rel).result.Ok? <==>
            || rel == "" || rel == "."
            || (&& Segments(rel).Ok? && Accepts(host, Segments(rel).value)
                && var segments := Segments(rel).value;
                   forall k :: 0 <= k <= |segments| && Named(w.fs, root, segments[..k]).Some? ==>
                     IsDirectory(w.fs, Named(w.fs, root, segments[..k]).value))
  {
    SegmentsAreComponents(rel);
    if Segments(rel).Ok? {
      var w1 := OpenRoot(host, w, root).world;
      assert w1.fs == w.fs && OpenRoot(host, w, root).result == Ok(root);
      hide Quiet, OpenRoot, Segments, MakeChain, Named, OnlyAdds, Accepts, LeftBehind;
      MakeChainQuiet(host, w1, root, Segments(rel).value);
      MakeChainSucceeds(host, w1, root, Segments(rel).value);
      PassableExactly(w.fs, root, Segments(rel).value);
      if MakeChain(host, w1, root, Segments(rel).value).result.Err? {
        MakeChainFails(host, w1, root, Segments(rel).value);
      }
    }
  }

  /** So it does happen: in an empty directory a path of two names, the second one such as the system cannot
      hold, is refused, and the first directory has been made. */
  lemma MkdirLeavesBehind(host: Host, c: char)
    requires Quiet(host) && host.linkAsDirectory != NOENT && !IsSeparator(c) && c != '.'
    requires host.refuses("a") == None && host.refuses([c]).Some?
    ensures var fs: Fs := map[0 := Dir(map[], 0)];
            var r := Mkdir(host, World(fs, {0}, []), 0, "a/" + [c]);
            r.result.Err? && r.world.fs != fs && OnlyAdds(fs, r.world.fs)
  {
    var fs: Fs := map[0 := Dir(map[], 0)];
    var segments := ["a", [c]];
    SegmentsOfTwo(c);
    assert segments[1] in segments;
    MkdirIsExact(host, World(fs, {0}, []), 0, "a/" + [c]);
    AcceptsCons(host, segments);
    assert segments[1..] == [[c]] && Holdable(host, segments) == 1 && segments[..1] == ["a"];
    assert LeftBehind(host, fs, 0, segments);
    hide Mkdir, Segments, Quiet, LeftBehind, OnlyAdds;
  }
}
