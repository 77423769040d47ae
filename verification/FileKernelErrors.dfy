/** What an error of the file kernel tells: which segment of the path it was, and what stood there. */
module FileKernelErrors {
  import opened Wrappers
  import opened FileSystem
  import opened FileTree
  import opened FileKernel
  import opened FileKernelQuiet

  /** Each kind of error stands for one cause, and the rest are all `Io`. */
  lemma ErrorKinds(e: Errno, segment: string)
    ensures MapErrno(e, segment) == SymlinkSegment(segment) <==> e == LOOP
    ensures MapErrno(e, segment) == NotFound(segment) <==> e == NOENT
    ensures MapErrno(e, segment) == Denied(segment) <==> e == ACCESS
    ensures MapErrno(e, segment) == NotADirectory(segment) <==> e == NOTDIR
    ensures MapErrno(e, segment) == Io(segment) <==> e in {EXIST, ISDIR, NOTEMPTY, OTHER}
  {
  }

  /** What opening `name` in a directory complains of, by what the name leads to. */
  ghost predicate Complains(host: Host, fs: Fs, dir: Inode, name: string, flags: OpenFlags, error: FsError)
    requires dir in fs && fs[dir].Dir?
  {
    if name !in fs[dir].entries then error == NotFound(name)
    else
      var n := fs[dir].entries[name];
      n in fs ==>
        match fs[n]
        case Symlink(_) =>
          && (flags != Directory ==> error == SymlinkSegment(name))
          && (host.linkAsDirectory == LOOP ==> error == SymlinkSegment(name))
          && (flags == Directory && host.linkAsDirectory == NOTDIR ==> error == NotADirectory(name))
        case File(_) => flags == Directory && error == NotADirectory(name)
        case Dir(_, _) => flags == ReadWrite && error == Io(name)
        case Special => if flags == Directory then error == NotADirectory(name)
                        else host.special(fs, n, Opening(flags)).Some?
  }

  lemma OpenatComplains(host: Host, w: World, dir: Inode, name: string, flags: OpenFlags)
    requires Quiet(host) && Component(name) && host.refuses(name) == None && dir in w.fs && w.fs[dir].Dir?
    requires flags != CreateTruncate && Openat(host, w, dir, name, flags).outcome.Failed?
    ensures Complains(host, w.fs, dir, name, flags, MapErrno(Openat(host, w, dir, name, flags).outcome.errno, name))
  {
  }

  /** With no interference, an error while walking names the first segment that could not be opened, all
      before it lead through directories, and the error is the one for what stands there. */
  lemma {:induction false} WalkErrorTells(host: Host, w: World, dir: Inode, segments: seq<string>, last: OpenFlags)
    returns (k: nat)
    requires Quiet(host) && AllComponents(segments) && Accepts(host, segments) && dir in w.fs && w.fs[dir].Dir?
    requires last != CreateTruncate && Walk(host, w, dir, segments, last).result.Err?
    ensures k < |segments|
    ensures var d := Named(w.fs, dir, segments[..k]);
            && d.Some? && d.value in w.fs && w.fs[d.value].Dir?
            && Complains(host, w.fs, d.value, segments[k], if k == |segments| - 1 then last else Directory,
                         Walk(host, w, dir, segments, last).result.error)
    decreases |segments|
  {
    hide Quiet, Openat, Complains, MapErrno, Named;
    var name, flags := segments[0], if |segments| == 1 then last else Directory;
    assert name in segments;
    AcceptsCons(host, segments);
    QuietOpenat(host, w, dir, name, flags);
    var r := Openat(host, w, dir, name, flags);
    if r.outcome.Failed? {
      OpenatComplains(host, w, dir, name, flags);
      k := 0;
      NoSteps(w.fs, dir, segments);
    } else {
      var rest := WalkErrorTells(host, r.world, r.outcome.value, segments[1..], last);
      k := rest + 1;
      assert segments[..k][1..] == segments[1..][..rest] && segments[..k][0] == name;
      NamedStep(w.fs, dir, segments[..k]);
    }
  }

  lemma NoSteps(fs: Fs, dir: Inode, segments: seq<string>)
    ensures Named(fs, dir, segments[..0]) == Some(dir)
  {
  }

  /** So it is for opening a path; a path that is none is refused before anything is opened. */
  lemma OpenErrorTells(host: Host, w: World, root: Inode, rel: string, mode: OpenMode) returns (k: nat)
    requires Quiet(host) && root in w.fs && w.fs[root].Dir? && mode != Create
    requires Open(host, w, root, rel, mode).result.Err?
    ensures Segments(rel).Err? ==> Open(host, w, root, rel, mode).result == Err(InvalidPath)
    ensures Segments(rel).Ok? && Accepts(host, Segments(rel).value) ==>
              && k < |Segments(rel).value|
              && var segments := Segments(rel).value;
                 var d := Named(w.fs, root, segments[..k]);
              && d.Some? && d.value in w.fs && w.fs[d.value].Dir?
              && Complains(host, w.fs, d.value, segments[k],
                           if k < |segments| - 1 then Directory else if mode == Read then ReadOnly else ReadWrite,
                           Open(host, w, root, rel, mode).result.error)
  {
    SegmentsAreComponents(rel);
    var w1 := OpenRoot(host, w, root).world;
    assert w1.fs == w.fs && OpenRoot(host, w, root).result == Ok(root);
    hide Quiet, OpenRoot, Complains, Named;
    k := 0;
    if Segments(rel).Ok? && Accepts(host, Segments(rel).value) {
      k := WalkErrorTells(host, w1, root, Segments(rel).value, LastFlags(mode));
    }
  }

  /** What is read but is no regular file is refused as a path, and a file over the limit with its size. */
  lemma ReadErrorTells(host: Host, w: World, root: Inode, rel: string, maxBytes: nat)
    requires Quiet(host) && root in w.fs && w.fs[root].Dir? && Open(host, w, root, rel, Read).result.Ok?
    ensures var n := Open(host, w, root, rel, Read).result.value;
            ReadFile(host, w, root, rel, maxBytes).result ==
            if !(n in w.fs && w.fs[n].File?) then Err(InvalidPath)
            else if |w.fs[n].data| > maxBytes then Err(TooLarge(|w.fs[n].data|))
            else Ok(w.fs[n].data)
  {
    assert Segments(rel).Ok?;
    OpenIsNamed(host, w, root, rel, Read, Open(host, w, root, rel, Read).result.value);
    hide Open, Segments;
  }
}
