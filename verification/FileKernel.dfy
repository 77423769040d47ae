/** The file kernel: paths are walked segment by segment through handles, never resolved twice. */
module FileKernel {
  import opened Wrappers
  import opened FileSystem

  datatype FsError =
    | InvalidPath
    | SymlinkSegment(segment: string)
    | NotFound(segment: string)
    | Denied(segment: string)
    | NotADirectory(segment: string)
    | TooLarge(size: nat)
    | Io(segment: string)

  datatype Result<T> = Ok(value: T) | Err(error: FsError)

  datatype Answer<T> = Answer(world: World, result: Result<T>)

  function MapErrno(e: Errno, segment: string): FsError {
    match e
    case LOOP => SymlinkSegment(segment)
    case NOENT => NotFound(segment)
    case ACCESS => Denied(segment)
    case NOTDIR => NotADirectory(segment)
    case _ => Io(segment)
  }

  // ----- paths ---------------------------------------------------------------------------

  predicate IsSeparator(c: char) {
    c == '/' || c == '\\'
  }

  function PieceLength(rel: string): (n: nat)
    ensures n <= |rel| && (forall i :: 0 <= i < n ==> !IsSeparator(rel[i])) && (n < |rel| ==> IsSeparator(rel[n]))
  {
    if rel == "" || IsSeparator(rel[0]) then 0 else 1 + PieceLength(rel[1..])
  }

  /** The pieces between separators, empty ones included. */
  function Pieces(rel: string): (pieces: seq<string>)
    ensures forall k :: 0 <= k < |pieces| ==> forall i :: 0 <= i < |pieces[k]| ==> !IsSeparator(pieces[k][i])
    decreases |rel|
  {
    var n := PieceLength(rel);
    if n == |rel| then [rel] else [rel[..n]] + Pieces(rel[n + 1..])
  }

  predicate Counts(piece: string) {
    piece != "" && piece != "."
  }

  function Kept(pieces: seq<string>): seq<string> {
    if pieces == [] then [] else (if Counts(pieces[0]) then [pieces[0]] else []) + Kept(pieces[1..])
  }

  predicate Absolute(rel: string) {
    rel != "" && IsSeparator(rel[0])
  }

  /** Which paths are accepted, and what their segments are. */
  function Segments(rel: string): Result<seq<string>> {
    if rel == "" || Absolute(rel) || ".." in Pieces(rel) || Kept(Pieces(rel)) == [] then Err(InvalidPath)
    else Ok(Kept(Pieces(rel)))
  }

  lemma {:induction false} KeptCounts(pieces: seq<string>)
    ensures forall s :: s in Kept(pieces) ==> s in pieces && Counts(s)
  {
    if pieces != [] {
      KeptCounts(pieces[1..]);
      assert pieces == [pieces[0]] + pieces[1..];
    }
  }

  /** Accepted segments name entries of a directory: none is empty, ".", ".." or holds a separator. */
  lemma SegmentsAreComponents(rel: string)
    ensures Segments(rel).Ok? ==>
            Segments(rel).value != [] && forall s :: s in Segments(rel).value ==> Component(s) && '\\' !in s
  {
    var pieces := Pieces(rel);
    KeptCounts(pieces);
    if Segments(rel).Ok? {
      forall s | s in Kept(pieces) ensures Component(s) && '\\' !in s {
        var k :| 0 <= k < |pieces| && pieces[k] == s;
        assert forall i :: 0 <= i < |s| ==> !IsSeparator(s[i]);
      }
    }
  }

  lemma KeptStep(pieces: seq<string>, i: nat)
    requires i < |pieces|
    ensures Kept(pieces[i..]) == (if Counts(pieces[i]) then [pieces[i]] else []) + Kept(pieces[i + 1..])
  {
    assert pieces[i..][1..] == pieces[i + 1..];
  }

  lemma NoneKept()
    ensures Kept([]) == []
  {
  }

  method SplitSegments(rel: string) returns (r: Result<seq<string>>)
    ensures r == Segments(rel)
  {
    if rel == "" {
      return Err(InvalidPath);
    }
    if IsSeparator(rel[0]) {
      return Err(InvalidPath);
    }
    hide Kept, Pieces;
    var segments: seq<string> := [];
    var pieces := Pieces(rel);
    var i := 0;
    assert pieces[0..] == pieces;
    while i < |pieces|
      invariant 0 <= i <= |pieces|
      invariant segments + Kept(pieces[i..]) == Kept(pieces)
      invariant forall k :: 0 <= k < i ==> pieces[k] != ".."
    {
      KeptStep(pieces, i);
      var raw := pieces[i];
      i := i + 1;
      if raw == "" || raw == "." {
        continue;
      }
      if raw == ".." {
        return Err(InvalidPath);
      }
      segments := segments + [raw];
    }
    assert pieces[i..] == [] && ".." !in pieces;
    NoneKept();
    assert segments + [] == segments;
    if segments == [] {
      return Err(InvalidPath);
    }
    r := Ok(segments);
  }

  // ----- the operations, as functions ----------------------------------------------------

  datatype OpenMode = Read | Write | Create

  function LastFlags(mode: OpenMode): OpenFlags {
    match mode case Read => ReadOnly case Write => ReadWrite case Create => CreateTruncate
  }

  /** From a handle down the segments; the last one is opened with `last`. */
  function Walk(host: Host, w: World, dir: Inode, segments: seq<string>, last: OpenFlags): Answer<Inode>
    decreases |segments|
  {
    if segments == [] then Answer(w, Ok(dir))
    else
      var r := Openat(host, w, dir, segments[0], if |segments| == 1 then last else Directory);
      match r.outcome
      case Failed(e) => Answer(r.world, Err(MapErrno(e, segments[0])))
      case Done(next) => Walk(host, r.world, next, segments[1..], last)
  }

  /** The root is trusted: opening it fails or gives the root. */
  function OpenRoot(host: Host, w0: World, root: Inode): Answer<Inode> {
    var fault := host.fault(|w0.trace|);
    var w := Interrupted(host, w0);
    if fault.Some? then Answer(w, Err(MapErrno(fault.value, "<root>"))) else Answer(w, Ok(root))
  }

  function Open(host: Host, w: World, root: Inode, rel: string, mode: OpenMode): Answer<Inode> {
    match Segments(rel)
    case Err(e) => Answer(w, Err(e))
    case Ok(segments) =>
      var r := OpenRoot(host, w, root);
      if r.result.Err? then r else Walk(host, r.world, root, segments, LastFlags(mode))
  }

  /** All segments but the last. */
  function Parent(host: Host, w: World, root: Inode, segments: seq<string>): Answer<Inode>
    requires segments != []
  {
    var r := OpenRoot(host, w, root);
    if r.result.Err? then r else Walk(host, r.world, root, segments[..|segments| - 1], Directory)
  }

  function Finished(r: Reply<()>, segment: string): Answer<()> {
    match r.outcome case Done(_) => Answer(r.world, Ok(())) case Failed(e) => Answer(r.world, Err(MapErrno(e, segment)))
  }

  /** Read through one handle: it must be a regular file, and not too large when asked. */
  function ReadFile(host: Host, w: World, root: Inode, rel: string, maxBytes: nat): Answer<seq<byte>> {
    var r := Open(host, w, root, rel, Read);
    match r.result
    case Err(e) => Answer(r.world, Err(e))
    case Ok(n) =>
      var fault := host.fault(|r.world.trace|);
      var asked := Interrupted(host, r.world);
      if fault.Some? then Answer(asked, Err(Io("")))
      else if !(n in asked.fs && asked.fs[n].File?) then Answer(asked, Err(InvalidPath))
      else if |asked.fs[n].data| > maxBytes then Answer(asked, Err(TooLarge(|asked.fs[n].data|)))
      else
        var fault2 := host.fault(|asked.trace|);
        var done := Interrupted(host, asked);
        if fault2.Some? || !(n in done.fs && done.fs[n].File?) then Answer(done, Err(Io("")))
        else Answer(done, Ok(done.fs[n].data))
  }

  function WriteFile(host: Host, w: World, root: Inode, rel: string, data: seq<byte>): Answer<()> {
    var r := Open(host, w, root, rel, Create);
    match r.result
    case Err(e) => Answer(r.world, Err(e))
    case Ok(n) => Finished(WriteHandle(host, r.world, n, data), "")
  }

  function Remove(host: Host, w: World, root: Inode, rel: string): Answer<()> {
    match Segments(rel)
    case Err(e) => Answer(w, Err(e))
    case Ok(segments) =>
      if segments == [] then Answer(w, Err(InvalidPath))
      else
        var r := Parent(host, w, root, segments);
        var name := segments[|segments| - 1];
        match r.result
        case Err(e) => Answer(r.world, Err(e))
        case Ok(dir) => Finished(Unlinkat(host, r.world, dir, name), name)
  }

  /** One segment of a directory chain: open it, or make it and open it. */
  function EnterOrMake(host: Host, w: World, dir: Inode, name: string): Answer<Inode> {
    var r := Openat(host, w, dir, name, Directory);
    match r.outcome
    case Done(next) => Answer(r.world, Ok(next))
    case Failed(e) =>
      if e != NOENT then Answer(r.world, Err(MapErrno(e, name)))
      else
        var made := Mkdirat(host, r.world, dir, name);
        match made.outcome
        case Failed(e2) => Answer(made.world, Err(MapErrno(e2, name)))
        case Done(_) =>
          var again := Openat(host, made.world, dir, name, Directory);
          match again.outcome
          case Failed(e3) => Answer(again.world, Err(MapErrno(e3, name)))
          case Done(next) => Answer(again.world, Ok(next))
  }

  function MakeChain(host: Host, w: World, dir: Inode, segments: seq<string>): Answer<()>
    decreases |segments|
  {
    if segments == [] then Answer(w, Ok(()))
    else
      var r := EnterOrMake(host, w, dir, segments[0]);
      match r.result
      case Err(e) => Answer(r.world, Err(e))
      case Ok(next) => MakeChain(host, r.world, next, segments[1..])
  }

  function Mkdir(host: Host, w: World, root: Inode, rel: string): Answer<()> {
    if rel == "" || rel == "." then Answer(w, Ok(()))
    else
      match Segments(rel)
      case Err(e) => Answer(w, Err(e))
      case Ok(segments) =>
        var r := OpenRoot(host, w, root);
        match r.result
        case Err(e) => Answer(r.world, Err(e))
        case Ok(_) => MakeChain(host, r.world, root, segments)
  }

  function Rename(host: Host, w: World, root: Inode, fromRel: string, toRel: string): Answer<()> {
    match (Segments(fromRel), Segments(toRel))
    case (Err(e), _) => Answer(w, Err(e))
    case (Ok(_), Err(e)) => Answer(w, Err(e))
    case (Ok(from), Ok(to)) =>
      if from == [] || to == [] then Answer(w, Err(InvalidPath))
      else
        var a := Parent(host, w, root, from);
        match a.result
        case Err(e) => Answer(a.world, Err(e))
        case Ok(fromDir) =>
          var b := Parent(host, a.world, root, to);
          match b.result
          case Err(e) => Answer(b.world, Err(e))
          case Ok(toDir) =>
            Finished(Renameat(host, b.world, fromDir, from[|from| - 1], toDir, to[|to| - 1]), to[|to| - 1])
  }

  // ----- containment under interference --------------------------------------------------

  predicate AllComponents(segments: seq<string>) {
    forall s :: s in segments ==> Component(s)
  }

  /** Whatever others do between the calls, a walk stays inside. */
  lemma {:induction false} WalkStaysInside(host: Host, w: World, root: Inode, dir: Inode, segments: seq<string>,
      last: OpenFlags)
    requires Benign(host, root) && Safe(w, root) && dir in w.inside && AllComponents(segments)
    ensures var r := Walk(host, w, dir, segments, last);
            && Safe(r.world, root) && Later(w, r.world)
            && (r.result.Ok? ==> r.result.value in r.world.inside)
    decreases |segments|
  {
    hide Benign, Safe, Later, Openat;
    if segments != [] {
      var r := Openat(host, w, dir, segments[0], if |segments| == 1 then last else Directory);
      assert segments[0] in segments;
      OpenatSafe(host, w, root, dir, segments[0], if |segments| == 1 then last else Directory);
      if r.outcome.Done? {
        WalkStaysInside(host, r.world, root, r.outcome.value, segments[1..], last);
        LaterTrans(w, r.world, Walk(host, w, dir, segments, last).world);
      }
    } else {
      assert Later(w, w) by { LaterSame(w); }
    }
  }

  lemma LaterSame(w: World)
    ensures Later(w, w)
  {
  }

  lemma OpenRootSafe(host: Host, w: World, root: Inode)
    requires Benign(host, root) && Safe(w, root)
    ensures var r := OpenRoot(host, w, root); Safe(r.world, root) && Later(w, r.world) && root in r.world.inside
  {
    InterruptedSafe(host, w, root);
  }

  /** Every handle that opening a path gives is inside, for every path and every interference. */
  lemma OpenStaysInside(host: Host, w: World, root: Inode, rel: string, mode: OpenMode)
    requires Benign(host, root) && Safe(w, root)
    ensures var r := Open(host, w, root, rel, mode);
            && Safe(r.world, root) && Later(w, r.world)
            && (r.result.Ok? ==> r.result.value in r.world.inside)
  {
    hide Benign, Safe, Later;
    SegmentsAreComponents(rel);
    LaterSame(w);
    OpenRootSafe(host, w, root);
    if Segments(rel).Ok? {
      var w1 := OpenRoot(host, w, root).world;
      WalkStaysInside(host, w1, root, root, Segments(rel).value, LastFlags(mode));
      LaterTrans(w, w1, Walk(host, w1, root, Segments(rel).value, LastFlags(mode)).world);
    }
  }

  lemma ParentStaysInside(host: Host, w: World, root: Inode, segments: seq<string>)
    requires Benign(host, root) && Safe(w, root) && segments != [] && AllComponents(segments)
    ensures var r := Parent(host, w, root, segments);
            && Safe(r.world, root) && Later(w, r.world)
            && (r.result.Ok? ==> r.result.value in r.world.inside)
  {
    hide Benign, Safe, Later;
    OpenRootSafe(host, w, root);
    var w1 := OpenRoot(host, w, root).world;
    WalkStaysInside(host, w1, root, root, segments[..|segments| - 1], Directory);
    LaterTrans(w, w1, Walk(host, w1, root, segments[..|segments| - 1], Directory).world);
  }

  /** Writing changes nothing outside: the record of changes up to the end holds no change by the kernel
      that touches an inode outside. */
  lemma WriteStaysInside(host: Host, w: World, root: Inode, rel: string, data: seq<byte>)
    requires Benign(host, root) && Safe(w, root)
    ensures Safe(WriteFile(host, w, root, rel, data).world, root) && Later(w, WriteFile(host, w, root, rel, data).world)
  {
    hide Benign, Safe, Later, WriteHandle, Open;
    OpenStaysInside(host, w, root, rel, Create);
    var r := Open(host, w, root, rel, Create);
    if r.result.Ok? {
      WriteHandleSafe(host, r.world, root, r.result.value, data);
      LaterTrans(w, r.world, WriteHandle(host, r.world, r.result.value, data).world);
    }
  }

  lemma RemoveStaysInside(host: Host, w: World, root: Inode, rel: string)
    requires Benign(host, root) && Safe(w, root)
    ensures Safe(Remove(host, w, root, rel).world, root) && Later(w, Remove(host, w, root, rel).world)
  {
    hide Benign, Safe, Later, Unlinkat, Parent, Segments;
    SegmentsAreComponents(rel);
    LaterSame(w);
    if Segments(rel).Ok? {
      var segments := Segments(rel).value;
      ParentStaysInside(host, w, root, segments);
      var r := Parent(host, w, root, segments);
      if r.result.Ok? {
        assert segments[|segments| - 1] in segments;
        UnlinkatSafe(host, r.world, root, r.result.value, segments[|segments| - 1]);
        LaterTrans(w, r.world, Remove(host, w, root, rel).world);
      }
    }
  }

  lemma EnterOrMakeSafe(host: Host, w: World, root: Inode, dir: Inode, name: string)
    requires Benign(host, root) && Safe(w, root) && dir in w.inside && Component(name)
    ensures var r := EnterOrMake(host, w, dir, name);
            && Safe(r.world, root) && Later(w, r.world)
            && (r.result.Ok? ==> r.result.value in r.world.inside)
  {
    hide Benign, Safe, Openat, Mkdirat;
    OpenatSafe(host, w, root, dir, name, Directory);
    var r := Openat(host, w, dir, name, Directory);
    if r.outcome == Failed(NOENT) {
      MkdiratSafe(host, r.world, root, dir, name);
      var made := Mkdirat(host, r.world, dir, name);
      LaterTrans(w, r.world, made.world);
      if made.outcome.Done? {
        OpenatSafe(host, made.world, root, dir, name, Directory);
        LaterTrans(w, made.world, Openat(host, made.world, dir, name, Directory).world);
      }
    }
  }

  lemma {:induction false} MakeChainSafe(host: Host, w: World, root: Inode, dir: Inode, segments: seq<string>)
    requires Benign(host, root) && Safe(w, root) && dir in w.inside && AllComponents(segments)
    ensures Safe(MakeChain(host, w, dir, segments).world, root) && Later(w, MakeChain(host, w, dir, segments).world)
    decreases |segments|
  {
    hide Benign, Safe, Later, EnterOrMake;
    if segments == [] {
      LaterSame(w);
    } else {
      assert segments[0] in segments;
      EnterOrMakeSafe(host, w, root, dir, segments[0]);
      var r := EnterOrMake(host, w, dir, segments[0]);
      if r.result.Ok? {
        MakeChainSafe(host, r.world, root, r.result.value, segments[1..]);
        LaterTrans(w, r.world, MakeChain(host, w, dir, segments).world);
      }
    }
  }

  lemma MkdirStaysInside(host: Host, w: World, root: Inode, rel: string)
    requires Benign(host, root) && Safe(w, root)
    ensures Safe(Mkdir(host, w, root, rel).world, root) && Later(w, Mkdir(host, w, root, rel).world)
  {
    hide Benign, Safe, Later, Segments, MakeChain;
    SegmentsAreComponents(rel);
    LaterSame(w);
    OpenRootSafe(host, w, root);
    if Segments(rel).Ok? {
      var w1 := OpenRoot(host, w, root).world;
      MakeChainSafe(host, w1, root, root, Segments(rel).value);
      LaterTrans(w, w1, MakeChain(host, w1, root, Segments(rel).value).world);
    }
  }

  lemma RenameStaysInside(host: Host, w: World, root: Inode, fromRel: string, toRel: string)
    requires Benign(host, root) && Safe(w, root)
    ensures Safe(Rename(host, w, root, fromRel, toRel).world, root)
    ensures Later(w, Rename(host, w, root, fromRel, toRel).world)
  {
    hide Benign, Safe, Segments, Parent, Renameat;
    SegmentsAreComponents(fromRel);
    SegmentsAreComponents(toRel);
    if Segments(fromRel).Ok? && Segments(toRel).Ok? {
      var from, to := Segments(fromRel).value, Segments(toRel).value;
      assert from[|from| - 1] in from && to[|to| - 1] in to;
      ParentStaysInside(host, w, root, from);
      var a := Parent(host, w, root, from);
      if a.result.Ok? {
        ParentStaysInside(host, a.world, root, to);
        var b := Parent(host, a.world, root, to);
        LaterTrans(w, a.world, b.world);
        if b.result.Ok? {
          RenameatSafe(host, b.world, root, a.result.value, from[|from| - 1], b.result.value, to[|to| - 1]);
          LaterTrans(w, b.world, Rename(host, w, root, fromRel, toRel).world);
        }
      }
    }
  }

  lemma ReadStaysInside(host: Host, w: World, root: Inode, rel: string, maxBytes: nat)
    requires Benign(host, root) && Safe(w, root)
    ensures Safe(ReadFile(host, w, root, rel, maxBytes).world, root)
    ensures Later(w, ReadFile(host, w, root, rel, maxBytes).world)
  {
    hide Benign, Safe, Later, Open, Interrupted;
    OpenStaysInside(host, w, root, rel, Read);
    var r := Open(host, w, root, rel, Read);
    if r.result.Ok? {
      InterruptedSafe(host, r.world, root);
      var asked := Interrupted(host, r.world);
      LaterTrans(w, r.world, asked);
      InterruptedSafe(host, asked, root);
      LaterTrans(w, asked, Interrupted(host, asked));
    }
  }

  // ----- any number of requests ----------------------------------------------------------

  datatype Request =
    | ReadRequest(rel: string, maxBytes: nat)
    | WriteRequest(rel: string, data: seq<byte>)
    | RemoveRequest(rel: string)
    | MkdirRequest(rel: string)
    | RenameRequest(rel: string, toRel: string)

  function Perform(host: Host, w: World, root: Inode, q: Request): World {
    match q
    case ReadRequest(rel, maxBytes) => ReadFile(host, w, root, rel, maxBytes).world
    case WriteRequest(rel, data) => WriteFile(host, w, root, rel, data).world
    case RemoveRequest(rel) => Remove(host, w, root, rel).world
    case MkdirRequest(rel) => Mkdir(host, w, root, rel).world
    case RenameRequest(rel, toRel) => Rename(host, w, root, rel, toRel).world
  }

  function PerformAll(host: Host, w: World, root: Inode, requests: seq<Request>): World
    decreases |requests|
  {
    if requests == [] then w else PerformAll(host, Perform(host, w, root, requests[0]), root, requests[1..])
  }

  /** Over any sequence of requests, whatever others do between any two calls of each, every change the
      kernel makes to the file system leaves every inode outside the workspace as it is. */
  lemma {:induction false} KernelStaysInside(host: Host, w: World, root: Inode, requests: seq<Request>)
    requires Benign(host, root) && Safe(w, root)
    ensures Safe(PerformAll(host, w, root, requests), root) && Later(w, PerformAll(host, w, root, requests))
    decreases |requests|
  {
    hide Benign, Safe, Later, ReadFile, WriteFile, Remove, Mkdir, Rename;
    if requests == [] {
      LaterSame(w);
    } else {
      match requests[0] {
        case ReadRequest(rel, maxBytes) => ReadStaysInside(host, w, root, rel, maxBytes);
        case WriteRequest(rel, data) => WriteStaysInside(host, w, root, rel, data);
        case RemoveRequest(rel) => RemoveStaysInside(host, w, root, rel);
        case MkdirRequest(rel) => MkdirStaysInside(host, w, root, rel);
        case RenameRequest(rel, toRel) => RenameStaysInside(host, w, root, rel, toRel);
      }
      var next := Perform(host, w, root, requests[0]);
      KernelStaysInside(host, next, root, requests[1..]);
      LaterTrans(w, next, PerformAll(host, w, root, requests));
    }
  }

  /** So an inode outside that nobody else touches is the same after all requests. */
  lemma OutsideSurvives(host: Host, w: World, root: Inode, requests: seq<Request>, n: Inode)
    requires Benign(host, root) && Safe(w, root) && w.trace == []
    requires var end := PerformAll(host, w, root, requests);
             && (forall k :: 0 <= k < |end.trace| ==> n !in end.trace[k].inside)
             && (forall k :: 0 <= k < |end.trace| && !end.trace[k].byKernel ==>
                SameNode(end.trace[k].before, end.trace[k].after, n))
    ensures SameNode(w.fs, PerformAll(host, w, root, requests).fs, n)
  {
    KernelStaysInside(host, w, root, requests);
    var end := PerformAll(host, w, root, requests);
    hide PerformAll;
    if end.trace != [] {
      OnlyOthersTouchOutside(end.trace, n);
    }
  }

  /** The record is complete: if nobody else touched an outside inode, it is as it was. */
  lemma {:induction false} OnlyOthersTouchOutside(trace: seq<Change>, n: Inode)
    requires trace != []
    requires forall k :: 0 <= k < |trace| - 1 ==> trace[k].after == trace[k + 1].before
    requires forall k :: 0 <= k < |trace| && trace[k].byKernel ==> OutsideUnchanged(trace[k])
    requires forall k :: 0 <= k < |trace| ==> n !in trace[k].inside
    requires forall k :: 0 <= k < |trace| && !trace[k].byKernel ==> SameNode(trace[k].before, trace[k].after, n)
    ensures SameNode(trace[0].before, trace[|trace| - 1].after, n)
    decreases |trace|
  {
    assert trace[0].byKernel ==> OutsideUnchanged(trace[0]);
    if |trace| > 1 {
      OnlyOthersTouchOutside(trace[1..], n);
      assert trace[0].after == trace[0 + 1].before;
    }
  }

  predicate SameNode(before: Fs, after: Fs, n: Inode) {
    (n in before <==> n in after) && (n in before ==> before[n] == after[n])
  }
}
