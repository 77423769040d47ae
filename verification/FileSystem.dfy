/** A file system as a graph of inodes, the calls the file kernel makes on it, and a host that may
    rewrite it before every call. */
module FileSystem {
  import opened Wrappers

  type Inode = nat

  /** `up` is where ".." leads. */
  datatype Node =
    | Dir(entries: map<string, Inode>, up: Inode)
    | File(data: seq<byte>)
    | Symlink(target: string)
    | Special

  type Fs = map<Inode, Node>

  datatype Errno = LOOP | NOENT | ACCESS | NOTDIR | EXIST | ISDIR | NOTEMPTY | OTHER

  /** One change of the file system, by the kernel or by somebody else. `inside` is the set of inodes that
      belong to the workspace afterwards. */
  datatype Change = Change(byKernel: bool, before: Fs, after: Fs, inside: set<Inode>)

  datatype World = World(fs: Fs, inside: set<Inode>, trace: seq<Change>)

  /** How a segment is opened. All opens refuse symbolic links. */
  datatype OpenFlags = Directory | ReadOnly | ReadWrite | CreateTruncate

  /** What is done with a special file: a socket, a pipe or a device. */
  datatype Use = Opening(flags: OpenFlags) | Writing

  /** Everything the kernel does not control: what others do before a call, which calls fail and how, which
      names the system cannot hold (too long, or with a NUL in them), what a special file says to its use,
      the number of a new inode, where a name that is no plain component leads, and the error of opening a
      symbolic link as a directory, which differs between systems. */
  datatype Host = Host(
    interfere: (nat, World) -> (Fs, set<Inode>),
    fault: nat -> Option<Errno>,
    refuses: string -> Option<Errno>,
    special: (Fs, Inode, Use) -> Option<Errno>,
    alloc: Fs -> Inode,
    foreign: (Fs, Inode, string) -> Option<Inode>,
    linkAsDirectory: Errno)

  datatype Outcome<T> = Done(value: T) | Failed(errno: Errno)

  datatype Reply<T> = Reply(world: World, outcome: Outcome<T>)

  /** A name that stands for an entry of the directory itself. */
  predicate Component(name: string) {
    name != "" && name != "." && name != ".." && '/' !in name
  }

  // ----- who may do what -----------------------------------------------------------------

  /** Nothing leads from inside to outside but symbolic links, which are not followed, and "..", which is
      not asked for. */
  ghost predicate Closed(fs: Fs, inside: set<Inode>) {
    forall d, name :: d in inside && d in fs && fs[d].Dir? && name in fs[d].entries ==>
      || fs[d].entries[name] in inside
      || (fs[d].entries[name] in fs && fs[d].entries[name] !in inside && fs[fs[d].entries[name]].Symlink?)
  }

  ghost predicate WellFormed(fs: Fs, inside: set<Inode>, root: Inode) {
    root in inside && inside <= fs.Keys && fs[root].Dir? && Closed(fs, inside)
  }

  predicate SameKind(a: Node, b: Node) {
    a.Dir? == b.Dir? && a.File? == b.File? && a.Symlink? == b.Symlink?
  }

  /** Others may do anything inside and outside, except link an outside inode that is no symbolic link into
      an inside directory: what newly belongs to the inside was not there before. */
  ghost predicate Permitted(fs: Fs, inside: set<Inode>, fs': Fs, inside': set<Inode>, root: Inode) {
    && WellFormed(fs', inside', root)
    && fs.Keys <= fs'.Keys && (forall n :: n in fs ==> SameKind(fs[n], fs'[n]))
    && inside <= inside' && forall n :: n in inside' && n !in inside ==> n !in fs
  }

  ghost predicate Benign(host: Host, root: Inode) {
    && (forall t: nat, w: World :: WellFormed(w.fs, w.inside, root) ==>
          Permitted(w.fs, w.inside, host.interfere(t, w).0, host.interfere(t, w).1, root))
    && (forall fs: Fs :: host.alloc(fs) !in fs)
  }

  /** Nobody interferes and no call fails without a reason. */
  ghost predicate Quiet(host: Host) {
    && (forall t: nat, w: World :: host.interfere(t, w) == (w.fs, w.inside))
    && (forall t: nat :: host.fault(t) == None)
    && (forall fs: Fs :: host.alloc(fs) !in fs)
  }

  // ----- calls ---------------------------------------------------------------------------

  /** The moment before a call: others have their turn. */
  function Interrupted(host: Host, w: World): World {
    var (fs, inside) := host.interfere(|w.trace|, w);
    World(fs, inside, w.trace + [Change(false, w.fs, fs, inside)])
  }

  /** The effect of a call. `fresh` is the inode it made, if any. */
  function Effect(w: World, fs: Fs, born: set<Inode>): World {
    World(fs, w.inside + born, w.trace + [Change(true, w.fs, fs, w.inside + born)])
  }

  function Lookup(host: Host, fs: Fs, dir: Inode, name: string): Option<Inode> {
    if Component(name) then
      if dir in fs && fs[dir].Dir? && name in fs[dir].entries && fs[dir].entries[name] in fs
      then Some(fs[dir].entries[name]) else None
    else if name == "." then Some(dir)
    else if name == ".." && dir in fs && fs[dir].Dir? then Some(fs[dir].up)
    else host.foreign(fs, dir, name)
  }

  function Link(fs: Fs, dir: Inode, name: string, n: Inode): Fs
    requires dir in fs && fs[dir].Dir?
  {
    fs[dir := fs[dir].(entries := fs[dir].entries[name := n])]
  }

  function Unlink(fs: Fs, dir: Inode, name: string): Fs
    requires dir in fs && fs[dir].Dir?
  {
    fs[dir := fs[dir].(entries := fs[dir].entries - {name})]
  }

  /** Why a call with this name fails before it looks at anything. */
  function Refusal(host: Host, w: World, name: string): Option<Errno> {
    if host.fault(|w.trace|).Some? then host.fault(|w.trace|) else host.refuses(name)
  }

  /** The directories and files below a set of inodes, and the set itself. */
  function Below(fs: Fs, found: set<Inode>): set<Inode>
    decreases |fs.Keys - found|
  {
    var more := found + Entries(fs, found);
    if more == found then found
    else
      FewerLeft(fs.Keys, found, more);
      Below(fs, more)
  }

  function Entries(fs: Fs, dirs: set<Inode>): set<Inode> {
    set d, x | d in dirs && d in fs && fs[d].Dir? && x in fs[d].entries && fs[d].entries[x] in fs :: fs[d].entries[x]
  }

  lemma FewerLeft(all: set<Inode>, found: set<Inode>, more: set<Inode>)
    requires found < more && more - found <= all
    ensures |all - more| < |all - found|
  {
    var x :| x in more && x !in found;
    assert x in all - found && all - more <= all - found - {x};
    FewerMembers(all - more, all - found - {x});
  }

  lemma FewerMembers(a: set<Inode>, b: set<Inode>)
    requires a <= b
    ensures |a| <= |b|
  {
    assert b == a + (b - a);
  }

  function Openat(host: Host, w0: World, dir: Inode, name: string, flags: OpenFlags): Reply<Inode> {
    var fault := Refusal(host, w0, name);
    var w := Interrupted(host, w0);
    if fault.Some? then Reply(w, Failed(fault.value))
    else if !(dir in w.fs && w.fs[dir].Dir?) then Reply(w, Failed(NOTDIR))
    else
      match Lookup(host, w.fs, dir, name)
      case None =>
        if flags != CreateTruncate then Reply(w, Failed(NOENT))
        else
          var n := host.alloc(w.fs);
          Reply(Effect(w, Link(w.fs, dir, name, n)[n := File([])], {n}), Done(n))
      case Some(n) =>
        if n !in w.fs then Reply(w, Failed(NOENT))
        else if w.fs[n].Symlink? then Reply(w, Failed(if flags == Directory then host.linkAsDirectory else LOOP))
        else if flags == Directory && !w.fs[n].Dir? then Reply(w, Failed(NOTDIR))
        else if (flags == ReadWrite || flags == CreateTruncate) && w.fs[n].Dir? then Reply(w, Failed(ISDIR))
        else if w.fs[n].Special? && host.special(w.fs, n, Opening(flags)).Some? then
          Reply(w, Failed(host.special(w.fs, n, Opening(flags)).value))
        else if flags == CreateTruncate && w.fs[n].File? then Reply(Effect(w, w.fs[n := File([])], {}), Done(n))
        else Reply(w, Done(n))
  }

  function Mkdirat(host: Host, w0: World, dir: Inode, name: string): Reply<()> {
    var fault := Refusal(host, w0, name);
    var w := Interrupted(host, w0);
    if fault.Some? then Reply(w, Failed(fault.value))
    else if !(dir in w.fs && w.fs[dir].Dir?) then Reply(w, Failed(NOTDIR))
    else if Lookup(host, w.fs, dir, name).Some? then Reply(w, Failed(EXIST))
    else
      var n := host.alloc(w.fs);
      Reply(Effect(w, Link(w.fs, dir, name, n)[n := Dir(map[], dir)], {n}), Done(()))
  }

  function Unlinkat(host: Host, w0: World, dir: Inode, name: string): Reply<()> {
    var fault := Refusal(host, w0, name);
    var w := Interrupted(host, w0);
    if fault.Some? then Reply(w, Failed(fault.value))
    else if !(dir in w.fs && w.fs[dir].Dir?) then Reply(w, Failed(NOTDIR))
    else
      match Lookup(host, w.fs, dir, name)
      case None => Reply(w, Failed(NOENT))
      case Some(n) =>
        if n in w.fs && w.fs[n].Dir? then Reply(w, Failed(ISDIR))
        else Reply(Effect(w, Unlink(w.fs, dir, name), {}), Done(()))
  }

  /** Why a move onto an existing entry is refused. */
  function MoveError(fs: Fs, source: Inode, target: Option<Inode>): Option<Errno>
    requires source in fs
  {
    if target == None || target.value !in fs then None
    else if fs[source].Dir? then
      if !fs[target.value].Dir? then Some(NOTDIR)
      else if fs[target.value].entries != map[] then Some(NOTEMPTY)
      else None
    else if fs[target.value].Dir? then Some(ISDIR)
    else None
  }

  /** The entry leaves one directory and enters the other; a directory learns its new parent. */
  function Moved(fs: Fs, from: Inode, name: string, to: Inode, newName: string, n: Inode): Fs
    requires from in fs && fs[from].Dir? && to in fs && fs[to].Dir? && n in fs
  {
    var moved := Link(Unlink(fs, from, name), to, newName, n);
    if moved[n].Dir? then moved[n := moved[n].(up := to)] else moved
  }

  /** A directory cannot move to where it lies below itself. */
  predicate IntoItself(fs: Fs, n: Inode, to: Inode)
    requires n in fs
  {
    fs[n].Dir? && to in Below(fs, {n})
  }

  function Renameat(host: Host, w0: World, from: Inode, name: string, to: Inode, newName: string): Reply<()> {
    var fault := if Refusal(host, w0, name).Some? then Refusal(host, w0, name) else host.refuses(newName);
    var w := Interrupted(host, w0);
    if fault.Some? then Reply(w, Failed(fault.value))
    else if !(from in w.fs && w.fs[from].Dir? && to in w.fs && w.fs[to].Dir?) then Reply(w, Failed(NOTDIR))
    else
      match Lookup(host, w.fs, from, name)
      case None => Reply(w, Failed(NOENT))
      case Some(n) =>
        if n !in w.fs then Reply(w, Failed(NOENT))
        else if IntoItself(w.fs, n, to) then Reply(w, Failed(OTHER))
        else
          var target := Lookup(host, w.fs, to, newName);
          if target == Some(n) then Reply(w, Done(()))
          else if MoveError(w.fs, n, target).Some? then Reply(w, Failed(MoveError(w.fs, n, target).value))
          else Reply(Effect(w, Moved(w.fs, from, name, to, newName, n), {}), Done(()))
  }

  /** Writing from the start of a file through its handle. */
  function Overwritten(held: seq<byte>, data: seq<byte>): seq<byte> {
    if |held| <= |data| then data else data + held[|data|..]
  }

  /** The file holds the data from its start on, and keeps what it held behind it. */
  lemma OverwrittenExactly(held: seq<byte>, data: seq<byte>)
    ensures var now := Overwritten(held, data);
            && |now| == (if |data| < |held| then |held| else |data|)
            && (forall i :: 0 <= i < |data| ==> now[i] == data[i])
            && (forall i :: |data| <= i < |held| ==> now[i] == held[i])
  {
  }

  /** Writing nothing makes no call. */
  function WriteHandle(host: Host, w0: World, n: Inode, data: seq<byte>): Reply<()> {
    var fault := host.fault(|w0.trace|);
    var w := Interrupted(host, w0);
    if data == [] then Reply(w0, Done(()))
    else if fault.Some? then Reply(w, Failed(fault.value))
    else if n in w.fs && w.fs[n].File? then
      Reply(Effect(w, w.fs[n := File(Overwritten(w.fs[n].data, data))], {}), Done(()))
    else if n in w.fs && w.fs[n].Special? && host.special(w.fs, n, Writing).Some? then
      Reply(w, Failed(host.special(w.fs, n, Writing).value))
    else Reply(w, Done(()))
  }

  // ----- containment, call by call -------------------------------------------------------

  /** No inode outside was made, removed or changed. */
  ghost predicate OutsideUnchanged(c: Change) {
    forall n :: n !in c.inside ==> (n in c.before <==> n in c.after) && (n in c.before ==> c.before[n] == c.after[n])
  }

  /** The kernel's own changes stayed inside, and the record of changes is complete. */
  ghost predicate Contained(w: World) {
    && (forall k :: 0 <= k < |w.trace| && w.trace[k].byKernel ==> OutsideUnchanged(w.trace[k]))
    && (forall k :: 0 <= k < |w.trace| - 1 ==> w.trace[k].after == w.trace[k + 1].before)
    && (|w.trace| > 0 ==> w.trace[|w.trace| - 1].after == w.fs)
  }

  ghost predicate Safe(w: World, root: Inode) {
    WellFormed(w.fs, w.inside, root) && Contained(w)
  }

  /** `w'` comes later: the inside has only grown, and the record only got longer, starting from `w`. */
  ghost predicate Later(w: World, w': World) {
    && (|w'.trace| == |w.trace| ==> w'.fs == w.fs)
    && (|w'.trace| > |w.trace| ==> w'.trace[|w.trace|].before == w.fs)
    && w.inside <= w'.inside && w.fs.Keys <= w'.fs.Keys && w.trace <= w'.trace
    && forall n :: n in w.fs ==> SameKind(w.fs[n], w'.fs[n])
  }

  lemma LaterTrans(a: World, b: World, c: World)
    requires Later(a, b) && Later(b, c)
    ensures Later(a, c)
  {
  }

  lemma InterruptedSafe(host: Host, w: World, root: Inode)
    requires Benign(host, root) && Safe(w, root)
    ensures Safe(Interrupted(host, w), root) && Later(w, Interrupted(host, w))
  {
    var w' := Interrupted(host, w);
    assert Permitted(w.fs, w.inside, w'.fs, w'.inside, root);
    hide WellFormed, Closed, OutsideUnchanged;
    assert |w'.trace| == |w.trace| + 1;
    forall k | 0 <= k < |w'.trace| && w'.trace[k].byKernel ensures OutsideUnchanged(w'.trace[k]) {
      assert w'.trace[k] == w.trace[k];
    }
  }

  /** An effect that keeps the graph closed and touches only inside or new inodes. */
  lemma EffectSafe(w: World, fs: Fs, born: set<Inode>, root: Inode)
    requires Safe(w, root) && WellFormed(fs, w.inside + born, root)
    requires forall n :: n in born ==> n !in w.fs
    requires OutsideUnchanged(Change(true, w.fs, fs, w.inside + born))
    requires w.fs.Keys <= fs.Keys && forall n :: n in w.fs ==> SameKind(w.fs[n], fs[n])
    ensures Safe(Effect(w, fs, born), root) && Later(w, Effect(w, fs, born))
  {
    hide WellFormed, Closed, OutsideUnchanged;
    var w' := Effect(w, fs, born);
    forall k | 0 <= k < |w'.trace| && w'.trace[k].byKernel ensures OutsideUnchanged(w'.trace[k]) {
      if k < |w.trace| {
        assert w'.trace[k] == w.trace[k];
      }
    }
  }

  /** What a plain name leads to from an inside directory is inside, or a symbolic link. */
  lemma LookupInside(host: Host, fs: Fs, inside: set<Inode>, root: Inode, dir: Inode, name: string)
    requires WellFormed(fs, inside, root) && dir in inside && Component(name) && Lookup(host, fs, dir, name).Some?
    ensures var n := Lookup(host, fs, dir, name).value; n in fs && (n in inside || fs[n].Symlink?)
  {
  }

  /** A new inode linked into an inside directory. */
  lemma BirthSafe(host: Host, w: World, root: Inode, dir: Inode, name: string, node: Node)
    requires Benign(host, root) && Safe(w, root) && dir in w.inside && w.fs[dir].Dir?
    requires node.Dir? ==> node.entries == map[]
    ensures var n := host.alloc(w.fs);
            var w' := Effect(w, Link(w.fs, dir, name, n)[n := node], {n});
            n !in w.fs && n != dir && Safe(w', root) && Later(w, w') && n in w'.inside
  {
    var n := host.alloc(w.fs);
    var fs := Link(w.fs, dir, name, n)[n := node];
    var inside := w.inside + {n};
    assert Closed(fs, inside) by { BirthClosed(w.fs, w.inside, n, dir, name, node); }
    hide Benign, Closed, Contained;
    EffectSafe(w, fs, {n}, root);
  }

  lemma BirthClosed(fs: Fs, inside: set<Inode>, n: Inode, dir: Inode, name: string, node: Node)
    requires Closed(fs, inside) && n !in fs && dir in inside && dir in fs && fs[dir].Dir?
    requires (node.Dir? ==> node.entries == map[])
    requires inside <= fs.Keys
    ensures Closed(Link(fs, dir, name, n)[n := node], inside + {n})
  {
    var fs', inside' := Link(fs, dir, name, n)[n := node], inside + {n};
    forall d, x | d in inside' && d in fs' && fs'[d].Dir? && x in fs'[d].entries
      ensures || fs'[d].entries[x] in inside'
              || (fs'[d].entries[x] in fs' && fs'[d].entries[x] !in inside' && fs'[fs'[d].entries[x]].Symlink?)
    {
      if d != n && !(d == dir && x == name) {
        assert x in fs[d].entries && fs'[d].entries[x] == fs[d].entries[x];
      }
    }
  }

  /** Changing one inside file. */
  lemma FileChangeSafe(w: World, root: Inode, n: Inode, data: seq<byte>)
    requires Safe(w, root) && n in w.inside && w.fs[n].File?
    ensures var w' := Effect(w, w.fs[n := File(data)], {}); Safe(w', root) && Later(w, w')
  {
    var fs := w.fs[n := File(data)];
    assert w.inside + {} == w.inside;
    assert Closed(fs, w.inside) by {
      forall d, x | d in w.inside && d in fs && fs[d].Dir? && x in fs[d].entries
        ensures || fs[d].entries[x] in w.inside
                || (fs[d].entries[x] in fs && fs[d].entries[x] !in w.inside && fs[fs[d].entries[x]].Symlink?)
      {
        assert x in w.fs[d].entries;
      }
    }
    hide Closed, Contained;
    EffectSafe(w, fs, {}, root);
  }

  lemma OpenatSafe(host: Host, w: World, root: Inode, dir: Inode, name: string, flags: OpenFlags)
    requires Benign(host, root) && Safe(w, root) && dir in w.inside && Component(name)
    ensures var r := Openat(host, w, dir, name, flags);
            && Safe(r.world, root) && Later(w, r.world)
            && (r.outcome.Done? ==> r.outcome.value in r.world.inside && !r.world.fs[r.outcome.value].Symlink?)
  {
    InterruptedSafe(host, w, root);
    var w1 := Interrupted(host, w);
    hide Benign, Contained, Closed, Interrupted;
    if Refusal(host, w, name) == None && w1.fs[dir].Dir? {
      var found := Lookup(host, w1.fs, dir, name);
      if found == None {
        if flags == CreateTruncate {
          BirthSafe(host, w1, root, dir, name, File([]));
          LaterTrans(w, w1, Openat(host, w, dir, name, flags).world);
        }
      } else {
        LookupInside(host, w1.fs, w1.inside, root, dir, name);
        if flags == CreateTruncate && w1.fs[found.value].File? {
          FileChangeSafe(w1, root, found.value, []);
          LaterTrans(w, w1, Openat(host, w, dir, name, flags).world);
        }
      }
    }
  }

  lemma MkdiratSafe(host: Host, w: World, root: Inode, dir: Inode, name: string)
    requires Benign(host, root) && Safe(w, root) && dir in w.inside && Component(name)
    ensures var r := Mkdirat(host, w, dir, name); Safe(r.world, root) && Later(w, r.world)
  {
    InterruptedSafe(host, w, root);
    var w1 := Interrupted(host, w);
    hide Benign, Contained, Closed, Interrupted;
    if Mkdirat(host, w, dir, name).world != w1 {
      BirthSafe(host, w1, root, dir, name, Dir(map[], dir));
      LaterTrans(w, w1, Mkdirat(host, w, dir, name).world);
    }
  }

  lemma UnlinkClosed(fs: Fs, inside: set<Inode>, dir: Inode, name: string)
    requires Closed(fs, inside) && dir in fs && fs[dir].Dir?
    ensures Closed(Unlink(fs, dir, name), inside)
  {
    var fs' := Unlink(fs, dir, name);
    forall d, x | d in inside && d in fs' && fs'[d].Dir? && x in fs'[d].entries
      ensures || fs'[d].entries[x] in inside
              || (fs'[d].entries[x] in fs' && fs'[d].entries[x] !in inside && fs'[fs'[d].entries[x]].Symlink?)
    {
      assert x in fs[d].entries && fs'[d].entries[x] == fs[d].entries[x];
    }
  }

  lemma LinkClosed(fs: Fs, inside: set<Inode>, dir: Inode, name: string, n: Inode)
    requires Closed(fs, inside) && dir in fs && fs[dir].Dir?
    requires n in inside || (n in fs && fs[n].Symlink?)
    ensures Closed(Link(fs, dir, name, n), inside)
  {
    var fs' := Link(fs, dir, name, n);
    forall d, x | d in inside && d in fs' && fs'[d].Dir? && x in fs'[d].entries
      ensures || fs'[d].entries[x] in inside
              || (fs'[d].entries[x] in fs' && fs'[d].entries[x] !in inside && fs'[fs'[d].entries[x]].Symlink?)
    {
      if !(d == dir && x == name) {
        assert x in fs[d].entries && fs'[d].entries[x] == fs[d].entries[x];
      }
    }
  }

  lemma UnlinkatSafe(host: Host, w: World, root: Inode, dir: Inode, name: string)
    requires Benign(host, root) && Safe(w, root) && dir in w.inside && Component(name)
    ensures var r := Unlinkat(host, w, dir, name); Safe(r.world, root) && Later(w, r.world)
  {
    InterruptedSafe(host, w, root);
    var w1 := Interrupted(host, w);
    hide Benign, Contained, Closed, Interrupted;
    if Unlinkat(host, w, dir, name).world != w1 {
      UnlinkClosed(w1.fs, w1.inside, dir, name);
      assert w1.inside + {} == w1.inside;
      EffectSafe(w1, Unlink(w1.fs, dir, name), {}, root);
      LaterTrans(w, w1, Unlinkat(host, w, dir, name).world);
    }
  }

  lemma MovedSafe(w: World, root: Inode, from: Inode, name: string, to: Inode, newName: string, n: Inode)
    requires Safe(w, root) && from in w.inside && to in w.inside && w.fs[from].Dir? && w.fs[to].Dir?
    requires n in w.fs && (n in w.inside || w.fs[n].Symlink?)
    ensures var w' := Effect(w, Moved(w.fs, from, name, to, newName, n), {}); Safe(w', root) && Later(w, w')
  {
    MovedClosed(w.fs, w.inside, from, name, to, newName, n);
    MovedOutside(w, from, name, to, newName, n);
    assert w.inside + {} == w.inside;
    hide Closed, Contained, Moved, OutsideUnchanged;
    EffectSafe(w, Moved(w.fs, from, name, to, newName, n), {}, root);
  }

  lemma MovedClosed(fs: Fs, inside: set<Inode>, from: Inode, name: string, to: Inode, newName: string, n: Inode)
    requires Closed(fs, inside) && from in fs && fs[from].Dir? && to in fs && fs[to].Dir?
    requires n in fs && (n in inside || fs[n].Symlink?)
    ensures Closed(Moved(fs, from, name, to, newName, n), inside)
  {
    hide Closed;
    var cut := Unlink(fs, from, name);
    UnlinkClosed(fs, inside, from, name);
    LinkClosed(cut, inside, to, newName, n);
    NewParentClosed(Link(cut, to, newName, n), inside, n, to);
  }

  lemma MovedOutside(w: World, from: Inode, name: string, to: Inode, newName: string, n: Inode)
    requires from in w.inside && to in w.inside && from in w.fs && to in w.fs && w.fs[from].Dir? && w.fs[to].Dir?
    requires n in w.fs && (n in w.inside || w.fs[n].Symlink?)
    ensures var fs := Moved(w.fs, from, name, to, newName, n);
            && OutsideUnchanged(Change(true, w.fs, fs, w.inside))
            && fs.Keys == w.fs.Keys && forall x :: x in w.fs ==> SameKind(w.fs[x], fs[x])
  {
  }

  lemma NewParentClosed(fs: Fs, inside: set<Inode>, n: Inode, up: Inode)
    requires Closed(fs, inside) && n in fs
    ensures fs[n].Dir? ==> Closed(fs[n := fs[n].(up := up)], inside)
  {
    if fs[n].Dir? {
      var fs' := fs[n := fs[n].(up := up)];
      forall d, x | d in inside && d in fs' && fs'[d].Dir? && x in fs'[d].entries
        ensures || fs'[d].entries[x] in inside
                || (fs'[d].entries[x] in fs' && fs'[d].entries[x] !in inside && fs'[fs'[d].entries[x]].Symlink?)
      {
        assert x in fs[d].entries && fs'[d].entries[x] == fs[d].entries[x];
      }
    }
  }

  lemma RenameatSafe(host: Host, w: World, root: Inode, from: Inode, name: string, to: Inode, newName: string)
    requires Benign(host, root) && Safe(w, root) && from in w.inside && to in w.inside && Component(name)
    requires Component(newName)
    ensures var r := Renameat(host, w, from, name, to, newName); Safe(r.world, root) && Later(w, r.world)
  {
    InterruptedSafe(host, w, root);
    var w1 := Interrupted(host, w);
    hide Benign, Contained, Closed, Interrupted, Moved;
    if Renameat(host, w, from, name, to, newName).world != w1 {
      LookupInside(host, w1.fs, w1.inside, root, from, name);
      MovedSafe(w1, root, from, name, to, newName, Lookup(host, w1.fs, from, name).value);
      LaterTrans(w, w1, Renameat(host, w, from, name, to, newName).world);
    }
  }

  lemma WriteHandleSafe(host: Host, w: World, root: Inode, n: Inode, data: seq<byte>)
    requires Benign(host, root) && Safe(w, root) && n in w.inside
    ensures var r := WriteHandle(host, w, n, data); Safe(r.world, root) && Later(w, r.world)
  {
    InterruptedSafe(host, w, root);
    var w1 := Interrupted(host, w);
    hide Benign, Contained, Closed, Interrupted, Overwritten;
    if WriteHandle(host, w, n, data).world != w1 && data != [] {
      FileChangeSafe(w1, root, n, Overwritten(w1.fs[n].data, data));
      LaterTrans(w, w1, WriteHandle(host, w, n, data).world);
    }
  }
}
