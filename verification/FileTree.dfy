/** Directories form a tree: what a path names, what lies below a directory, and that no call breaks it. */
module FileTree {
  import opened Wrappers
  import opened FileSystem

  // ----- paths ---------------------------------------------------------------------------

  /** The inode that the segments name, entry by entry, through directories only. */
  function Named(fs: Fs, dir: Inode, segments: seq<string>): Option<Inode>
    decreases |segments|
  {
    if segments == [] then Some(dir)
    else if dir in fs && fs[dir].Dir? && segments[0] in fs[dir].entries && fs[dir].entries[segments[0]] in fs then
      Named(fs, fs[dir].entries[segments[0]], segments[1..])
    else None
  }

  /** `b` is `a`, or lies below it. */
  ghost predicate Leads(fs: Fs, a: Inode, b: Inode) {
    exists path :: Named(fs, a, path) == Some(b)
  }

  lemma {:induction false} NamedAppend(fs: Fs, dir: Inode, a: seq<string>, b: seq<string>)
    ensures Named(fs, dir, a + b) == match Named(fs, dir, a) case None => None case Some(n) => Named(fs, n, b)
    decreases |a|
  {
    if a == [] {
      assert a + b == b;
    } else {
      assert (a + b)[1..] == a[1..] + b;
      if dir in fs && fs[dir].Dir? && a[0] in fs[dir].entries {
        NamedAppend(fs, fs[dir].entries[a[0]], a[1..], b);
      }
    }
  }

  /** What is found below an inode is exactly what paths from it name. */
  lemma BelowExactly(fs: Fs, a: Inode, b: Inode)
    ensures b in Below(fs, {a}) <==> Leads(fs, a, b)
  {
    assert Named(fs, a, []) == Some(a);
    BelowIsNamed(fs, a, {a});
    if path :| Named(fs, a, path) == Some(b) {
      BelowIsClosed(fs, {a});
      ClosedHoldsPath(fs, Below(fs, {a}), a, path);
    }
  }

  lemma {:induction false} BelowIsNamed(fs: Fs, a: Inode, found: set<Inode>)
    requires forall d :: d in found ==> Leads(fs, a, d)
    ensures forall d :: d in Below(fs, found) ==> Leads(fs, a, d)
    decreases |fs.Keys - found|
  {
    var more := found + Entries(fs, found);
    if more != found {
      FewerLeft(fs.Keys, found, more);
      forall n | n in more ensures Leads(fs, a, n) {
        if n !in found {
          var d, x :| d in found && d in fs && fs[d].Dir? && x in fs[d].entries && fs[d].entries[x] == n;
          var path :| Named(fs, a, path) == Some(d);
          NamedAppend(fs, a, path, [x]);
          assert [x][1..] == [];
        }
      }
      BelowIsNamed(fs, a, more);
    }
  }

  lemma {:induction false} BelowIsClosed(fs: Fs, found: set<Inode>)
    ensures found <= Below(fs, found) && Entries(fs, Below(fs, found)) <= Below(fs, found)
    decreases |fs.Keys - found|
  {
    var more := found + Entries(fs, found);
    if more != found {
      FewerLeft(fs.Keys, found, more);
      BelowIsClosed(fs, more);
    }
  }

  lemma {:induction false} ClosedHoldsPath(fs: Fs, all: set<Inode>, dir: Inode, path: seq<string>)
    requires dir in all && Entries(fs, all) <= all
    ensures Named(fs, dir, path).Some? ==> Named(fs, dir, path).value in all
    decreases |path|
  {
    if path != [] && Named(fs, dir, path).Some? {
      assert fs[dir].entries[path[0]] in Entries(fs, all);
      ClosedHoldsPath(fs, all, fs[dir].entries[path[0]], path[1..]);
    }
  }

  // ----- trees ---------------------------------------------------------------------------

  predicate Lists(fs: Fs, dir: Inode, name: string, n: Inode) {
    dir in fs && fs[dir].Dir? && name in fs[dir].entries && fs[dir].entries[name] == n
  }

  /** Every entry leads to an inode. */
  ghost predicate NoDangling(fs: Fs) {
    forall d, x :: d in fs && fs[d].Dir? && x in fs[d].entries ==> fs[d].entries[x] in fs
  }

  /** No directory stands in two places. */
  ghost predicate OneHome(fs: Fs) {
    forall a, x, b, y, n :: n in fs && fs[n].Dir? && Lists(fs, a, x, n) && Lists(fs, b, y, n) ==> a == b && x == y
  }

  /** No inode lies below itself. */
  ghost predicate Acyclic(fs: Fs) {
    forall n: Inode, path :: path != [] ==> Named(fs, n, path) != Some(n)
  }

  ghost predicate IsTree(fs: Fs) {
    NoDangling(fs) && OneHome(fs) && Acyclic(fs)
  }

  /** Entry by entry the same, up to what files hold and where ".." leads. */
  ghost predicate SameEntries(fs: Fs, fs': Fs) {
    && fs'.Keys == fs.Keys
    && forall n :: n in fs ==> fs'[n].Dir? == fs[n].Dir? && (fs[n].Dir? ==> fs'[n].entries == fs[n].entries)
  }

  lemma {:induction false} SameNamed(fs: Fs, fs': Fs, dir: Inode, path: seq<string>)
    requires SameEntries(fs, fs')
    ensures Named(fs', dir, path) == Named(fs, dir, path)
    decreases |path|
  {
    if path != [] && dir in fs && fs[dir].Dir? && path[0] in fs[dir].entries {
      SameNamed(fs, fs', fs[dir].entries[path[0]], path[1..]);
    }
  }

  lemma SameTree(fs: Fs, fs': Fs)
    requires IsTree(fs) && SameEntries(fs, fs')
    ensures IsTree(fs')
  {
    forall n: Inode, path | path != [] ensures Named(fs', n, path) != Some(n) {
      SameNamed(fs, fs', n, path);
    }
    forall a, x, b, y, n | n in fs' && fs'[n].Dir? && Lists(fs', a, x, n) && Lists(fs', b, y, n)
      ensures a == b && x == y
    {
      assert Lists(fs, a, x, n) && Lists(fs, b, y, n);
    }
  }

  lemma {:induction false} UnlinkNamed(fs: Fs, dir: Inode, name: string, a: Inode, path: seq<string>)
    requires dir in fs && fs[dir].Dir?
    ensures Named(Unlink(fs, dir, name), a, path).Some? ==> Named(Unlink(fs, dir, name), a, path) == Named(fs, a, path)
    decreases |path|
  {
    if path != [] && a in fs && fs[a].Dir? && path[0] in fs[a].entries {
      UnlinkNamed(fs, dir, name, fs[a].entries[path[0]], path[1..]);
    }
  }

  lemma UnlinkTree(fs: Fs, dir: Inode, name: string)
    requires IsTree(fs) && dir in fs && fs[dir].Dir?
    ensures IsTree(Unlink(fs, dir, name))
  {
    var fs' := Unlink(fs, dir, name);
    forall n: Inode, path | path != [] ensures Named(fs', n, path) != Some(n) {
      UnlinkNamed(fs, dir, name, n, path);
    }
    assert forall a, x, n :: Lists(fs', a, x, n) ==> Lists(fs, a, x, n);
  }

  /** A path in the graph with one more entry either is a path without it, or comes to that entry. */
  lemma {:induction false} LinkNamed(fs: Fs, dir: Inode, name: string, n: Inode, a: Inode, path: seq<string>)
    returns (k: nat)
    requires dir in fs && fs[dir].Dir? && Named(Link(fs, dir, name, n), a, path).Some?
    ensures var fs' := Link(fs, dir, name, n);
            || (k == |path| && Named(fs, a, path) == Named(fs', a, path))
            || (k < |path| && path[k] == name && Named(fs, a, path[..k]) == Named(fs', a, path[..k]) == Some(dir))
    decreases |path|
  {
    var fs' := Link(fs, dir, name, n);
    if path == [] || (a == dir && path[0] == name) {
      k := 0;
    } else {
      var next := fs[a].entries[path[0]];
      var rest := LinkNamed(fs, dir, name, n, next, path[1..]);
      k := rest + 1;
      if k < |path| {
        assert path[..k][1..] == path[1..][..rest];
      }
    }
  }

  /** Whatever leads to the new entry's directory in the new graph did so before. */
  lemma LinkLeads(fs: Fs, dir: Inode, name: string, n: Inode, a: Inode)
    requires dir in fs && fs[dir].Dir? && Leads(Link(fs, dir, name, n), a, dir)
    ensures Leads(fs, a, dir)
  {
    var path :| Named(Link(fs, dir, name, n), a, path) == Some(dir);
    var k := LinkNamed(fs, dir, name, n, a, path);
    assert Named(fs, a, path[..k]) == Some(dir) || path[..k] == path;
  }

  lemma LinkAcyclic(fs: Fs, dir: Inode, name: string, n: Inode, a: Inode, path: seq<string>)
    requires Acyclic(fs) && dir in fs && fs[dir].Dir? && n in fs && !Leads(fs, n, dir) && path != []
    ensures Named(Link(fs, dir, name, n), a, path) != Some(a)
  {
    var fs' := Link(fs, dir, name, n);
    if Named(fs', a, path) == Some(a) {
      var k := LinkNamed(fs, dir, name, n, a, path);
      var before, after := path[..k], path[k + 1..];
      assert path == before + [name] + after;
      NamedAppend(fs', a, before + [name], after);
      NamedAppend(fs', a, before, [name]);
      assert [name][1..] == [];
      assert Named(fs', a, before + [name]) == Some(n) && Named(fs', n, after) == Some(a);
      NamedAppend(fs', n, after, before);
      assert Leads(fs', n, dir);
      LinkLeads(fs, dir, name, n, n);
      assert false;
    }
  }

  /** Entering something into a directory that does not lie below it, while it stands nowhere else. */
  lemma LinkTree(fs: Fs, dir: Inode, name: string, n: Inode)
    requires IsTree(fs) && dir in fs && fs[dir].Dir? && n in fs && !Leads(fs, n, dir)
    requires fs[n].Dir? ==> forall a, x :: !Lists(fs, a, x, n)
    ensures IsTree(Link(fs, dir, name, n))
  {
    var fs' := Link(fs, dir, name, n);
    forall a: Inode, path | path != [] ensures Named(fs', a, path) != Some(a) {
      LinkAcyclic(fs, dir, name, n, a, path);
    }
    hide Acyclic;
    assert forall a, x, m :: Lists(fs', a, x, m) ==> Lists(fs, a, x, m) || (a == dir && x == name && m == n);
    forall a, x, b, y, m | m in fs' && fs'[m].Dir? && Lists(fs', a, x, m) && Lists(fs', b, y, m)
      ensures a == b && x == y
    {
    }
  }

  /** A new inode without entries in a directory. */
  lemma BirthTree(fs: Fs, dir: Inode, name: string, n: Inode, node: Node)
    requires IsTree(fs) && dir in fs && fs[dir].Dir? && n !in fs && (node.Dir? ==> node.entries == map[])
    ensures IsTree(Link(fs, dir, name, n)[n := node])
  {
    var more := fs[n := node];
    LonelyTree(fs, n, node);
    forall path ensures Named(more, n, path) != Some(dir) {
      if path != [] && node.Dir? {
        assert path[0] !in more[n].entries;
      }
    }
    assert forall a, x :: !Lists(fs, a, x, n);
    assert forall a, x :: Lists(more, a, x, n) ==> Lists(fs, a, x, n);
    LinkTree(more, dir, name, n);
    assert Link(more, dir, name, n) == Link(fs, dir, name, n)[n := node];
  }

  lemma LonelyTree(fs: Fs, n: Inode, node: Node)
    requires IsTree(fs) && n !in fs && (node.Dir? ==> node.entries == map[])
    ensures IsTree(fs[n := node])
  {
    var more := fs[n := node];
    forall a: Inode, path | path != [] ensures Named(more, a, path) != Some(a) {
      LonelyNamed(fs, n, node, a, path);
    }
    assert forall a, x, m :: Lists(more, a, x, m) ==> Lists(fs, a, x, m) && m in fs;
  }

  lemma {:induction false} LonelyNamed(fs: Fs, n: Inode, node: Node, a: Inode, path: seq<string>)
    requires NoDangling(fs) && n !in fs && (node.Dir? ==> node.entries == map[])
    ensures path != [] ==> Named(fs[n := node], a, path) == Named(fs, a, path)
    decreases |path|
  {
    if path != [] && a in fs && fs[a].Dir? && path[0] in fs[a].entries {
      LonelyNamed(fs, n, node, fs[a].entries[path[0]], path[1..]);
    }
  }

  /** A move that is not into itself keeps the tree. */
  lemma MovedTree(fs: Fs, from: Inode, name: string, to: Inode, newName: string, n: Inode)
    requires IsTree(fs) && from in fs && fs[from].Dir? && to in fs && fs[to].Dir? && n in fs
    requires Lists(fs, from, name, n) && !IntoItself(fs, n, to)
    ensures IsTree(Moved(fs, from, name, to, newName, n))
  {
    var cut := Unlink(fs, from, name);
    UnlinkTree(fs, from, name);
    if Leads(cut, n, to) {
      var path :| Named(cut, n, path) == Some(to);
      UnlinkNamed(fs, from, name, n, path);
      BelowExactly(fs, n, to);
    }
    assert fs[n].Dir? ==> forall a, x :: !Lists(cut, a, x, n) by {
      assert forall a, x :: Lists(cut, a, x, n) ==> Lists(fs, a, x, n);
    }
    LinkTree(cut, to, newName, n);
    SameTree(Link(cut, to, newName, n), Moved(fs, from, name, to, newName, n));
  }

  // ----- what a path into itself looks like ----------------------------------------------

  /** Two paths to one directory agree from the back, as far as both go. */
  lemma {:induction false} SameEnding(fs: Fs, a: Inode, p: seq<string>, b: Inode, q: seq<string>, n: Inode)
    requires OneHome(fs) && n in fs && fs[n].Dir? && Named(fs, a, p) == Some(n) == Named(fs, b, q)
    ensures |q| <= |p| ==> Named(fs, a, p[..|p| - |q|]) == Some(b)
    ensures |p| <= |q| ==> Named(fs, b, q[..|q| - |p|]) == Some(a)
    decreases |p|
  {
    if p == [] {
      assert q[..|q|] == q;
    } else if q == [] {
      assert p[..|p|] == p;
    } else {
      var k, j := |p| - 1, |q| - 1;
      LastStep(fs, a, p, n);
      LastStep(fs, b, q, n);
      var d := Named(fs, a, p[..k]).value;
      SameEnding(fs, a, p[..k], b, q[..j], d);
      assert |q| <= |p| ==> p[..k][..k - j] == p[..|p| - |q|];
      assert |p| <= |q| ==> q[..j][..j - k] == q[..|q| - |p|];
    }
  }

  lemma LastStep(fs: Fs, a: Inode, path: seq<string>, n: Inode)
    requires path != [] && Named(fs, a, path) == Some(n)
    ensures var k := |path| - 1;
            var d := Named(fs, a, path[..k]);
            d.Some? && d.value in fs && fs[d.value].Dir? && Lists(fs, d.value, path[k], n)
  {
    var k := |path| - 1;
    assert path == path[..k] + [path[k]];
    NamedAppend(fs, a, path[..k], [path[k]]);
  }

  lemma NoWayUp(fs: Fs, a: Inode, down: seq<string>, b: Inode, path: seq<string>)
    requires Acyclic(fs) && down != [] && Named(fs, a, down) == Some(b)
    ensures Named(fs, b, path) != Some(a)
  {
    NamedAppend(fs, a, down, path);
  }

  /** In a tree the target directory lies below a directory if and only if the path to it goes through
      that directory. */
  lemma ThroughExactly(fs: Fs, root: Inode, from: seq<string>, n: Inode, to: seq<string>, q: Inode)
    requires IsTree(fs) && from != [] && Named(fs, root, from) == Some(n)
    requires Named(fs, root, to) == Some(q) && q in fs && fs[q].Dir?
    ensures Leads(fs, n, q) <==> exists k :: 0 <= k <= |to| && Named(fs, root, to[..k]) == Some(n)
  {
    if k :| 0 <= k <= |to| && Named(fs, root, to[..k]) == Some(n) {
      assert to == to[..k] + to[k..];
      NamedAppend(fs, root, to[..k], to[k..]);
    }
    if path :| Named(fs, n, path) == Some(q) {
      SameEnding(fs, root, to, n, path, q);
      if |to| < |path| {
        NoWayUp(fs, root, from, n, path[..|path| - |to|]);
      }
    }
  }
}
