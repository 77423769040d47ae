/** What a relative path is: pieces with separators between them, and which paths are read as which segments. */
module FilePaths {
  import opened FileKernel

  /** A piece holds no separator of either kind. */
  predicate IsPiece(p: string) {
    '/' !in p && '\\' !in p
  }

  ghost predicate ArePieces(pieces: seq<string>, separators: seq<char>) {
    && |pieces| == |separators| + 1
    && (forall k :: 0 <= k < |pieces| ==> IsPiece(pieces[k]))
    && (forall k :: 0 <= k < |separators| ==> separators[k] == '/' || separators[k] == '\\')
  }

  /** The pieces with the separators between them. */
  function PathOf(pieces: seq<string>, separators: seq<char>): string
    requires |pieces| == |separators| + 1
  {
    if separators == [] then pieces[0] else pieces[0] + [separators[0]] + PathOf(pieces[1..], separators[1..])
  }

  /** The pieces that name something. */
  function Names(pieces: seq<string>): seq<string> {
    if pieces == [] then []
    else if pieces[0] == "" || pieces[0] == "." then Names(pieces[1..])
    else [pieces[0]] + Names(pieces[1..])
  }

  lemma FirstPiece(p: string, c: char, rest: string)
    requires IsPiece(p) && (c == '/' || c == '\\')
    ensures PieceLength(p) == |p| && PieceLength(p + [c] + rest) == |p|
  {
    var path := p + [c] + rest;
    assert forall i :: 0 <= i < |p| ==> path[i] == p[i] && p[i] in p;
    assert path[|p|] == c;
  }

  lemma TailPieces(pieces: seq<string>, separators: seq<char>)
    requires ArePieces(pieces, separators) && separators != []
    ensures IsPiece(pieces[0]) && (separators[0] == '/' || separators[0] == '\\')
    ensures ArePieces(pieces[1..], separators[1..])
  {
  }

  lemma {:induction false} PiecesOfPath(pieces: seq<string>, separators: seq<char>)
    requires ArePieces(pieces, separators)
    ensures Pieces(PathOf(pieces, separators)) == pieces
    decreases |separators|
  {
    if separators == [] {
      FirstPiece(pieces[0], '/', "");
      assert pieces == [pieces[0]];
    } else {
      TailPieces(pieces, separators);
      hide ArePieces;
      var path, rest := PathOf(pieces, separators), PathOf(pieces[1..], separators[1..]);
      FirstPiece(pieces[0], separators[0], rest);
      assert path[..|pieces[0]|] == pieces[0] && path[|pieces[0]| + 1..] == rest;
      PiecesOfPath(pieces[1..], separators[1..]);
    }
  }

  /** Every string is a path in this sense. */
  lemma {:induction false} EveryPath(rel: string) returns (pieces: seq<string>, separators: seq<char>)
    ensures ArePieces(pieces, separators) && PathOf(pieces, separators) == rel
    decreases |rel|
  {
    var n := PieceLength(rel);
    assert IsPiece(rel[..n]);
    if n == |rel| {
      pieces, separators := [rel], [];
      assert rel[..n] == rel;
    } else {
      var more, others := EveryPath(rel[n + 1..]);
      pieces, separators := [rel[..n]] + more, [rel[n]] + others;
      assert pieces[1..] == more && separators[1..] == others;
      assert rel == rel[..n] + [rel[n]] + rel[n + 1..];
    }
  }

  lemma {:induction false} KeptIsNames(pieces: seq<string>)
    ensures Kept(pieces) == Names(pieces)
  {
    if pieces != [] {
      KeptIsNames(pieces[1..]);
    }
  }

  /** Why a path is refused. */
  predicate Refused(pieces: seq<string>)
    requires pieces != []
  {
    || pieces[0] == ""
    || ".." in pieces
    || forall p :: p in pieces ==> p == "" || p == "."
  }

  lemma {:induction false} NoNames(pieces: seq<string>)
    ensures Names(pieces) == [] <==> forall p :: p in pieces ==> p == "" || p == "."
  {
    if pieces != [] {
      NoNames(pieces[1..]);
      assert pieces == [pieces[0]] + pieces[1..];
      assert pieces[0] in pieces && forall p :: p in pieces <==> p == pieces[0] || p in pieces[1..];
    }
  }

  /** For every path: it is refused if and only if it is empty or starts with a separator, has a piece "..",
      or has only empty and "." pieces; and else its segments are its other pieces, in their order. */
  lemma PathIsRead(pieces: seq<string>, separators: seq<char>)
    requires ArePieces(pieces, separators)
    ensures Segments(PathOf(pieces, separators)) == if Refused(pieces) then Err(InvalidPath) else Ok(Names(pieces))
    ensures pieces[0] == "" <==>
            var rel := PathOf(pieces, separators); rel == "" || rel[0] == '/' || rel[0] == '\\'
  {
    var rel := PathOf(pieces, separators);
    PiecesOfPath(pieces, separators);
    KeptIsNames(pieces);
    NoNames(pieces);
    StartsWith(pieces, separators);
    hide Pieces, Kept, Names, PathOf;
  }

  lemma StartsWith(pieces: seq<string>, separators: seq<char>)
    requires ArePieces(pieces, separators)
    ensures var rel := PathOf(pieces, separators);
            && (pieces[0] == "" <==> rel == "" || rel[0] == '/' || rel[0] == '\\')
            && (pieces[0] == "" <==> rel == "" || Absolute(rel))
  {
    if pieces[0] != "" {
      assert PathOf(pieces, separators)[0] == pieces[0][0] && pieces[0][0] in pieces[0];
    } else if separators != [] {
      assert PathOf(pieces, separators)[0] == separators[0];
    }
  }

  /** Joining names with separators and splitting gives them back, whatever the names start with. */
  lemma NamesReadBack(names: seq<string>, separators: seq<char>)
    requires ArePieces(names, separators) && forall s :: s in names ==> s != "" && s != "." && s != ".."
    ensures Segments(PathOf(names, separators)) == Ok(names)
  {
    PathIsRead(names, separators);
    assert names[0] in names;
    AllNames(names);
  }

  lemma {:induction false} AllNames(names: seq<string>)
    requires forall s :: s in names ==> s != "" && s != "."
    ensures Names(names) == names
  {
    if names != [] {
      assert names == [names[0]] + names[1..] && names[0] in names;
      assert forall s :: s in names[1..] ==> s in names;
      AllNames(names[1..]);
    }
  }

  /** Empty pieces and "." pieces behind another piece change nothing. */
  lemma FillersVanish(a: seq<string>, filler: string, b: seq<string>, separators: seq<char>, fewer: seq<char>)
    requires a != [] && (filler == "" || filler == ".")
    requires ArePieces(a + [filler] + b, separators) && ArePieces(a + b, fewer)
    ensures Segments(PathOf(a + [filler] + b, separators)) == Segments(PathOf(a + b, fewer))
  {
    hide Segments, PathOf, Names, ArePieces;
    PathIsRead(a + [filler] + b, separators);
    PathIsRead(a + b, fewer);
    SameNames(a, filler, b);
  }

  lemma SameNames(a: seq<string>, filler: string, b: seq<string>)
    requires a != [] && (filler == "" || filler == ".")
    ensures Names(a + [filler] + b) == Names(a + b) && Refused(a + [filler] + b) == Refused(a + b)
  {
    var full, short := a + [filler] + b, a + b;
    NamesAppend(a, [filler] + b);
    NamesAppend(a, b);
    assert full == a + ([filler] + b) && ([filler] + b)[1..] == b;
    assert full[0] == a[0] == short[0];
    assert forall p :: p in full <==> p in short || p == filler;
    hide Names;
  }

  lemma {:induction false} NamesAppend(a: seq<string>, b: seq<string>)
    ensures Names(a + b) == Names(a) + Names(b)
  {
    if a == [] {
      assert a + b == b;
    } else {
      NamesAppend(a[1..], b);
      assert (a + b)[1..] == a[1..] + b;
    }
  }
}
