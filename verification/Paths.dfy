/** Lexical paths (`path/filepath`) and the part of the directory tree that katbox manipulates (`os`).

    A clean absolute path is the sequence of its components, so "/csi/pod/vol" is ["csi", "pod", "vol"].
    A directory tree is the set of the paths that exist. */
module Paths {

  type Path = seq<string>

  /* ---------- filepath.Join and filepath.Dir ---------- */

  /** The pieces of `s` between slashes; "a/b" gives ["a", "b"] and "" gives [""]. */
  function Split(s: string): (parts: seq<string>)
    ensures parts != []
    ensures '/' !in s ==> parts == [s]
  {
    if s == "" then [""]
    else
      var rest := Split(s[1..]);
      assert [s[0]] + s[1..] == s;
      if s[0] == '/' then [""] + rest else [[s[0]] + rest[0]] + rest[1..]
  }

  /** Walks `parts` from `base` as `filepath.Clean` does on a rooted path: empty and "." pieces stay, ".." goes up. */
  function Walk(base: Path, parts: seq<string>): Path
    decreases |parts|
  {
    if parts == [] then base
    else
      var part := parts[0];
      var next :=
        if part == "" || part == "." then base
        else if part == ".." then Dir(base)
        else base + [part];
      Walk(next, parts[1..])
  }

  /** `filepath.Dir`: the root is its own parent. */
  function Dir(p: Path): Path
  {
    if p == [] then [] else p[..|p| - 1]
  }

  /** The directory of volume `p` of pod `podUUID`. */
  function Fullpath(workdir: Path, podUUID: string, p: string): Path
  {
    Walk(workdir, Split(podUUID) + Split(p))
  }

  /** A non-empty clean single path component. */
  predicate Component(s: string)
  {
    s != "" && s != "." && s != ".." && '/' !in s
  }

  /** On components, Fullpath is plain extension; an empty pod UUID drops out of the path. */
  lemma FullpathOfComponents(workdir: Path, podUUID: string, p: string)
    requires podUUID == "" || Component(podUUID)
    requires Component(p)
    ensures Fullpath(workdir, podUUID, p) == if podUUID == "" then workdir + [p] else workdir + [podUUID, p]
  {
    var parts := Split(podUUID) + Split(p);
    assert parts == [podUUID, p] && parts[1..] == [p] && parts[1..][1..] == [];
    if podUUID == "" {
      calc {
        Walk(workdir, parts);
        Walk(workdir, [p]);
        { assert [p][1..] == []; }
        Walk(workdir + [p], []);
      }
    } else {
      calc {
        Walk(workdir, parts);
        Walk(workdir + [podUUID], [p]);
        { assert [p][1..] == []; }
        Walk(workdir + [podUUID] + [p], []);
        { assert workdir + [podUUID] + [p] == workdir + [podUUID, p]; }
        workdir + [podUUID, p];
      }
    }
  }

  lemma {:induction false} SplitOfJoin(s: string, t: string)
    ensures Split(s + "/" + t) == Split(s) + Split(t)
  {
    var u := s + "/" + t;
    if s == "" {
      assert u[1..] == t;
    } else {
      assert u[0] == s[0] && u[1..] == s[1..] + "/" + t;
      SplitOfJoin(s[1..], t);
      var rest := Split(s[1..]);
      assert Split(u[1..]) == rest + Split(t);
      if s[0] != '/' {
        assert (rest + Split(t))[0] == rest[0] && (rest + Split(t))[1..] == rest[1..] + Split(t);
      }
    }
  }

  lemma WalkOn(base: Path, parts: seq<string>, last: string)
    ensures Walk(base, parts + [last]) == Walk(Walk(base, parts), [last])
    decreases |parts|
  {
    if parts != [] {
      assert (parts + [last])[1..] == parts[1..] + [last];
      WalkOn(Walk(base, [parts[0]]), parts[1..], last);
      WalkOne(base, parts);
      WalkOne(base, parts + [last]);
    }
  }

  lemma WalkOne(base: Path, parts: seq<string>)
    requires parts != []
    ensures Walk(base, parts) == Walk(Walk(base, [parts[0]]), parts[1..])
  {
    assert [parts[0]][1..] == [];
  }

  /** `filepath.Join` for all strings, one piece at a time: an empty or "." piece adds nothing, ".." goes up, any other
      piece goes down; and the pod UUID is joined like any part of the path. */
  lemma {:induction false} FullpathByPieces(workdir: Path, podUUID: string, p: string, piece: string)
    requires '/' !in piece
    ensures Fullpath(workdir, "", "") == workdir
    ensures Fullpath(workdir, "", podUUID + "/" + p) == Fullpath(workdir, podUUID, p)
    ensures Fullpath(workdir, podUUID, p + "/" + piece)
         == if piece == "" || piece == "." then Fullpath(workdir, podUUID, p)
            else if piece == ".." then Dir(Fullpath(workdir, podUUID, p))
            else Fullpath(workdir, podUUID, p) + [piece]
  {
    assert Split("") + Split("") == ["", ""] && ["", ""][1..] == [""] && [""][1..] == [];
    SplitOfJoin(podUUID, p);
    assert Split("") + Split(podUUID + "/" + p) == [""] + (Split(podUUID) + Split(p));
    assert ([""] + (Split(podUUID) + Split(p)))[1..] == Split(podUUID) + Split(p);
    SplitOfJoin(p, piece);
    assert Split(podUUID) + Split(p + "/" + piece) == Split(podUUID) + Split(p) + [piece];
    WalkOn(workdir, Split(podUUID) + Split(p), piece);
    assert [piece][1..] == [];
  }

  /* ---------- the directory tree ---------- */

  predicate HasChild(tree: set<Path>, dir: Path)
  {
    exists q :: q in tree && q != [] && Dir(q) == dir
  }

  /** Every node's parent exists. */
  ghost predicate Closed(tree: set<Path>)
  {
    forall q :: q in tree ==> Dir(q) in tree
  }

  /** `p` and every directory above it. */
  function Ancestors(p: Path): set<Path>
  {
    set i | 0 <= i <= |p| :: p[..i]
  }

  /** `os.MkdirAll` when it succeeds. */
  function MkdirAll(tree: set<Path>, p: Path): set<Path>
  {
    tree + Ancestors(p)
  }

  /** `os.RemoveAll` when it succeeds: the whole subtree at `p` goes. */
  function RemoveAll(tree: set<Path>, p: Path): set<Path>
  {
    set q | q in tree && !(p <= q)
  }

  /** `os.Remove` on a directory: it goes if it is empty, otherwise nothing changes. */
  function RemoveDir(tree: set<Path>, dir: Path): set<Path>
  {
    if HasChild(tree, dir) then tree else tree - {dir}
  }

  /** `after` differs from `tree` at most strictly below `p`, and still is a tree. */
  ghost predicate ChangedBelow(tree: set<Path>, after: set<Path>, p: Path)
  {
    && (Closed(tree) ==> Closed(after))
    && (forall q :: !(p < q) ==> (q in tree <==> q in after))
  }

  lemma DirOfAppend(p: Path, name: string)
    ensures Dir(p + [name]) == p
  {
  }

  lemma PrefixSameLength(p: Path, q: Path)
    requires p <= q && |p| == |q|
    ensures p == q
  {
  }

  /** A prefix of a non-equal path is a prefix of its parent. */
  lemma PrefixOfParent(p: Path, q: Path)
    requires p <= q && p != q
    ensures p <= Dir(q)
  {
    if |p| == |q| { PrefixSameLength(p, q); }
  }

  lemma MkdirAllCloses(tree: set<Path>, p: Path)
    requires Closed(tree)
    ensures Closed(MkdirAll(tree, p))
  {
    forall q | q in MkdirAll(tree, p) ensures Dir(q) in MkdirAll(tree, p) {
      if q !in tree {
        var i :| 0 <= i <= |p| && q == p[..i];
        assert Dir(q) == p[..if i == 0 then 0 else i - 1];
      }
    }
  }

  lemma RemoveAllCloses(tree: set<Path>, p: Path)
    requires Closed(tree) && p != []
    ensures Closed(RemoveAll(tree, p))
  {
    forall q | q in RemoveAll(tree, p) ensures Dir(q) in RemoveAll(tree, p) {
      assert Dir(q) <= q;
    }
  }

  lemma RemoveDirCloses(tree: set<Path>, dir: Path)
    requires Closed(tree) && (dir == [] ==> HasChild(tree, dir))
    ensures Closed(RemoveDir(tree, dir))
  {
  }

  /** In a tree, nothing lies below a missing path. */
  lemma NothingBelowMissing(tree: set<Path>, p: Path, q: Path)
    requires Closed(tree) && p !in tree && p <= q
    ensures q !in tree
  {
    if p != q {
      PrefixOfParent(p, q);
      NothingBelowMissing(tree, p, Dir(q));
    }
  }
}
