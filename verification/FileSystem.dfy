/** A file system whose every mutation is one atomic step, and which the
    process may stop using between any two of them. */
module FileSystem {
  import opened Options

  /** The segments of an absolute path. */
  type Path = seq<string>

  datatype Node = Dir | File(text: string) | Socket | Link(isDangling: bool)

  type Files = map<Path, Node>

  function At(fs: Files, p: Path): Option<Node>
  {
    if p in fs then Some(fs[p]) else None
  }

  function Parent(p: Path): Path
    requires p != []
  {
    p[..|p| - 1]
  }

  /** Everything but the root sits in a directory. */
  ghost predicate Tree(fs: Files)
  {
    && At(fs, []) == Some(Dir)
    && forall p {:trigger Parent(p)} | p in fs && p != [] :: At(fs, Parent(p)) == Some(Dir)
  }

  /** Whether following `p` finds something: a dangling link does not. */
  predicate Exists(fs: Files, p: Path)
  {
    p in fs && fs[p] != Link(true)
  }

  predicate IsDirectory(fs: Files, p: Path)
  {
    At(fs, p) == Some(Dir)
  }

  /** Every proper ancestor of something present is a directory. */
  lemma {:induction false} AncestorsAreDirs(fs: Files, q: Path, p: Path)
    requires Tree(fs) && p in fs && q <= p && q != p
    ensures At(fs, q) == Some(Dir)
    decreases |p|
  {
    if q != Parent(p) {
      AncestorsAreDirs(fs, q, Parent(p));
    }
  }

  // Renaming

  predicate CanRename(fs: Files, from: Path, to: Path)
  {
    && from in fs && to != []
    && !(from <= to)
    && At(fs, Parent(to)) == Some(Dir)
    && (to in fs ==> fs[to] != Dir && fs[from] != Dir)
  }

  /** What is at `p` once the tree at `from` has been renamed to `to`. */
  function RenamedAt(fs: Files, from: Path, to: Path, p: Path): Option<Node>
  {
    if to <= p then At(fs, from + p[|to|..])
    else if from <= p then None
    else At(fs, p)
  }

  function Rename(fs: Files, from: Path, to: Path): Files
  {
    var landed := set q | q in fs && from <= q :: to + q[|from|..];
    map p | p in fs.Keys + landed && RenamedAt(fs, from, to, p).Some? :: RenamedAt(fs, from, to, p).value
  }

  lemma RenameMeaning(fs: Files, from: Path, to: Path, p: Path)
    ensures At(Rename(fs, from, to), p) == RenamedAt(fs, from, to, p)
  {
    if to <= p && RenamedAt(fs, from, to, p).Some? {
      var q := from + p[|to|..];
      assert to + q[|from|..] == p;
      assert q in fs && from <= q;
    }
  }

  lemma ParentAfterRename(fs: Files, from: Path, to: Path, p: Path)
    requires Tree(fs) && CanRename(fs, from, to) && p != []
    requires RenamedAt(fs, from, to, p).Some?
    ensures RenamedAt(fs, from, to, Parent(p)) == Some(Dir)
  {
    if to <= p && to != p {
      var q := from + p[|to|..];
      assert Parent(q) == from + Parent(p)[|to|..];
      assert to <= Parent(p);
    }
  }

  /** A rename keeps every file in a directory. */
  lemma RenameKeepsTree(fs: Files, from: Path, to: Path)
    requires Tree(fs) && CanRename(fs, from, to)
    ensures Tree(Rename(fs, from, to))
  {
    var after := Rename(fs, from, to);
    RenameMeaning(fs, from, to, []);
    forall p | p in after && p != [] ensures At(after, Parent(p)) == Some(Dir) {
      RenameMeaning(fs, from, to, p);
      RenameMeaning(fs, from, to, Parent(p));
      ParentAfterRename(fs, from, to, p);
    }
  }

  // Removing

  function Below(fs: Files, top: Path): set<Path>
  {
    set p | p in fs && top <= p
  }

  predicate IsEmptyHere(fs: Files, p: Path)
  {
    forall q | q in fs :: p <= q ==> q == p
  }

  /** A nonempty set of paths has a longest member. */
  lemma {:induction false} LongestExists(paths: set<Path>) returns (longest: Path)
    requires paths != {}
    ensures longest in paths
    ensures forall q | q in paths :: |q| <= |longest|
    decreases |paths|
  {
    longest :| longest in paths;
    var others := paths - {longest};
    if others != {} {
      var best := LongestExists(others);
      if |best| > |longest| {
        longest := best;
      }
    }
  }

  lemma LeafExists(fs: Files, top: Path)
    requires top in fs
    ensures exists p :: p in Below(fs, top) && IsEmptyHere(fs, p)
  {
    assert top in Below(fs, top);
    var p := LongestExists(Below(fs, top));
    forall q | q in fs && p <= q ensures q == p {
      assert q in Below(fs, top);
    }
    assert IsEmptyHere(fs, p);
  }

  datatype Io = Done | Refused | Died

  /** The disk one launch of the shell works on. `crashAfter` counts the
      mutations it will still make before dying, if it will. */
  class Disk {
    var files: Files
    var crashAfter: Option<nat>

    ghost predicate Valid()
      reads this
    {
      Tree(files)
    }

    /** Spends one mutation, or finds that the process is gone. */
    method Survives() returns (alive: bool)
      modifies `crashAfter
      ensures alive <==> old(crashAfter) != Some(0)
      ensures crashAfter.None? <==> old(crashAfter.None?)
    {
      alive := crashAfter != Some(0);
      if alive && crashAfter.Some? {
        crashAfter := Some(crashAfter.value - 1);
      }
    }

    method RenameTo(from: Path, to: Path) returns (io: Io)
      requires Valid()
      modifies this
      ensures Valid()
      ensures crashAfter.None? <==> old(crashAfter.None?)
      ensures io == Refused <==> !CanRename(old(files), from, to)
      ensures io == Done ==> forall p :: At(files, p) == RenamedAt(old(files), from, to, p)
      ensures io != Done ==> files == old(files)
      ensures io == Died ==> crashAfter.Some?
    {
      if !CanRename(files, from, to) {
        return Refused;
      }
      var alive := Survives();
      if !alive {
        return Died;
      }
      forall p ensures At(Rename(files, from, to), p) == RenamedAt(files, from, to, p) {
        RenameMeaning(files, from, to, p);
      }
      RenameKeepsTree(files, from, to);
      files := Rename(files, from, to);
      return Done;
    }

    /** Creates `p` and whatever directories above it are missing, top down. */
    method MakeDirs(p: Path) returns (io: Io)
      requires Valid()
      modifies this
      ensures Valid()
      ensures crashAfter.None? <==> old(crashAfter.None?)
      ensures forall q :: At(files, q) == old(At(files, q)) || (q !in old(files) && q <= p && At(files, q) == Some(Dir))
      ensures io == Done ==> forall q :: q <= p ==> At(files, q) == Some(Dir)
      ensures io == Refused ==> exists q :: q <= p && q in old(files) && old(files)[q] != Dir
      ensures io == Died ==> crashAfter.Some?
    {
      var i := 0;
      while i < |p|
        invariant i <= |p|
        invariant Valid()
        invariant crashAfter.None? <==> old(crashAfter.None?)
        invariant forall q ::
                    || At(files, q) == old(At(files, q))
                    || (q !in old(files) && q <= p && At(files, q) == Some(Dir))
        invariant forall q :: q <= p && |q| <= i ==> At(files, q) == Some(Dir)
      {
        var q := p[..i + 1];
        assert forall x :: x <= p && |x| == i + 1 ==> x == q;
        assert Parent(q) == p[..i] && p[..i] <= p;
        if q in files {
          if files[q] != Dir {
            assert At(files, q) == old(At(files, q));
            return Refused;
          }
        } else {
          var alive := Survives();
          if !alive {
            return Died;
          }
          files := files[q := Dir];
        }
        i := i + 1;
      }
      return Done;
    }

    /** Writes a plain file where there is one or where there is nothing. */
    method WriteFile(p: Path, text: string) returns (io: Io)
      requires Valid()
      modifies this
      ensures Valid()
      ensures crashAfter.None? <==> old(crashAfter.None?)
      ensures io == Refused <==> !CanWrite(old(files), p)
      ensures files == if io == Done then old(files)[p := File(text)] else old(files)
      ensures io == Died ==> crashAfter.Some?
    {
      if !CanWrite(files, p) {
        return Refused;
      }
      var alive := Survives();
      if !alive {
        return Died;
      }
      files := files[p := File(text)];
      return Done;
    }

    /** Removes `top` and everything below it, contents before their directory. */
    method RemoveTree(top: Path) returns (io: Io)
      requires Valid() && top != []
      modifies this
      ensures Valid()
      ensures crashAfter.None? <==> old(crashAfter.None?)
      ensures forall p :: At(files, p) == old(At(files, p)) || (top <= p && p !in files)
      ensures io == Done ==> forall p :: top <= p ==> p !in files
      ensures io == Died ==> crashAfter.Some?
      ensures io != Refused
    {
      while top in files
        invariant Valid()
        invariant crashAfter.None? <==> old(crashAfter.None?)
        invariant forall p :: At(files, p) == old(At(files, p)) || (top <= p && p !in files)
        decreases |files|
      {
        LeafExists(files, top);
        var leaf :| leaf in Below(files, top) && IsEmptyHere(files, leaf);
        var alive := Survives();
        if !alive {
          return Died;
        }
        RemoveLeafKeepsTree(files, leaf);
        files := files - {leaf};
      }
      forall p | top <= p ensures p !in files {
        if p in files && p != top {
          AncestorsAreDirs(files, top, p);
        }
      }
      return Done;
    }

    /** The names in a directory, each once, in no particular order. */
    method ReadDir(dir: Path) returns (names: seq<string>)
      ensures forall n :: n in names <==> dir + [n] in files
      ensures forall i, j :: 0 <= i < j < |names| ==> names[i] != names[j]
    {
      var left := set p | p in files && |p| == |dir| + 1 && dir <= p :: p[|dir|];
      forall n ensures n in left <==> dir + [n] in files {
        var p := dir + [n];
        assert p[|dir|] == n;
        assert forall q :: |q| == |dir| + 1 && dir <= q && q[|dir|] == n ==> q == p;
      }
      names := [];
      while left != {}
        invariant forall n :: n in names || n in left <==> dir + [n] in files
        invariant forall n :: n in names ==> n !in left
        invariant forall i, j :: 0 <= i < j < |names| ==> names[i] != names[j]
        decreases |left|
      {
        var n :| n in left;
        left := left - {n};
        names := names + [n];
      }
    }
  }

  predicate CanWrite(fs: Files, p: Path)
  {
    p != [] && At(fs, Parent(p)) == Some(Dir) && (p in fs ==> fs[p].File?)
  }

  lemma RemoveLeafKeepsTree(fs: Files, leaf: Path)
    requires Tree(fs) && leaf in fs && leaf != [] && IsEmptyHere(fs, leaf)
    ensures Tree(fs - {leaf}) && |fs - {leaf}| < |fs|
  {
    var after := fs - {leaf};
    assert after.Keys == fs.Keys - {leaf};
    assert |after| == |after.Keys| && |fs| == |fs.Keys|;
    forall p | p in after && p != [] ensures At(after, Parent(p)) == Some(Dir) {
      assert Parent(p) <= p;
    }
  }
}
