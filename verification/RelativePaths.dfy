/** The path a module is shipped under (`make_relative` in `graph.rs`), on paths split at `/`. */
module RelativePaths {
  type Path = seq<string>

  const UP := ".."

  /** How many leading segments two paths share. */
  function Shared(path: Path, base: Path): (n: nat)
    ensures n <= |path| && n <= |base| && path[..n] == base[..n]
    ensures n < |path| && n < |base| ==> path[n] != base[n]
  {
    if path == [] || base == [] || path[0] != base[0] then 0
    else
      var n := 1 + Shared(path[1..], base[1..]);
      assert path[..n] == [path[0]] + path[1..][..n - 1] && base[..n] == [base[0]] + base[1..][..n - 1];
      n
  }

  function Ups(n: nat): (r: Path)
    ensures |r| == n && forall i :: 0 <= i < n ==> r[i] == UP
  {
    seq(n, _ => UP)
  }

  /** Inside the base the base is taken off; beside it, `..` leads out of what is not shared; with nothing
      shared only the file name is left. */
  function MakeRelative(path: Path, base: Path): Path
    requires path != []
  {
    var shared := Shared(path, base);
    if shared == 0 then [path[|path| - 1]] else Ups(|base| - shared) + path[shared..]
  }

  /** Reading a relative path from `at`. */
  function Resolve(at: Path, relative: Path): Path
    decreases |relative|
  {
    if relative == [] then at
    else if relative[0] == UP then Resolve(if at == [] then [] else at[..|at| - 1], relative[1..])
    else Resolve(at + [relative[0]], relative[1..])
  }

  predicate Normal(path: Path) { UP !in path }

  lemma {:induction false} ResolveNames(at: Path, names: Path)
    requires Normal(names)
    ensures Resolve(at, names) == at + names
    decreases |names|
  {
    if names == [] {
      assert at + names == at;
    } else {
      ResolveNames(at + [names[0]], names[1..]);
      assert at + [names[0]] + names[1..] == at + names;
    }
  }

  lemma {:induction false} ResolveUps(at: Path, n: nat, rest: Path)
    requires n <= |at|
    ensures Resolve(at, Ups(n) + rest) == Resolve(at[..|at| - n], rest)
    decreases n
  {
    if n == 0 {
      assert Ups(n) + rest == rest && at[..|at|] == at;
    } else {
      assert (Ups(n) + rest)[1..] == Ups(n - 1) + rest;
      ResolveUps(at[..|at| - 1], n - 1, rest);
      assert at[..|at| - 1][..|at| - n] == at[..|at| - n];
    }
  }

  /** Where anything is shared, the shipped path read from the project root is the module again. */
  lemma RelativeLeadsBack(path: Path, base: Path)
    requires path != [] && Normal(path) && Shared(path, base) > 0
    ensures Resolve(base, MakeRelative(path, base)) == path
  {
    var n := Shared(path, base);
    ResolveUps(base, |base| - n, path[n..]);
    ResolveNames(base[..n], path[n..]);
    assert base[..|base| - (|base| - n)] == base[..n];
    assert path[..n] + path[n..] == path;
  }

  /** A module that shares something with the root ships under the path of another if and only if the
      other shares nothing with the root and this one lies directly below the root under its file name. */
  lemma SamePathIff(p: Path, q: Path, base: Path)
    requires p != [] && q != [] && Normal(p) && Normal(q) && Shared(p, base) > 0
    ensures MakeRelative(p, base) == MakeRelative(q, base) <==>
              p == q || (Shared(q, base) == 0 && p == base + [q[|q| - 1]])
  {
    RelativeLeadsBack(p, base);
    if Shared(q, base) > 0 {
      RelativeLeadsBack(q, base);
    } else {
      var name := q[|q| - 1];
      assert MakeRelative(q, base) == [name] && name in q;
      assert Resolve(base, [name]) == base + [name] by { ResolveNames(base, [name]); }
      if p == base + [name] {
        InsideShares(base, name);
        assert p[|base|..] == [name] && Ups(0) == [];
      }
    }
  }

  lemma {:induction false} InsideShares(base: Path, name: string)
    ensures Shared(base + [name], base) == |base|
  {
    if base != [] {
      InsideShares(base[1..], name);
      assert (base + [name])[1..] == base[1..] + [name];
    }
  }

  /** No name on the root's side appears: every segment is `..` or one of the module's own. */
  lemma RootStaysOut(path: Path, base: Path, segment: string)
    requires path != [] && segment in MakeRelative(path, base)
    ensures segment == UP || segment in path[Shared(path, base)..]
  {
    var n := Shared(path, base);
    if n == 0 {
      assert path[n..] == path;
    } else {
      var r := MakeRelative(path, base);
      var i :| 0 <= i < |r| && r[i] == segment;
      if i < |base| - n {
        assert Ups(|base| - n)[i] == UP;
      } else {
        assert r[i] == path[n..][i - (|base| - n)];
      }
    }
  }
}
