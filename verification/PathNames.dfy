/** Pathname strings as inotify_dtree.c builds and compares them. */
module PathNames {

  predicate IsName(n: string) {
    n != "" && '/' !in n
  }

  /** snprintf("%s/%s") */
  function Join(dir: string, name: string): string {
    dir + "/" + name
  }

  /** The test of rewriteCachedPaths() and zapSubtree(): `path` starts with `prefix`,
      and the prefix ends there or at a slash. */
  predicate Covers(prefix: string, path: string) {
    prefix <= path && (|path| == |prefix| || path[|prefix|] == '/')
  }

  /** The path with its covered prefix replaced. */
  function Rebase(path: string, oldPrefix: string, newPrefix: string): string
    requires |oldPrefix| <= |path|
  {
    newPrefix + path[|oldPrefix|..]
  }

  lemma RebaseJoin(d: string, n: string, from: string, to: string)
    requires |from| <= |d|
    ensures Rebase(Join(d, n), from, to) == Join(Rebase(d, from, to), n)
  {
    assert Join(d, n)[|from|..] == d[|from|..] + "/" + n;
  }

  /** The slash that joins is the last one. */
  lemma LastSlash(d: string, n: string)
    requires IsName(n)
    ensures var p := Join(d, n);
            p[..|d|] == d && p[|d|] == '/' && p[|d| + 1..] == n &&
            forall k :: |d| < k < |p| ==> p[k] != '/'
  {
    var p := Join(d, n);
    forall k | |d| < k < |p| ensures p[k] != '/' {
      assert p[k] == n[k - |d| - 1];
    }
  }

  lemma JoinInjective(d: string, n: string, e: string, m: string)
    requires IsName(n) && IsName(m) && Join(d, n) == Join(e, m)
    ensures d == e && n == m
  {
    LastSlash(d, n);
    LastSlash(e, m);
  }

  /** What covers a joined path is that path itself or covers its directory; a sibling
      whose name merely starts with the same letters does not. */
  lemma CoversJoin(prefix: string, d: string, n: string)
    requires IsName(n)
    ensures Covers(prefix, Join(d, n)) <==> prefix == Join(d, n) || Covers(prefix, d)
  {
    var p := Join(d, n);
    LastSlash(d, n);
    if Covers(prefix, p) && prefix != p {
      assert prefix == p[..|prefix|];
      assert prefix <= d;
    }
    if Covers(prefix, d) {
      assert prefix <= p;
    }
  }

  lemma CoversInside(prefix: string, d: string, n: string)
    requires Covers(prefix, d)
    ensures Covers(prefix, Join(d, n))
  {
    assert prefix == d[..|prefix|];
  }

  lemma CoversTransitive(a: string, b: string, c: string)
    requires Covers(a, b) && Covers(b, c)
    ensures Covers(a, c)
  {
    assert b == c[..|b|];
  }

  /** Of two paths that cover a third, one covers the other. */
  lemma CoversComparable(a: string, b: string, c: string)
    requires Covers(a, c) && Covers(b, c)
    ensures Covers(a, b) || Covers(b, a)
  {
    assert a == c[..|a|] && b == c[..|b|];
    if |a| <= |b| {
      assert a == b[..|a|];
    } else {
      assert b == a[..|b|];
    }
  }

  /** Neither path is, or leads to, the other. */
  predicate Apart(a: string, b: string) {
    !Covers(a, b) && !Covers(b, a)
  }

  lemma ApartJoin(a: string, n: string, b: string)
    requires Apart(a, b) && IsName(n)
    ensures Apart(Join(a, n), b)
  {
    CoversJoin(b, a, n);
    CoversJoin(a, a, n);
    if Covers(Join(a, n), b) {
      CoversTransitive(a, Join(a, n), b);
    }
  }

  lemma CoversRebase(path: string, from: string, to: string)
    requires Covers(from, path)
    ensures Covers(to, Rebase(path, from, to))
  {
    assert Rebase(path, from, to)[..|to|] == to;
    if |path| > |from| {
      assert Rebase(path, from, to)[|to|] == path[|from|];
    }
  }
}
