/**
 * The string operations of the Python runtime that the script relies on:
 * `str.lower`, the `in` operator on strings and `os.path.join`.
 * The script runs under Python 2.7, where `str` is a byte string, so
 * `lower` only changes the ASCII letters `A`-`Z`.
 */
module Text {
  import opened Common

  predicate IsUpper(c: char) {
    'A' <= c <= 'Z'
  }

  function LowerChar(c: char): char {
    if IsUpper(c) then (c as int + 32) as char else c
  }

  /** `s.lower()` */
  function Lower(s: string): string {
    seq(|s|, i requires 0 <= i < |s| => LowerChar(s[i]))
  }

  predicate HasUpper(s: string) {
    exists i :: 0 <= i < |s| && IsUpper(s[i])
  }

  /** `needle in hay` for two strings: `needle` occurs in `hay` as a contiguous substring. */
  predicate Contains(hay: string, needle: string)
    decreases |hay|
  {
    needle <= hay || (|hay| > 0 && Contains(hay[1..], needle))
  }

  /** `os.path.join(a, b)` on POSIX: an absolute `b` replaces `a`; otherwise a `/` is inserted when `a` does not end in one. */
  function Join(a: Path, b: Path): Path {
    if |b| > 0 && b[0] == '/' then b
    else if a == [] || a[|a| - 1] == '/' then a + b
    else a + "/" + b
  }

  /** The prefix every path joined onto `a` starts with: `a` itself when empty or ending in `/`, else `a + "/"`. */
  function Base(a: Path): (r: Path)
    ensures a <= r && |r| <= |a| + 1
    ensures r != [] ==> r[|r| - 1] == '/'
  {
    if a == [] || a[|a| - 1] == '/' then a else a + "/"
  }

  /** `b` lies strictly below the directory `a`. */
  predicate Under(a: Path, b: Path) {
    |Base(a)| < |b| && b[..|Base(a)|] == Base(a)
  }

  /** A directory entry's name: non-empty and free of `/`. */
  predicate NameOk(name: string) {
    |name| > 0 && '/' !in name
  }

  /** Joining a proper entry name appends it to `Base(a)`; the result does not end in `/`. */
  lemma JoinName(a: Path, name: string)
    requires NameOk(name)
    ensures Join(a, name) == Base(a) + name
    ensures Join(a, name) != [] && Join(a, name)[|Join(a, name)| - 1] != '/'
  {
    assert name[0] in name;
    assert name[|name| - 1] in name;
  }

  /** Being below is transitive. */
  lemma UnderTrans(a: Path, b: Path, c: Path)
    requires Under(a, b) && Under(b, c)
    ensures Under(a, c)
  {
    var n := |Base(a)|;
    assert b[..n] == Base(a);
    assert Base(b)[..n] == b[..n];
    assert c[..|Base(b)|] == Base(b);
    assert c[..n] == c[..|Base(b)|][..n];
  }

  /**
   * Nothing lies strictly between a directory `a` and an entry `Base(a) + name`
   * of it: a path `q` below `a` that the entry lies below puts a `/` in `name`.
   */
  lemma NothingBetween(a: Path, q: Path, name: string)
    requires Under(a, q) && Under(q, Base(a) + name)
    ensures '/' in name
  {
    var x := Base(a) + name;
    var m := |Base(q)|;
    assert Base(q)[m - 1] == '/';
    assert x[..m] == Base(q);
    assert x[m - 1] == '/';
    assert m - 1 >= |Base(a)|;
    assert name[m - 1 - |Base(a)|] == x[m - 1];
  }

  /**
   * Two paths that do not end in `/` and that some path `p` lies below are
   * equal, or one of them lies below the other.
   */
  lemma UnderOrdered(x: Path, q: Path, p: Path)
    requires x != [] && x[|x| - 1] != '/' && q != [] && q[|q| - 1] != '/'
    requires Under(x, p) && Under(q, p)
    ensures x == q || Under(x, q) || Under(q, x)
  {
    assert Base(x) == x + "/" && Base(q) == q + "/";
    assert p[..|x| + 1] == x + "/" && p[..|q| + 1] == q + "/";
    if |x| < |q| {
      assert q[..|x| + 1] == p[..|q| + 1][..|x| + 1];
    } else if |q| < |x| {
      assert x[..|q| + 1] == p[..|x| + 1][..|q| + 1];
    } else {
      assert x == p[..|x|] == q;
    }
  }

  /** Joining onto a non-empty directory always yields a path with a separator in it. */
  lemma JoinOntoNonEmpty(a: Path, b: Path)
    requires a != []
    ensures '/' in Join(a, b)
  {
  }

  lemma LowerIdempotent(s: string)
    ensures Lower(Lower(s)) == Lower(s)
  {
  }

  lemma LowerHasNoUpper(s: string)
    ensures !HasUpper(Lower(s))
  {
  }

  lemma LowerAppend(a: string, b: string)
    ensures Lower(a + b) == Lower(a) + Lower(b)
  {
  }

  lemma LowerKeepsDots(s: string)
    ensures forall i :: 0 <= i < |s| ==> (Lower(s)[i] == '.' <==> s[i] == '.')
  {
  }
}
