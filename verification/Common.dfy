/** Shared vocabulary: optional values, operating-system errors and results. */
module Common {

  /** A filesystem path, as the script handles it: a plain string. */
  type Path = string

  datatype Option<T> = None | Some(value: T)

  /** The operating-system errors the core can run into while listing directories. */
  datatype FsError =
    | NotFound(path: Path)      // `os.listdir` on a path that does not exist
    | NotADirectory(path: Path) // `os.listdir` on a regular file
    | PermissionDenied(path: Path) // `os.listdir` on a directory whose entries may not be read

  /** The outcome of an operation that may raise an `OSError`. */
  datatype Result<T> = Ok(value: T) | Err(error: FsError)

  /** `a` can be obtained from `b` by deleting elements: the order of `b` is kept and nothing is added. */
  predicate IsSubsequence<T(==)>(a: seq<T>, b: seq<T>)
    decreases |b|
  {
    if a == [] then true
    else if b == [] then false
    else (a[0] == b[0] && IsSubsequence(a[1..], b[1..])) || IsSubsequence(a, b[1..])
  }

  /** Every element of a subsequence is an element of the sequence it was taken from. */
  lemma {:induction false} SubsequenceMembers<T>(a: seq<T>, b: seq<T>)
    requires IsSubsequence(a, b)
    ensures forall x :: x in a ==> x in b
    decreases |b|
  {
    if a != [] {
      if a[0] == b[0] && IsSubsequence(a[1..], b[1..]) {
        SubsequenceMembers(a[1..], b[1..]);
        assert forall x :: x in a ==> x == a[0] || x in a[1..];
      } else {
        SubsequenceMembers(a, b[1..]);
      }
      assert forall x :: x in b[1..] ==> x in b;
    }
  }

  /** A non-empty sequence is its front followed by its last element. */
  lemma SplitLast<T>(s: seq<T>)
    requires s != []
    ensures s == s[..|s| - 1] + [s[|s| - 1]]
  {
  }

  lemma ConcatAssoc<T>(a: seq<T>, b: seq<T>, c: seq<T>)
    ensures a + b + c == a + (b + c)
  {
  }
}
