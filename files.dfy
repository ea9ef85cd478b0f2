/** The leaf name of a file path, as `java.io.File.getName` gives it on a Unix file system. */
module Files {

  const Separator: char := '/'

  /** `String.lastIndexOf(c)`: the last position of `c` in `s`, or -1 when there is none. */
  function LastIndexOf(s: string, c: char): (i: int)
    ensures -1 <= i < |s|
  {
    LastIndexBefore(s, c, |s|)
  }

  /** The last position of `c` among the first `n` characters of `s`, or -1. */
  function LastIndexBefore(s: string, c: char, n: nat): (i: int)
    requires n <= |s|
    ensures -1 <= i < n
    ensures 0 <= i ==> s[i] == c
  {
    if n == 0 then -1
    else if s[n - 1] == c then n - 1
    else LastIndexBefore(s, c, n - 1)
  }

  /** No `c` follows the position `LastIndexBefore` finds, and -1 means there is none at all. */
  lemma {:induction false} LastIndexBeforeIsLast(s: string, c: char, n: nat)
    requires n <= |s|
    ensures forall j | LastIndexBefore(s, c, n) < j < n :: s[j] != c
  {
    if n > 0 && s[n - 1] != c {
      LastIndexBeforeIsLast(s, c, n - 1);
    }
  }

  /** `LastIndexOf` finds the last `c` in `s`: a `c` is there, none after it, and -1 only when `c` does not occur. */
  lemma LastIndexOfIsLast(s: string, c: char)
    ensures 0 <= LastIndexOf(s, c) ==> s[LastIndexOf(s, c)] == c
    ensures forall j | LastIndexOf(s, c) < j < |s| :: s[j] != c
    ensures LastIndexOf(s, c) == -1 <==> c !in s
  {
    LastIndexBeforeIsLast(s, c, |s|);
  }

  /**
   * `name` is the last segment of `path`: a suffix of it that holds no
   * separator and is either all of `path` or preceded by a separator.
   */
  ghost predicate IsLeafName(name: string, path: string) {
    && |name| <= |path|
    && path[|path| - |name|..] == name
    && Separator !in name
    && (|name| < |path| ==> path[|path| - |name| - 1] == Separator)
  }

  /** `File.getName`: everything after the last separator. */
  function GetName(path: string): string {
    path[LastIndexOf(path, Separator) + 1..]
  }

  /** What `GetName` returns is the leaf name of the path. */
  lemma GetNameIsLeaf(path: string)
    ensures IsLeafName(GetName(path), path)
  {
    var i := LastIndexOf(path, Separator);
    var name := GetName(path);
    LastIndexOfIsLast(path, Separator);
    assert |path| - |name| == i + 1;
    assert Separator !in name by {
      forall k | 0 <= k < |name| ensures name[k] != Separator {
        assert name[k] == path[i + 1 + k];
      }
    }
  }

  /** A path has one leaf name only, so any function meeting `IsLeafName` agrees with `GetName`. */
  lemma LeafNameUnique(a: string, b: string, path: string)
    requires IsLeafName(a, path) && IsLeafName(b, path)
    ensures a == b
  {
  }
}
