/** String and repository-path helpers shared by the scripts: plain strings with '/' separators. */
module RepoPaths {
  import opened Wrappers

  predicate StartsWith(s: string, prefix: string) {
    prefix <= s
  }

  predicate EndsWith(s: string, suffix: string) {
    |suffix| <= |s| && s[|s| - |suffix|..] == suffix
  }

  /** Index of the last `c` in `s`, or -1. */
  function LastIndexOf(s: string, c: char): (i: int)
    ensures -1 <= i < |s|
    ensures i >= 0 ==> s[i] == c
    ensures forall j :: i < j < |s| ==> s[j] != c
  {
    if s == "" then -1
    else if s[|s| - 1] == c then |s| - 1
    else LastIndexOf(s[..|s| - 1], c)
  }

  /** `path.rpartition("/")[0]`: the directory part, "" at the repository root. */
  function Parent(path: string): (dir: string)
    ensures path != "" ==> |dir| < |path|
  {
    var i := LastIndexOf(path, '/');
    if i < 0 then "" else path[..i]
  }

  /** The last component of a path. */
  function BaseName(path: string): string {
    path[LastIndexOf(path, '/') + 1..]
  }

  /** `PurePosixPath.suffix` of a file name: from its last dot, unless that starts or ends the name. */
  function Suffix(name: string): string {
    var i := LastIndexOf(name, '.');
    if 0 < i < |name| - 1 then name[i..] else ""
  }

  function Lower(s: string): string {
    if s == "" then "" else [if 'A' <= s[0] <= 'Z' then s[0] - 'A' + 'a' else s[0]] + Lower(s[1..])
  }

  function Upper(s: string): string {
    if s == "" then "" else [if 'a' <= s[0] <= 'z' then s[0] - 'a' + 'A' else s[0]] + Upper(s[1..])
  }

  function Child(dir: string, name: string): string {
    if dir == "" then name else dir + "/" + name
  }

  lemma ChildEnds(dir: string, name: string)
    ensures EndsWith(Child(dir, name), name)
  {
  }

  lemma LastIs(s: string, c: char, i: nat)
    requires i < |s| && s[i] == c && forall j :: i < j < |s| ==> s[j] != c
    ensures LastIndexOf(s, c) == i
  {
  }

  lemma ParentOfChild(dir: string, name: string)
    requires '/' !in name
    ensures Parent(Child(dir, name)) == dir
  {
    if dir == "" {
      assert LastIndexOf(name, '/') == -1;
    } else {
      var path, n := dir + "/" + name, |dir|;
      forall j | n < j < |path|
        ensures path[j] != '/'
      {
        assert path[j] == name[j - n - 1];
      }
      LastIs(path, '/', n);
      assert path[..n] == dir;
    }
  }

  /** `dir` and every directory above it, ending with the root "". */
  function Ancestors(dir: string): seq<string>
    decreases |dir|
  {
    if dir == "" then [""] else [dir] + Ancestors(Parent(dir))
  }

  /** Python's `str.split(sep)` for a one-character separator. */
  function Split(s: string, sep: char): (parts: seq<string>)
    ensures parts != []
  {
    if s == "" then [""]
    else
      var rest := Split(s[1..], sep);
      if s[0] == sep then [""] + rest else [[s[0]] + rest[0]] + rest[1..]
  }

  /** Python's `sep.join(parts)`. */
  function Join(parts: seq<string>, sep: string): string {
    if parts == [] then ""
    else if |parts| == 1 then parts[0]
    else parts[0] + sep + Join(parts[1..], sep)
  }

  /** Whitespace removed by `str.strip()`, restricted to ASCII. */
  predicate IsSpace(c: char) {
    c == ' ' || c == '\t' || c == '\n' || c == '\r' || c == '\U{0b}' || c == '\U{0c}'
  }

  function StripLeft(s: string): string {
    if s != "" && IsSpace(s[0]) then StripLeft(s[1..]) else s
  }

  function StripRight(s: string): string {
    if s != "" && IsSpace(s[|s| - 1]) then StripRight(s[..|s| - 1]) else s
  }

  function Strip(s: string): string {
    StripRight(StripLeft(s))
  }

  /** The first candidate that is a file of the tree. */
  function FirstExisting(files: set<string>, candidates: seq<string>): (found: Option<string>)
    ensures found.Some? ==> found.value in files && found.value in candidates
    ensures found.None? ==> forall c :: c in candidates ==> c !in files
  {
    if candidates == [] then None
    else if candidates[0] in files then Some(candidates[0])
    else FirstExisting(files, candidates[1..])
  }

  /** Loop bookkeeping: the prefix of a sequence grows by its next element. */
  lemma TakeNext<T>(s: seq<T>, i: nat)
    requires i < |s|
    ensures s[..i + 1] == s[..i] + [s[i]]
  {
  }

  lemma TakeAll<T>(s: seq<T>)
    ensures s[..|s|] == s
  {
  }

  lemma Associative<T>(a: seq<T>, b: seq<T>, c: seq<T>)
    ensures (a + b) + c == a + (b + c)
  {
  }

  // ---- list comprehensions ----

  /** `[x for x in s if keep(x)]`. */
  function Filter<T(!new)>(s: seq<T>, keep: T -> bool): (kept: seq<T>)
    ensures forall x :: x in kept <==> x in s && keep(x)
  {
    if s == [] then []
    else
      var rest := Filter(s[1..], keep);
      if keep(s[0]) then [s[0]] + rest else rest
  }

  lemma {:induction false} FilterAppend<T(!new)>(s: seq<T>, x: T, keep: T -> bool)
    ensures Filter(s + [x], keep) == Filter(s, keep) + if keep(x) then [x] else []
  {
    if s == [] {
      assert s + [x] == [x] && [x][1..] == [];
    } else {
      assert (s + [x])[1..] == s[1..] + [x];
      FilterAppend(s[1..], x, keep);
    }
  }

  lemma {:induction false} FilterSame<T(!new)>(s: seq<T>, keep: T -> bool, keep': T -> bool)
    requires forall x :: x in s ==> keep(x) == keep'(x)
    ensures Filter(s, keep) == Filter(s, keep')
  {
    if s != [] {
      assert s[0] in s && forall x :: x in s[1..] ==> x in s;
      FilterSame(s[1..], keep, keep');
    }
  }

  ghost predicate Distinct<T>(s: seq<T>) {
    forall i, j :: 0 <= i < j < |s| ==> s[i] != s[j]
  }

  lemma {:induction false} FilterDistinct<T(!new)>(s: seq<T>, keep: T -> bool)
    requires Distinct(s)
    ensures Distinct(Filter(s, keep))
  {
    if s != [] {
      assert Distinct(s[1..]);
      FilterDistinct(s[1..], keep);
      assert s[0] !in s[1..];
    }
  }

  /** A list without repetitions has one element exactly when all its members are equal. */
  lemma SingletonIff<T(!new)>(s: seq<T>, x: T)
    requires Distinct(s)
    ensures s == [x] <==> x in s && forall y :: y in s ==> y == x
  {
    if x in s && s != [x] {
      var i :| 0 <= i < |s| && s[i] == x;
      assert |s| >= 2;
      var j := if i == 0 then 1 else 0;
      assert s[j] in s && s[j] != x;
    }
  }
}
