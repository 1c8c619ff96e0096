/**
 * `os.path.join` as it behaves on POSIX, and the file system seen as an
 * oracle: which paths exist, and the lines of the files that can be read.
 */
module OsPath {

  /** A path starting with '/' restarts a join from itself. */
  predicate IsAbsolute(p: string) {
    |p| > 0 && p[0] == '/'
  }

  predicate EndsWithSep(p: string) {
    |p| > 0 && p[|p| - 1] == '/'
  }

  predicate EndsWith(s: string, suffix: string) {
    |suffix| <= |s| && s[|s| - |suffix|..] == suffix
  }

  /**
   * `os.path.join(a, b)`: an absolute `b` replaces `a`; otherwise `b` is appended,
   * with a '/' in between unless `a` is empty or already ends with one.
   */
  function Join(a: string, b: string): (r: string)
    ensures EndsWith(r, b)
    ensures IsAbsolute(b) ==> r == b
    ensures !IsAbsolute(b) ==> |a| <= |r| && r[..|a|] == a
    ensures !IsAbsolute(b) && |b| > 0 ==> |a| < |r| && !EndsWithSep(r) == !EndsWithSep(b)
  {
    if IsAbsolute(b) then b
    else if |a| == 0 || EndsWithSep(a) then a + b
    else a + "/" + b
  }

  /** `os.path.join(a, *parts)`: the parts joined on one by one, from the left. */
  function JoinAll(a: string, parts: seq<string>): string
    decreases |parts|
  {
    if |parts| == 0 then a else JoinAll(Join(a, parts[0]), parts[1..])
  }

  /** A non-empty folder that does not end in '/' joined with a relative name gets exactly one '/'. */
  lemma JoinPlain(a: string, b: string)
    requires |a| > 0 && !EndsWithSep(a) && !IsAbsolute(b)
    ensures Join(a, b) == a + "/" + b
  {
  }

  /** Joining a relative name onto a folder that ends in `name` ends in `name/<file>`. */
  lemma JoinedSuffix(dir: string, name: string, file: string)
    requires EndsWith(dir, name) && |dir| > 0 && !EndsWithSep(dir) && !IsAbsolute(file)
    ensures EndsWith(Join(dir, file), name + "/" + file)
  {
    var r := dir + "/" + file;
    assert r[|r| - |name + "/" + file|..] == dir[|dir| - |name|..] + "/" + file;
  }

  /**
   * What the helpers can observe of the disk. `os.path.exists(p)` holds for a
   * directory or a file; `open(p)` succeeds only on a file, whose `readlines()`
   * are given.
   */
  datatype FileSystem = FileSystem(dirs: set<string>, files: map<string, seq<string>>) {

    predicate Exists(p: string) {
      p in dirs || p in files
    }
  }
}
