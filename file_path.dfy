/**
 * The part of Go's path/filepath the model needs, for a platform whose
 * separator is '/'. There filepath.ToSlash is the identity, so it has no
 * counterpart here. filepath.Clean (which Dir, Join and Abs apply to their
 * results) is not modelled: "." and ".." elements and doubled separators
 * are kept as they are.
 */
module FilePath {

  predicate IsAbs(p: string) {
    |p| > 0 && p[0] == '/'
  }

  /** Position of the last '/' in `p`, or -1. */
  function LastSlash(p: string): (i: int)
    ensures -1 <= i < |p|
    ensures i >= 0 ==> p[i] == '/'
    ensures forall j :: i < j < |p| ==> p[j] != '/'
  {
    if p == [] then -1
    else if p[|p| - 1] == '/' then |p| - 1
    else LastSlash(p[..|p| - 1])
  }

  /** filepath.Dir: everything before the final separator. */
  function Dir(p: string): string {
    var i := LastSlash(p);
    if i < 0 then "." else if i == 0 then "/" else p[..i]
  }

  /**
   * filepath.Join of two elements: empty elements are ignored, and no
   * separator is added after one that already ends in '/'.
   */
  function Join(a: string, b: string): string {
    if a == "" then b
    else if b == "" then a
    else if a[|a| - 1] == '/' then a + b
    else a + "/" + b
  }

  /** filepath.Base of a path that does not end in '/': everything after the last separator. */
  function Base(p: string): string {
    p[LastSlash(p) + 1..]
  }

  lemma {:induction false} LastSlashAt(p: string, i: nat)
    requires i < |p| && p[i] == '/'
    requires forall j :: i < j < |p| ==> p[j] != '/'
    ensures LastSlash(p) == i
    decreases |p|
  {
    if i < |p| - 1 {
      LastSlashAt(p[..|p| - 1], i);
    }
  }

  /**
   * Joining a directory and a plain file name: the directory of the result
   * is that directory again and its base is the file name (for a directory
   * that is the root or does not end in a separator, since Clean is not
   * modelled).
   */
  lemma DirOfJoin(dir: string, name: string)
    requires dir != "" && (dir == "/" || dir[|dir| - 1] != '/')
    requires name != "" && '/' !in name
    ensures Dir(Join(dir, name)) == dir
    ensures Base(Join(dir, name)) == name
  {
    var sep := if dir == "/" then 0 else |dir|;
    var p := Join(dir, name);
    assert p == if dir == "/" then dir + name else dir + "/" + name;
    assert p[sep] == '/';
    assert forall j :: sep < j < |p| ==> p[j] == name[j - sep - 1];
    LastSlashAt(p, sep);
    assert p[sep + 1..] == name;
    assert sep > 0 ==> p[..sep] == dir;
  }

  /** filepath.Abs, with the working directory given as `cwd`. */
  function Abs(p: string, cwd: string): (r: string)
    ensures IsAbs(p) ==> r == p
    ensures IsAbs(cwd) ==> IsAbs(r)
  {
    if IsAbs(p) then p else Join(cwd, p)
  }
}
