/** POSIX path helpers as Python's `posixpath` defines them: `join`, `dirname`, `basename`. */
module Paths {

  predicate AllSlashes(s: string)
  {
    forall i :: 0 <= i < |s| ==> s[i] == '/'
  }

  /** `p.rfind('/') + 1`: the index just past the last slash, 0 when there is none. */
  function AfterLastSlash(p: string): (i: nat)
    ensures i <= |p|
    ensures i > 0 ==> p[i - 1] == '/'
    ensures forall k :: i <= k < |p| ==> p[k] != '/'
  {
    if p == [] then 0
    else if p[|p| - 1] == '/' then |p|
    else AfterLastSlash(p[..|p| - 1])
  }

  /** `s.rstrip('/')` */
  function TrimTrailingSlashes(s: string): (r: string)
    ensures |r| <= |s| && r == s[..|r|]
    ensures r == [] || r[|r| - 1] != '/'
    ensures !AllSlashes(s) ==> r != []
  {
    if s != [] && s[|s| - 1] == '/' then TrimTrailingSlashes(s[..|s| - 1]) else s
  }

  /** `os.path.basename(p)`: what follows the last slash. */
  function Basename(p: string): string
  {
    p[AfterLastSlash(p)..]
  }

  /** `os.path.dirname(p)`: what precedes the last slash, trailing slashes removed unless it is all slashes. */
  function Dirname(p: string): string
  {
    var head := p[..AfterLastSlash(p)];
    if head != [] && !AllSlashes(head) then TrimTrailingSlashes(head) else head
  }

  /** `os.path.join(dir, name)` for two components. */
  function Join(dir: string, name: string): string
  {
    if |name| > 0 && name[0] == '/' then name
    else if dir == [] || dir[|dir| - 1] == '/' then dir + name
    else dir + "/" + name
  }

  /** `os.path.dirname(p)` is empty exactly when `p` has no slash. */
  lemma DirnameEmptyIff(p: string)
    ensures Dirname(p) == [] <==> '/' !in p
  {
    var i := AfterLastSlash(p);
    if '/' in p {
      var k :| 0 <= k < |p| && p[k] == '/';
      assert i > k;
      assert p[..i] != [];
    } else {
      assert i == 0;
    }
  }

  /** The last slash is at `j - 1` when nothing after it is a slash. */
  lemma {:induction false} AfterLastSlashAt(p: string, j: nat)
    requires 0 < j <= |p| && p[j - 1] == '/'
    requires forall k :: j <= k < |p| ==> p[k] != '/'
    ensures AfterLastSlash(p) == j
    decreases |p|
  {
    if |p| > j {
      AfterLastSlashAt(p[..|p| - 1], j);
    }
  }

  /** After a prefix that is empty or ends in a slash, a slash-free name leaves that slash last. */
  lemma AfterLastSlashConcat(front: string, name: string)
    requires front == [] || front[|front| - 1] == '/'
    requires '/' !in name
    ensures AfterLastSlash(front + name) == |front|
  {
    var p, j := front + name, |front|;
    forall k | j <= k < |p| ensures p[k] != '/' {
      assert p[k] == name[k - j];
    }
    if j == 0 {
      assert p == name;
    } else {
      assert p[j - 1] == front[j - 1];
      AfterLastSlashAt(p, j);
    }
  }

  /** Joining a slash-free name onto a directory puts that name last. */
  lemma BasenameJoin(dir: string, name: string)
    requires '/' !in name
    ensures Basename(Join(dir, name)) == name
  {
    var front := if dir == [] || dir[|dir| - 1] == '/' then dir else dir + "/";
    assert Join(dir, name) == front + name;
    AfterLastSlashConcat(front, name);
    assert (front + name)[|front|..] == name;
  }

  /** The directory of `join(dir, name)` is `dir` again, for a plain directory and name. */
  lemma DirnameJoin(dir: string, name: string)
    requires dir != [] && dir[|dir| - 1] != '/'
    requires '/' !in name
    ensures Dirname(Join(dir, name)) == dir
  {
    var p := Join(dir, name);
    assert p == dir + "/" + name;
    var j := |dir| + 1;
    assert forall k :: j <= k < |p| ==> p[k] == name[k - j];
    AfterLastSlashAt(p, j);
    var head := p[..j];
    assert head == dir + "/";
    assert head[|head| - 2] != '/';
    assert !AllSlashes(head);
    assert head[..|head| - 1] == dir;
    assert TrimTrailingSlashes(head) == TrimTrailingSlashes(dir);
  }
}
