/**
  The `os.path` functions the host scripts use (`dirname`, `basename`, `join`),
  with the semantics of Python's `posixpath` module: `/` is the only separator.
*/
module PyPath {

  /** The index of the last `/` in `p`, or -1 when there is none. */
  function LastSlash(p: string): (i: int)
    ensures -1 <= i < |p|
    ensures i >= 0 ==> p[i] == '/'
    ensures forall k :: i < k < |p| ==> p[k] != '/'
  {
    if p == [] then -1
    else if p[|p| - 1] == '/' then |p| - 1
    else LastSlash(p[..|p| - 1])
  }

  predicate AllSlashes(s: string) {
    forall k :: 0 <= k < |s| ==> s[k] == '/'
  }

  /** `s.rstrip('/')`. */
  function RStripSlashes(s: string): (r: string)
    ensures |r| <= |s| && r == s[..|r|]
    ensures r == [] || r[|r| - 1] != '/'
    ensures forall k :: |r| <= k < |s| ==> s[k] == '/'
  {
    if s != [] && s[|s| - 1] == '/' then RStripSlashes(s[..|s| - 1]) else s
  }

  /** `posixpath.basename(p)`: everything after the last `/`. */
  function Basename(p: string): (b: string)
    ensures '/' !in b
    ensures |b| <= |p| && p[|p| - |b|..] == b
  {
    p[LastSlash(p) + 1..]
  }

  /** `posixpath.dirname(p)`: everything up to the last `/`, trailing slashes removed unless the head is all slashes. */
  function Dirname(p: string): string
  {
    var head := p[..LastSlash(p) + 1];
    if head != "" && !AllSlashes(head) then RStripSlashes(head) else head
  }

  /** `posixpath.join(a, b)`: an absolute `b` replaces `a`; otherwise a `/` is inserted when `a` does not end in one. */
  function Join(a: string, b: string): string
  {
    if b != "" && b[0] == '/' then b
    else if a == "" || a[|a| - 1] == '/' then a + b
    else a + "/" + b
  }

  /** In `x + name`, where `x` ends in `/` and `name` has none, the last slash is the one that ends `x`. */
  lemma LastSlashBeforeName(x: string, name: string)
    requires x != "" && x[|x| - 1] == '/'
    requires '/' !in name
    ensures LastSlash(x + name) == |x| - 1
  {
    var p := x + name;
    var i := LastSlash(p);
    assert p[|x| - 1] == '/';
    forall k | |x| <= k < |p| ensures p[k] != '/' {
      assert p[k] == name[k - |x|];
    }
  }

  /** The basename of a joined path is the name that was joined. */
  lemma {:induction false} BasenameOfJoin(dir: string, name: string)
    requires '/' !in name
    ensures Basename(Join(dir, name)) == name
  {
    if name != "" { assert name[0] in name; }
    if dir == "" {
      assert Join(dir, name) == name;
    } else if dir[|dir| - 1] == '/' {
      LastSlashBeforeName(dir, name);
      assert (dir + name)[|dir|..] == name;
    } else {
      assert Join(dir, name) == (dir + "/") + name;
      LastSlashBeforeName(dir + "/", name);
      assert ((dir + "/") + name)[|dir| + 1..] == name;
    }
  }

  /** What `dirname` can return: nothing, only slashes, or a path that does not end in a slash. */
  predicate DirShape(d: string) {
    d == "" || AllSlashes(d) || d[|d| - 1] != '/'
  }

  lemma DirnameShape(p: string)
    ensures DirShape(Dirname(p))
  {
  }

  /** Joining a name onto a directory and taking the dirname gives the directory back. */
  lemma {:induction false} DirnameOfJoin(d: string, name: string)
    requires DirShape(d)
    requires name != "" && '/' !in name
    ensures Dirname(Join(d, name)) == d
  {
    assert name[0] in name;
    if d == "" {
      assert Join(d, name) == name;
      assert LastSlash(name) == -1 by {
        forall k | 0 <= k < |name| ensures name[k] != '/' {
          assert name[k] in name;
        }
      }
      assert name[..0] == "";
    } else if AllSlashes(d) {
      assert Join(d, name) == d + name;
      LastSlashBeforeName(d, name);
      assert (d + name)[..|d|] == d;
    } else {
      var x := d + "/";
      assert Join(d, name) == x + name;
      LastSlashBeforeName(x, name);
      assert (x + name)[..|x|] == x;
      assert !AllSlashes(x) by {
        var k :| 0 <= k < |d| && d[k] != '/';
        assert x[k] == d[k];
      }
      assert x[..|d|] == d;
      assert RStripSlashes(x) == RStripSlashes(d);
    }
  }
}
