/** `pathlib` paths as strings: components joined with '/'. */
module Paths {

  /** The position of the last '/' in `p`, or -1 when there is none. */
  function LastSlash(p: string): (i: int)
    ensures -1 <= i < |p|
    ensures i >= 0 ==> p[i] == '/'
    ensures forall j :: i < j < |p| ==> p[j] != '/'
  {
    if p == "" then -1
    else if p[|p| - 1] == '/' then |p| - 1
    else LastSlash(p[..|p| - 1])
  }

  /** A path as `str(Path(...))` prints it: not empty, and no trailing '/'
      unless it is the root. */
  predicate Normal(p: string) {
    p != "" && (p == "/" || p[|p| - 1] != '/')
  }

  /** `str(Path(base) / child)` for a normal `base`. */
  function Join(base: string, child: string): string {
    if base == "." then child
    else if base == "/" then "/" + child
    else base + "/" + child
  }

  /** `str(Path(p).parent)` for a normal `p`. */
  function Parent(p: string): string {
    var i := LastSlash(p);
    if i < 0 then "."
    else if i == 0 then "/"
    else p[..i]
  }

  /** Taking the parent undoes joining one more component. */
  lemma ParentOfJoin(base: string, child: string)
    requires Normal(base)
    requires child != "" && '/' !in child
    ensures Parent(Join(base, child)) == base
  {
    var p := Join(base, child);
    if base == "." {
      assert forall j :: 0 <= j < |p| ==> p[j] != '/' by {
        forall j | 0 <= j < |p| ensures p[j] != '/' { assert p[j] in child; }
      }
    } else if base == "/" {
      assert p[0] == '/';
      assert forall j :: 0 < j < |p| ==> p[j] != '/' by {
        forall j | 0 < j < |p| ensures p[j] != '/' { assert p[j] == child[j - 1]; }
      }
    } else {
      assert p[|base|] == '/';
      assert forall j :: |base| < j < |p| ==> p[j] != '/' by {
        forall j | |base| < j < |p| ensures p[j] != '/' { assert p[j] == child[j - |base| - 1]; }
      }
      assert p[..|base|] == base;
    }
  }
}
