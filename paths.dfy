/** File paths of the kit: a sample's path relative to the bundle joined onto the bundle path. */
module Paths {
  import opened KitTypes

  /** The bundle path joined with a relative path. A missing (null) or empty bundle path leaves
      the relative path as it is; otherwise the two are separated by exactly one '/', which is the
      bundle path's own last character when it already ends in one. */
  function JoinPath(bundlePath: Option<string>, rel: string): (r: string)
    ensures bundlePath.None? || bundlePath.value == [] ==> r == rel
    ensures bundlePath.Some? && bundlePath.value != [] ==>
              var bp := bundlePath.value;
              && |r| == |bp| + |rel| + (if bp[|bp| - 1] == '/' then 0 else 1)
              && r[..|bp|] == bp
              && r[|r| - |rel|..] == rel
              && r[|r| - |rel| - 1] == '/'
  {
    match bundlePath
    case None => rel
    case Some(bp) =>
      if bp == [] then rel
      else if bp[|bp| - 1] == '/' then bp + rel
      else bp + "/" + rel
  }

  /** A bundle path given with or without its trailing '/' yields the same file path. */
  lemma JoinTrailingSlash(bp: string, rel: string)
    requires bp != [] && bp[|bp| - 1] != '/'
    ensures JoinPath(Some(bp + "/"), rel) == JoinPath(Some(bp), rel)
  {
    var b' := bp + "/";
    assert b'[|b'| - 1] == '/';
    assert b' + rel == bp + "/" + rel;
  }
}
