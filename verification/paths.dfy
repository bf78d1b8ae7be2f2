/** The directory `Runner#setup` changes into:
    `file[0..file.rindex('/')-1]`, with Ruby's `rindex` and inclusive-range
    slicing written out, and the intended directory name beside it. */
module Paths {
  import opened Text
  import opened Exceptions

  /** `k` is the position of the last `/` in `file`. */
  predicate LastSlashAt(file: string, k: int) {
    && 0 <= k < |file|
    && file[k] == '/'
    && forall j :: k < j < |file| ==> file[j] != '/'
  }

  predicate HasSlash(file: string) {
    exists j :: 0 <= j < |file| && file[j] == '/'
  }

  /** `s.rindex(c)`: the last position holding `c`, or nil. */
  function LastIndexOf(s: string, c: char): (r: Option<nat>)
    ensures r.Some? ==> r.value < |s| && s[r.value] == c
    ensures r.Some? ==> forall j :: r.value < j < |s| ==> s[j] != c
    ensures r.None? ==> forall j :: 0 <= j < |s| ==> s[j] != c
  {
    if s == [] then None
    else if s[|s| - 1] == c then Some(|s| - 1)
    else LastIndexOf(s[..|s| - 1], c)
  }

  /** Ruby's `s[0..last]`: an inclusive range from the start, where a
      negative `last` counts back from the end and an end before the start
      gives the empty string. */
  function RangeFromStart(s: string, last: int): (r: string)
    ensures |r| <= |s| && r == s[..|r|]
    ensures 0 <= last < |s| ==> |r| == last + 1
    ensures last == -1 ==> r == s
  {
    var stop := (if last < 0 then last + |s| else last) + 1;
    if stop <= 0 then [] else s[..if stop < |s| then stop else |s|]
  }

  /** What Ruby raises for `nil - 1` when `rindex` finds no slash. */
  function NilMinusError(frames: seq<string>): Exc {
    Exc(Generic("NoMethodError", "undefined method `-' for nil:NilClass"), frames)
  }

  /** The directory slice as the code computes it. With no `/` the
      expression fails; with the last `/` at position `k > 0` it is the
      first `k` characters; with the only `/` at position 0 the range
      `0..-1` covers the whole path. */
  function ScriptDir(file: string, frames: seq<string>): (r: Result<string>)
    ensures r.Err? <==> !HasSlash(file)
    ensures r.Err? ==> r.error == NilMinusError(frames)
    ensures forall k :: LastSlashAt(file, k) ==> r == Ok(if k == 0 then file else file[..k])
  {
    match LastIndexOf(file, '/')
    case None => Err(NilMinusError(frames))
    case Some(k) =>
      assert LastSlashAt(file, k);
      Ok(RangeFromStart(file, k - 1))
  }

  /** The directory the slice is evidently meant to name: everything before
      the last `/`, and the root `/` itself when that slash is the first
      character. It never reaches past the last slash, so never includes
      the script's own name. */
  function Dirname(file: string, frames: seq<string>): (r: Result<string>)
    ensures r.Err? <==> !HasSlash(file)
    ensures r.Err? ==> r.error == NilMinusError(frames)
    ensures forall k :: LastSlashAt(file, k) ==> r == Ok(if k == 0 then "/" else file[..k])
    ensures forall k :: LastSlashAt(file, k) ==>
      |r.value| <= k + 1 && r.value == file[..|r.value|] && r.value != []
  {
    match LastIndexOf(file, '/')
    case None => Err(NilMinusError(frames))
    case Some(k) =>
      assert LastSlashAt(file, k);
      if k == 0 then Ok("/") else Ok(file[..k])
  }

  /** The code's slice and the directory name differ exactly for a script
      whose only slash is the leading one (other than the bare path `/`). */
  lemma {:induction false} ScriptDirWrongOnlyAtRoot(file: string, frames: seq<string>)
    ensures ScriptDir(file, frames) != Dirname(file, frames)
        <==> LastSlashAt(file, 0) && file != "/"
  {
    match LastIndexOf(file, '/')
    case Some(k) =>
      assert LastSlashAt(file, k);
      if k == 0 && file != "/" {
        assert |file| > 1;
      }
    case None =>
  }

  /** A script in the root directory: the code changes into the script
      path itself, where the directory `/` was meant. */
  lemma RootScriptKeepsWholePath(frames: seq<string>)
    ensures ScriptDir("/index.rb", frames) == Ok("/index.rb")
    ensures Dirname("/index.rb", frames) == Ok("/")
  {
    assert LastSlashAt("/index.rb", 0);
  }
}
