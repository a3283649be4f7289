/** Path helpers of the finder: the last component of a path
    (`basename_ptr`), the "." / ".." test, and the two builders that
    write into a caller's fixed-size buffer (`join_path`, `make_glob`). */
module Paths {
  import opened WideStr

  /** MAX_PATH of the Windows headers. */
  const MaxPath: nat := 260

  /** ARRAYSIZE of each worker's `glob` and `full` buffers. */
  const BufCap: nat := MaxPath * 8

  // ---------------------------------------------------------------------
  // Last path component

  /** Where the last component starts: just past the last separator,
      or 0 when there is none. */
  function BaseStart(path: seq<char>): (k: nat)
    ensures k <= |path|
    ensures k == 0 || IsSep(path[k - 1])
    ensures forall j | k <= j < |path| :: !IsSep(path[j])
    decreases |path|
  {
    if path == [] then 0
    else if IsSep(path[|path| - 1]) then |path|
    else BaseStart(path[..|path| - 1])
  }

  /** The last component of `path`. */
  function BaseName(path: seq<char>): seq<char> {
    path[BaseStart(path)..]
  }

  /** Any split point with no separator after it and a separator (or the
      start) just before it is the one `BaseStart` finds. */
  lemma BaseStartUnique(path: seq<char>, k: nat)
    requires k <= |path|
    requires k == 0 || IsSep(path[k - 1])
    requires forall j | k <= j < |path| :: !IsSep(path[j])
    ensures k == BaseStart(path)
  {
  }

  /** `basename_ptr`: one pass over the path remembering the position
      after the latest separator; the result is an offset into `path`. */
  method BasenamePtr(path: WStr) returns (last: nat)
    ensures last == BaseStart(path)
  {
    last := 0;
    var p := 0;
    while p < |path|
      invariant 0 <= last <= p <= |path|
      invariant last == BaseStart(path[..p])
    {
      assert path[..p + 1][..p] == path[..p];
      if path[p] == '\\' || path[p] == '/' {
        last := p + 1;
      }
      p := p + 1;
    }
    assert path[..p] == path;
  }

  /** The name of an entry is its own last component when it holds no
      separator; a path without separators is its own last component. */
  lemma BaseNameWithoutSeparator(path: seq<char>)
    requires forall j | 0 <= j < |path| :: !IsSep(path[j])
    ensures BaseName(path) == path
  {
    BaseStartUnique(path, 0);
  }

  // ---------------------------------------------------------------------
  // "." and ".."

  /** `is_dot_or_dotdot`, reading the terminator as the source does. */
  function IsDotOrDotDot(s: WStr): (r: bool)
    ensures r <==> s == "." || s == ".."
  {
    (At(s, 0) == '.' && At(s, 1) == '\0') ||
    (At(s, 0) == '.' && At(s, 1) == '.' && At(s, 2) == '\0')
  }

  // ---------------------------------------------------------------------
  // Building paths

  /** A separator is inserted after a non-empty `dir` that does not
      already end in one. */
  predicate NeedsSlash(dir: seq<char>) {
    |dir| > 0 && !IsSep(dir[|dir| - 1])
  }

  function SlashLen(dir: seq<char>): nat {
    if NeedsSlash(dir) then 1 else 0
  }

  /** `dir`, a separator if needed, then `tail`. */
  function Under(dir: WStr, tail: WStr): (r: WStr)
    ensures |r| == |dir| + SlashLen(dir) + |tail|
    ensures r[..|dir|] == dir && r[|dir| + SlashLen(dir)..] == tail
    ensures |dir| > 0 ==> IsSep(r[|dir| + SlashLen(dir) - 1])
    ensures NeedsSlash(dir) ==> r[|dir|] == '\\'
    ensures |dir| == 0 ==> r == tail
  {
    if NeedsSlash(dir) then dir + "\\" + tail else dir + tail
  }

  /** The child path `join_path` builds. */
  function Joined(dir: WStr, name: WStr): WStr {
    Under(dir, name)
  }

  /** The enumeration pattern `make_glob` builds. */
  function Glob(dir: WStr): WStr {
    Under(dir, "*")
  }

  /** The child path and its terminator fit in `cap` characters. */
  predicate JoinFits(dir: seq<char>, name: seq<char>, cap: nat) {
    |dir| + SlashLen(dir) + |name| + 1 <= cap
  }

  /** The pattern and its terminator fit in `cap` characters. */
  predicate GlobFits(dir: seq<char>, cap: nat) {
    |dir| + SlashLen(dir) + 1 + 1 <= cap
  }

  /** `out` holds the C string `s`: its characters, then a terminator. */
  ghost predicate Holds(out: array<char>, s: seq<char>)
    reads out
  {
    |s| < out.Length && out[..|s|] == s && out[|s|] == '\0'
  }

  /** `wcscpy_s` (at == 0) and `wcscat_s` (at == the current length):
      writes `src` and a terminator at `at`, in bounds. */
  method Append(out: array<char>, at: nat, src: WStr) returns (end: nat)
    requires at + |src| < out.Length
    modifies out
    ensures end == at + |src|
    ensures out[..at] == old(out[..at]) && out[at..end] == src && out[end] == '\0'
  {
    var i := 0;
    while i < |src|
      invariant 0 <= i <= |src|
      invariant out[..at] == old(out[..at])
      invariant out[at..at + i] == src[..i]
    {
      out[at + i] := src[i];
      i := i + 1;
    }
    end := at + |src|;
    out[end] := '\0';
    assert out[at..end] == src[..|src|];
  }

  /** Writes `dir`, a separator if needed, then `tail` into `out`, given
      that it has room; the common body of both builders. */
  method WriteUnder(out: array<char>, dir: WStr, tail: WStr)
    requires |dir| + SlashLen(dir) + |tail| < out.Length
    modifies out
    ensures Holds(out, Under(dir, tail))
  {
    var needsSlash := |dir| > 0 && dir[|dir| - 1] != '\\' && dir[|dir| - 1] != '/';
    var end := Append(out, 0, dir);
    ghost var written := dir;
    if needsSlash {
      end := Append(out, end, "\\");
      written := written + "\\";
    }
    end := Append(out, end, tail);
    written := written + tail;
    assert written == Under(dir, tail);
    assert out[..end] == written;
  }

  /** `join_path`: fails, leaving `out` alone, exactly when the child
      path and its terminator exceed the buffer; otherwise `out` holds
      the child path. */
  method JoinPath(out: array<char>, dir: WStr, name: WStr) returns (ok: bool)
    modifies out
    ensures ok <==> JoinFits(dir, name, out.Length)
    ensures ok ==> Holds(out, Joined(dir, name))
    ensures !ok ==> out[..] == old(out[..])
  {
    var dlen := |dir|;
    var nlen := |name|;
    var needsSlash := dlen > 0 && dir[dlen - 1] != '\\' && dir[dlen - 1] != '/';
    var total := dlen + (if needsSlash then 1 else 0) + nlen + 1;
    if total > out.Length {
      return false;
    }
    WriteUnder(out, dir, name);
    return true;
  }

  /** `make_glob`: fails, leaving `out` alone, exactly when the pattern
      and its terminator exceed the buffer; otherwise `out` holds the
      pattern. */
  method MakeGlob(out: array<char>, dir: WStr) returns (ok: bool)
    modifies out
    ensures ok <==> GlobFits(dir, out.Length)
    ensures ok ==> Holds(out, Glob(dir))
    ensures !ok ==> out[..] == old(out[..])
  {
    var dlen := |dir|;
    var needsSlash := dlen > 0 && dir[dlen - 1] != '\\' && dir[dlen - 1] != '/';
    var total := dlen + (if needsSlash then 1 else 0) + 1 + 1;
    if total > out.Length {
      return false;
    }
    WriteUnder(out, dir, "*");
    return true;
  }

  /** The C string in a buffer: its characters up to the first
      terminator, as `wcslen` and `wcsdup_heap` read it. */
  method ReadCString(buf: array<char>) returns (s: WStr)
    requires exists k | 0 <= k < buf.Length :: buf[k] == '\0'
    ensures |s| < buf.Length && s == buf[..|s|] && buf[|s|] == '\0'
  {
    var n := 0;
    while buf[n] != '\0'
      invariant 0 <= n < buf.Length
      invariant forall j | 0 <= j < n :: buf[j] != '\0'
      invariant exists k | n <= k < buf.Length :: buf[k] == '\0'
      decreases buf.Length - n
    {
      n := n + 1;
    }
    s := buf[..n];
  }

  /** Reading back a buffer that holds a NUL-free string gives that
      string. */
  lemma ReadBack(buf: array<char>, s: WStr, t: WStr)
    requires Holds(buf, s)
    requires |t| < buf.Length && t == buf[..|t|] && buf[|t|] == '\0'
    ensures t == s
  {
  }

  // ---------------------------------------------------------------------
  // Consequences

  /** A child path has the entry's name as its last component, whatever
      `dir` ends in, provided the name holds no separator. */
  lemma BaseNameOfJoined(dir: WStr, name: WStr)
    requires forall j | 0 <= j < |name| :: !IsSep(name[j])
    ensures BaseName(Joined(dir, name)) == name
  {
    var r := Joined(dir, name);
    var k := |dir| + SlashLen(dir);
    assert r[k..] == name;
    forall j | k <= j < |r| ensures !IsSep(r[j]) {
      assert r[j] == name[j - k];
    }
    BaseStartUnique(r, k);
  }

  /** The separator rule: an empty `dir` yields the name alone, a `dir`
      ending in a separator gets none added, any other `dir` exactly one. */
  lemma JoinedSeparatorRule(dir: WStr, name: WStr)
    ensures |dir| == 0 ==> Joined(dir, name) == name
    ensures |dir| > 0 && IsSep(dir[|dir| - 1]) ==> Joined(dir, name) == dir + name
    ensures NeedsSlash(dir) ==> Joined(dir, name) == dir + "\\" + name
  {
  }
}
