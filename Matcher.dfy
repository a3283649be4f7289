/** The two file-name tests of the finder: case-insensitive substring
    containment (`wcontains_i`) and the comma-separated extension
    allow-list (`ext_allowed`).  Each test is a method with the source's
    loop, proved against a specification predicate. */
module Matcher {
  import opened WideStr

  // ---------------------------------------------------------------------
  // Case-insensitive containment

  /** `needle` occurs in `hay` at offset `i`, ignoring case, without
      running past the end of `hay`. */
  predicate MatchesAt(hay: seq<char>, needle: seq<char>, i: int) {
    0 <= i && i + |needle| <= |hay| && EqFold(hay[i..i + |needle|], needle)
  }

  /** The empty needle occurs everywhere; any other needle occurs when it
      matches at some offset. */
  predicate Occurs(hay: seq<char>, needle: seq<char>) {
    |needle| == 0 || exists i | 0 <= i <= |hay| :: MatchesAt(hay, needle, i)
  }

  /** `wcontains_i`: tries `_wcsnicmp(p, needle, |needle|)` at every
      offset `p` of `hay` before its terminator. */
  method ContainsIgnoringCase(hay: WStr, needle: WStr) returns (r: bool)
    ensures r == Occurs(hay, needle)
  {
    if |needle| == 0 {
      return true;
    }
    var nlen := |needle|;
    var p := 0;
    while p < |hay|
      invariant 0 <= p <= |hay|
      invariant forall i | 0 <= i < p :: !MatchesAt(hay, needle, i)
    {
      NicmpEqualPrefix(hay[p..], needle);
      if NicmpEqual(hay[p..], needle, nlen) {
        assert hay[p..][..nlen] == hay[p..p + nlen];
        assert MatchesAt(hay, needle, p);
        return true;
      }
      if p + nlen <= |hay| {
        assert hay[p..][..nlen] == hay[p..p + nlen];
      }
      p := p + 1;
    }
    return false;
  }

  // ---------------------------------------------------------------------
  // Extension of a file name

  /** `wcsrchr(s, c)`: the index of the last `c` in `s`, or -1. */
  function LastIndexOf(s: seq<char>, c: char): (r: int)
    ensures -1 <= r < |s|
    ensures r >= 0 ==> s[r] == c
    ensures forall j | r < j < |s| :: s[j] != c
  {
    if s == [] then -1
    else if s[|s| - 1] == c then |s| - 1
    else LastIndexOf(s[..|s| - 1], c)
  }

  /** The name has a '.' that is not its final character. */
  predicate HasExtension(filename: seq<char>) {
    var dot := LastIndexOf(filename, '.');
    0 <= dot && dot + 1 < |filename|
  }

  /** The non-empty text after the last '.' of the name. */
  function ExtensionOf(filename: seq<char>): (ext: seq<char>)
    requires HasExtension(filename)
    ensures 0 < |ext| < |filename|
    ensures filename == filename[..|filename| - |ext| - 1] + "." + ext
    ensures forall j | 0 <= j < |ext| :: ext[j] != '.'
  {
    var dot := LastIndexOf(filename, '.');
    assert filename == filename[..dot] + "." + filename[dot + 1..];
    filename[dot + 1..]
  }

  // ---------------------------------------------------------------------
  // Tokens of the allow-list

  /** Blank characters that may precede a token. */
  predicate IsBlank(c: char) {
    c == ' ' || c == '\t'
  }

  /** Characters skipped before a token: separators and blanks. */
  predicate IsSkipped(c: char) {
    c == ',' || IsBlank(c)
  }

  /** The length of the run before the first ',' (or the whole string). */
  function TokenEnd(s: seq<char>): (n: nat)
    ensures n <= |s|
    ensures forall j | 0 <= j < n :: s[j] != ','
    ensures n == |s| || s[n] == ','
  {
    if s == [] || s[0] == ',' then 0 else 1 + TokenEnd(s[1..])
  }

  /** The tokens the scanning loop of `ext_allowed` visits, in order:
      it skips ',', ' ' and '\t', then takes everything up to the next
      ',' (trailing blanks included). */
  function Tokens(s: seq<char>): seq<seq<char>>
    decreases |s|
  {
    if s == [] then []
    else if IsSkipped(s[0]) then Tokens(s[1..])
    else
      var n := TokenEnd(s);
      [s[..n]] + Tokens(s[n..])
  }

  /** Every token is non-empty, starts with a character other than a
      blank and holds no ','. */
  lemma {:induction false} TokensShape(s: seq<char>)
    ensures forall t | t in Tokens(s) :: t != [] && !IsBlank(t[0]) && ',' !in t
    decreases |s|
  {
    if s == [] {
    } else if IsSkipped(s[0]) {
      TokensShape(s[1..]);
    } else {
      var n := TokenEnd(s);
      TokensShape(s[n..]);
      assert ',' !in s[..n] by {
        forall j | 0 <= j < n ensures s[..n][j] != ',' { }
      }
    }
  }

  /** Some token of `toks` equals `ext` up to case. */
  predicate AnyTokenIs(toks: seq<seq<char>>, ext: seq<char>) {
    exists t | t in toks :: EqFold(t, ext)
  }

  /** The filter `csv` admits `filename`: an empty filter admits every
      name; otherwise the name needs an extension equal, up to case,
      to one of the tokens. */
  predicate ExtensionAllowed(filename: seq<char>, csv: seq<char>) {
    |csv| == 0 || (HasExtension(filename) && AnyTokenIs(Tokens(csv), ExtensionOf(filename)))
  }

  /** Skipping one separator or blank leaves the tokens unchanged. */
  lemma TokensSkip(s: seq<char>, p: nat)
    requires p < |s| && IsSkipped(s[p])
    ensures Tokens(s[p..]) == Tokens(s[p + 1..])
  {
    assert s[p..][1..] == s[p + 1..];
  }

  /** Skipping a run of separators and blanks leaves the tokens
      unchanged. */
  lemma {:induction false} TokensSkipRun(s: seq<char>, i: nat, j: nat)
    requires i <= j <= |s|
    requires forall k | i <= k < j :: IsSkipped(s[k])
    ensures Tokens(s[i..]) == Tokens(s[j..])
    decreases j - i
  {
    if i < j {
      TokensSkip(s, i);
      TokensSkipRun(s, i + 1, j);
    }
  }

  /** A run from a non-skipped character up to the next ',' (or the end)
      is the first token. */
  lemma TokensTake(s: seq<char>, start: nat, p: nat)
    requires start < p <= |s| && !IsSkipped(s[start])
    requires forall j | start <= j < p :: s[j] != ','
    requires p == |s| || s[p] == ','
    ensures Tokens(s[start..]) == [s[start..p]] + Tokens(s[p..])
  {
    var t := s[start..];
    var n := p - start;
    assert TokenEnd(t) == n;
    assert t[..n] == s[start..p];
    assert t[n..] == s[p..];
  }

  /** The source's test `wcslen(ext) == len && _wcsnicmp(ext, start, len) == 0`
      on the run `s[start..p]` is case-insensitive equality with it. */
  lemma TokenCompare(ext: seq<char>, s: seq<char>, start: nat, p: nat)
    requires start < p <= |s|
    ensures (|ext| == p - start && NicmpEqual(ext, s[start..], p - start)) == EqFold(s[start..p], ext)
  {
    var len := p - start;
    NicmpEqualMeaning(ext, s[start..], len);
    assert s[start..][..len] == s[start..p];
    if |ext| == len {
      assert ext[..len] == ext;
    }
  }

  lemma AnyTokenIsCons(t: seq<char>, rest: seq<seq<char>>, ext: seq<char>)
    ensures AnyTokenIs([t] + rest, ext) == (EqFold(t, ext) || AnyTokenIs(rest, ext))
  {
    if AnyTokenIs([t] + rest, ext) {
      var u :| u in [t] + rest && EqFold(u, ext);
    }
    if AnyTokenIs(rest, ext) {
      var u :| u in rest && EqFold(u, ext);
      assert u in [t] + rest;
    }
  }

  /** One comparison of the scanning loop: the tokens from a non-skipped
      `start` contain `ext` exactly when the run up to the ',' at `p`
      passes the source's test or a later token contains it. */
  lemma TokenStep(ext: seq<char>, s: seq<char>, start: nat, p: nat)
    requires start < p <= |s| && !IsSkipped(s[start])
    requires forall j | start <= j < p :: s[j] != ','
    requires p == |s| || s[p] == ','
    ensures AnyTokenIs(Tokens(s[start..]), ext) ==
            ((|ext| == p - start && NicmpEqual(ext, s[start..], p - start)) ||
             AnyTokenIs(Tokens(s[p..]), ext))
  {
    TokensTake(s, start, p);
    TokenCompare(ext, s, start, p);
    AnyTokenIsCons(s[start..p], Tokens(s[p..]), ext);
  }

  /** One pass of the scanning loop: from `p0` it skips to `start`, takes
      the run up to `p`, and compares it when it is non-empty.  The tokens
      from `p0` contain `ext` exactly when that comparison succeeds or the
      tokens from `p` do. */
  lemma ScanStep(ext: seq<char>, s: seq<char>, p0: nat, start: nat, p: nat)
    requires p0 <= start <= p <= |s|
    requires forall j | p0 <= j < start :: IsSkipped(s[j])
    requires start == |s| || !IsSkipped(s[start])
    requires forall j | start <= j < p :: s[j] != ','
    requires p == |s| || s[p] == ','
    ensures AnyTokenIs(Tokens(s[p0..]), ext) ==
            ((start < p && |ext| == p - start && NicmpEqual(ext, s[start..], p - start)) ||
             AnyTokenIs(Tokens(s[p..]), ext))
  {
    TokensSkipRun(s, p0, start);
    if start < p {
      TokenStep(ext, s, start, p);
    }
  }

  /** The first inner loop of `ext_allowed`: skips ',', ' ' and '\t'
      from `p`, stopping at the first other character or the end. */
  method SkipSeparators(s: WStr, p: nat) returns (q: nat)
    requires p <= |s|
    ensures p <= q <= |s|
    ensures forall j | p <= j < q :: IsSkipped(s[j])
    ensures q == |s| || !IsSkipped(s[q])
  {
    q := p;
    while q < |s| && IsSkipped(s[q])
      invariant p <= q <= |s|
      invariant forall j | p <= j < q :: IsSkipped(s[j])
    {
      q := q + 1;
    }
  }

  /** The second inner loop of `ext_allowed`: advances from `start` to
      the next ',' or the end. */
  method RunEnd(s: WStr, start: nat) returns (p: nat)
    requires start <= |s|
    ensures start <= p <= |s|
    ensures forall j | start <= j < p :: s[j] != ','
    ensures p == |s| || s[p] == ','
  {
    p := start;
    while p < |s| && s[p] != ','
      invariant start <= p <= |s|
      invariant forall j | start <= j < p :: s[j] != ','
    {
      p := p + 1;
    }
  }

  /** `ext_allowed`: finds the last '.', then walks the filter token by
      token, comparing each non-empty token of the right length with
      `_wcsnicmp`. */
  method ExtAllowed(filename: WStr, extcsv: WStr) returns (r: bool)
    ensures r == ExtensionAllowed(filename, extcsv)
  {
    if |extcsv| == 0 {
      return true;
    }
    var dot := LastIndexOf(filename, '.');
    if dot < 0 || dot + 1 == |filename| {
      return false;
    }
    var ext := filename[dot + 1..];
    ghost var want := AnyTokenIs(Tokens(extcsv), ext);
    assert ExtensionAllowed(filename, extcsv) == want by {
      assert HasExtension(filename) && ext == ExtensionOf(filename);
    }
    var p := 0;
    assert extcsv[p..] == extcsv;
    while p < |extcsv|
      invariant 0 <= p <= |extcsv|
      invariant want == AnyTokenIs(Tokens(extcsv[p..]), ext)
      decreases |extcsv| - p
    {
      ghost var p0 := p;
      var start := SkipSeparators(extcsv, p);
      p := RunEnd(extcsv, start);
      var len := p - start;
      ScanStep(ext, extcsv, p0, start, p);
      if len > 0 {
        if |ext| == len && NicmpEqual(ext, extcsv[start..], len) {
          return true;
        }
      }
    }
    assert Tokens(extcsv[p..]) == [] by {
      assert extcsv[p..] == [];
    }
    return false;
  }

  // ---------------------------------------------------------------------
  // An independent reading of the allow-list

  /** `f` without its leading blanks. */
  function TrimLeadingBlanks(f: seq<char>): (t: seq<char>)
    ensures t == [] || !IsBlank(t[0])
    ensures |t| <= |f|
  {
    if f != [] && IsBlank(f[0]) then TrimLeadingBlanks(f[1..]) else f
  }

  /** The allow-list read as a list of comma-separated fields: each field
      loses its leading blanks, and fields left empty are dropped. */
  function TrimmedFields(s: seq<char>): seq<seq<char>>
    decreases |s|
  {
    var n := TokenEnd(s);
    var t := TrimLeadingBlanks(s[..n]);
    (if t == [] then [] else [t]) + (if n == |s| then [] else TrimmedFields(s[n + 1..]))
  }

  /** A leading ',' is an empty field, which is dropped. */
  lemma TrimmedFieldsComma(s: seq<char>)
    requires s != [] && s[0] == ','
    ensures TrimmedFields(s) == TrimmedFields(s[1..])
  {
    assert TokenEnd(s) == 0 && s[..0] == [];
  }

  /** A leading blank is trimmed off the first field. */
  lemma TrimmedFieldsBlank(s: seq<char>)
    requires s != [] && IsBlank(s[0])
    ensures TrimmedFields(s) == TrimmedFields(s[1..])
  {
    var n := TokenEnd(s);
    var s' := s[1..];
    assert TokenEnd(s) == 1 + TokenEnd(s');
    assert s[..n][1..] == s'[..n - 1];
    assert TrimLeadingBlanks(s[..n]) == TrimLeadingBlanks(s'[..n - 1]);
    if n < |s| {
      assert s[n + 1..] == s'[n - 1 + 1..];
    }
  }

  /** A field that starts with a token character is kept whole. */
  lemma TrimmedFieldsToken(s: seq<char>)
    requires s != [] && !IsSkipped(s[0])
    ensures var n := TokenEnd(s);
      TrimmedFields(s) == [s[..n]] + (if n == |s| then [] else TrimmedFields(s[n + 1..]))
  {
    var n := TokenEnd(s);
    assert s[..n][0] == s[0];
  }

  /** The scanning loop's tokens are exactly the comma-separated fields
      with leading blanks removed, empty ones dropped; trailing blanks
      remain part of a token. */
  lemma {:induction false} TokensAreTrimmedFields(s: seq<char>)
    ensures Tokens(s) == TrimmedFields(s)
    decreases |s|
  {
    if s == [] {
      assert TokenEnd(s) == 0;
    } else if s[0] == ',' {
      TokensAreTrimmedFields(s[1..]);
      TrimmedFieldsComma(s);
    } else if IsBlank(s[0]) {
      TokensAreTrimmedFields(s[1..]);
      TrimmedFieldsBlank(s);
    } else {
      var n := TokenEnd(s);
      TrimmedFieldsToken(s);
      assert Tokens(s) == [s[..n]] + Tokens(s[n..]);
      if n < |s| {
        TokensAreTrimmedFields(s[n + 1..]);
        TokensSkip(s, n);
      } else {
        assert s[n..] == [];
      }
    }
  }

  // ---------------------------------------------------------------------
  // Consequences

  /** A string of separators and blanks holds no token. */
  lemma {:induction false} SkippedOnlyHasNoTokens(s: seq<char>)
    requires forall j | 0 <= j < |s| :: IsSkipped(s[j])
    ensures Tokens(s) == []
    decreases |s|
  {
    if s != [] {
      SkippedOnlyHasNoTokens(s[1..]);
    }
  }

  /** A non-empty filter of only ',', ' ' and '\t' rejects every name. */
  lemma SkippedOnlyFilterRejectsAll(filename: seq<char>, csv: seq<char>)
    requires |csv| > 0
    requires forall j | 0 <= j < |csv| :: IsSkipped(csv[j])
    ensures !ExtensionAllowed(filename, csv)
  {
    SkippedOnlyHasNoTokens(csv);
  }

  /** Under a non-empty filter, a name with no '.' or ending in '.' is
      rejected; an empty filter admits everything. */
  lemma ExtensionlessRejected(filename: seq<char>, csv: seq<char>)
    ensures |csv| == 0 ==> ExtensionAllowed(filename, csv)
    ensures |csv| > 0 && ('.' !in filename || filename[|filename| - 1] == '.') ==>
              !ExtensionAllowed(filename, csv)
  {
  }

  /** A name passes a non-empty filter only when its extension has the
      length of a token and agrees with it up to case. */
  lemma AllowedMeansSomeToken(filename: seq<char>, csv: seq<char>)
    requires |csv| > 0 && ExtensionAllowed(filename, csv)
    ensures HasExtension(filename)
    ensures exists k | 0 <= k < |Tokens(csv)| ::
              |Tokens(csv)[k]| == |ExtensionOf(filename)| && EqFold(Tokens(csv)[k], ExtensionOf(filename))
  {
    var t :| t in Tokens(csv) && EqFold(t, ExtensionOf(filename));
    var k :| 0 <= k < |Tokens(csv)| && Tokens(csv)[k] == t;
  }

  // ---------------------------------------------------------------------
  // Worked cases

  /** `LastIndexOf` is pinned down by its contract. */
  lemma LastIndexOfAt(s: seq<char>, c: char, k: int)
    requires -1 <= k < |s| && (k >= 0 ==> s[k] == c)
    requires forall j | k < j < |s| :: s[j] != c
    ensures LastIndexOf(s, c) == k
  {
  }

  /** A match at `i` begins with the needle's first character. */
  lemma MatchStartsWith(hay: seq<char>, needle: seq<char>, i: int)
    requires |needle| > 0
    ensures MatchesAt(hay, needle, i) ==> Fold(hay[i]) == Fold(needle[0])
  {
    if MatchesAt(hay, needle, i) {
      assert hay[i..i + |needle|][0] == hay[i];
    }
  }

  /** "rim" occurs in "Primer.TXT" in any letter case; "xyz" does not. */
  lemma PrimerExample()
    ensures Occurs("Primer.TXT", "rim")
    ensures Occurs("Primer.TXT", "RIM")
    ensures !Occurs("Primer.TXT", "xyz")
  {
    var h: seq<char> := "Primer.TXT";
    assert h[0] == 'P' && h[1] == 'r' && h[2] == 'i' && h[3] == 'm' && h[4] == 'e';
    assert h[5] == 'r' && h[6] == '.' && h[7] == 'T' && h[8] == 'X' && h[9] == 'T';
    assert h[1..4] == "rim";
    assert MatchesAt(h, "rim", 1);
    assert MatchesAt(h, "RIM", 1);
    forall i | 0 <= i <= |h| ensures !MatchesAt(h, "xyz", i) {
      MatchStartsWith(h, "xyz", i);
      assert i < |h| ==> h[i] in {'P', 'r', 'i', 'm', 'e', '.', 'T', 'X'};
    }
  }

  /** The single-token lists the examples end in. */
  lemma TokensOfH()
    ensures Tokens("h") == ["h"]
    ensures Tokens(",h") == ["h"]
  {
    var h: seq<char> := "h";
    assert TokenEnd(h) == 1;
    assert h[..1] == h && h[1..] == [];
    TokensSkip(",h", 0);
    assert ",h"[0..] == ",h" && ",h"[1..] == h;
  }

  lemma TokensOfCH()
    ensures Tokens("c,h") == ["c", "h"]
  {
    var csv: seq<char> := "c,h";
    TokensOfH();
    TokensTake(csv, 0, 1);
    assert csv[0..] == csv && csv[0..1] == "c" && csv[1..] == ",h";
  }

  lemma TokensOfCBlankH()
    ensures Tokens("c ,h") == ["c ", "h"]
  {
    var csv: seq<char> := "c ,h";
    TokensOfH();
    TokensTake(csv, 0, 2);
    assert csv[0..] == csv && csv[0..2] == "c " && csv[2..] == ",h";
  }

  /** The filter "c,h" admits "foo.H": its extension equals the token
      "h" up to case. */
  lemma FilterAdmitsListedExtension()
    ensures ExtensionAllowed("foo.H", "c,h")
  {
    TokensOfCH();
    LastIndexOfAt("foo.H", '.', 3);
    assert ExtensionOf("foo.H") == "H";
    assert EqFold("h", "H");
    assert "h" in Tokens("c,h");
  }

  /** The filter "c,h" rejects "foo.hpp": no token is that long. */
  lemma FilterRejectsLongerExtension()
    ensures !ExtensionAllowed("foo.hpp", "c,h")
  {
    TokensOfCH();
    LastIndexOfAt("foo.hpp", '.', 3);
    assert ExtensionOf("foo.hpp") == "hpp";
  }

  /** The filter "c,h" rejects "foo", which has no extension, while the
      empty filter admits it. */
  lemma FilterRejectsExtensionless()
    ensures !ExtensionAllowed("foo", "c,h")
    ensures ExtensionAllowed("foo", "")
  {
    LastIndexOfAt("foo", '.', -1);
  }

  /** Trailing blanks stay in a token: under "c ,h" the first token is
      "c ", so "foo.c" is rejected. */
  lemma TrailingBlankRejects()
    ensures !ExtensionAllowed("foo.c", "c ,h")
  {
    TokensOfCBlankH();
    LastIndexOfAt("foo.c", '.', 3);
    assert ExtensionOf("foo.c") == "c";
  }

  /** Under "c ,h" the second token is "h", so "foo.h" is admitted. */
  lemma TrailingBlankAdmitsNext()
    ensures ExtensionAllowed("foo.h", "c ,h")
  {
    TokensOfCBlankH();
    LastIndexOfAt("foo.h", '.', 3);
    assert ExtensionOf("foo.h") == "h";
    assert EqFold("h", "h");
    assert "h" in Tokens("c ,h");
  }
}
