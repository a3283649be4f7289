/** Wide-character C strings and the case-insensitive comparison the
    matcher relies on.

    A C wide string is represented by the characters before its
    terminator, so it never contains '\0'.  Case folding is the C-locale
    (ASCII) folding of `_wcsnicmp`. */
module WideStr {

  /** No character of `s` is the terminator. */
  predicate NoNul(s: seq<char>) {
    forall i | 0 <= i < |s| :: s[i] != '\0'
  }

  /** A NUL-terminated wide string, given by its characters. */
  type WStr = s: seq<char> | NoNul(s) witness []

  /** The character at index `i` of a C string, reading the terminator
      at index |s| and beyond. */
  function At(s: seq<char>, i: nat): char {
    if i < |s| then s[i] else '\0'
  }

  /** Path separators accepted by the Windows APIs. */
  predicate IsSep(c: char) {
    c == '\\' || c == '/'
  }

  /** ASCII lower-casing, the folding `_wcsnicmp` applies in the C locale. */
  function Fold(c: char): (f: char)
    ensures !('A' <= f <= 'Z')
    ensures f == '\0' <==> c == '\0'
    ensures 'A' <= c <= 'Z' ==> 'a' <= f <= 'z'
    ensures !('A' <= c <= 'Z') ==> f == c
  {
    if 'A' <= c <= 'Z' then (c as int - 'A' as int + 'a' as int) as char else c
  }

  /** `a` and `b` have the same length and agree after folding. */
  predicate EqFold(a: seq<char>, b: seq<char>) {
    |a| == |b| && forall i | 0 <= i < |a| :: Fold(a[i]) == Fold(b[i])
  }

  function Min(x: nat, y: nat): nat {
    if x <= y then x else y
  }

  /** `_wcsnicmp(a, b, n) == 0`: the first `n` characters agree after
      folding, where the comparison stops early, with equality, when
      both strings end at the same place, and a string that ends while
      the other goes on compares its terminator against a character. */
  function NicmpEqual(a: seq<char>, b: seq<char>, n: nat): bool
    decreases n
  {
    if n == 0 then true
    else if |a| == 0 || |b| == 0 then |a| == 0 && |b| == 0
    else Fold(a[0]) == Fold(b[0]) && NicmpEqual(a[1..], b[1..], n - 1)
  }

  /** `_wcsnicmp(a, b, n) == 0` exactly when the first `n` characters of
      both strings (or all of them, if shorter) coincide after folding;
      in particular a string shorter than `n` never equals a longer one. */
  lemma {:induction false} NicmpEqualMeaning(a: seq<char>, b: seq<char>, n: nat)
    ensures NicmpEqual(a, b, n) <==> EqFold(a[..Min(n, |a|)], b[..Min(n, |b|)])
    decreases n
  {
    if n == 0 || |a| == 0 || |b| == 0 {
    } else {
      NicmpEqualMeaning(a[1..], b[1..], n - 1);
      var x, y := a[..Min(n, |a|)], b[..Min(n, |b|)];
      var x', y' := a[1..][..Min(n - 1, |a| - 1)], b[1..][..Min(n - 1, |b| - 1)];
      assert x == [a[0]] + x';
      assert y == [b[0]] + y';
      if EqFold(x, y) {
        assert Fold(a[0]) == Fold(b[0]) by { assert x[0] == a[0] && y[0] == b[0]; }
        forall i | 0 <= i < |x'| ensures Fold(x'[i]) == Fold(y'[i]) {
          assert x[i + 1] == x'[i] && y[i + 1] == y'[i];
        }
      }
      if NicmpEqual(a, b, n) {
        forall i | 0 <= i < |x| ensures Fold(x[i]) == Fold(y[i]) {
          if i > 0 { assert x[i] == x'[i - 1] && y[i] == y'[i - 1]; }
        }
      }
    }
  }

  /** The form used by the callers: comparing `n == |b|` characters
      succeeds exactly when `a` starts with `b` up to folding. */
  lemma NicmpEqualPrefix(a: seq<char>, b: seq<char>)
    ensures NicmpEqual(a, b, |b|) <==> |b| <= |a| && EqFold(a[..|b|], b)
  {
    NicmpEqualMeaning(a, b, |b|);
    assert b[..|b|] == b;
  }
}
