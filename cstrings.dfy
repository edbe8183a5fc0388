/**
 * The two C string library facts the program relies on: `strlen` stops at the
 * first NUL, and `strncmp(s, p, |p|) == 0` holds exactly when `s` starts with `p`.
 * A buffer is a `seq<char>`; reading one position past its end yields NUL, as
 * reading the terminator of a C string does.
 */
module CStrings {

  const NUL: char := '\0'

  /** The character at position `i`, or the terminating NUL past the end. */
  function At(s: seq<char>, i: nat): char
  {
    if i < |s| then s[i] else NUL
  }

  /** `strlen`: the index of the first NUL, or the whole length when there is none. */
  function Len(s: seq<char>): (n: nat)
    ensures n <= |s|
    ensures forall i :: 0 <= i < n ==> s[i] != NUL
    ensures n < |s| ==> s[n] == NUL
    ensures NUL !in s ==> n == |s|
  {
    if s == [] || s[0] == NUL then 0 else 1 + Len(s[1..])
  }

  /** What `printf("%s", s)` writes: the characters before the first NUL. */
  function CStr(s: seq<char>): (r: seq<char>)
    ensures NUL !in r && HasPrefix(s, r)
    ensures |r| < |s| ==> s[|r|] == NUL
  {
    s[..Len(s)]
  }

  /** `strncmp(s, p, |p|) == 0`, for a pattern `p` that holds no NUL. */
  predicate HasPrefix(s: seq<char>, p: seq<char>)
  {
    |p| <= |s| && s[..|p|] == p
  }

  /** A string without NUL is written out whole by `%s`. */
  lemma CStrOfPlain(s: seq<char>)
    requires NUL !in s
    ensures CStr(s) == s
  {
  }

  /** The first NUL decides the C string: everything after it is never read. */
  lemma {:induction false} LenAtFirstNul(s: seq<char>, k: nat)
    requires k < |s| && s[k] == NUL
    requires forall i :: 0 <= i < k ==> s[i] != NUL
    ensures Len(s) == k && CStr(s) == s[..k]
  {
    if k > 0 {
      LenAtFirstNul(s[1..], k - 1);
    }
  }
}
