/**
 * `trim` of headerx.c: drops the line terminators (`\n`, `\r`) at the end of a
 * NUL-terminated buffer by overwriting them with NUL, walking back from the end.
 */
module LineTrim {
  import opened CStrings

  predicate IsNewline(c: char)
  {
    c == '\n' || c == '\r'
  }

  /** The string without its trailing run of line terminators. */
  function TrimEnd(s: string): string
  {
    if s != [] && IsNewline(s[|s| - 1]) then TrimEnd(s[..|s| - 1]) else s
  }

  /** Trimming keeps a prefix and removes only line terminators. */
  lemma {:induction false} TrimEndIsPrefix(s: string)
    ensures |TrimEnd(s)| <= |s| && TrimEnd(s) == s[..|TrimEnd(s)|]
    ensures forall i :: |TrimEnd(s)| <= i < |s| ==> IsNewline(s[i])
    decreases |s|
  {
    if s != [] && IsNewline(s[|s| - 1]) {
      TrimEndIsPrefix(s[..|s| - 1]);
    }
  }

  /** The result does not end in a line terminator. */
  lemma {:induction false} TrimEndHasNoTrailingNewline(s: string)
    ensures TrimEnd(s) == [] || !IsNewline(TrimEnd(s)[|TrimEnd(s)| - 1])
    decreases |s|
  {
    if s != [] && IsNewline(s[|s| - 1]) {
      TrimEndHasNoTrailingNewline(s[..|s| - 1]);
    }
  }

  /** Trimming twice is trimming once. */
  lemma TrimEndIdempotent(s: string)
    ensures TrimEnd(TrimEnd(s)) == TrimEnd(s)
  {
    TrimEndHasNoTrailingNewline(s);
  }

  /** Extending the scanned part by one character, as the loop in `trim` does going backwards. */
  lemma TrimEndStep(str: string, l: nat)
    requires l < |str|
    ensures IsNewline(str[l]) ==> TrimEnd(str[..l + 1]) == TrimEnd(str[..l])
    ensures !IsNewline(str[l]) ==> TrimEnd(str[..l + 1]) == str[..l + 1]
  {
    assert str[..l + 1][..l] == str[..l];
  }

  /**
   * `trim(line)`: a NULL buffer is left alone; otherwise, with `n` the old string
   * length, the string becomes TrimEnd of the old string and each removed
   * terminator is overwritten with NUL, everything else untouched.
   */
  method Trim(line: array?<char>)
    requires line != null ==> NUL in line[..]
    modifies line
    ensures line != null ==> CStr(line[..]) == TrimEnd(old(CStr(line[..])))
    ensures line != null ==> forall i :: 0 <= i < line.Length ==>
      line[i] == if |TrimEnd(old(CStr(line[..])))| <= i < old(Len(line[..])) then NUL else old(line[i])
  {
    if line == null {
      return;
    }
    ghost var s := line[..];
    var n := Len(line[..]);
    ghost var str := s[..n];
    var l := n;
    assert str[..l] == str;
    while l > 0
      invariant 0 <= l <= n < line.Length
      invariant TrimEnd(str) == TrimEnd(str[..l])
      invariant forall i :: 0 <= i < line.Length ==> line[i] == if l <= i < n then NUL else s[i]
    {
      l := l - 1;
      TrimEndStep(str, l);
      if line[l] == '\n' || line[l] == '\r' {
        line[l] := NUL;
      } else {
        LenAtFirstNul(line[..], l + 1);
        return;
      }
    }
    assert TrimEnd(str) == [];
    LenAtFirstNul(line[..], 0);
  }
}
