/** C string conventions used by both programs: a C string is the run of
    characters before the first NUL; `strcmp` and `strlen` are modelled here. */
module CStrings {

  const NUL: char := '\0'

  /** A string value that can be held in a C buffer: it has no NUL inside. */
  predicate IsCString(s: string) {
    forall i :: 0 <= i < |s| ==> s[i] != NUL
  }

  /** The character `strcmp` sees at the head of `s`: the terminator once `s` is used up. */
  function Head(s: string): char {
    if |s| == 0 then NUL else s[0]
  }

  /** `strcmp(a, b)`: walks both strings while their characters agree and are not the
      terminator, and returns the difference of the first pair that stops it. */
  function Compare(a: string, b: string): (r: int)
    ensures a == b ==> r == 0
    ensures r == 0 ==> Head(a) == Head(b)
    decreases |a|
  {
    var x, y := Head(a), Head(b);
    if x != y || x == NUL then x as int - y as int
    else Compare(a[1..], b[1..])
  }

  /** `strcmp` reports 0 exactly for equal C strings. */
  lemma {:induction false} CompareZeroIffEqual(a: string, b: string)
    ensures IsCString(a) && IsCString(b) ==> (Compare(a, b) == 0 <==> a == b)
    decreases |a|
  {
    if IsCString(a) && IsCString(b) && |a| > 0 && |b| > 0 && a[0] == b[0] {
      CompareZeroIffEqual(a[1..], b[1..]);
      assert IsCString(a[1..]) && IsCString(b[1..]);
      assert a == [a[0]] + a[1..] && b == [b[0]] + b[1..];
    }
  }

  /** A character buffer that holds a terminated C string. */
  predicate Terminated(s: seq<char>) {
    exists i :: 0 <= i < |s| && s[i] == NUL
  }

  /** `strlen`: the position of the first NUL of a terminated buffer. */
  function CLength(s: seq<char>): (n: nat)
    requires Terminated(s)
    ensures n < |s| && s[n] == NUL
    ensures forall j :: 0 <= j < n ==> s[j] != NUL
  {
    if s[0] == NUL then 0
    else
      assert Terminated(s[1..]) by {
        var i :| 0 <= i < |s| && s[i] == NUL;
        assert s[1..][i - 1] == NUL;
      }
      1 + CLength(s[1..])
  }

  /** The string a terminated buffer holds. */
  function CString(s: seq<char>): (r: string)
    requires Terminated(s)
    ensures IsCString(r) && |r| < |s|
    ensures s[..|r| + 1] == r + [NUL]
  {
    s[..CLength(s)]
  }

  /** `strlen` as the loop it is: scans the buffer up to the terminator. */
  method Strlen(a: array<char>) returns (n: nat)
    requires Terminated(a[..])
    ensures n == CLength(a[..])
  {
    n := 0;
    while a[n] != NUL
      invariant n < a.Length
      invariant forall j :: 0 <= j < n ==> a[j] != NUL
      invariant n <= CLength(a[..])
      decreases a.Length - n
    {
      n := n + 1;
    }
  }
}
