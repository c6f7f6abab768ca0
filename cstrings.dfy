/** NUL-terminated character buffers, as the C code reads them with strlen. */
module CStrings {

  /** The position of the first NUL in `s`: what strlen returns for a buffer holding a C string. */
  function StrLen(s: seq<char>): (n: nat)
    requires '\0' in s
    ensures n < |s| && s[n] == '\0'
    ensures '\0' !in s[..n]
  {
    if s[0] == '\0' then 0
    else
      assert '\0' in s[1..] by {
        var i :| 0 <= i < |s| && s[i] == '\0';
        assert s[1..][i - 1] == s[i];
      }
      var m := StrLen(s[1..]);
      assert s[..m + 1] == [s[0]] + s[1..][..m];
      m + 1
  }

  /** The text of the C string held in `s`: the characters before its first NUL. */
  function Content(s: seq<char>): (c: seq<char>)
    requires '\0' in s
    ensures |c| < |s| && c == s[..|c|] && s[|c|] == '\0'
    ensures '\0' !in c
  {
    s[..StrLen(s)]
  }

  /** A NUL at `m` with none before it is where the string ends. */
  lemma StrLenAt(s: seq<char>, m: nat)
    requires m < |s| && s[m] == '\0' && '\0' !in s[..m]
    ensures '\0' in s && StrLen(s) == m
  {
  }
}
