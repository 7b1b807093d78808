/** C strings inside a buffer: what a char pointer denotes. */
module CString {

  const NUL: char := '\0'

  /** The characters from off up to the first NUL (or the end of the buffer). */
  function CStr(b: seq<char>, off: nat): (s: string)
    ensures NUL !in s
    decreases |b| - off
  {
    if off >= |b| || b[off] == NUL then [] else [b[off]] + CStr(b, off + 1)
  }

  lemma {:induction false} CStrIsPrefix(b: seq<char>, off: nat)
    requires off <= |b|
    ensures var s := CStr(b, off);
      && off + |s| <= |b|
      && s == b[off..off + |s|]
      && (off + |s| < |b| ==> b[off + |s|] == NUL)
    decreases |b| - off
  {
    if off < |b| && b[off] != NUL {
      CStrIsPrefix(b, off + 1);
      var s := CStr(b, off + 1);
      assert b[off..off + 1 + |s|] == [b[off]] + b[off + 1..off + 1 + |s|];
    }
  }

  /** The string at off, once it is known where its NUL is. */
  lemma {:induction false} CStrUpTo(b: seq<char>, off: nat, end: nat)
    requires off <= end <= |b| && (end < |b| ==> b[end] == NUL)
    requires forall k :: off <= k < end ==> b[k] != NUL
    ensures CStr(b, off) == b[off..end]
    decreases end - off
  {
    if off < end {
      CStrUpTo(b, off + 1, end);
    }
  }
}
