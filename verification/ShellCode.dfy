/**
  The front end of the shell as the program writes it: one buffer of characters into which NULs
  are written, and an array of pointers into that buffer.
 */
module ShellCode {
  import opened Prelude
  import opened CString
  import opened ShellSyntax

  const NUM := 1024
  const SIZE := 32

  /** An entry of the argument vector: null, a place in the buffer, or the literal for ls. */
  datatype Ptr = Null | At(off: nat) | ColorFlag

  /** What CheckRedir hands back; OutOfBounds if it reads the byte before the buffer. */
  datatype File = NoFile | FileAt(off: nat) | OutOfBounds

  /** How parsing ends: a vector for exec, or one of the lines the program cannot handle: one
      that begins with a NUL (the strip writes before the buffer), an undefined redirection, no
      word at all (strcmp on null), more words than the vector holds. */
  datatype Result = Ready | EmptyLine | BadRedirection | NoCommand | TooMany

  function Deref(b: seq<char>, p: Ptr): string {
    match p
    case Null => ""
    case At(off) => CStr(b, off)
    case ColorFlag => COLOR
  }

  ghost predicate ArgvIs(b: seq<char>, argv: seq<Ptr>, words: seq<string>) {
    && |words| < |argv|
    && (forall k :: 0 <= k < |words| ==> argv[k] != Null && Deref(b, argv[k]) == words[k])
    && argv[|words|] == Null
  }

  /** Among the first n entries only the second can be the literal, and is if flagged. */
  ghost predicate Literals(argv: seq<Ptr>, n: nat, flagged: bool) {
    n <= |argv| && forall k :: 0 <= k < n ==> (argv[k] == ColorFlag <==> flagged && k == 1)
  }

  /** The vector for a command's words: the first word, the literal if that is "ls", the other
      words in order, all read from the buffer, and a null pointer. */
  ghost predicate IsVectorFor(b: seq<char>, argv: seq<Ptr>, words: seq<string>)
    requires words != []
  {
    var shift := if words[0] == "ls" then 1 else 0;
    && |words| + shift < |argv|
    && argv[0].At? && CStr(b, argv[0].off) == words[0]
    && (argv[1] == ColorFlag <==> words[0] == "ls")
    && (words[0] == "ls" ==> Deref(b, argv[1]) == "--color=auto")
    && (forall k :: 1 <= k < |words| ==> argv[k + shift].At? && CStr(b, argv[k + shift].off) == words[k])
    && argv[|words| + shift] == Null
  }

  lemma VectorIs(b: seq<char>, argv: seq<Ptr>, words: seq<string>)
    requires words != [] && ArgvIs(b, argv, Argv(words)) && Literals(argv, |Argv(words)|, words[0] == "ls")
    ensures IsVectorFor(b, argv, words)
  {
    var shift := if words[0] == "ls" then 1 else 0;
    forall k | 1 <= k < |words|
      ensures argv[k + shift].At? && CStr(b, argv[k + shift].off) == words[k]
    {
      assert Argv(words)[k + shift] == words[k];
    }
  }

  // ---- strings in a buffer that changes ----

  /** A string is the same in two buffers that agree from its start to its NUL. */
  lemma CStrSame(b: seq<char>, b': seq<char>, off: nat)
    requires |b'| == |b| && off + |CStr(b, off)| < |b|
    requires forall k :: off <= k <= off + |CStr(b, off)| ==> b'[k] == b[k]
    ensures CStr(b', off) == CStr(b, off)
  {
    CStrIsPrefix(b, off);
    var end := off + |CStr(b, off)|;
    assert forall k :: off <= k < end ==> b[k] == CStr(b, off)[k - off];
    CStrUpTo(b', off, end);
    assert b'[off..end] == b[off..end];
  }

  lemma {:induction false} AllBlank(s: string)
    requires forall k :: 0 <= k < |s| ==> s[k] == ' '
    ensures s == Blank(|s|)
  {
    if s != "" {
      AllBlank(s[1..]);
      assert s == " " + s[1..];
    }
  }

  lemma SkippedSpaces(s: string, i: nat)
    requires i <= |s| && forall k :: 0 <= k < i ==> s[k] == ' '
    ensures Words(s) == Words(s[i..])
  {
    AllBlank(s[..i]);
    SkipBlank(i, s[i..]);
    assert s == s[..i] + s[i..];
  }

  lemma FirstWord(s: string, t: nat)
    requires 0 < t <= |s| && ' ' !in s[..t] && (t < |s| ==> s[t] == ' ')
    ensures Words(s) == [s[..t]] + Words(s[if t < |s| then t + 1 else t..])
  {
    WordIs(s[..t], s[t..]);
    assert s == s[..t] + s[t..];
    assert s[0] in s[..t];
    if t < |s| {
      assert s[t..][1..] == s[t + 1..];
    }
  }

  /** One call of strtok: b is the buffer before, b' after, from where it starts looking, save
      where the next call will. */
  ghost predicate TokenTaken(b: seq<char>, b': seq<char>, from: nat, p: Ptr, save: nat) {
    var rest := CStr(b, from);
    var end := from + |rest|;
    && end < |b| == |b'| && from <= save <= end
    && (forall k :: 0 <= k < from || end <= k < |b| ==> b'[k] == b[k])
    && save + |CStr(b', save)| == end
    && if Words(rest) == [] then p == Null && save == end
       else
         && p.At? && from <= p.off && CStr(b', p.off) == Words(rest)[0]
         && (p.off + |Words(rest)[0]| < save || p.off + |Words(rest)[0]| == save == end)
         && Words(CStr(b', save)) == Words(rest)[1..]
  }

  lemma WordAfterSpaces(s: string, i: nat, t: nat)
    requires i < t <= |s| && (t < |s| ==> s[t] == ' ')
    requires forall k :: 0 <= k < i ==> s[k] == ' '
    requires forall k :: i <= k < t ==> s[k] != ' '
    ensures Words(s) == [s[i..t]] + Words(s[if t < |s| then t + 1 else t..])
  {
    hide Words, Word;
    SkippedSpaces(s, i);
    FirstWord(s[i..], t - i);
    assert s[i..][..t - i] == s[i..t];
    if t < |s| {
      assert s[i..][t - i + 1..] == s[t + 1..];
    } else {
      assert s[i..][t - i..] == s[t..];
    }
  }

  /** Writing a NUL over the space that ends the word b[i..t]. */
  lemma TokenCut(b: seq<char>, b': seq<char>, from: nat, end: nat, i: nat, t: nat, save: nat)
    requires end == from + |CStr(b, from)| && from <= i < t <= end < |b| == |b'|
    requires forall k :: from <= k < i ==> b[k] == ' '
    requires forall k :: i <= k < t ==> b[k] != ' '
    requires if t < end then b[t] == ' ' && b' == b[t := NUL] && save == t + 1 else b' == b && save == t
    ensures TokenTaken(b, b', from, At(i), save)
  {
    hide Words, Word, CStr;
    CStrIsPrefix(b, from);
    var rest := CStr(b, from);
    assert forall k :: from <= k < end ==> b[k] == rest[k - from];
    WordAfterSpaces(rest, i - from, t - from);
    assert forall k :: i <= k < t ==> b'[k] == b[k];
    assert forall k :: save <= k < end ==> b'[k] == b[k];
    CStrUpTo(b', i, t);
    CStrUpTo(b', save, end);
    assert b'[i..t] == rest[i - from..t - from];
    assert b'[save..end] == rest[save - from..];
  }

  /** Everything the vector holds so far still reads as it should, and the next call of strtok
      will not write over it. */
  ghost predicate Collected(b: seq<char>, args: seq<Ptr>, words: seq<string>, next: nat, end: nat) {
    && |words| <= |args|
    && next + |CStr(b, next)| == end < |b|
    && forall k :: 0 <= k < |words| ==>
         && args[k] != Null && Deref(b, args[k]) == words[k]
         && (args[k].At? ==> args[k].off + |words[k]| < next || args[k].off + |words[k]| == next == end)
  }

  lemma CollectedSurvives(b: seq<char>, b': seq<char>, args: seq<Ptr>, words: seq<string>, p: Ptr,
                          next: nat, next': nat, end: nat)
    requires Collected(b, args, words, next, end) && |words| < |args|
    requires TokenTaken(b, b', next, p, next')
    ensures Collected(b', args, words, next', end)
    ensures p != Null ==> Collected(b', args[|words| := p], words + [Words(CStr(b, next))[0]], next', end)
  {
    hide Words, CStr;
    forall k | 0 <= k < |words|
      ensures Deref(b', args[k]) == words[k]
    {
      if args[k].At? {
        CStrSame(b, b', args[k].off);
      }
    }
  }

  lemma Strip(b: seq<char>, last: nat)
    requires last + 1 == |CStr(b, 0)| < |b|
    ensures CStr(b[last := NUL], 0) == CStr(b, 0)[..last]
  {
    CStrIsPrefix(b, 0);
    assert forall k :: 0 <= k <= last ==> b[k] == CStr(b, 0)[k];
    CStrUpTo(b[last := NUL], 0, last);
  }

  /** A NUL in the middle of a line makes two strings of it. */
  lemma CutStrings(b: seq<char>, cut: nat, off: nat)
    requires cut < off <= |CStr(b, 0)| < |b|
    ensures var line, b' := CStr(b, 0), b[cut := NUL];
      CStr(b', 0) == line[..cut] && CStr(b', off) == line[off..]
  {
    CStrIsPrefix(b, 0);
    var line, b' := CStr(b, 0), b[cut := NUL];
    assert forall k :: 0 <= k < |line| ==> b[k] == line[k];
    CStrUpTo(b', 0, cut);
    CStrUpTo(b', off, |line|);
    assert b'[..cut] == line[..cut];
    assert b'[off..|line|] == line[off..];
  }

  class Shell {
    const cmdLine: array<char>
    const argv: array<Ptr>
    var redirStatus: Option<Op>
    var save: nat              // where strtok goes on when it is called with a null pointer

    ghost predicate Valid()
      reads this
    {
      cmdLine.Length == NUM && argv.Length == SIZE
    }

    ghost function Buffer(): seq<char>
      reads this, cmdLine
    {
      cmdLine[..]
    }

    constructor ()
      ensures Valid() && fresh(cmdLine) && fresh(argv)
    {
      cmdLine := new char[NUM](_ => NUL);
      argv := new Ptr[SIZE](_ => Null);
      redirStatus := None;
      save := 0;
    }

    method StrLen() returns (n: nat)
      requires Valid() && |CStr(Buffer(), 0)| < NUM
      ensures n == |CStr(Buffer(), 0)| && n < NUM && cmdLine[n] == NUL
    {
      CStrIsPrefix(Buffer(), 0);
      n := 0;
      while cmdLine[n] != NUL
        invariant n <= |CStr(Buffer(), 0)|
        decreases NUM - n
      {
        n := n + 1;
      }
    }

    /** The scan from the last character down to the last operator, or to -1. */
    method FindOp() returns (end: int)
      requires Valid() && |CStr(Buffer(), 0)| < NUM
      ensures end + 1 == AfterLastOp(CStr(Buffer(), 0))
      ensures 0 <= end ==> cmdLine[end] == CStr(Buffer(), 0)[end]
      ensures 0 < end ==> cmdLine[end - 1] == CStr(Buffer(), 0)[end - 1]
    {
      ghost var s := CStr(Buffer(), 0);
      CStrIsPrefix(Buffer(), 0);
      var n := StrLen();
      assert forall k :: 0 <= k < n ==> cmdLine[k] == s[k];
      end := n;
      end := end - 1;
      while end >= 0 && !IsOp(cmdLine[end])
        invariant -1 <= end < n
        invariant NoOps(s[end + 1..])
      {
        end := end - 1;
      }
      if end >= 0 {
        AfterLastOpIs(s, end + 1);
      }
    }

    /** Cuts the line at its last operator and says where the file name begins. */
    method CheckRedir() returns (file: File)
      requires Valid() && |CStr(Buffer(), 0)| < NUM
      modifies this`redirStatus, cmdLine
      ensures match SplitLine(old(CStr(Buffer(), 0)))
        case Plain(cmd) =>
          file == NoFile && redirStatus == None && Buffer() == old(Buffer())
        case Undefined =>
          file == OutOfBounds && Buffer() == old(Buffer())
        case Redirected(cmd, op, name) =>
          && redirStatus == Some(op)
          && file == FileAt(|cmd| + |OpText(op)|)
          && Buffer() == old(Buffer())[|cmd| := NUL]
    {
      hide AfterLastOp, CStr;
      redirStatus := None;
      var end := FindOp();
      if end < 0 {
        file := NoFile;
      } else if cmdLine[end] == '<' {
        redirStatus := Some(Input);
        cmdLine[end] := NUL;
        file := FileAt(end + 1);
      } else if end == 0 {
        file := OutOfBounds;
      } else if cmdLine[end - 1] == '>' {
        redirStatus := Some(Append);
        cmdLine[end - 1] := NUL;
        file := FileAt(end + 1);
      } else {
        redirStatus := Some(Output);
        cmdLine[end] := NUL;
        file := FileAt(end + 1);
      }
    }

    /** strtok with the delimiter " ": from is its first argument, or None for a null pointer. */
    method StrTok(start: Option<nat>) returns (p: Ptr)
      requires Valid()
      requires var from := if start.Some? then start.value else save;
        from + |CStr(Buffer(), from)| < NUM
      modifies this`save, cmdLine
      ensures TokenTaken(old(Buffer()), Buffer(), if start.Some? then start.value else old(save), p, save)
    {
      var from := if start.Some? then start.value else save;
      ghost var b := Buffer();
      ghost var end := from + |CStr(b, from)|;
      CStrIsPrefix(b, from);
      assert forall k :: from <= k < end ==> b[k] == CStr(b, from)[k - from];
      var i := from;
      while cmdLine[i] == ' '
        invariant from <= i <= end
        invariant forall k :: from <= k < i ==> b[k] == ' '
        decreases end - i
      {
        i := i + 1;
      }
      if cmdLine[i] == NUL {
        SkippedSpaces(CStr(b, from), i - from);
        CStrUpTo(b, i, end);
        save := i;
        return Null;
      }
      var t := i;
      while cmdLine[t] != ' ' && cmdLine[t] != NUL
        invariant i <= t <= end
        invariant forall k :: i <= k < t ==> b[k] != ' '
        decreases end - t
      {
        t := t + 1;
      }
      if cmdLine[t] == NUL {
        save := t;
      } else {
        cmdLine[t] := NUL;
        save := t + 1;
      }
      TokenCut(b, Buffer(), from, end, i, t, save);
      return At(i);
    }

    /** The first word, and the extra argument that ls gets. */
    method FirstArgs() returns (idx: nat, ghost done: seq<string>)
      requires Valid() && |CStr(Buffer(), 0)| < NUM
      modifies this`save, cmdLine, argv
      ensures var line := old(CStr(Buffer(), 0)); var words := Words(line);
        && (argv[0] == Null <==> words == [])
        && (words != [] ==>
              && 1 <= idx == |done| <= 2 && (words[0] == "ls" ==> idx == 2)
              && Collected(Buffer(), argv[..], done, save, |line|)
              && Literals(argv[..], idx, words[0] == "ls")
              && done + Words(CStr(Buffer(), save)) == Argv(words))
      ensures forall k :: |old(CStr(Buffer(), 0))| <= k < NUM ==> Buffer()[k] == old(Buffer())[k]
    {
      hide Words, Word, CStr;
      ghost var words := Words(CStr(Buffer(), 0));
      argv[0] := StrTok(Some(0));
      idx, done := 0, [];
      if argv[0] != Null {
        idx, done := 1, [words[0]];
        var isLs := IsLs(argv[0]);
        if isLs {
          argv[idx] := ColorFlag;
          idx, done := idx + 1, done + [COLOR];
        }
      }
    }

    /** The loop over the remaining words: idx entries are filled, full is the whole vector. */
    method RestArgs(first: nat, ghost begun: seq<string>, ghost end: nat, ghost full: seq<string>, ghost flagged: bool)
      returns (r: Result)
      requires Valid() && 1 <= first == |begun| <= SIZE
      requires Collected(Buffer(), argv[..], begun, save, end) && Literals(argv[..], first, flagged)
      requires flagged ==> first > 1
      requires begun + Words(CStr(Buffer(), save)) == full
      modifies this`save, cmdLine, argv
      ensures r == if |full| + 1 > SIZE then TooMany else Ready
      ensures r == Ready ==> ArgvIs(Buffer(), argv[..], full) && Literals(argv[..], |full|, flagged)
      ensures forall k :: end <= k < NUM ==> Buffer()[k] == old(Buffer())[k]
    {
      hide Words, CStr, Deref;
      var idx := first;
      ghost var done := begun;
      while true
        invariant 1 <= idx == |done| <= SIZE
        invariant Collected(Buffer(), argv[..], done, save, end) && Literals(argv[..], idx, flagged)
        invariant flagged ==> idx > 1
        invariant done + Words(CStr(Buffer(), save)) == full
        invariant forall k :: end <= k < NUM ==> Buffer()[k] == old(Buffer())[k]
        decreases SIZE - idx
      {
        ghost var b, next := Buffer(), save;
        var p := StrTok(None);
        if idx >= SIZE {
          return TooMany;          // the store would run past the end of the vector
        }
        CollectedSurvives(b, Buffer(), argv[..], done, p, next, save, end);
        argv[idx] := p;
        if p == Null {
          return Ready;
        }
        done := done + [Words(CStr(b, next))[0]];
        idx := idx + 1;
      }
    }

    /** The pointers into the buffer that make up the argument vector. */
    method BuildArgv() returns (r: Result)
      requires Valid() && |CStr(Buffer(), 0)| < NUM
      modifies this`save, cmdLine, argv
      ensures VectorFor(r, old(CStr(Buffer(), 0)))
      ensures forall k :: |old(CStr(Buffer(), 0))| <= k < NUM ==> Buffer()[k] == old(Buffer())[k]
    {
      ghost var line := CStr(Buffer(), 0);
      hide Words, CStr;
      var idx, done := FirstArgs();
      if argv[0] == Null {
        r := NoCommand;
      } else {
        r := RestArgs(idx, done, |line|, Argv(Words(line)), Words(line)[0] == "ls");
        if r == Ready {
          VectorIs(Buffer(), argv[..], Words(line));
        }
      }
    }

    /** What is promised for a command: the vector, if there is a word and the words, the extra
        argument of ls and the final null pointer fit; otherwise which of the two went wrong. */
    ghost predicate VectorFor(r: Result, cmd: string)
      reads this, cmdLine, argv
      requires Valid()
    {
      var words := Words(cmd);
      && (r == NoCommand <==> words == [])
      && (r == NoCommand || r == TooMany || r == Ready)
      && (words != [] ==>
            && (r == Ready <==> |words| + (if words[0] == "ls" then 2 else 1) <= SIZE)
            && (r == Ready ==> IsVectorFor(Buffer(), argv[..], words)))
    }

    /** What the shell does with the line that fgets left in the buffer: strip its last
        character, cut off the redirection, split the rest. The file name is still intact. */
    method ParseLine() returns (r: Result, file: File)
      requires Valid() && |CStr(Buffer(), 0)| < NUM
      modifies this, cmdLine, argv
      ensures Valid()
      ensures r == EmptyLine <==> old(CStr(Buffer(), 0)) == ""
      ensures var line := old(CStr(Buffer(), 0));
        if line == "" then Buffer() == old(Buffer()) else
        match SplitLine(line[..|line| - 1])
        case Undefined =>
          r == BadRedirection
        case Plain(cmd) =>
          file == NoFile && redirStatus == None && VectorFor(r, cmd)
        case Redirected(cmd, op, name) =>
          && redirStatus == Some(op)
          && file.FileAt? && CStr(Buffer(), file.off) == name
          && VectorFor(r, cmd)
    {
      hide CStr, Words, AfterLastOp, Argv;
      ghost var line := CStr(Buffer(), 0);
      var n := StrLen();
      if n == 0 {
        return EmptyLine, NoFile;
      }
      Strip(Buffer(), n - 1);
      cmdLine[n - 1] := NUL;
      ghost var stripped := line[..|line| - 1];
      assert CStr(Buffer(), 0) == stripped;
      ghost var b1 := Buffer();
      file := CheckRedir();
      if file == OutOfBounds {
        return BadRedirection, file;
      }
      ghost var b2 := Buffer();
      if file.FileAt? {
        CutStrings(b1, |SplitLine(stripped).cmd|, file.off);
      }
      r := BuildArgv();
      if file.FileAt? {
        CStrSame(b2, Buffer(), file.off);
      }
    }

    /** strcmp(p, "ls") == 0 */
    method IsLs(p: Ptr) returns (same: bool)
      requires Valid() && p.At? && p.off + |CStr(Buffer(), p.off)| < NUM
      ensures same == (Deref(Buffer(), p) == "ls")
    {
      CStrIsPrefix(Buffer(), p.off);
      same := cmdLine[p.off] == 'l' && cmdLine[p.off + 1] == 's' && cmdLine[p.off + 2] == NUL;
      if same {
        CStrUpTo(Buffer(), p.off, p.off + 2);
      }
    }
  }
}
