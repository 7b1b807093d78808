/** What a command line means: the redirection at its end and the words before it. */
module ShellSyntax {

  // ---- redirection ----

  datatype Op = Input | Output | Append

  /** Undefined: the line's only operator is a '>' at its very beginning, and the test for ">>"
      reads the byte before the line. */
  datatype Split = Plain(cmd: string) | Redirected(cmd: string, op: Op, file: string) | Undefined

  predicate IsOp(c: char) {
    c == '<' || c == '>'
  }

  predicate NoOps(s: string) {
    forall k :: 0 <= k < |s| ==> !IsOp(s[k])
  }

  /** The position just after the last operator, 0 if there is none. */
  function AfterLastOp(s: string): (p: nat)
    ensures p <= |s|
    ensures p > 0 ==> IsOp(s[p - 1])
    ensures forall k :: p <= k < |s| ==> !IsOp(s[k])
  {
    if s == "" then 0
    else if IsOp(s[|s| - 1]) then |s|
    else AfterLastOp(s[..|s| - 1])
  }

  function SplitLine(s: string): Split {
    var p := AfterLastOp(s);
    if p == 0 then Plain(s)
    else if s[p - 1] == '<' then Redirected(s[..p - 1], Input, s[p..])
    else if p == 1 then Undefined
    else if s[p - 2] == '>' then Redirected(s[..p - 2], Append, s[p..])
    else Redirected(s[..p - 1], Output, s[p..])
  }

  function OpText(op: Op): string {
    match op
    case Input => "<"
    case Output => ">"
    case Append => ">>"
  }

  function Join(cmd: string, op: Op, file: string): string {
    cmd + OpText(op) + file
  }

  lemma AfterLastOpIs(s: string, p: nat)
    requires 0 < p <= |s| && IsOp(s[p - 1]) && NoOps(s[p..])
    ensures AfterLastOp(s) == p
  {
    assert forall k :: p <= k < |s| ==> s[k] == s[p..][k - p];
  }

  lemma SplitOfJoin(cmd: string, op: Op, file: string)
    requires NoOps(file)
    ensures SplitLine(Join(cmd, op, file)) ==
      if op != Output then Redirected(cmd, op, file)
      else if cmd == "" then Undefined
      else if cmd[|cmd| - 1] == '>' then Redirected(cmd[..|cmd| - 1], Append, file)
      else Redirected(cmd, op, file)
  {
    var s := Join(cmd, op, file);
    var p := |cmd| + |OpText(op)|;
    assert s[p..] == file;
    assert s[p - 1] == OpText(op)[|OpText(op)| - 1];
    AfterLastOpIs(s, p);
    hide AfterLastOp;
    if op == Append {
      assert s[p - 2] == OpText(op)[0] && s[..p - 2] == cmd;
    } else {
      assert s[..p - 1] == cmd;
      if cmd != "" {
        assert s[p - 2] == cmd[|cmd| - 1] && s[..p - 2] == cmd[..|cmd| - 1];
      }
    }
  }

  /** Which operator is which. */
  lemma SplitAtEachOperator(cmd: string, file: string)
    requires NoOps(file)
    ensures SplitLine(cmd + "<" + file) == Redirected(cmd, Input, file)
    ensures SplitLine(cmd + ">>" + file) == Redirected(cmd, Append, file)
    ensures cmd != "" && cmd[|cmd| - 1] != '>' ==> SplitLine(cmd + ">" + file) == Redirected(cmd, Output, file)
  {
    SplitOfJoin(cmd, Input, file);
    SplitOfJoin(cmd, Append, file);
    SplitOfJoin(cmd, Output, file);
  }

  /** Splitting undoes joining exactly when the file name has no operator in it and, for a
      plain '>', the command is not empty and does not end in '>'. */
  lemma SplitUndoesJoin(cmd: string, op: Op, file: string)
    ensures SplitLine(Join(cmd, op, file)) == Redirected(cmd, op, file) <==>
            NoOps(file) && (op == Output ==> cmd != "" && cmd[|cmd| - 1] != '>')
  {
    if NoOps(file) {
      SplitOfJoin(cmd, op, file);
    }
    hide Join;
    assert SplitLine(Join(cmd, op, file)) == Redirected(cmd, op, file) ==>
      file == Join(cmd, op, file)[AfterLastOp(Join(cmd, op, file))..];
  }

  /** Joining undoes every split, the file name never contains an operator, and a line is left
      alone exactly when it has no operator. */
  lemma JoinUndoesSplit(s: string)
    ensures match SplitLine(s)
      case Plain(cmd) => cmd == s && NoOps(s)
      case Redirected(cmd, op, file) => Join(cmd, op, file) == s && NoOps(file)
      case Undefined => s != "" && s[0] == '>' && NoOps(s[1..])
    ensures NoOps(s) ==> SplitLine(s).Plain?
  {
    var p := AfterLastOp(s);
    if p > 0 && s[p - 1] == '>' && p > 1 && s[p - 2] == '>' {
      assert s == s[..p - 2] + ">>" + s[p..];
    } else if p > 0 {
      assert s == s[..p - 1] + [s[p - 1]] + s[p..];
    }
  }

  /** The split is undefined for no other line. */
  lemma UndefinedExactlyWhenItStartsWithItsOnlyOp(s: string)
    ensures SplitLine(s).Undefined? <==> s != "" && s[0] == '>' && NoOps(s[1..])
  {
    JoinUndoesSplit(s);
    if s != "" && s[0] == '>' && NoOps(s[1..]) {
      AfterLastOpIs(s, 1);
    }
  }

  // ---- words ----

  /** The longest prefix without a space. */
  function Word(s: string): (w: string)
    ensures |w| <= |s| && w == s[..|w|] && ' ' !in w
    ensures |w| < |s| ==> s[|w|] == ' '
  {
    if s == "" || s[0] == ' ' then "" else [s[0]] + Word(s[1..])
  }

  /** The maximal runs without a space. */
  function Words(s: string): seq<string> {
    if s == "" then []
    else if s[0] == ' ' then Words(s[1..])
    else [Word(s)] + Words(s[|Word(s)|..])
  }

  function Blank(n: nat): (s: string)
    ensures |s| == n && forall k :: 0 <= k < n ==> s[k] == ' '
  {
    if n == 0 then "" else " " + Blank(n - 1)
  }

  /** Words laid out with gaps[k] spaces before word k and trailing spaces after the last. */
  function Layout(gaps: seq<nat>, words: seq<string>, trailing: nat): string
    requires |gaps| == |words|
  {
    if words == [] then Blank(trailing)
    else Blank(gaps[0]) + words[0] + Layout(gaps[1..], words[1..], trailing)
  }

  /** Proper words, kept apart. */
  ghost predicate Apart(gaps: seq<nat>, words: seq<string>) {
    && |gaps| == |words|
    && (forall k :: 0 <= k < |words| ==> words[k] != "" && ' ' !in words[k])
    && (forall k :: 1 <= k < |gaps| ==> gaps[k] > 0)
  }

  lemma {:induction false} SkipBlank(n: nat, s: string)
    ensures Words(Blank(n) + s) == Words(s)
  {
    if n == 0 {
      assert Blank(0) + s == s;
    } else {
      assert (Blank(n) + s)[1..] == Blank(n - 1) + s;
      SkipBlank(n - 1, s);
    }
  }

  lemma {:induction false} WordIs(w: string, s: string)
    requires ' ' !in w && (s != "" ==> s[0] == ' ')
    ensures Word(w + s) == w
  {
    if w == "" {
      assert w + s == s;
    } else {
      assert (w + s)[1..] == w[1..] + s;
      WordIs(w[1..], s);
    }
  }

  /** Reading back laid-out words gives the words. */
  lemma {:induction false} WordsUndoLayout(gaps: seq<nat>, words: seq<string>, trailing: nat)
    requires Apart(gaps, words)
    ensures Words(Layout(gaps, words, trailing)) == words
  {
    if words == [] {
      assert Blank(trailing) + "" == Blank(trailing);
      SkipBlank(trailing, "");
    } else {
      var rest := Layout(gaps[1..], words[1..], trailing);
      assert Layout(gaps, words, trailing) == Blank(gaps[0]) + (words[0] + rest);
      SkipBlank(gaps[0], words[0] + rest);
      WordIs(words[0], rest);
      assert (words[0] + rest)[|words[0]|..] == rest;
      WordsUndoLayout(gaps[1..], words[1..], trailing);
    }
  }

  lemma LeadingSpace(gaps: seq<nat>, words: seq<string>, trailing: nat)
    requires Apart(gaps, words) && words != []
    ensures var s := Layout(gaps, words, trailing); s != "" && (s[0] == ' ' <==> gaps[0] > 0)
  {
    assert words[0][0] in words[0];
  }

  /** Every line is such a layout of its words: nothing but spaces is lost. */
  lemma {:induction false} LayoutUndoesWords(s: string) returns (gaps: seq<nat>, trailing: nat)
    ensures Apart(gaps, Words(s)) && Layout(gaps, Words(s), trailing) == s
    decreases |s|
  {
    if s == "" {
      gaps, trailing := [], 0;
    } else if s[0] == ' ' {
      gaps, trailing := LayoutUndoesWords(s[1..]);
      if gaps == [] {
        trailing := trailing + 1;
        assert s == " " + s[1..];
      } else {
        assert s == " " + s[1..];
        gaps := [gaps[0] + 1] + gaps[1..];
      }
    } else {
      var w := Word(s);
      var rest := s[|w|..];
      gaps, trailing := LayoutUndoesWords(rest);
      assert s == w + rest;
      if gaps != [] {
        LeadingSpace(gaps, Words(rest), trailing);
      }
      gaps := [0] + gaps;
    }
  }

  const COLOR := "--color=auto"

  /** The argument vector built from the words. */
  function Argv(words: seq<string>): seq<string>
    requires words != []
  {
    [words[0]] + (if words[0] == "ls" then [COLOR] else []) + words[1..]
  }
}
