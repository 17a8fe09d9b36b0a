/** Text handling of the bootloader driver: cleaning a command's output and looking for error markers. */
module UBootText {
  import opened Bytes

  // ---- Go string functions ----------------------------------------------------------

  predicate At(s: string, i: nat, m: string) {
    i + |m| <= |s| && s[i..i + |m|] == m
  }

  predicate Lacks(s: string, c: char) {
    forall i :: 0 <= i < |s| ==> s[i] != c
  }

  predicate Contains(s: string, m: string) {
    exists i :: 0 <= i <= |s| && At(s, i, m)
  }

  /** Index of the first occurrence of m at or after i, if any. */
  function IndexFrom(s: string, m: string, i: nat): (r: Option<nat>)
    ensures r.Some? ==> i <= r.value && At(s, r.value, m)
    ensures r.Some? ==> forall j: nat :: i <= j < r.value ==> !At(s, j, m)
    ensures r.None? ==> forall j: nat :: i <= j ==> !At(s, j, m)
    decreases |s| + 1 - i
  {
    if i + |m| > |s| then None
    else if At(s, i, m) then Some(i)
    else IndexFrom(s, m, i + 1)
  }

  function LowerChar(c: char): char {
    if 'A' <= c <= 'Z' then (c as int + 32) as char else c
  }

  function Lower(s: string): string {
    seq(|s|, i requires 0 <= i < |s| => LowerChar(s[i]))
  }

  function TrimLeftEol(s: string): string {
    if s != "" && (s[0] == '\r' || s[0] == '\n') then TrimLeftEol(s[1..]) else s
  }

  predicate IsPad(c: char) {
    c == '\r' || c == ' ' || c == '\t'
  }

  function TrimRightPad(s: string): string {
    if s != "" && IsPad(s[|s| - 1]) then TrimRightPad(s[..|s| - 1]) else s
  }

  /** strings.Split(s, "\n"): always at least one piece. */
  function Split(s: string): (r: seq<string>)
    ensures |r| >= 1
  {
    if s == "" then [""]
    else
      var r := Split(s[1..]);
      if s[0] == '\n' then [""] + r else [[s[0]] + r[0]] + r[1..]
  }

  /** strings.Join(lines, "\n"). */
  function Join(lines: seq<string>): string {
    if lines == [] then "" else if |lines| == 1 then lines[0] else lines[0] + "\n" + Join(lines[1..])
  }

  // ---- Cleaning a command's output ----------------------------------------------------------

  /** What follows the first echo of the command. */
  function AfterEcho(raw: string, command: string): string {
    match IndexFrom(raw, command, 0)
    case None => raw
    case Some(i) => raw[i + |command|..]
  }

  /** A line that holds nothing but a prompt or padding. */
  predicate Droppable(line: string) {
    TrimRightPad(line) == "=>" || TrimRightPad(line) == ""
  }

  function DropTail(lines: seq<string>): seq<string> {
    if lines != [] && Droppable(lines[|lines| - 1]) then DropTail(lines[..|lines| - 1]) else lines
  }

  function Clean(raw: string, command: string): string {
    Join(DropTail(Split(TrimLeftEol(AfterEcho(raw, command)))))
  }

  /** The loop of cleanCommandOutput. */
  method CleanCommandOutput(raw: string, command: string) returns (out: string)
    ensures out == Clean(raw, command)
  {
    var s := raw;
    var i := IndexFrom(s, command, 0);
    if i.Some? {
      s := s[i.value + |command|..];
    }
    s := TrimLeftEol(s);
    var lines := Split(s);
    while |lines| > 0
      invariant DropTail(lines) == DropTail(Split(s))
      decreases |lines|
    {
      var last := TrimRightPad(lines[|lines| - 1]);
      if last == "=>" || last == "" {
        lines := lines[..|lines| - 1];
        continue;
      }
      break;
    }
    out := Join(lines);
  }

  // ---- Markers survive cleaning ------------------------------------------------------------------

  /** The text mentions the marker, in any case. */
  predicate Mentions(s: string, marker: string) {
    Contains(Lower(s), Lower(marker))
  }

  /** A marker within one line that has a character no prompt line has. */
  predicate Solid(marker: string) {
    && Lacks(marker, '\n') && Lacks(marker, '\r')
    && (exists i :: 0 <= i < |marker| && marker[i] != '=' && marker[i] != '>' && !IsPad(marker[i]))
  }

  lemma LowerAppend(a: string, b: string)
    ensures Lower(a + b) == Lower(a) + Lower(b)
  {
  }

  lemma LowerKeepsOut(c: char, m: string)
    requires Lacks(m, c) && !('a' <= c <= 'z')
    ensures Lacks(Lower(m), c)
  {
  }

  /** An occurrence within a stretch of the text is an occurrence in the text. */
  lemma AtShift(whole: string, k: nat, part: string, i: nat, m: string)
    requires k + |part| <= |whole| && whole[k..k + |part|] == part
    requires i + |m| <= |part|
    ensures At(part, i, m) <==> At(whole, k + i, m)
  {
    var a, b := whole[k + i..k + i + |m|], part[i..i + |m|];
    forall j | 0 <= j < |m|
      ensures a[j] == b[j]
    {
      assert a[j] == whole[k + (i + j)];
      assert b[j] == part[i + j] == whole[k..k + |part|][i + j];
    }
    assert a == b;
  }

  /** An occurrence that would cover position k would hold the character found there. */
  lemma AtCovers(s: string, i: nat, m: string, k: nat)
    requires At(s, i, m) && i <= k < i + |m|
    ensures k < |s| && s[k] == m[k - i]
  {
    assert s[i..i + |m|][k - i] == s[k];
  }

  lemma ContainsPart(whole: string, k: nat, part: string, m: string)
    requires k + |part| <= |whole| && whole[k..k + |part|] == part
    requires Contains(part, m)
    ensures Contains(whole, m)
  {
    var i :| 0 <= i <= |part| && At(part, i, m);
    AtShift(whole, k, part, i, m);
  }

  /** An occurrence that avoids position k lies before it or after it. */
  lemma BesideGap(s: string, k: nat, i: nat, m: string)
    requires At(s, i, m) && m != "" && k < |s| && Lacks(m, s[k])
    ensures Contains(s[..k], m) || Contains(s[k + 1..], m)
  {
    if i + |m| <= k {
      AtShift(s, 0, s[..k], i, m);
      assert At(s[..k], i, m);
    } else if i > k {
      AtShift(s, k + 1, s[k + 1..], i - k - 1, m);
      assert At(s[k + 1..], i - k - 1, m);
    } else {
      AtCovers(s, i, m, k);
      assert false;
    }
  }

  /** A marker without a line feed lies on one side of it. */
  lemma ContainsAround(a: string, b: string, m: string)
    requires Lacks(m, '\n') && m != ""
    ensures Contains(a + "\n" + b, m) <==> Contains(a, m) || Contains(b, m)
  {
    var s := a + "\n" + b;
    assert s[0..|a|] == s[..|a|] == a;
    assert s[|a| + 1..] == s[|a| + 1..|a| + 1 + |b|] == b;
    if Contains(s, m) {
      var i :| 0 <= i <= |s| && At(s, i, m);
      BesideGap(s, |a|, i, m);
    }
    if Contains(a, m) {
      ContainsPart(s, 0, a, m);
    }
    if Contains(b, m) {
      ContainsPart(s, |a| + 1, b, m);
    }
  }

  lemma MentionsAround(a: string, b: string, marker: string)
    requires Solid(marker)
    ensures Mentions(a + "\n" + b, marker) <==> Mentions(a, marker) || Mentions(b, marker)
  {
    LowerAppend(a, "\n" + b);
    LowerAppend("\n", b);
    assert a + "\n" + b == a + ("\n" + b);
    assert Lower("\n") == "\n";
    assert Lower(a) + ("\n" + Lower(b)) == Lower(a) + "\n" + Lower(b);
    LowerKeepsOut('\n', marker);
    ContainsAround(Lower(a), Lower(b), Lower(marker));
  }

  predicate AnyMentions(lines: seq<string>, marker: string) {
    exists k :: 0 <= k < |lines| && Mentions(lines[k], marker)
  }

  lemma {:induction false} JoinMentions(lines: seq<string>, marker: string)
    requires Solid(marker)
    ensures Mentions(Join(lines), marker) <==> AnyMentions(lines, marker)
    decreases |lines|
  {
    if |lines| == 0 {
      NothingInEmpty(marker);
    } else if |lines| > 1 {
      MentionsAround(lines[0], Join(lines[1..]), marker);
      JoinMentions(lines[1..], marker);
      assert forall k :: 1 <= k < |lines| ==> lines[k] == lines[1..][k - 1];
    }
  }

  lemma NothingInEmpty(marker: string)
    requires marker != ""
    ensures !Mentions("", marker)
  {
  }

  lemma {:induction false} JoinSplit(s: string)
    ensures Join(Split(s)) == s
    decreases |s|
  {
    if s != "" {
      JoinSplit(s[1..]);
      var r := Split(s[1..]);
      assert s == [s[0]] + s[1..];
      if s[0] == '\n' {
        assert ([""] + r)[1..] == r;
        assert "" + "\n" + s[1..] == s;
      } else if |r| > 1 {
        assert ([[s[0]] + r[0]] + r[1..])[1..] == r[1..];
        assert [s[0]] + r[0] + "\n" + Join(r[1..]) == [s[0]] + (r[0] + "\n" + Join(r[1..]));
      } else {
        assert [[s[0]] + r[0]] + r[1..] == [[s[0]] + r[0]];
      }
    }
  }

  lemma {:induction false} TrimRightPadSplits(s: string)
    ensures TrimRightPad(s) <= s && forall i :: |TrimRightPad(s)| <= i < |s| ==> IsPad(s[i])
    decreases |s|
  {
    if s != "" && IsPad(s[|s| - 1]) {
      TrimRightPadSplits(s[..|s| - 1]);
    }
  }

  lemma LowerTellsApart(x: char, y: char)
    requires x == '=' || x == '>' || IsPad(x)
    requires y != '=' && y != '>' && !IsPad(y)
    ensures LowerChar(x) != LowerChar(y)
  {
  }

  /** Text of prompt characters and padding mentions no solid marker. */
  lemma PromptCharsAreSilent(text: string, marker: string)
    requires Solid(marker) && forall k :: 0 <= k < |text| ==> text[k] == '=' || text[k] == '>' || IsPad(text[k])
    ensures !Mentions(text, marker)
  {
    var c :| 0 <= c < |marker| && marker[c] != '=' && marker[c] != '>' && !IsPad(marker[c]);
    var low, m := Lower(text), Lower(marker);
    forall k | 0 <= k < |text|
      ensures low[k] != m[c]
    {
      LowerTellsApart(text[k], marker[c]);
    }
    forall i | 0 <= i <= |low|
      ensures !At(low, i, m)
    {
      if At(low, i, m) {
        AtCovers(low, i, m, i + c);
        assert false;
      }
    }
  }

  /** A prompt line mentions no solid marker. */
  lemma DroppableIsSilent(line: string, marker: string)
    requires Droppable(line) && Solid(marker)
    ensures !Mentions(line, marker)
  {
    TrimRightPadSplits(line);
    var t := TrimRightPad(line);
    forall k | 0 <= k < |line|
      ensures line[k] == '=' || line[k] == '>' || IsPad(line[k])
    {
      assert k < |t| ==> line[k] == t[k];
    }
    PromptCharsAreSilent(line, marker);
  }

  lemma {:induction false} DropTailMentions(lines: seq<string>, marker: string)
    requires Solid(marker)
    ensures AnyMentions(DropTail(lines), marker) <==> AnyMentions(lines, marker)
    decreases |lines|
  {
    if lines != [] && Droppable(lines[|lines| - 1]) {
      DroppableIsSilent(lines[|lines| - 1], marker);
      DropTailMentions(lines[..|lines| - 1], marker);
    }
  }

  lemma ContainsAfterEol(c: char, s: string, m: string)
    requires m != "" && Lacks(m, c)
    ensures Contains([c] + s, m) <==> Contains(s, m)
  {
    var t := [c] + s;
    assert t[1..] == t[1..1 + |s|] == s && t[..0] == "";
    if Contains(t, m) {
      var i :| 0 <= i <= |t| && At(t, i, m);
      BesideGap(t, 0, i, m);
    }
    if Contains(s, m) {
      ContainsPart(t, 1, s, m);
    }
  }

  lemma {:induction false} TrimLeftMentions(s: string, marker: string)
    requires Solid(marker)
    ensures Mentions(TrimLeftEol(s), marker) <==> Mentions(s, marker)
    decreases |s|
  {
    if s != "" && (s[0] == '\r' || s[0] == '\n') {
      TrimLeftMentions(s[1..], marker);
      assert s == [s[0]] + s[1..];
      LowerAppend([s[0]], s[1..]);
      assert Lower([s[0]]) == [s[0]];
      LowerKeepsOut(s[0], marker);
      ContainsAfterEol(s[0], Lower(s[1..]), Lower(marker));
    }
  }

  /** Cleaning hides no error marker that came after the command's echo, and adds none. */
  lemma CleaningKeepsMarkers(raw: string, command: string, marker: string)
    requires Solid(marker)
    ensures Mentions(Clean(raw, command), marker) <==> Mentions(AfterEcho(raw, command), marker)
  {
    var s := TrimLeftEol(AfterEcho(raw, command));
    TrimLeftMentions(AfterEcho(raw, command), marker);
    JoinMentions(DropTail(Split(s)), marker);
    DropTailMentions(Split(s), marker);
    JoinMentions(Split(s), marker);
    JoinSplit(s);
  }

  // ---- What cleaning leaves ----------------------------------------------------------------------

  /** Blanks only, or a prompt and blanks. */
  predicate Idle(line: string) {
    || (forall i :: 0 <= i < |line| ==> line[i] in "\r \t")
    || ("=>" <= line && forall i :: 2 <= i < |line| ==> line[i] in "\r \t")
  }

  lemma {:induction false} DroppableIsIdle(line: string)
    ensures Droppable(line) <==> Idle(line)
    decreases |line|
  {
    if line != "" {
      var n := |line| - 1;
      var rest := line[..n];
      if IsPad(line[n]) {
        DroppableIsIdle(rest);
        assert forall i :: 0 <= i < n ==> rest[i] == line[i];
        assert "=>" <= line <==> "=>" <= rest;
      } else {
        assert TrimRightPad(line) == line;
        assert line[n] == line[|line| - 1];
      }
    }
  }

  lemma {:induction false} LeftEol(s: string) returns (eol: string)
    ensures s == eol + TrimLeftEol(s) && forall i :: 0 <= i < |eol| ==> eol[i] == '\r' || eol[i] == '\n'
    ensures var t := TrimLeftEol(s); t != "" ==> t[0] != '\r' && t[0] != '\n'
    decreases |s|
  {
    eol := "";
    if s != "" && (s[0] == '\r' || s[0] == '\n') {
      var more := LeftEol(s[1..]);
      eol := [s[0]] + more;
    }
  }

  lemma {:induction false} SplitLines(s: string)
    ensures forall i :: 0 <= i < |Split(s)| ==> Lacks(Split(s)[i], '\n')
    decreases |s|
  {
    if s != "" {
      SplitLines(s[1..]);
    }
  }

  lemma {:induction false} TailDropped(lines: seq<string>) returns (drop: seq<string>)
    ensures lines == DropTail(lines) + drop && forall i :: 0 <= i < |drop| ==> Idle(drop[i])
    ensures DropTail(lines) != [] ==> !Idle(DropTail(lines)[|DropTail(lines)| - 1])
    decreases |lines|
  {
    drop := [];
    if lines != [] {
      var n := |lines| - 1;
      DroppableIsIdle(lines[n]);
      if Droppable(lines[n]) {
        var more := TailDropped(lines[..n]);
        drop := more + [lines[n]];
      }
    }
  }

  /** The text is what precedes and contains the first echo, if there is one, and then what follows. */
  ghost predicate FollowsEcho(raw: string, command: string, after: string) {
    || (after == raw && forall j: nat :: !At(raw, j, command))
    || (exists i: nat :: && At(raw, i, command) && raw[i + |command|..] == after
                         && forall j: nat :: j < i ==> !At(raw, j, command))
  }

  /**
   Cleaning leaves the lines after the first echo of the command and the line ends that follow it, up to the last
   that is not a prompt or blank.
   */
  lemma CleanExactly(raw: string, command: string) returns (eol: string, keep: seq<string>, drop: seq<string>)
    ensures FollowsEcho(raw, command, eol + Join(keep + drop)) && Clean(raw, command) == Join(keep)
    ensures forall i :: 0 <= i < |eol| ==> eol[i] == '\r' || eol[i] == '\n'
    ensures var t := Join(keep + drop); t != "" ==> t[0] != '\r' && t[0] != '\n'
    ensures forall i :: 0 <= i < |keep + drop| ==> Lacks((keep + drop)[i], '\n')
    ensures forall i :: 0 <= i < |drop| ==> Idle(drop[i])
    ensures keep != [] ==> !Idle(keep[|keep| - 1])
  {
    var after := AfterEcho(raw, command);
    var t := TrimLeftEol(after);
    eol := LeftEol(after);
    keep := DropTail(Split(t));
    drop := TailDropped(Split(t));
    SplitLines(t);
    JoinSplit(t);
    EchoFollowed(raw, command);
  }

  lemma EchoFollowed(raw: string, command: string)
    ensures FollowsEcho(raw, command, AfterEcho(raw, command))
  {
    var i := IndexFrom(raw, command, 0);
    assert i.Some? ==> At(raw, i.value, command);
  }
}
