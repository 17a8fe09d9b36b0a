/**
 Quoting an argument for a POSIX shell, against a reading of section 2.2 of the POSIX.1-2017 Shell
 Command Language: a backslash outside quotes preserves the next character (2.2.1), and single quotes
 preserve every character up to the next single quote (2.2.2).
 */
module ShellQuote {
  import opened Bytes

  const QUOTE: byte := 39
  const BACKSLASH: byte := 92
  const SPACE: byte := 32
  const TAB: byte := 9
  const NEWLINE: byte := 10

  // ---- The quoter ------------------------------------------------------------------

  /** strings.ReplaceAll of each single quote by: close the quotes, an escaped quote, open them again. */
  function Escape(s: seq<byte>): seq<byte> {
    if s == [] then []
    else (if s[0] == QUOTE then [QUOTE, BACKSLASH, QUOTE, QUOTE] else [s[0]]) + Escape(s[1..])
  }

  function Quote(s: seq<byte>): seq<byte> {
    [QUOTE] + Escape(s) + [QUOTE]
  }

  // ---- The shell's word splitting ----------------------------------------------------

  predicate IsBlank(b: byte) {
    b == SPACE || b == TAB
  }

  /** Characters that mean something else to a shell outside quotes: the parser below gives up on them. */
  predicate IsSpecial(b: byte) {
    b in [0, NEWLINE, 33, 34, 35, 36, 38, 40, 41, 42, 59, 60, 61, 62, 63, 91, 93, 96, 123, 124, 125, 126]
  }

  /** Reading one line: words finished, the word begun (None between words), whether inside quotes. */
  datatype Reader = Reader(words: seq<seq<byte>>, word: Option<seq<byte>>, quoted: bool)

  const FRESH: Reader := Reader([], None, false)

  function Begun(r: Reader): seq<byte> {
    match r.word
    case None => []
    case Some(w) => w
  }

  function Finish(r: Reader): Reader {
    match r.word
    case None => r
    case Some(w) => Reader(r.words + [w], None, false)
  }

  /** The words of a simple command line, or None for one this reading does not cover. */
  function Read(r: Reader, s: seq<byte>): Option<seq<seq<byte>>>
    decreases |s|
  {
    if s == [] then
      if r.quoted then None else Some(Finish(r).words)
    else if s[0] == 0 then None
    else if r.quoted then
      Read(if s[0] == QUOTE then r.(quoted := false) else r.(word := Some(Begun(r) + [s[0]])), s[1..])
    else if s[0] == QUOTE then Read(r.(word := Some(Begun(r)), quoted := true), s[1..])
    else if s[0] == BACKSLASH then
      if |s| == 1 || s[1] == 0 then None
      else if s[1] == NEWLINE then Read(r, s[2..])
      else Read(r.(word := Some(Begun(r) + [s[1]])), s[2..])
    else if IsBlank(s[0]) then Read(Finish(r), s[1..])
    else if IsSpecial(s[0]) then None
    else Read(r.(word := Some(Begun(r) + [s[0]])), s[1..])
  }

  function Words(s: seq<byte>): Option<seq<seq<byte>>> {
    Read(FRESH, s)
  }

  predicate NulFree(s: seq<byte>) {
    forall j :: 0 <= j < |s| ==> s[j] != 0
  }

  // ---- Round trip ----------------------------------------------------------------------

  /** Inside the quotes, the escaped text adds exactly the original to the word. */
  lemma {:induction false} ReadEscaped(words: seq<seq<byte>>, w: seq<byte>, s: seq<byte>, rest: seq<byte>)
    ensures NulFree(s) ==>
              Read(Reader(words, Some(w), true), Escape(s) + rest) == Read(Reader(words, Some(w + s), true), rest)
    ensures !NulFree(s) ==> Read(Reader(words, Some(w), true), Escape(s) + rest) == None
    decreases |s|
  {
    if s == [] {
      assert Escape(s) + rest == rest && w + s == w;
    } else {
      var tail := Escape(s[1..]) + rest;
      ReadEscaped(words, w + [s[0]], s[1..], rest);
      assert w + [s[0]] + s[1..] == w + s;
      assert s == [s[0]] + s[1..];
      if s[0] == QUOTE {
        ReadQuote(words, w, tail);
        assert Escape(s) + rest == [QUOTE, BACKSLASH, QUOTE, QUOTE] + tail;
      } else {
        assert Escape(s) + rest == [s[0]] + tail;
        assert (Escape(s) + rest)[1..] == tail;
      }
    }
  }

  /** Close, escaped quote, open: a single quote in the word and back inside the quotes. */
  lemma ReadQuote(words: seq<seq<byte>>, w: seq<byte>, tail: seq<byte>)
    ensures Read(Reader(words, Some(w), true), [QUOTE, BACKSLASH, QUOTE, QUOTE] + tail)
            == Read(Reader(words, Some(w + [QUOTE]), true), tail)
  {
    var s := [QUOTE, BACKSLASH, QUOTE, QUOTE] + tail;
    var closed := [BACKSLASH, QUOTE, QUOTE] + tail;
    assert s[1..] == closed && closed[2..] == [QUOTE] + tail && ([QUOTE] + tail)[1..] == tail;
    assert Read(Reader(words, Some(w), true), s) == Read(Reader(words, Some(w), false), closed);
    assert closed[0] == BACKSLASH && closed[1] == QUOTE;
    assert Read(Reader(words, Some(w), false), closed)
        == Read(Reader(words, Some(w + [QUOTE]), false), [QUOTE] + tail);
  }

  /** A quoted argument, at the end of a line, is read as one word, which is the argument. */
  lemma ReadQuoted(words: seq<seq<byte>>, s: seq<byte>)
    ensures Read(Reader(words, None, false), Quote(s)) == if NulFree(s) then Some(words + [s]) else None
  {
    assert Quote(s)[1..] == Escape(s) + [QUOTE];
    ReadEscaped(words, [], s, [QUOTE]);
    assert [] + s == s;
    assert [QUOTE][1..] == [];
  }

  /** The shell reads a quoted string back as exactly one word equal to it, exactly when it has no NUL. */
  lemma QuoteRoundTrip(s: seq<byte>)
    ensures Words(Quote(s)) == Some([s]) <==> NulFree(s)
  {
    ReadQuoted([], s);
    assert [] + [s] == [s];
  }

  // ---- The commands sent to the target ------------------------------------------------------

  const SCP: seq<byte> := [115, 99, 112]
  const DASHES: seq<byte> := [45, 45]

  /** "scp -t -- " or "scp -f -- " before the quoted path. */
  function Command(flag: byte, path: seq<byte>): seq<byte> {
    SCP + [SPACE] + [45, flag] + [SPACE] + DASHES + [SPACE] + Quote(path)
  }

  predicate IsPlain(w: seq<byte>) {
    forall j :: 0 <= j < |w| ==>
      w[j] != QUOTE && w[j] != BACKSLASH && !IsBlank(w[j]) && !IsSpecial(w[j]) && w[j] != 0
  }

  lemma {:induction false} ReadPlain(words: seq<seq<byte>>, word: Option<seq<byte>>, w: seq<byte>, rest: seq<byte>)
    requires IsPlain(w) && w != []
    ensures Read(Reader(words, word, false), w + [SPACE] + rest)
            == Read(Reader(words + [Begun(Reader(words, word, false)) + w], None, false), rest)
    decreases |w|
  {
    var r := Reader(words, word, false);
    var s := w + [SPACE] + rest;
    var next := Reader(words, Some(Begun(r) + [w[0]]), false);
    assert Read(r, s) == Read(next, s[1..]);
    if |w| == 1 {
      assert s[1..] == [SPACE] + rest;
      assert ([SPACE] + rest)[1..] == rest;
      assert Begun(r) + [w[0]] == Begun(r) + w;
    } else {
      assert s[1..] == w[1..] + [SPACE] + rest;
      ReadPlain(words, Some(Begun(r) + [w[0]]), w[1..], rest);
      assert Begun(r) + [w[0]] + w[1..] == Begun(r) + w;
    }
  }

  lemma ReadWord(words: seq<seq<byte>>, w: seq<byte>, rest: seq<byte>)
    requires IsPlain(w) && w != []
    ensures Read(Reader(words, None, false), w + [SPACE] + rest) == Read(Reader(words + [w], None, false), rest)
  {
    ReadPlain(words, None, w, rest);
    assert [] + w == w;
  }

  lemma SpacesRegroup(a: seq<byte>, b: seq<byte>, c: seq<byte>, d: seq<byte>)
    ensures a + [SPACE] + b + [SPACE] + c + [SPACE] + d == a + [SPACE] + (b + [SPACE] + (c + [SPACE] + d))
  {
  }

  /** Three plain words and a quoted one. */
  lemma QuotedOperand(a: seq<byte>, b: seq<byte>, c: seq<byte>, path: seq<byte>)
    requires IsPlain(a) && IsPlain(b) && IsPlain(c) && a != [] && b != [] && c != []
    ensures Words(a + [SPACE] + b + [SPACE] + c + [SPACE] + Quote(path))
            == if NulFree(path) then Some([a, b, c, path]) else None
  {
    var r2 := c + [SPACE] + Quote(path);
    var r1 := b + [SPACE] + r2;
    SpacesRegroup(a, b, c, Quote(path));
    var w1, w2, w3 := [] + [a], [] + [a] + [b], [] + [a] + [b] + [c];
    ReadWord([], a, r1);
    ReadWord(w1, b, r2);
    ReadWord(w2, c, Quote(path));
    ReadQuoted(w3, path);
    assert w3 + [path] == [a, b, c, path];
  }

  lemma PlainWords(flag: byte)
    requires flag == 116 || flag == 102
    ensures IsPlain(SCP) && IsPlain([45, flag]) && IsPlain(DASHES)
  {
    PlainByte(flag);
    PlainByte(45);
    PlainScp();
  }

  lemma PlainByte(b: byte)
    requires b == 45 || b == 116 || b == 102
    ensures b != QUOTE && b != BACKSLASH && !IsBlank(b) && !IsSpecial(b) && b != 0
  {
  }

  lemma PlainScp()
    ensures IsPlain(SCP)
  {
  }

  /** The remote scp gets the path as its one operand, whatever characters it holds. */
  lemma CommandWords(flag: byte, path: seq<byte>)
    requires (flag == 116 || flag == 102) && NulFree(path)
    ensures Words(Command(flag, path)) == Some([SCP, [45, flag], DASHES, path])
  {
    PlainWords(flag);
    QuotedOperand(SCP, [45, flag], DASHES, path);
  }
}
