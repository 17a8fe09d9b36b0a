/** The file record of classic scp, printed by the sender and parsed by the receiver. */
module ScpRecord {
  import opened Bytes
  import opened Digits

  const LF: byte := 10
  const CR: byte := 13
  const SP: byte := 32
  const SLASH: byte := 47
  const CHAR_C: byte := 67
  const MODE_LIMIT: nat := 0x1_0000_0000
  const SIZE_HALF: nat := 0x8000_0000_0000_0000
  const PERM_COUNT: nat := 512  // permission bits: the low nine

  datatype Meta = Meta(size: int, perm: nat, name: seq<byte>)

  // ---- Go string functions ------------------------------------------------------

  predicate IsLineEnd(b: byte) {
    b == LF || b == CR
  }

  /** strings.TrimRight(s, "\r\n"). */
  function TrimLineEnd(s: seq<byte>): seq<byte> {
    if s != [] && IsLineEnd(s[|s| - 1]) then TrimLineEnd(s[..|s| - 1]) else s
  }

  /** Index of the first occurrence of b, or the length. */
  function IndexOf(s: seq<byte>, b: byte): (i: nat)
    ensures i <= |s|
    ensures i < |s| ==> s[i] == b
    ensures forall j :: 0 <= j < i ==> s[j] != b
  {
    if s == [] || s[0] == b then 0 else 1 + IndexOf(s[1..], b)
  }

  lemma IndexOfIs(s: seq<byte>, b: byte, i: nat)
    requires i < |s| && s[i] == b && forall j :: 0 <= j < i ==> s[j] != b
    ensures IndexOf(s, b) == i
  {
  }

  /** strings.SplitN(s, " ", n) for n >= 1: the last field keeps its spaces. */
  function SplitN(s: seq<byte>, n: nat): seq<seq<byte>>
    requires n >= 1
    decreases n
  {
    var i := IndexOf(s, SP);
    if n == 1 || i == |s| then [s] else [s[..i]] + SplitN(s[i + 1..], n - 1)
  }

  // ---- The record ------------------------------------------------------------------

  /** Sprintf("C%04o %d %s\n", perm, size, name). */
  function Format(perm: nat, size: nat, name: seq<byte>): seq<byte> {
    [CHAR_C] + Pad(4, Print(8, perm)) + [SP] + Print(10, size) + [SP] + name + [LF]
  }

  function Parse(line: seq<byte>): Option<Meta> {
    var fields := SplitN(TrimLineEnd(line), 3);
    if |fields| != 3 || |fields[0]| < 2 || fields[0][0] != CHAR_C then None
    else
      match ParseUint(fields[0][1..], 8, MODE_LIMIT)
      case None => None
      case Some(mode) =>
        match ParseInt(fields[1], SIZE_HALF)
        case None => None
        case Some(size) => Some(Meta(size, mode % PERM_COUNT, fields[2]))
  }

  // ---- Round trip --------------------------------------------------------------------

  lemma NoSpaceInDigits(base: nat, s: seq<byte>)
    requires base <= 16 && AllDigits(base, s)
    ensures forall j :: 0 <= j < |s| ==> s[j] != SP && !IsLineEnd(s[j])
  {
    forall j | 0 <= j < |s|
      ensures s[j] != SP && !IsLineEnd(s[j])
    {
      assert DigitValue(s[j]) < base;
    }
  }

  /** A field without spaces is split off at the space that follows it. */
  lemma SplitOff(a: seq<byte>, rest: seq<byte>, n: nat)
    requires n >= 2 && forall j :: 0 <= j < |a| ==> a[j] != SP
    ensures SplitN(a + [SP] + rest, n) == [a] + SplitN(rest, n - 1)
  {
    var s := a + [SP] + rest;
    IndexOfIs(s, SP, |a|);
    assert s[..|a|] == a && s[|a| + 1..] == rest;
  }

  lemma {:induction false} TrimStops(a: seq<byte>, b: seq<byte>)
    requires a != [] && !IsLineEnd(a[|a| - 1])
    ensures TrimLineEnd(a + b) == a + TrimLineEnd(b)
    decreases |b|
  {
    if b == [] {
      assert a + b == a;
    } else {
      assert (a + b)[..|a + b| - 1] == a + b[..|b| - 1];
      if IsLineEnd(b[|b| - 1]) {
        TrimStops(a, b[..|b| - 1]);
      }
    }
  }

  lemma {:induction false} TrimOnceMore(s: seq<byte>, b: byte)
    requires IsLineEnd(b)
    ensures TrimLineEnd(s + [b]) == TrimLineEnd(s)
  {
    assert (s + [b])[..|s|] == s;
  }

  /** The three fields, before the name is trimmed. */
  function Stem(perm: nat, size: nat): seq<byte> {
    [CHAR_C] + Pad(4, Print(8, perm)) + [SP] + Print(10, size) + [SP]
  }

  lemma TrimmedRecord(perm: nat, size: nat, name: seq<byte>)
    ensures TrimLineEnd(Format(perm, size, name)) == Stem(perm, size) + TrimLineEnd(name)
  {
    assert Format(perm, size, name) == Stem(perm, size) + (name + [LF]);
    TrimStops(Stem(perm, size), name + [LF]);
    TrimOnceMore(name, LF);
  }

  lemma RecordFields(perm: nat, size: nat, rest: seq<byte>)
    ensures SplitN(Stem(perm, size) + rest, 3)
            == [[CHAR_C] + Pad(4, Print(8, perm)), Print(10, size), rest]
  {
    var a, b := [CHAR_C] + Pad(4, Print(8, perm)), Print(10, size);
    PrintedDigits(8, perm);
    PrintedDigits(10, size);
    LeadingZeros(8, Max(0, 4 - |Print(8, perm)|), Print(8, perm));
    NoSpaceInDigits(8, Pad(4, Print(8, perm)));
    NoSpaceInDigits(10, b);
    assert Stem(perm, size) + rest == a + [SP] + (b + [SP] + rest);
    SplitOff(a, b + [SP] + rest, 3);
    SplitOff(b, rest, 2);
  }

  lemma ParseOfFields(line: seq<byte>, a: seq<byte>, b: seq<byte>, c: seq<byte>, mode: nat, size: int)
    requires SplitN(TrimLineEnd(line), 3) == [a, b, c]
    requires |a| >= 2 && a[0] == CHAR_C
    requires ParseUint(a[1..], 8, MODE_LIMIT) == Some(mode) && ParseInt(b, SIZE_HALF) == Some(size)
    ensures Parse(line) == Some(Meta(size, mode % PERM_COUNT, c))
  {
  }

  function ModeField(perm: nat): seq<byte> {
    [CHAR_C] + Pad(4, Print(8, perm))
  }

  lemma ModeFieldParses(perm: nat)
    requires perm < PERM_COUNT
    ensures |ModeField(perm)| >= 2 && ModeField(perm)[0] == CHAR_C
    ensures ParseUint(ModeField(perm)[1..], 8, MODE_LIMIT) == Some(perm) && perm % PERM_COUNT == perm
  {
    assert ModeField(perm)[1..] == Pad(4, Print(8, perm));
    ParsePrinted(8, 4, perm, MODE_LIMIT);
  }

  lemma RecordSplits(perm: nat, size: nat, name: seq<byte>)
    ensures SplitN(TrimLineEnd(Format(perm, size, name)), 3)
            == [ModeField(perm), Print(10, size), TrimLineEnd(name)]
  {
    TrimmedRecord(perm, size, name);
    RecordFields(perm, size, TrimLineEnd(name));
  }

  /** Parsing a printed record gives back the permissions and size, and the name without trailing line ends. */
  lemma {:induction false} ParseFormat(perm: nat, size: nat, name: seq<byte>)
    requires perm < PERM_COUNT && size < SIZE_HALF
    ensures Parse(Format(perm, size, name)) == Some(Meta(size, perm, TrimLineEnd(name)))
  {
    RecordSplits(perm, size, name);
    ModeFieldParses(perm);
    ParseIntPrinted(size, SIZE_HALF);
    ParseOfFields(Format(perm, size, name), ModeField(perm), Print(10, size), TrimLineEnd(name), perm, size);
  }

  /** The round trip is exact precisely for names that do not end in a line end. */
  lemma RoundTripExactly(perm: nat, size: nat, name: seq<byte>)
    requires perm < PERM_COUNT && size < SIZE_HALF
    ensures Parse(Format(perm, size, name)) == Some(Meta(size, perm, name))
            <==> (name == [] || !IsLineEnd(name[|name| - 1]))
  {
    ParseFormat(perm, size, name);
    if name != [] && IsLineEnd(name[|name| - 1]) {
      TrimShortens(name[..|name| - 1]);
    }
  }

  lemma {:induction false} TrimShortens(s: seq<byte>)
    ensures |TrimLineEnd(s)| <= |s|
    decreases |s|
  {
    if s != [] && IsLineEnd(s[|s| - 1]) {
      TrimShortens(s[..|s| - 1]);
    }
  }

  /** A line has one line feed, at its end. */
  predicate IsLine(line: seq<byte>) {
    line != [] && line[|line| - 1] == LF && forall j :: 0 <= j < |line| - 1 ==> line[j] != LF
  }

  /** Names that survive the trip as one control line. */
  predicate CleanName(name: seq<byte>) {
    (forall j :: 0 <= j < |name| ==> name[j] != LF) && (name == [] || name[|name| - 1] != CR)
  }

  lemma RecordIsLine(perm: nat, size: nat, name: seq<byte>)
    requires forall j :: 0 <= j < |name| ==> name[j] != LF
    ensures IsLine(Format(perm, size, name))
  {
    PrintedDigits(8, perm);
    PrintedDigits(10, size);
    LeadingZeros(8, Max(0, 4 - |Print(8, perm)|), Print(8, perm));
    NoSpaceInDigits(8, Pad(4, Print(8, perm)));
    NoSpaceInDigits(10, Print(10, size));
  }

  // ---- Base names ----------------------------------------------------------------------

  const FILE: seq<byte> := [102, 105, 108, 101]

  function BaseName(p: seq<byte>): seq<byte> {
    var base := AfterLast(TrimTrailing(p, SLASH), SLASH);
    if base == [] then FILE else base
  }

  predicate NoSlash(s: seq<byte>) {
    forall j :: 0 <= j < |s| ==> s[j] != SLASH
  }

  predicate AllSlashes(s: seq<byte>) {
    forall j :: 0 <= j < |s| ==> s[j] == SLASH
  }

  lemma {:induction false} TrimSlashesSplits(p: seq<byte>)
    ensures var t := TrimTrailing(p, SLASH);
            && t <= p && AllSlashes(p[|t|..]) && (t != [] ==> t[|t| - 1] != SLASH)
    decreases |p|
  {
    if p != [] && p[|p| - 1] == SLASH {
      var q := p[..|p| - 1];
      TrimSlashesSplits(q);
      assert p[|TrimTrailing(p, SLASH)|..] == q[|TrimTrailing(p, SLASH)|..] + [SLASH];
    }
  }

  /** r is what follows the last slash of p. */
  ghost predicate FollowsSlash(r: seq<byte>, p: seq<byte>) {
    NoSlash(r) && IsSuffix(r, p) && (|r| == |p| || p[|p| - |r| - 1] == SLASH)
  }

  lemma ExtendTail(r: seq<byte>, p: seq<byte>, b: byte)
    requires FollowsSlash(r, p) && b != SLASH
    ensures FollowsSlash(r + [b], p + [b])
  {
  }

  lemma {:induction false} AfterSlashSplits(p: seq<byte>)
    ensures FollowsSlash(AfterLast(p, SLASH), p)
    decreases |p|
  {
    if p != [] && p[|p| - 1] != SLASH {
      var q, b := p[..|p| - 1], p[|p| - 1];
      AfterSlashSplits(q);
      ExtendTail(AfterLast(q, SLASH), q, b);
      assert p == q + [b];
    }
  }

  /** Where a base name sits in its path: after a slash or the start, before nothing but slashes. */
  predicate IsLastComponent(p: seq<byte>, base: seq<byte>, i: nat, k: nat) {
    && i < k <= |p| && p[i..k] == base && NoSlash(base)
    && AllSlashes(p[k..]) && (i == 0 || p[i - 1] == SLASH)
  }

  /**
   The base name of a path of slashes only is the default, and otherwise the last component of the
   path, with nothing but slashes after it.
   */
  lemma BaseNameIsLastComponent(p: seq<byte>)
    ensures AllSlashes(p) ==> BaseName(p) == FILE
    ensures !AllSlashes(p) ==> exists i: nat, k: nat :: IsLastComponent(p, BaseName(p), i, k)
  {
    var t := TrimTrailing(p, SLASH);
    TrimSlashesSplits(p);
    assert t != [] ==> p[|t| - 1] == t[|t| - 1] != SLASH;
    assert p[0..] == p;
    assert AllSlashes(p) ==> t == [];
    assert AfterLast([], SLASH) == [];
    if !AllSlashes(p) {
      LastComponent(p, t);
      var i: nat := |t| - |AfterLast(t, SLASH)|;
      assert IsLastComponent(p, BaseName(p), i, |t|);
    }
  }

  lemma LastComponent(p: seq<byte>, t: seq<byte>)
    requires t != [] && t <= p && t[|t| - 1] != SLASH && AllSlashes(p[|t|..])
    ensures AfterLast(t, SLASH) != [] && IsLastComponent(p, AfterLast(t, SLASH), |t| - |AfterLast(t, SLASH)|, |t|)
  {
    AfterSlashSplits(t);
    var i := |t| - |AfterLast(t, SLASH)|;
    assert p[i..|t|] == t[i..];
    assert i > 0 ==> p[i - 1] == t[i - 1];
  }

  // ---- The record of an upload, spelled out ---------------------------------------------------

  /** The name an upload to a path carries: its last component, or "file" for slashes only. */
  ghost predicate NamedAfter(p: seq<byte>, name: seq<byte>) {
    if AllSlashes(p) then name == [102, 105, 108, 101]
    else exists i: nat, k: nat :: IsLastComponent(p, name, i, k)
  }

  /** A line C, four octal digits, the decimal size and the name of the path, with single spaces between. */
  ghost predicate Announces(line: seq<byte>, mode: seq<byte>, length: seq<byte>, name: seq<byte>,
                            p: seq<byte>, perm: nat, size: nat) {
    && line == [67] + mode + [32] + length + [32] + name + [10]
    && |mode| == 4 && Spells(mode, 8, 4, perm) && Spells(length, 10, 0, size) && NamedAfter(p, name)
  }

  lemma BaseNameNames(p: seq<byte>)
    ensures NamedAfter(p, BaseName(p))
  {
    BaseNameIsLastComponent(p);
  }

  /** Permission bits fill four octal digits. */
  lemma PermSpells(perm: nat)
    requires perm < PERM_COUNT
    ensures |Pad(4, Print(8, perm))| == 4 && Spells(Pad(4, Print(8, perm)), 8, 4, perm)
  {
    PrintedDigits(8, perm);
    assert Power(8, 0) == 1 && Power(8, 1) == 8 && Power(8, 2) == 64 && Power(8, 3) == 512;
    PrintLength(8, perm, 3);
    LeadingZeros(8, 4 - |Print(8, perm)|, Print(8, perm));
  }

  lemma FormatAnnounces(p: seq<byte>, perm: nat, size: nat) returns (mode: seq<byte>, length: seq<byte>)
    requires perm < PERM_COUNT
    ensures Announces(Format(perm, size, BaseName(p)), mode, length, BaseName(p), p, perm, size)
  {
    mode, length := Pad(4, Print(8, perm)), Print(10, size);
    PermSpells(perm);
    PrintSpells(10, size);
    BaseNameNames(p);
  }

  /** Where the last component stands: it begins after the last slash before it. */
  lemma ComponentBounds(p: seq<byte>, base: seq<byte>, i: nat, k: nat)
    requires IsLastComponent(p, base, i, k)
    ensures forall j :: k <= j < |p| ==> p[j] == SLASH
    ensures forall j :: i <= j < k ==> p[j] != SLASH
  {
    forall j | k <= j < |p|
      ensures p[j] == SLASH
    {
      assert p[j] == p[k..][j - k];
    }
    forall j | i <= j < k
      ensures p[j] != SLASH
    {
      assert p[j] == p[i..k][j - i];
    }
  }

  /** A path has one last component, and one name. */
  lemma NamedOnce(p: seq<byte>, a: seq<byte>, b: seq<byte>)
    requires NamedAfter(p, a) && NamedAfter(p, b)
    ensures a == b
  {
    if !AllSlashes(p) {
      var i: nat, k: nat :| IsLastComponent(p, a, i, k);
      var j: nat, l: nat :| IsLastComponent(p, b, j, l);
      ComponentBounds(p, a, i, k);
      ComponentBounds(p, b, j, l);
      assert p[k - 1] != SLASH && p[l - 1] != SLASH;
      assert k == l && i == j;
    }
  }

  lemma RegroupFields(a: seq<byte>, b: seq<byte>, rest: seq<byte>, last: seq<byte>)
    ensures a + [32] + b + [32] + rest + last == a + [SP] + b + [SP] + (rest + last)
    ensures a + [SP] + b + [SP] + rest == a + [SP] + (b + [SP] + rest)
  {
  }

  lemma SplitFields(a: seq<byte>, b: seq<byte>, rest: seq<byte>)
    requires forall j :: 0 <= j < |a| ==> a[j] != SP
    requires forall j :: 0 <= j < |b| ==> b[j] != SP
    ensures SplitN(a + [SP] + b + [SP] + rest, 3) == [a, b, rest]
  {
    RegroupFields(a, b, rest, []);
    SplitOff(a, b + [SP] + rest, 3);
    SplitOff(b, rest, 2);
  }

  lemma TrimmedFields(a: seq<byte>, b: seq<byte>, name: seq<byte>)
    ensures TrimLineEnd(a + [32] + b + [32] + name + [10]) == a + [SP] + b + [SP] + TrimLineEnd(name)
  {
    RegroupFields(a, b, name, [LF]);
    TrimStops(a + [SP] + b + [SP], name + [LF]);
    TrimOnceMore(name, LF);
  }

  lemma ModeParses(mode: seq<byte>, perm: nat)
    requires |mode| == 4 && Spells(mode, 8, 4, perm) && perm < PERM_COUNT
    ensures ParseUint(([67] + mode)[1..], 8, MODE_LIMIT) == Some(perm) && ([67] + mode)[0] == CHAR_C
  {
    assert ([67] + mode)[1..] == mode;
  }

  lemma SpelledParses(digits: seq<byte>, size: nat)
    requires Spells(digits, 10, 0, size) && size < SIZE_HALF
    ensures ParseInt(digits, SIZE_HALF) == Some(size)
  {
    assert DigitValue(digits[0]) < 10;
  }

  lemma AnnouncedFields(line: seq<byte>, mode: seq<byte>, length: seq<byte>, name: seq<byte>,
                        p: seq<byte>, perm: nat, size: nat) returns (a: seq<byte>)
    requires Announces(line, mode, length, name, p, perm, size) && perm < PERM_COUNT && size < SIZE_HALF
    ensures SplitN(TrimLineEnd(line), 3) == [a, length, TrimLineEnd(name)]
    ensures |a| >= 2 && a[0] == CHAR_C && ParseUint(a[1..], 8, MODE_LIMIT) == Some(perm)
    ensures ParseInt(length, SIZE_HALF) == Some(size)
  {
    a := [67] + mode;
    NoSpaceInDigits(8, mode);
    NoSpaceInDigits(10, length);
    TrimmedFields(a, length, name);
    SplitFields(a, length, TrimLineEnd(name));
    ModeParses(mode, perm);
    SpelledParses(length, size);
  }

  /** An announcement parses as what it announces, but for line ends at the end of the name. */
  lemma AnnouncedParses(line: seq<byte>, mode: seq<byte>, length: seq<byte>, name: seq<byte>,
                        p: seq<byte>, perm: nat, size: nat)
    requires Announces(line, mode, length, name, p, perm, size) && perm < PERM_COUNT && size < SIZE_HALF
    ensures Parse(line) == Some(Meta(size, perm, TrimLineEnd(name)))
  {
    var a := AnnouncedFields(line, mode, length, name, p, perm, size);
    var meta := FieldsParse(line, a, length, TrimLineEnd(name), perm, size);
  }

  lemma FieldsParse(line: seq<byte>, a: seq<byte>, b: seq<byte>, c: seq<byte>, mode: nat, size: int) returns (m: Meta)
    requires SplitN(TrimLineEnd(line), 3) == [a, b, c]
    requires |a| >= 2 && a[0] == CHAR_C && mode < PERM_COUNT
    requires ParseUint(a[1..], 8, MODE_LIMIT) == Some(mode) && ParseInt(b, SIZE_HALF) == Some(size)
    ensures Parse(line) == Some(m) && m.size == size && m.perm == mode && m.name == c
  {
    m := Meta(size, mode, c);
  }

  /** An announcement of a name without line feeds is one line. */
  lemma AnnouncedIsLine(line: seq<byte>, mode: seq<byte>, length: seq<byte>, name: seq<byte>,
                        p: seq<byte>, perm: nat, size: nat)
    requires Announces(line, mode, length, name, p, perm, size)
    requires forall j :: 0 <= j < |name| ==> name[j] != LF
    ensures IsLine(line) && line[0] == CHAR_C
  {
    NoSpaceInDigits(8, mode);
    NoSpaceInDigits(10, length);
  }

  /** An upload of mode 0755, size 0 to "/bin/t" announces "C0755 0 t". */
  lemma AnnouncedExample()
    ensures Format(493, 0, BaseName([47, 98, 105, 110, 47, 116])) == [67, 48, 55, 53, 53, 32, 48, 32, 116, 10]
  {
    var p: seq<byte> := [47, 98, 105, 110, 47, 116];
    BaseNameNames(p);
    assert p[5] != SLASH;
    assert IsLastComponent(p, [116], 5, 6);
    NamedOnce(p, BaseName(p), [116]);
    assert Print(8, 7) == [55] && Print(8, 61) == [55, 53] && Print(8, 493) == [55, 53, 53];
    assert Pad(4, Print(8, 493)) == [48, 55, 53, 53];
    assert Print(10, 0) == [48];
  }
}
