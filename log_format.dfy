/** The two string builders of Poco::Logger: the `$n` template formatter
    Logger::format and the hex dump Logger::formatDump. */
module LogFormat {
  import opened Text
  import opened Seqs

  // ---------------------------------------------------------------------
  // Logger::format(fmt, argc, argv)

  /** A template the formatter can walk from position i on: every `$` that
      starts an escape is followed by one more character. A template ending
      in a lone `$` makes the formatter read past its end. */
  predicate WellFormedFrom(fmt: string, i: nat)
    requires i <= |fmt|
    decreases |fmt| - i
  {
    if i == |fmt| then true
    else if fmt[i] == '$' then i + 1 < |fmt| && WellFormedFrom(fmt, i + 2)
    else WellFormedFrom(fmt, i + 1)
  }

  predicate WellFormed(fmt: string) { WellFormedFrom(fmt, 0) }

  /** What one escape `$c` turns into: `$$` is a dollar sign, `$d` for a digit
      d is argument d (nothing when there are not that many arguments), any
      other `$c` stands for itself. */
  function Escaped(c: char, args: seq<string>): string {
    if c == '$' then "$"
    else if IsDigit(c) then (if DigitValue(c) < |args| then args[DigitValue(c)] else "")
    else ['$', c]
  }

  /** The formatter's output for the template from position i on, escape by
      escape. */
  function ExpandFrom(fmt: string, i: nat, args: seq<string>): string
    requires i <= |fmt| && WellFormedFrom(fmt, i)
    decreases |fmt| - i
  {
    if i == |fmt| then ""
    else if fmt[i] == '$' then Escaped(fmt[i + 1], args) + ExpandFrom(fmt, i + 2, args)
    else [fmt[i]] + ExpandFrom(fmt, i + 1, args)
  }

  function Expand(fmt: string, args: seq<string>): string
    requires WellFormed(fmt)
  {
    ExpandFrom(fmt, 0, args)
  }

  /** Logger::format: copy the template, replacing each escape. The
      argument count is the length of `args`. */
  method Format(fmt: string, args: seq<string>) returns (r: string)
    requires WellFormed(fmt)
    ensures r == Expand(fmt, args)
  {
    r := "";
    var i := 0;
    while i < |fmt|
      invariant 0 <= i <= |fmt| && WellFormedFrom(fmt, i)
      invariant r + ExpandFrom(fmt, i, args) == Expand(fmt, args)
    {
      ghost var before := r;
      ghost var j := i;
      ghost var piece: string;
      if fmt[i] == '$' {
        i := i + 1;
        if fmt[i] == '$' {
          r := r + "$";
        } else if '0' <= fmt[i] <= '9' {
          var d := fmt[i] as int - '0' as int;
          if d < |args| {
            r := r + args[d];
          }
        } else {
          r := r + ['$', fmt[i]];
        }
        piece := Escaped(fmt[i], args);
        assert r == before + piece;
      } else {
        r := r + [fmt[i]];
        piece := [fmt[i]];
      }
      i := i + 1;
      ExpandStep(fmt, j, args);
      ConcatAssoc(before, piece, ExpandFrom(fmt, i, args));
    }
  }

  /** One step of the formatter: the escape or character at position i,
      then the rest. */
  lemma ExpandStep(fmt: string, i: nat, args: seq<string>)
    requires i < |fmt| && WellFormedFrom(fmt, i)
    ensures fmt[i] == '$' ==> i + 1 < |fmt| && ExpandFrom(fmt, i, args) == Escaped(fmt[i + 1], args) + ExpandFrom(fmt, i + 2, args)
    ensures fmt[i] != '$' ==> ExpandFrom(fmt, i, args) == [fmt[i]] + ExpandFrom(fmt, i + 1, args)
  {
  }

  /** A template without `$` comes out unchanged. */
  lemma {:induction false} FormatPlain(fmt: string, i: nat, args: seq<string>)
    requires i <= |fmt| && '$' !in fmt
    ensures WellFormedFrom(fmt, i) && ExpandFrom(fmt, i, args) == fmt[i..]
    decreases |fmt| - i
  {
    if i < |fmt| {
      FormatPlain(fmt, i + 1, args);
      assert fmt[i..] == [fmt[i]] + fmt[i + 1..];
    }
  }

  /** How a template reads after a prefix: the same as on its own. */
  lemma {:induction false} FormatShift(a: string, b: string, j: nat, args: seq<string>)
    requires j <= |b| && WellFormedFrom(b, j)
    ensures WellFormedFrom(a + b, |a| + j) && ExpandFrom(a + b, |a| + j, args) == ExpandFrom(b, j, args)
    decreases |b| - j
  {
    var ab := a + b;
    if j < |b| {
      assert ab[|a| + j] == b[j];
      if b[j] == '$' {
        assert ab[|a| + j + 1] == b[j + 1];
        FormatShift(a, b, j + 2, args);
      } else {
        FormatShift(a, b, j + 1, args);
      }
    }
  }

  /** Templates format piecewise: a well-formed head does not change how the
      rest is read. */
  lemma {:induction false} FormatConcat(a: string, b: string, i: nat, args: seq<string>)
    requires i <= |a| && WellFormedFrom(a, i) && WellFormed(b)
    ensures WellFormedFrom(a + b, i) && ExpandFrom(a + b, i, args) == ExpandFrom(a, i, args) + Expand(b, args)
    decreases |a| - i
  {
    var ab := a + b;
    if i == |a| {
      FormatShift(a, b, 0, args);
      assert ExpandFrom(a, i, args) == "";
    } else if a[i] == '$' {
      assert ab[i] == '$' && ab[i + 1] == a[i + 1];
      FormatConcat(a, b, i + 2, args);
      var e := Escaped(a[i + 1], args);
      assert ExpandFrom(ab, i, args) == e + ExpandFrom(ab, i + 2, args);
      assert ExpandFrom(a, i, args) == e + ExpandFrom(a, i + 2, args);
      ConcatAssoc(e, ExpandFrom(a, i + 2, args), Expand(b, args));
    } else {
      assert ab[i] == a[i];
      FormatConcat(a, b, i + 1, args);
      var e := [a[i]];
      assert ExpandFrom(ab, i, args) == e + ExpandFrom(ab, i + 1, args);
      assert ExpandFrom(a, i, args) == e + ExpandFrom(a, i + 1, args);
      ConcatAssoc(e, ExpandFrom(a, i + 1, args), Expand(b, args));
    }
  }

  /** `$d` for a digit d picks argument d when there is one. */
  lemma FormatArgument(d: nat, args: seq<string>)
    requires d < 10
    ensures WellFormed(['$', DigitChar(d)])
    ensures Expand(['$', DigitChar(d)], args) == if d < |args| then args[d] else ""
  {
    var t := ['$', DigitChar(d)];
    assert WellFormedFrom(t, 2) && ExpandFrom(t, 2, args) == "";
    assert ExpandFrom(t, 0, args) == Escaped(DigitChar(d), args) + "";
  }

  /** Doubling every `$`: the text the formatter turns back into `s`. */
  function Escape(s: string): (t: string)
    ensures |t| >= |s|
  {
    if s == [] then ""
    else (if s[0] == '$' then "$$" else [s[0]]) + Escape(s[1..])
  }

  lemma {:induction false} EscapeRoundTrip(s: string, args: seq<string>)
    ensures WellFormed(Escape(s)) && Expand(Escape(s), args) == s
    decreases |s|
  {
    if s != [] {
      var t := Escape(s[1..]);
      EscapeRoundTrip(s[1..], args);
      var h: string := if s[0] == '$' then "$$" else [s[0]];
      assert Escape(s) == h + t;
      assert WellFormedFrom(h, |h|) && ExpandFrom(h, |h|, args) == "";
      if s[0] == '$' {
        assert ExpandFrom(h, 0, args) == Escaped('$', args) + ExpandFrom(h, 2, args);
      } else {
        assert ExpandFrom(h, 0, args) == [s[0]] + ExpandFrom(h, 1, args);
      }
      assert WellFormed(h) && Expand(h, args) == [s[0]];
      FormatConcat(h, t, 0, args);
      assert s == [s[0]] + s[1..];
    }
  }

  // ---------------------------------------------------------------------
  // Logger::formatDump(message, buffer, length)

  type Byte = b: int | 0 <= b < 256

  predicate IsHexChar(c: char) { IsDigit(c) || 'A' <= c <= 'F' }

  function HexChar(d: nat): (c: char)
    requires d < 16
    ensures IsHexChar(c)
  {
    if d < 10 then DigitChar(d) else ('A' as int + d - 10) as char
  }

  function HexCharValue(c: char): (d: nat)
    requires IsHexChar(c)
    ensures d < 16
  {
    if IsDigit(c) then DigitValue(c) else c as int - 'A' as int + 10
  }

  /** NumberFormatter::formatHex(n, width): upper-case hexadecimal digits,
      padded with zeros on the left to at least `width` characters. */
  function Hex(n: nat, width: nat): (s: string)
    ensures |s| >= 1 && |s| >= width
    ensures forall i :: 0 <= i < |s| ==> IsHexChar(s[i])
    decreases n, width
  {
    if n < 16 && width <= 1 then [HexChar(n)]
    else Hex(n / 16, if width > 0 then width - 1 else 0) + [HexChar(n % 16)]
  }

  /** The number a string of hexadecimal digits denotes. */
  function HexValue(s: string): nat
    requires forall i :: 0 <= i < |s| ==> IsHexChar(s[i])
  {
    if s == [] then 0 else 16 * HexValue(s[..|s| - 1]) + HexCharValue(s[|s| - 1])
  }

  lemma {:induction false} HexRoundTrip(n: nat, width: nat)
    ensures HexValue(Hex(n, width)) == n
    decreases n, width
  {
    var s := Hex(n, width);
    if !(n < 16 && width <= 1) {
      var w := if width > 0 then width - 1 else 0;
      HexRoundTrip(n / 16, w);
      assert s[..|s| - 1] == Hex(n / 16, w);
    }
  }

  function Pow16(k: nat): nat {
    if k == 0 then 1 else 16 * Pow16(k - 1)
  }

  /** A number below 16^width takes exactly `width` digits. */
  lemma {:induction false} HexWidth(n: nat, width: nat)
    requires width >= 1 && n < Pow16(width)
    ensures |Hex(n, width)| == width
    decreases width
  {
    if width > 1 {
      HexWidth(n / 16, width - 1);
    }
  }

  /** The hexadecimal cells of one line: two digits per byte, then a blank,
      and a second blank after the eighth byte. */
  function HexCells(line: seq<Byte>): string {
    if line == [] then ""
    else HexCells(line[..|line| - 1]) + Hex(line[|line| - 1], 2) + (if |line| - 1 == 7 then "  " else " ")
  }

  function Blanks(n: nat): (s: string)
    ensures |s| == n && forall i :: 0 <= i < n ==> s[i] == ' '
  {
    seq(n, i => ' ')
  }

  /** The hexadecimal column of a line, padded to the width of a full line
      of 16 bytes. The blank that stands in for the missing mid-line gap is
      written for every line shorter than eight bytes. */
  function HexColumn(line: seq<Byte>): string
    requires |line| <= 16
  {
    HexCells(line) + (if |line| < 8 then " " else "") + Blanks(3 * (16 - |line|))
  }

  /** The same column as formatDump builds it, with its test `offset < 7`. */
  function HexColumnAsWritten(line: seq<Byte>): string
    requires |line| <= 16
  {
    HexCells(line) + (if |line| < 7 then " " else "") + Blanks(3 * (16 - |line|))
  }

  lemma {:induction false} HexCellsWidth(line: seq<Byte>)
    ensures |HexCells(line)| == 3 * |line| + if |line| >= 8 then 1 else 0
    decreases |line|
  {
    if line != [] {
      HexCellsWidth(line[..|line| - 1]);
      HexWidth(line[|line| - 1], 2);
    }
  }

  /** Every line's hexadecimal column is 49 characters wide, so the
      character columns of all lines line up. */
  lemma HexColumnWidth(line: seq<Byte>)
    requires |line| <= 16
    ensures |HexColumn(line)| == 49
  {
    HexCellsWidth(line);
  }

  /** As written, a line of exactly seven bytes gets a column one character
      narrower than every other line. */
  lemma HexColumnAsWrittenMisaligned(line: seq<Byte>)
    requires |line| == 7
    ensures |HexColumnAsWritten(line)| == 48
    ensures |HexColumnAsWritten(line)| != |HexColumn(line)|
  {
    HexCellsWidth(line);
  }

  /** How the character column shows a byte: printable ASCII as itself,
      everything else as a dot. */
  function Shown(b: Byte): char {
    if 32 <= b < 127 then b as char else '.'
  }

  function CharColumn(line: seq<Byte>): (r: string)
    ensures |r| == |line|
    ensures forall i :: 0 <= i < |line| ==> r[i] == Shown(line[i])
  {
    if line == [] then "" else CharColumn(line[..|line| - 1]) + [Shown(line[|line| - 1])]
  }

  function Min(a: int, b: int): int { if a <= b then a else b }

  /** The bytes shown on the line that starts at offset `addr`. */
  function LineBytes(bytes: seq<Byte>, addr: nat): (line: seq<Byte>)
    requires addr < |bytes|
    ensures 1 <= |line| <= 16
  {
    bytes[addr..Min(addr + 16, |bytes|)]
  }

  /** One dump line: the offset in four hexadecimal digits, the hexadecimal
      column and the character column. */
  function DumpLine(bytes: seq<Byte>, addr: nat): string
    requires addr < |bytes|
  {
    var line := LineBytes(bytes, addr);
    Hex(addr, 4) + "  " + HexColumn(line) + " " + CharColumn(line)
  }

  /** The number of dump lines: the length divided by 16, rounded up. */
  function LineCount(bytes: seq<Byte>): nat {
    (|bytes| + 15) / 16
  }

  /** The first k dump lines, line j describing the bytes from 16 * j. */
  function DumpLines(bytes: seq<Byte>, k: nat): (r: seq<string>)
    requires k == 0 || 16 * (k - 1) < |bytes|
    ensures |r| == k
  {
    if k == 0 then [] else DumpLines(bytes, k - 1) + [DumpLine(bytes, 16 * (k - 1))]
  }

  /** Line j describes the bytes from offset 16 * j on. */
  lemma {:induction false} DumpLinesIndex(bytes: seq<Byte>, k: nat, j: nat)
    requires k == 0 || 16 * (k - 1) < |bytes|
    requires j < k
    ensures 16 * j < |bytes| && DumpLines(bytes, k)[j] == DumpLine(bytes, 16 * j)
    decreases k
  {
    var prev := DumpLines(bytes, k - 1);
    var last := DumpLine(bytes, 16 * (k - 1));
    assert DumpLines(bytes, k) == prev + [last];
    if j < k - 1 {
      DumpLinesIndex(bytes, k - 1, j);
      assert (prev + [last])[j] == prev[j];
    } else {
      assert (prev + [last])[j] == last;
    }
  }

  /** Lines joined by line feeds. */
  function Join(lines: seq<string>): string {
    if lines == [] then ""
    else Join(lines[..|lines| - 1]) + (if |lines| > 1 then "\n" else "") + lines[|lines| - 1]
  }

  lemma LastLine(bytes: seq<Byte>)
    ensures LineCount(bytes) == 0 || 16 * (LineCount(bytes) - 1) < |bytes|
  {
  }

  /** The message after formatDump: the old text, a line feed when that text
      is not empty, and the dump lines. */
  function DumpText(message: string, bytes: seq<Byte>): string {
    LastLine(bytes);
    message + (if message != [] then "\n" else "") + Join(DumpLines(bytes, LineCount(bytes)))
  }

  /** The first inner loop of formatDump and the padding after it: the
      hexadecimal column of one line. */
  method FormatHexColumn(line: seq<Byte>) returns (text: string)
    requires 1 <= |line| <= 16
    ensures text == HexColumn(line)
  {
    text := "";
    var offset := 0;
    while offset < |line|
      invariant 0 <= offset <= |line|
      invariant text == HexCells(line[..offset])
    {
      assert line[..offset + 1][..offset] == line[..offset];
      text := text + Hex(line[offset], 2);
      text := text + (if offset == 7 then "  " else " ");
      offset := offset + 1;
    }
    assert line[..offset] == line;
    if offset < 8 { text := text + " "; }  // formatDump tests offset < 7 here
    ghost var cells := text;
    while offset < 16
      invariant |line| <= offset <= 16
      invariant text == cells + Blanks(3 * (offset - |line|))
    {
      assert Blanks(3 * (offset - |line|)) + "   " == Blanks(3 * (offset + 1 - |line|));
      text := text + "   ";
      offset := offset + 1;
    }
  }

  /** The second inner loop of formatDump: the character column. */
  method FormatCharColumn(line: seq<Byte>) returns (text: string)
    ensures text == CharColumn(line)
  {
    text := "";
    var offset := 0;
    while offset < |line|
      invariant 0 <= offset <= |line|
      invariant text == CharColumn(line[..offset])
    {
      assert line[..offset + 1][..offset] == line[..offset];
      var c := line[offset];
      text := text + [if 32 <= c < 127 then c as char else '.'];
      offset := offset + 1;
    }
    assert line[..offset] == line;
  }

  /** The body of formatDump's outer loop: one line, for the bytes from
      `addr` on (at most 16 of them). */
  method FormatDumpLine(bytes: seq<Byte>, addr: nat) returns (text: string)
    requires addr < |bytes|
    ensures text == DumpLine(bytes, addr)
  {
    var line := bytes[addr..Min(addr + 16, |bytes|)];
    var hex := FormatHexColumn(line);
    var chars := FormatCharColumn(line);
    text := Hex(addr, 4) + "  " + hex + " " + chars;
  }

  lemma JoinAppend(lines: seq<string>, line: string)
    ensures Join(lines + [line]) == Join(lines) + (if |lines| > 0 then "\n" else "") + line
  {
    assert (lines + [line])[..|lines|] == lines;
  }

  /** One more dump line: a line feed unless it is the first, then the line. */
  lemma DumpStep(head: string, bytes: seq<Byte>, k: nat)
    requires 16 * k < |bytes|
    ensures head + Join(DumpLines(bytes, k + 1))
      == (head + Join(DumpLines(bytes, k))) + (if k > 0 then "\n" else "") + DumpLine(bytes, 16 * k)
  {
    var lines := DumpLines(bytes, k);
    var line := DumpLine(bytes, 16 * k);
    var sep: string := if k > 0 then "\n" else "";
    assert DumpLines(bytes, k + 1) == lines + [line];
    JoinAppend(lines, line);
    ConcatAssoc(head, Join(lines), sep);
    ConcatAssoc(head, Join(lines) + sep, line);
  }

  /** The loop of formatDump stops after LineCount(bytes) lines. */
  lemma LineCountExact(bytes: seq<Byte>, k: nat)
    requires k == 0 || 16 * (k - 1) < |bytes|
    requires |bytes| <= 16 * k
    ensures k == LineCount(bytes)
  {
  }

  /** Logger::formatDump: append a line feed to a non-empty message, then
      one line per 16 bytes, separated by line feeds. */
  method FormatDump(message: string, bytes: seq<Byte>) returns (r: string)
    ensures r == DumpText(message, bytes)
  {
    r := message;
    if message != [] { r := r + "\n"; }
    ghost var head := r;
    var addr := 0;
    ghost var k := 0;
    while addr < |bytes|
      invariant addr == 16 * k
      invariant k == 0 || 16 * (k - 1) < |bytes|
      invariant r == head + Join(DumpLines(bytes, k))
    {
      var text := FormatDumpLine(bytes, addr);
      DumpStep(head, bytes, k);
      if addr > 0 { r := r + "\n"; }
      r := r + text;
      k := k + 1;
      addr := addr + 16;
    }
    LineCountExact(bytes, k);
  }

  /** Line j of the dump starts with the offset 16 * j in four hexadecimal
      digits (for dumps below 64 KiB), and its character column begins at the
      same position, 56, on every line. */
  lemma DumpLineLayout(bytes: seq<Byte>, addr: nat)
    requires addr < |bytes| && addr < 65536
    ensures DumpLine(bytes, addr)[..4] == Hex(addr, 4)
    ensures HexValue(DumpLine(bytes, addr)[..4]) == addr
    ensures |DumpLine(bytes, addr)| >= 56 && DumpLine(bytes, addr)[56..] == CharColumn(LineBytes(bytes, addr))
  {
    assert Pow16(4) == 65536;
    HexWidth(addr, 4);
    HexRoundTrip(addr, 4);
    HexColumnWidth(LineBytes(bytes, addr));
  }

  /** No dump line contains a line feed, so the dump has exactly LineCount
      lines. */
  lemma DumpLineSingle(bytes: seq<Byte>, addr: nat)
    requires addr < |bytes|
    ensures '\n' !in DumpLine(bytes, addr)
  {
    var line := LineBytes(bytes, addr);
    HexCellsNoNewline(line);
    var d := DumpLine(bytes, addr);
    assert d == Hex(addr, 4) + ("  " + HexColumn(line) + " " + CharColumn(line));
  }

  lemma {:induction false} HexCellsNoNewline(line: seq<Byte>)
    ensures '\n' !in HexCells(line)
    decreases |line|
  {
    if line != [] {
      HexCellsNoNewline(line[..|line| - 1]);
    }
  }

  function NewlineCount(s: string): nat {
    if s == [] then 0 else NewlineCount(s[..|s| - 1]) + if s[|s| - 1] == '\n' then 1 else 0
  }

  lemma {:induction false} NewlineCountAppend(a: string, b: string)
    ensures NewlineCount(a + b) == NewlineCount(a) + NewlineCount(b)
    decreases |b|
  {
    if b == [] {
      assert a + b == a;
    } else {
      assert (a + b)[..|a + b| - 1] == a + b[..|b| - 1];
      NewlineCountAppend(a, b[..|b| - 1]);
    }
  }

  lemma {:induction false} NewlineCountNone(s: string)
    requires '\n' !in s
    ensures NewlineCount(s) == 0
    decreases |s|
  {
    if s != [] {
      NewlineCountNone(s[..|s| - 1]);
    }
  }

  /** The dump of `bytes` is LineCount(bytes) lines: one fewer line feeds
      than lines. */
  lemma {:induction false} DumpNewlines(bytes: seq<Byte>, k: nat)
    requires 1 <= k && 16 * (k - 1) < |bytes|
    ensures NewlineCount(Join(DumpLines(bytes, k))) == k - 1
    decreases k
  {
    var lines := DumpLines(bytes, k);
    assert lines[..k - 1] == DumpLines(bytes, k - 1);
    DumpLineSingle(bytes, 16 * (k - 1));
    NewlineCountNone(lines[k - 1]);
    var sep: string := if k > 1 then "\n" else "";
    NewlineCountAppend(Join(lines[..k - 1]) + sep, lines[k - 1]);
    NewlineCountAppend(Join(lines[..k - 1]), sep);
    if k > 1 {
      DumpNewlines(bytes, k - 1);
    }
  }
}
