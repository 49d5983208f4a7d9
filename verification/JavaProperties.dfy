/**
 The writer of Java `.properties` lines in `collect-results.py`, against the reader it is written for: the
 line format of `java.util.Properties.load` (comment lines, blank lines, continued lines, key/value
 separators, escapes).

 Text is a sequence of code points, lone surrogates included; the file is ISO-8859-1 characters; what the
 reader delivers are UTF-16 code units.
 */
module JavaProperties {
  import opened Wrappers

  type CodePoint = c: nat | c <= 0x10FFFF
  type Text = seq<CodePoint>

  const BACKSLASH: nat := 92
  const NEWLINE: nat := 10
  const RETURN: nat := 13
  const TAB: nat := 9
  const FORMFEED: nat := 12
  const SPACE: nat := 32
  const EQUALS: nat := 61
  const COLON: nat := 58
  const HASH: nat := 35
  const BANG: nat := 33
  const LETTER_U: nat := 117

  // ---------- UTF-16 (section 2.1 of RFC 2781) ----------

  function Units(c: CodePoint): seq<nat> {
    if c < 0x10000 then [c] else [0xD800 + (c - 0x10000) / 0x400, 0xDC00 + (c - 0x10000) % 0x400]
  }

  function TextUnits(t: Text): seq<nat> {
    if t == [] then [] else Units(t[0]) + TextUnits(t[1..])
  }

  predicate IsHigh(u: nat) {
    0xD800 <= u <= 0xDBFF
  }

  predicate IsLow(u: nat) {
    0xDC00 <= u <= 0xDFFF
  }

  function DecodeUnits(units: seq<nat>): seq<nat> {
    if units == [] then []
    else if |units| >= 2 && IsHigh(units[0]) && IsLow(units[1]) then
      [0x10000 + (units[0] - 0xD800) * 0x400 + (units[1] - 0xDC00)] + DecodeUnits(units[2..])
    else [units[0]] + DecodeUnits(units[1..])
  }

  /** A lone high surrogate directly followed by a lone low one. */
  predicate HasSplitPair(t: Text) {
    exists k :: 0 <= k < |t| - 1 && IsHigh(t[k]) && IsLow(t[k + 1])
  }

  /** Reading the units back as code points gives the text, except when two lone surrogates of the text
      stand side by side and so fuse. */
  lemma {:induction false} UnitsDecode(t: Text)
    ensures DecodeUnits(TextUnits(t)) == t <==> !HasSplitPair(t)
  {
    if t != [] {
      var c, rest := t[0], t[1..];
      UnitsDecode(rest);
      assert t == [c] + rest;
      SplitPairFirst(t);
      if c >= 0x10000 {
        assert TextUnits(t)[2..] == TextUnits(rest);
        assert DecodeUnits(TextUnits(t)) == [c] + DecodeUnits(TextUnits(rest));
      } else {
        assert TextUnits(t)[1..] == TextUnits(rest);
        if rest != [] && IsHigh(c) && IsLow(rest[0]) {
          assert TextUnits(t)[1] == rest[0];
          assert DecodeUnits(TextUnits(t))[0] >= 0x10000;
        } else {
          assert rest != [] ==> TextUnits(rest)[0] == Units(rest[0])[0];
          assert DecodeUnits(TextUnits(t)) == [c] + DecodeUnits(TextUnits(rest));
          assert (DecodeUnits(TextUnits(t)))[1..] == DecodeUnits(TextUnits(rest));
        }
      }
    }
  }

  lemma SplitPairFirst(t: Text)
    requires t != []
    ensures HasSplitPair(t) <==> (|t| >= 2 && IsHigh(t[0]) && IsLow(t[1])) || HasSplitPair(t[1..])
  {
    if HasSplitPair(t) {
      var k :| 0 <= k < |t| - 1 && IsHigh(t[k]) && IsLow(t[k + 1]);
      if k > 0 {
        assert IsHigh(t[1..][k - 1]) && IsLow(t[1..][k - 1 + 1]);
      }
    }
    if HasSplitPair(t[1..]) {
      var k :| 0 <= k < |t[1..]| - 1 && IsHigh(t[1..][k]) && IsLow(t[1..][k + 1]);
      assert IsHigh(t[k + 1]) && IsLow(t[k + 1 + 1]);
    }
  }

  // ---------- The writer ----------

  function Digit(d: nat): nat
    requires d < 16
  {
    if d < 10 then 48 + d else 87 + d
  }

  function Hex4(u: nat): seq<nat>
    requires u < 0x10000
  {
    [Digit(u / 0x1000), Digit(u / 0x100 % 16), Digit(u / 0x10 % 16), Digit(u % 16)]
  }

  function UnicodeEscape(u: nat): seq<nat>
    requires u < 0x10000
  {
    [BACKSLASH, LETTER_U] + Hex4(u)
  }

  predicate IsKeySyntax(c: nat) {
    c == SPACE || c == EQUALS || c == COLON || c == HASH || c == BANG
  }

  /** The escape of one character at the start or inside of a key or a value. */
  function Escape(c: CodePoint, first: bool, isKey: bool): seq<nat> {
    if c == BACKSLASH then [BACKSLASH, BACKSLASH]
    else if c == TAB then [BACKSLASH, 116]
    else if c == NEWLINE then [BACKSLASH, 110]
    else if c == RETURN then [BACKSLASH, 114]
    else if c == FORMFEED then [BACKSLASH, 102]
    else if (isKey && IsKeySyntax(c)) || (first && c == SPACE) then [BACKSLASH, c]
    else if SPACE <= c <= 126 then [c]
    else if c < 0x10000 then UnicodeEscape(c)
    else UnicodeEscape(Units(c)[0]) + UnicodeEscape(Units(c)[1])
  }

  function EscapeFrom(t: Text, i: nat, isKey: bool): seq<nat>
    requires i <= |t|
    decreases |t| - i
  {
    if i == |t| then [] else Escape(t[i], i == 0, isKey) + EscapeFrom(t, i + 1, isKey)
  }

  method EscapeText(t: Text, isKey: bool) returns (escaped: seq<nat>)
    ensures escaped == EscapeFrom(t, 0, isKey)
  {
    escaped := [];
    for index := 0 to |t|
      invariant escaped + EscapeFrom(t, index, isKey) == EscapeFrom(t, 0, isKey)
    {
      assert escaped + (Escape(t[index], index == 0, isKey) + EscapeFrom(t, index + 1, isKey))
          == escaped + Escape(t[index], index == 0, isKey) + EscapeFrom(t, index + 1, isKey);
      escaped := escaped + Escape(t[index], index == 0, isKey);
    }
  }

  function Line(key: Text, value: Text): seq<nat> {
    EscapeFrom(key, 0, true) + [EQUALS] + EscapeFrom(value, 0, false) + [NEWLINE]
  }

  predicate IsPrintable(s: seq<nat>) {
    forall k :: 0 <= k < |s| ==> SPACE <= s[k] <= 126
  }

  lemma EscapeIsPrintable(c: CodePoint, first: bool, isKey: bool)
    ensures IsPrintable(Escape(c, first, isKey))
  {
  }

  lemma {:induction false} EscapedIsPrintable(t: Text, i: nat, isKey: bool)
    requires i <= |t|
    ensures IsPrintable(EscapeFrom(t, i, isKey))
    decreases |t| - i
  {
    if i < |t| {
      EscapedIsPrintable(t, i + 1, isKey);
      EscapeIsPrintable(t[i], i == 0, isKey);
    }
  }

  /** `properties_line`: one line of printable ASCII, which the reader takes back as this key and this value. */
  method PropertiesLine(key: Text, value: Text) returns (line: seq<nat>)
    ensures Load(line) == Some([(TextUnits(key), TextUnits(value))])
    ensures line != [] && line[|line| - 1] == NEWLINE && IsPrintable(line[..|line| - 1])
    ensures line == Line(key, value)
  {
    var k := EscapeText(key, true);
    var v := EscapeText(value, false);
    line := k + [EQUALS] + v + [NEWLINE];
    LineIsPrintable(key, value);
    LineLoads(key, value);
  }

  lemma LineIsPrintable(key: Text, value: Text)
    ensures var line := Line(key, value); line[|line| - 1] == NEWLINE && IsPrintable(line[..|line| - 1])
  {
    var k, v := EscapeFrom(key, 0, true), EscapeFrom(value, 0, false);
    EscapedIsPrintable(key, 0, true);
    EscapedIsPrintable(value, 0, false);
    assert Line(key, value)[..|k| + 1 + |v|] == k + [EQUALS] + v;
  }

  lemma LineLoads(key: Text, value: Text)
    ensures Load(Line(key, value)) == Some([(TextUnits(key), TextUnits(value))])
  {
    LoadReadsFile([(key, value)]);
    FileOfOne(key, value);
  }

  lemma FileOfOne(key: Text, value: Text)
    ensures File([(key, value)]) == Line(key, value) && Loaded([(key, value)]) == [(TextUnits(key), TextUnits(value))]
  {
    var one := [(key, value)];
    assert one[1..] == [] && File([]) == [] && Loaded([]) == [];
    assert Line(key, value) + [] == Line(key, value);
  }

  // ---------- The reader ----------

  predicate IsBlank(c: nat) {
    c == SPACE || c == TAB || c == FORMFEED
  }

  predicate IsEol(c: nat) {
    c == NEWLINE || c == RETURN
  }

  function SkipBlanks(s: seq<nat>): (r: seq<nat>)
    ensures |r| <= |s|
  {
    if s != [] && IsBlank(s[0]) then SkipBlanks(s[1..]) else s
  }

  /** Skips blank lines and the blanks before a line's content. */
  function SkipToContent(s: seq<nat>): (r: seq<nat>)
    ensures |r| <= |s| && (r != [] ==> !IsBlank(r[0]) && !IsEol(r[0]))
  {
    if s != [] && (IsBlank(s[0]) || IsEol(s[0])) then SkipToContent(s[1..]) else s
  }

  function SkipToEol(s: seq<nat>): (r: seq<nat>)
    ensures |r| <= |s| && (s != [] && !IsEol(s[0]) ==> |r| < |s|)
  {
    if s != [] && !IsEol(s[0]) then SkipToEol(s[1..]) else s
  }

  function AfterEol(s: seq<nat>): (r: seq<nat>)
    requires s != []
    ensures |r| < |s|
  {
    if s[0] == RETURN && |s| > 1 && s[1] == NEWLINE then s[2..] else s[1..]
  }

  /** A logical line, escapes kept, and what is left behind it. A backslash before a line end continues the
      line behind the blanks of the next one; a backslash at the end of the text is dropped. */
  function LogicalLine(s: seq<nat>): (r: (seq<nat>, seq<nat>))
    ensures |r.1| <= |s| && (s != [] && !IsEol(s[0]) ==> |r.1| < |s|)
    decreases |s|
  {
    if s == [] || IsEol(s[0]) then ([], s)
    else if s[0] == BACKSLASH then
      if |s| == 1 then ([], [])
      else if IsEol(s[1]) then LogicalLine(SkipBlanks(AfterEol(s[1..])))
      else
        var rest := LogicalLine(s[2..]);
        ([BACKSLASH, s[1]] + rest.0, rest.1)
    else
      var rest := LogicalLine(s[1..]);
      ([s[0]] + rest.0, rest.1)
  }

  /** The key of a logical line ends at the first unescaped separator or blank. */
  function SplitKey(line: seq<nat>): (r: (seq<nat>, seq<nat>)) {
    if line == [] then ([], [])
    else if line[0] == BACKSLASH then
      if |line| == 1 then (line, [])
      else
        var rest := SplitKey(line[2..]);
        ([BACKSLASH, line[1]] + rest.0, rest.1)
    else if IsBlank(line[0]) || line[0] == EQUALS || line[0] == COLON then ([], line)
    else
      var rest := SplitKey(line[1..]);
      ([line[0]] + rest.0, rest.1)
  }

  function SkipSeparator(s: seq<nat>, seen: bool): seq<nat> {
    if s == [] then s
    else if IsBlank(s[0]) then SkipSeparator(s[1..], seen)
    else if !seen && (s[0] == EQUALS || s[0] == COLON) then SkipSeparator(s[1..], true)
    else s
  }

  function HexValue(c: nat): Option<nat> {
    if 48 <= c <= 57 then Some(c - 48)
    else if 97 <= c <= 102 then Some(c - 87)
    else if 65 <= c <= 70 then Some(c - 55)
    else None
  }

  function ReadHex4(s: seq<nat>): Option<nat>
    requires |s| >= 4
  {
    match (HexValue(s[0]), HexValue(s[1]), HexValue(s[2]), HexValue(s[3]))
    case (Some(a), Some(b), Some(c), Some(d)) => Some(a * 0x1000 + b * 0x100 + c * 0x10 + d)
    case _ => None
  }

  function Unescaped(c: nat): nat {
    if c == 116 then TAB
    else if c == 114 then RETURN
    else if c == 110 then NEWLINE
    else if c == 102 then FORMFEED
    else c
  }

  /** The escapes of a key or value; `None` is the reader's malformed-escape error. */
  function Unescape(s: seq<nat>): Option<seq<nat>> {
    if s == [] then Some([])
    else if s[0] != BACKSLASH then
      match Unescape(s[1..]) case None => None case Some(rest) => Some([s[0]] + rest)
    else if |s| == 1 then None
    else if s[1] == LETTER_U then
      if |s| < 6 || ReadHex4(s[2..]).None? then None
      else match Unescape(s[6..]) case None => None case Some(rest) => Some([ReadHex4(s[2..]).value] + rest)
    else
      match Unescape(s[2..]) case None => None case Some(rest) => Some([Unescaped(s[1])] + rest)
  }

  type Entry = (seq<nat>, seq<nat>)

  function ParseLine(line: seq<nat>): Option<Entry> {
    var split := SplitKey(line);
    var value := if split.1 == [] then []
                 else SkipSeparator(split.1[1..], split.1[0] == EQUALS || split.1[0] == COLON);
    match (Unescape(split.0), Unescape(value))
    case (Some(k), Some(v)) => Some((k, v))
    case _ => None
  }

  /** `java.util.Properties.load`, entries in file order; `None` is a malformed escape. */
  function Load(text: seq<nat>): Option<seq<Entry>>
    decreases |text|
  {
    var s := SkipToContent(text);
    if s == [] then Some([])
    else if s[0] == HASH || s[0] == BANG then Load(SkipToEol(s))
    else
      var line := LogicalLine(s);
      match (ParseLine(line.0), Load(line.1))
      case (Some(entry), Some(rest)) => Some([entry] + rest)
      case _ => None
  }

  // ---------- The round trip ----------

  /** Every backslash takes the character after it along, no line ends inside, and in a key no unescaped
      character separates. */
  ghost predicate Sealed(s: seq<nat>, isKey: bool) {
    if s == [] then true
    else if s[0] == BACKSLASH then |s| >= 2 && !IsEol(s[1]) && Sealed(s[2..], isKey)
    else
      && !IsEol(s[0])
      && (isKey ==> !IsBlank(s[0]) && s[0] != EQUALS && s[0] != COLON)
      && Sealed(s[1..], isKey)
  }

  lemma {:induction false} SealedConcat(a: seq<nat>, b: seq<nat>, isKey: bool)
    requires Sealed(a, isKey) && Sealed(b, isKey)
    ensures Sealed(a + b, isKey)
  {
    if a == [] {
      assert a + b == b;
    } else if a[0] == BACKSLASH {
      SealedConcat(a[2..], b, isKey);
      assert (a + b)[2..] == a[2..] + b;
    } else {
      SealedConcat(a[1..], b, isKey);
      assert (a + b)[1..] == a[1..] + b;
    }
  }

  lemma PlainIsSealed(s: seq<nat>, isKey: bool)
    requires forall k :: 0 <= k < |s| ==> 48 <= s[k] <= 57 || 97 <= s[k] <= 102
    ensures Sealed(s, isKey)
  {
  }

  lemma UnicodeIsSealed(u: nat, isKey: bool)
    requires u < 0x10000
    ensures Sealed(UnicodeEscape(u), isKey)
  {
    PlainIsSealed(Hex4(u), isKey);
    assert UnicodeEscape(u)[2..] == Hex4(u);
  }

  lemma EscapeIsSealed(c: CodePoint, first: bool, isKey: bool)
    ensures Sealed(Escape(c, first, isKey), isKey)
  {
    var e := Escape(c, first, isKey);
    if c >= 0x10000 {
      UnicodeIsSealed(Units(c)[0], isKey);
      UnicodeIsSealed(Units(c)[1], isKey);
      SealedConcat(UnicodeEscape(Units(c)[0]), UnicodeEscape(Units(c)[1]), isKey);
    } else if c > 126 || (c < SPACE && c != TAB && c != NEWLINE && c != RETURN && c != FORMFEED) {
      UnicodeIsSealed(c, isKey);
    } else if |e| == 2 {
      assert e[2..] == [];
    } else {
      assert e[1..] == [];
    }
  }

  lemma {:induction false} EscapedTextIsSealed(t: Text, i: nat, isKey: bool)
    requires i <= |t|
    ensures Sealed(EscapeFrom(t, i, isKey), isKey)
    decreases |t| - i
  {
    if i < |t| {
      EscapeIsSealed(t[i], i == 0, isKey);
      EscapedTextIsSealed(t, i + 1, isKey);
      SealedConcat(Escape(t[i], i == 0, isKey), EscapeFrom(t, i + 1, isKey), isKey);
    }
  }

  lemma {:induction false} KeyIsSealedText(s: seq<nat>)
    requires Sealed(s, true)
    ensures Sealed(s, false)
  {
    if s != [] {
      KeyIsSealedText(if s[0] == BACKSLASH then s[2..] else s[1..]);
    }
  }

  /** A sealed stretch is read as it stands, on one line. */
  lemma {:induction false} LineReads(e: seq<nat>, tail: seq<nat>)
    requires Sealed(e, false)
    ensures LogicalLine(e + tail) == (e + LogicalLine(tail).0, LogicalLine(tail).1)
    decreases |e|
  {
    if e == [] {
      assert e + tail == tail;
      assert e + LogicalLine(tail).0 == LogicalLine(tail).0;
    } else {
      var n := if e[0] == BACKSLASH then 2 else 1;
      LineReads(e[n..], tail);
      LineStep(e + tail, n);
      TakeDrop(e, n, tail);
      TakeDrop(e, n, LogicalLine(tail).0);
    }
  }

  lemma TakeDrop(e: seq<nat>, n: nat, tail: seq<nat>)
    requires n <= |e|
    ensures (e + tail)[n..] == e[n..] + tail && (e + tail)[..n] == e[..n] && e[..n] + (e[n..] + tail) == e + tail
  {
  }

  lemma LineStep(s: seq<nat>, n: nat)
    requires (n == 1 || n == 2) && n <= |s| && !IsEol(s[0])
    requires (s[0] == BACKSLASH <==> n == 2) && (n == 2 ==> !IsEol(s[1]))
    ensures LogicalLine(s) == (s[..n] + LogicalLine(s[n..]).0, LogicalLine(s[n..]).1)
  {
    assert s[..n] == if n == 1 then [s[0]] else [BACKSLASH, s[1]];
  }

  /** A sealed key is read to its end. */
  lemma {:induction false} KeyReads(e: seq<nat>, tail: seq<nat>)
    requires Sealed(e, true)
    ensures SplitKey(e + tail) == (e + SplitKey(tail).0, SplitKey(tail).1)
    decreases |e|
  {
    if e == [] {
      assert e + tail == tail;
      assert e + SplitKey(tail).0 == SplitKey(tail).0;
    } else {
      var n := if e[0] == BACKSLASH then 2 else 1;
      KeyReads(e[n..], tail);
      TakeDrop(e, n, tail);
      TakeDrop(e, n, SplitKey(tail).0);
      assert e[..n] == if n == 2 then [BACKSLASH, e[1]] else [e[0]];
    }
  }

  lemma DigitReads(d: nat)
    requires d < 16
    ensures HexValue(Digit(d)) == Some(d)
  {
  }

  lemma UnicodeReads(u: nat, rest: seq<nat>)
    requires u < 0x10000 && Unescape(rest).Some?
    ensures Unescape(UnicodeEscape(u) + rest) == Some([u] + Unescape(rest).value)
  {
    var s := UnicodeEscape(u) + rest;
    assert s[6..] == rest && s[2..] == Hex4(u) + rest;
    HexReads(u, rest);
  }

  lemma HexReads(u: nat, rest: seq<nat>)
    requires u < 0x10000
    ensures ReadHex4(Hex4(u) + rest) == Some(u)
  {
    DigitReads(u / 0x1000);
    DigitReads(u / 0x100 % 16);
    DigitReads(u / 0x10 % 16);
    DigitReads(u % 16);
    HexSum(u);
  }

  lemma HexSum(u: nat)
    requires u < 0x10000
    ensures u / 0x1000 * 0x1000 + u / 0x100 % 16 * 0x100 + u / 0x10 % 16 * 0x10 + u % 16 == u
  {
    assert u / 0x10 == u / 0x100 * 16 + u / 0x10 % 16;
    assert u / 0x100 == u / 0x1000 * 16 + u / 0x100 % 16;
  }

  lemma CharacterReads(c: CodePoint, first: bool, isKey: bool, rest: seq<nat>)
    requires Unescape(rest).Some?
    ensures Unescape(Escape(c, first, isKey) + rest) == Some(Units(c) + Unescape(rest).value)
  {
    if c >= 0x10000 {
      SupplementaryReads(c, rest);
    } else if c > 126 || (c < SPACE && c != TAB && c != NEWLINE && c != RETURN && c != FORMFEED) {
      UnicodeReads(c, rest);
    } else {
      PlainReads(Escape(c, first, isKey), rest);
    }
  }

  lemma Associates(a: seq<nat>, b: seq<nat>, c: seq<nat>)
    ensures a + b + c == a + (b + c)
  {
  }

  lemma SupplementaryReads(c: CodePoint, rest: seq<nat>)
    requires c >= 0x10000 && Unescape(rest).Some?
    ensures Unescape(UnicodeEscape(Units(c)[0]) + UnicodeEscape(Units(c)[1]) + rest)
         == Some(Units(c) + Unescape(rest).value)
  {
    var high, low := Units(c)[0], Units(c)[1];
    UnicodeReads(low, rest);
    UnicodeReads(high, UnicodeEscape(low) + rest);
    Associates(UnicodeEscape(high), UnicodeEscape(low), rest);
    Associates([high], [low], Unescape(rest).value);
    assert [high] + [low] == Units(c);
  }

  /** A character as itself, or behind a backslash. */
  lemma PlainReads(e: seq<nat>, rest: seq<nat>)
    requires (|e| == 1 && e[0] != BACKSLASH) || (|e| == 2 && e[0] == BACKSLASH && e[1] != LETTER_U)
    requires Unescape(rest).Some?
    ensures Unescape(e + rest) == Some([if |e| == 1 then e[0] else Unescaped(e[1])] + Unescape(rest).value)
  {
    assert (e + rest)[|e|..] == rest;
  }

  /** Unescaping an escaped text yields its code units. */
  lemma {:induction false} TextReads(t: Text, i: nat, isKey: bool)
    requires i <= |t|
    ensures Unescape(EscapeFrom(t, i, isKey)) == Some(TextUnits(t[i..]))
    decreases |t| - i
  {
    if i < |t| {
      TextReads(t, i + 1, isKey);
      CharacterReads(t[i], i == 0, isKey, EscapeFrom(t, i + 1, isKey));
      assert t[i..][1..] == t[i + 1..];
    }
  }

  lemma ValueStartsSolid(value: Text)
    ensures EscapeFrom(value, 0, false) != [] ==> !IsBlank(EscapeFrom(value, 0, false)[0])
  {
    if value != [] {
      assert Escape(value[0], true, false) != [];
    }
  }

  lemma LineParses(key: Text, value: Text)
    ensures ParseLine(EscapeFrom(key, 0, true) + [EQUALS] + EscapeFrom(value, 0, false))
         == Some((TextUnits(key), TextUnits(value)))
  {
    var k, v := EscapeFrom(key, 0, true), EscapeFrom(value, 0, false);
    EscapedTextIsSealed(key, 0, true);
    KeyReads(k, [EQUALS] + v);
    assert k + [EQUALS] + v == k + ([EQUALS] + v);
    assert k + [] == k;
    assert ([EQUALS] + v)[1..] == v;
    ValueStartsSolid(value);
    TextReads(key, 0, true);
    TextReads(value, 0, false);
    assert key[0..] == key && value[0..] == value;
  }

  function File(entries: seq<(Text, Text)>): seq<nat> {
    if entries == [] then [] else Line(entries[0].0, entries[0].1) + File(entries[1..])
  }

  function Loaded(entries: seq<(Text, Text)>): seq<Entry> {
    if entries == [] then [] else [(TextUnits(entries[0].0), TextUnits(entries[0].1))] + Loaded(entries[1..])
  }

  /** A written line starts with neither a blank nor a comment mark. */
  lemma LineStartsSolid(key: Text, value: Text)
    ensures var c := Line(key, value)[0]; !IsBlank(c) && !IsEol(c) && c != HASH && c != BANG
  {
    if key != [] {
      var e := Escape(key[0], true, true);
      assert Line(key, value)[0] == e[0];
    }
  }

  lemma LoadSkipsEol(rest: seq<nat>)
    ensures Load([NEWLINE] + rest) == Load(rest)
  {
    assert ([NEWLINE] + rest)[1..] == rest;
  }

  lemma LoadTakesLine(body: seq<nat>, rest: seq<nat>, entry: Entry)
    requires body != [] && Sealed(body, false) && !IsBlank(body[0]) && body[0] != HASH && body[0] != BANG
    requires ParseLine(body) == Some(entry) && Load(rest).Some?
    ensures Load(body + ([NEWLINE] + rest)) == Some([entry] + Load(rest).value)
  {
    LineReads(body, [NEWLINE] + rest);
    assert body + [] == body;
    LoadSkipsEol(rest);
  }

  /** One line of the file is one entry. */
  lemma LoadReadsLine(key: Text, value: Text, rest: seq<nat>)
    requires Load(rest).Some?
    ensures Load(Line(key, value) + rest) == Some([(TextUnits(key), TextUnits(value))] + Load(rest).value)
  {
    var body := EscapeFrom(key, 0, true) + [EQUALS] + EscapeFrom(value, 0, false);
    Associates(body, [NEWLINE], rest);
    LineStartsSolid(key, value);
    BodyIsSealed(key, value);
    LineParses(key, value);
    assert body[0] == Line(key, value)[0];
    LoadTakesLine(body, rest, (TextUnits(key), TextUnits(value)));
  }

  /** The file of any list of keys and values loads as exactly their code units: nothing is taken for a
      comment, a separator, a blank line or a continued line. */
  lemma {:induction false} LoadReadsFile(entries: seq<(Text, Text)>)
    ensures Load(File(entries)) == Some(Loaded(entries))
  {
    if entries != [] {
      LoadReadsFile(entries[1..]);
      LoadReadsLine(entries[0].0, entries[0].1, File(entries[1..]));
    }
  }

  lemma BodyIsSealed(key: Text, value: Text)
    ensures Sealed(EscapeFrom(key, 0, true) + [EQUALS] + EscapeFrom(value, 0, false), false)
  {
    var k, v := EscapeFrom(key, 0, true), EscapeFrom(value, 0, false);
    EscapedTextIsSealed(key, 0, true);
    KeyIsSealedText(k);
    assert [EQUALS][1..] == [];
    SealedConcat(k, [EQUALS], false);
    EscapedTextIsSealed(value, 0, false);
    SealedConcat(k + [EQUALS], v, false);
  }
}
