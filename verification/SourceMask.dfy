/**
 The scanner of `check-rust-platform-boundary.py` that blanks comments and literals of Rust source
 text while keeping every offset stable.

 The meaning of a token is stated declaratively (`IsToken`), without reference to the scanner's loops:
 block comments by the recursive grammar of nested comments, string ends by the parity of the run of
 backslashes, raw strings by the first matching terminator, character literals by their spelling.
 `MaskNonCode` is proved to produce the one text those meanings allow (`Masks`), and each meaning is proved equal
 to a second one by how the token is written (`QuotedExactly`, `BlockCommentExactly`, `RawExactly`, `CharIsWritten`).
 */
module SourceMask {
  import opened Wrappers

  datatype Kind = LineComment | BlockComment | RawString | Quoted | CharLiteral

  datatype Token = Token(kind: Kind, start: nat, end: nat)

  // ---------- What the tokens are ----------

  predicate StartsWith(s: string, i: nat, a: char, b: char) {
    i + 1 < |s| && s[i] == a && s[i + 1] == b
  }

  /** The grammar of nested block comments: the offset after the closing mark that ends the comment whose body
      starts at `p`; `None` when the text ends first. */
  function NestedEnd(s: string, p: nat): (r: Option<nat>)
    requires p <= |s|
    ensures r.Some? ==> p + 2 <= r.value <= |s|
    decreases |s| - p
  {
    if p == |s| then None
    else if StartsWith(s, p, '*', '/') then Some(p + 2)
    else if StartsWith(s, p, '/', '*') then
      match NestedEnd(s, p + 2)
      case None => None
      case Some(q) => NestedEnd(s, q)
    else NestedEnd(s, p + 1)
  }

  /** How many backslashes stand immediately before `c`, not reaching back to the opening quote at `i`. */
  function Backslashes(s: string, i: nat, c: nat): nat
    requires c <= |s|
    decreases c
  {
    if i + 1 < c && s[c - 1] == '\\' then 1 + Backslashes(s, i, c - 1) else 0
  }

  /** An unescaped double quote after the opening one at `i`. */
  predicate ClosesQuote(s: string, i: nat, c: nat) {
    i < c < |s| && s[c] == '"' && Backslashes(s, i, c) % 2 == 0
  }

  /** Where the letter `r` of a raw string prefix that starts at `i` stands. */
  function RawLetter(s: string, i: nat): nat
    requires i < |s|
  {
    if s[i] == 'b' then i + 1 else i
  }

  /** A raw string opens at `i`: the letter `r`, then hashes, then the quote at `q`. */
  predicate OpensRaw(s: string, alnum: char -> bool, i: nat, q: nat) {
    && i < |s|
    && RawLetter(s, i) < q < |s|
    && s[RawLetter(s, i)] == 'r'
    && (i == 0 || !(alnum(s[i - 1]) || s[i - 1] == '_'))
    && (forall h :: RawLetter(s, i) < h < q ==> s[h] == '#')
    && s[q] == '"'
  }

  /** A quote followed by `hashes` hash signs stands at `c`. */
  predicate TerminatorAt(s: string, hashes: nat, c: nat) {
    && c + hashes < |s|
    && s[c] == '"'
    && forall h :: c < h <= c + hashes ==> s[h] == '#'
  }

  ghost predicate EndsRaw(s: string, hashes: nat, q: nat, e: nat) {
    || (e == |s| && forall c :: q < c < |s| ==> !TerminatorAt(s, hashes, c))
    || (q + 1 + hashes < e <= |s| && TerminatorAt(s, hashes, e - 1 - hashes)
        && forall c :: q < c < e - 1 - hashes ==> !TerminatorAt(s, hashes, c))
  }

  ghost predicate IsRawString(s: string, alnum: char -> bool, i: nat, e: nat) {
    exists q: nat :: OpensRaw(s, alnum, i, q) && EndsRaw(s, q - RawLetter(s, i) - 1, q, e)
  }

  predicate IsHex(c: char) {
    '0' <= c <= '9' || 'a' <= c <= 'f' || 'A' <= c <= 'F'
  }

  function HexDigits(digits: string): nat {
    if digits == "" then 0 else (if digits[0] == '_' then 0 else 1) + HexDigits(digits[1..])
  }

  predicate IsSimpleEscape(c: char) {
    c == 'n' || c == 'r' || c == 't' || c == '\\' || c == '0' || c == '\'' || c == '"'
  }

  /** The spelling of a unicode escape `\u{...}`: one to six hexadecimal digits, underscores anywhere. */
  predicate IsUnicodeEscape(body: string) {
    && 4 <= |body|
    && body[0] == '\\' && body[1] == 'u' && body[2] == '{' && body[|body| - 1] == '}'
    && (forall k :: 3 <= k < |body| - 1 ==> IsHex(body[k]) || body[k] == '_')
    && 1 <= HexDigits(body[3..|body| - 1]) <= 6
  }

  predicate IsCharBody(body: string) {
    || (|body| == 1 && body[0] != '\'' && body[0] != '\n' && body[0] != '\r' && body[0] != '\\')
    || (|body| == 2 && body[0] == '\\' && IsSimpleEscape(body[1]))
    || (|body| == 4 && body[0] == '\\' && body[1] == 'x' && IsHex(body[2]) && IsHex(body[3]))
    || IsUnicodeEscape(body)
  }

  predicate IsCharLiteral(s: string, i: nat, e: nat) {
    && i + 3 <= e <= |s|
    && s[i] == '\'' && s[e - 1] == '\''
    && IsCharBody(s[i + 1..e - 1])
  }

  ghost predicate IsToken(s: string, alnum: char -> bool, kind: Kind, i: nat, e: nat) {
    && i < e <= |s|
    && match kind
       case LineComment =>
         && StartsWith(s, i, '/', '/')
         && (forall k :: i <= k < e ==> s[k] != '\n')
         && (e == |s| || s[e] == '\n')
       case BlockComment =>
         && StartsWith(s, i, '/', '*')
         && e == (match NestedEnd(s, i + 2) case None => |s| case Some(q) => q)
       case RawString =>
         IsRawString(s, alnum, i, e)
       case Quoted =>
         && s[i] == '"'
         && (forall c :: i < c < e - 1 ==> !ClosesQuote(s, i, c))
         && (ClosesQuote(s, i, e - 1) || (e == |s| && !ClosesQuote(s, i, e - 1)))
       case CharLiteral => IsCharLiteral(s, i, e)
  }

  ghost predicate NoTokenAt(s: string, alnum: char -> bool, i: nat) {
    forall kind, e: nat :: !IsToken(s, alnum, kind, i, e)
  }

  // ---------- What masking means ----------

  ghost predicate Covered(toks: seq<Token>, i: nat) {
    exists j :: 0 <= j < |toks| && toks[j].start <= i < toks[j].end
  }

  ghost predicate Ordered(toks: seq<Token>) {
    forall j, k :: 0 <= j < k < |toks| ==> toks[j].end <= toks[k].start
  }

  /** `toks` is the tokenisation of the first `upto` characters: real tokens in order, and no token
      starts at an offset they do not cover. */
  ghost predicate Lexing(s: string, alnum: char -> bool, toks: seq<Token>, upto: nat) {
    && (forall j :: 0 <= j < |toks| ==>
          IsToken(s, alnum, toks[j].kind, toks[j].start, toks[j].end) && toks[j].end <= upto)
    && Ordered(toks)
    && (forall i: nat :: i < upto && !Covered(toks, i) ==> NoTokenAt(s, alnum, i))
  }

  ghost function Blanked(s: string, toks: seq<Token>): string {
    seq(|s|, i requires 0 <= i < |s| => if Covered(toks, i) && s[i] != '\n' then ' ' else s[i])
  }

  ghost predicate Masks(s: string, alnum: char -> bool, m: string) {
    exists toks :: Lexing(s, alnum, toks, |s|) && m == Blanked(s, toks)
  }

  // ---------- Theorems ----------

  /** A token's kind and end are determined by the text and its start. */
  lemma TokenIsDetermined(s: string, alnum: char -> bool, k1: Kind, k2: Kind, i: nat, e1: nat, e2: nat)
    requires IsToken(s, alnum, k1, i, e1) && IsToken(s, alnum, k2, i, e2)
    ensures k1 == k2 && e1 == e2
  {
    if k1.RawString? && k2.RawString? {
      RawStringIsDetermined(s, alnum, i, e1, e2);
    } else if k1.CharLiteral? && k2.CharLiteral? {
      BodyIsDetermined(s, i + 1, e1 - 1, e2 - 1);
    }
  }

  lemma RawStringIsDetermined(s: string, alnum: char -> bool, i: nat, e1: nat, e2: nat)
    requires IsRawString(s, alnum, i, e1) && IsRawString(s, alnum, i, e2)
    ensures e1 == e2
  {
    var q1: nat :| OpensRaw(s, alnum, i, q1) && EndsRaw(s, q1 - RawLetter(s, i) - 1, q1, e1);
    var q2: nat :| OpensRaw(s, alnum, i, q2) && EndsRaw(s, q2 - RawLetter(s, i) - 1, q2, e2);
    OpeningIsDetermined(s, alnum, i, q1, q2);
    EndIsDetermined(s, q1 - RawLetter(s, i) - 1, q1, e1, e2);
  }

  lemma OpeningIsDetermined(s: string, alnum: char -> bool, i: nat, q1: nat, q2: nat)
    requires OpensRaw(s, alnum, i, q1) && OpensRaw(s, alnum, i, q2)
    ensures q1 == q2
  {
  }

  lemma EndIsDetermined(s: string, hashes: nat, q: nat, e1: nat, e2: nat)
    requires EndsRaw(s, hashes, q, e1) && EndsRaw(s, hashes, q, e2)
    ensures e1 == e2
  {
  }

  /** Two character bodies that start together are the same body. */
  lemma BodyIsDetermined(s: string, i: nat, x: nat, y: nat)
    requires i <= x <= |s| && i <= y <= |s| && IsCharBody(s[i..x]) && IsCharBody(s[i..y])
    ensures x == y
  {
    var b1, b2 := s[i..x], s[i..y];
    assert b1[0] == b2[0] == s[i];
    if |b1| > 1 && |b2| > 1 {
      assert b1[1] == b2[1] == s[i + 1];
      if IsUnicodeEscape(b1) && IsUnicodeEscape(b2) {
        UnicodeEscapeIsDetermined(s, i, x, y);
        UnicodeEscapeIsDetermined(s, i, y, x);
      }
    }
  }

  lemma UnicodeEscapeIsDetermined(s: string, i: nat, x: nat, y: nat)
    requires i <= x <= |s| && i <= y <= |s| && IsUnicodeEscape(s[i..x]) && IsUnicodeEscape(s[i..y])
    ensures y <= x
  {
    var b1, b2 := s[i..x], s[i..y];
    assert s[x - 1] == b1[|b1| - 1];
    assert x <= y ==> s[x - 1] == b2[|b1| - 1];
  }

  /** There is only one tokenisation, so masking is a function of the text. */
  lemma LexingIsUnique(s: string, alnum: char -> bool, t1: seq<Token>, t2: seq<Token>)
    requires Lexing(s, alnum, t1, |s|) && Lexing(s, alnum, t2, |s|)
    ensures t1 == t2
  {
    var j := 0;
    while j < |t1| && j < |t2| && t1[j] == t2[j]
      invariant 0 <= j <= |t1| && j <= |t2| && t1[..j] == t2[..j]
    {
      j := j + 1;
    }
    if j < |t1| {
      StartIsCovered(s, alnum, t1, t2, j);
      NextTokenStarts(t1, t2, j);
    }
    if j < |t2| {
      StartIsCovered(s, alnum, t2, t1, j);
      NextTokenStarts(t2, t1, j);
      TokenIsDetermined(s, alnum, t1[j].kind, t2[j].kind, t1[j].start, t1[j].end, t2[j].end);
    }
  }

  lemma StartIsCovered(s: string, alnum: char -> bool, t1: seq<Token>, t2: seq<Token>, j: nat)
    requires Lexing(s, alnum, t1, |s|) && Lexing(s, alnum, t2, |s|) && j < |t1|
    ensures Covered(t2, t1[j].start)
  {
    assert IsToken(s, alnum, t1[j].kind, t1[j].start, t1[j].end);
    assert !NoTokenAt(s, alnum, t1[j].start);
  }

  lemma NextTokenStarts(t1: seq<Token>, t2: seq<Token>, j: nat)
    requires Ordered(t1) && Ordered(t2) && j < |t1| && j <= |t2| && t1[..j] == t2[..j]
    requires Covered(t2, t1[j].start)
    requires forall k :: 0 <= k < |t2| ==> t2[k].start < t2[k].end
    ensures j < |t2| && t2[j].start <= t1[j].start
  {
    var i := t1[j].start;
    forall h | 0 <= h < j ensures t2[h].end <= i {
      assert t2[..j][h] == t1[..j][h];
    }
    var k :| 0 <= k < |t2| && t2[k].start <= i < t2[k].end;
  }

  lemma LineCommentExists(s: string, alnum: char -> bool, i: nat) returns (e: nat)
    requires StartsWith(s, i, '/', '/')
    ensures IsToken(s, alnum, LineComment, i, e)
  {
    e := i + 1;
    while e < |s| && s[e] != '\n'
      invariant i < e <= |s| && forall k :: i <= k < e ==> s[k] != '\n'
    {
      e := e + 1;
    }
  }

  lemma BlockCommentExists(s: string, alnum: char -> bool, i: nat)
    requires StartsWith(s, i, '/', '*')
    ensures !NoTokenAt(s, alnum, i)
  {
    var e := match NestedEnd(s, i + 2) case None => |s| case Some(q) => q;
    assert IsToken(s, alnum, BlockComment, i, e);
  }

  lemma QuotedExists(s: string, alnum: char -> bool, i: nat) returns (e: nat)
    requires i < |s| && s[i] == '"'
    ensures IsToken(s, alnum, Quoted, i, e)
  {
    e := i + 1;
    while e < |s| && !ClosesQuote(s, i, e)
      invariant i < e <= |s| && forall c :: i < c < e ==> !ClosesQuote(s, i, c)
    {
      e := e + 1;
    }
    e := if e < |s| then e + 1 else e;
  }

  /** What every boundary guard relies on: offsets, lines and code characters survive, and nothing is
      left that could still be read as a string or a comment. */
  lemma MaskedTextIsPlainCode(s: string, alnum: char -> bool, m: string)
    requires Masks(s, alnum, m)
    ensures |m| == |s|
    ensures forall i :: 0 <= i < |s| ==> (m[i] == '\n' <==> s[i] == '\n')
    ensures forall i :: 0 <= i < |s| ==> m[i] == s[i] || m[i] == ' '
    ensures '"' !in m
    ensures forall i :: 0 <= i < |s| ==> !StartsWith(m, i, '/', '/') && !StartsWith(m, i, '/', '*')
    ensures forall i: nat :: NoTokenAt(m, alnum, i)
  {
    var toks :| Lexing(s, alnum, toks, |s|) && m == Blanked(s, toks);
    forall i | 0 <= i < |m| ensures m[i] != '"' {
      if m[i] == '"' {
        var e := QuotedExists(s, alnum, i);
      }
    }
    forall i: nat | i < |s|
      ensures !StartsWith(m, i, '/', '/') && !StartsWith(m, i, '/', '*')
    {
      if StartsWith(m, i, '/', '/') {
        assert StartsWith(s, i, '/', '/');
        var e := LineCommentExists(s, alnum, i);
      }
      if StartsWith(m, i, '/', '*') {
        BlockCommentExists(s, alnum, i);
      }
    }
    forall i: nat, kind, e: nat ensures !IsToken(m, alnum, kind, i, e) {
      if IsToken(m, alnum, kind, i, e) && kind.CharLiteral? {
        CharLiteralSurvives(s, alnum, toks, m, i, e);
        assert IsToken(s, alnum, CharLiteral, i, e);
      }
    }
  }

  lemma EscapesHaveNoBlanks(body: string)
    requires IsCharBody(body) && |body| > 1
    ensures forall k :: 0 <= k < |body| ==> body[k] != ' ' && body[k] != '\n'
  {
  }

  /** No token is a single character between two characters of code. */
  lemma LoneCharacterIsCode(s: string, alnum: char -> bool, toks: seq<Token>, k: nat)
    requires Lexing(s, alnum, toks, |s|)
    requires 0 < k < |s| - 1 && !Covered(toks, k - 1) && !Covered(toks, k + 1)
    ensures !Covered(toks, k)
  {
    if j :| 0 <= j < |toks| && toks[j].start <= k < toks[j].end {
    }
  }

  /** Blanking never creates a character literal: one read in the masked text was there before. */
  lemma CharLiteralSurvives(s: string, alnum: char -> bool, toks: seq<Token>, m: string, i: nat, e: nat)
    requires Lexing(s, alnum, toks, |s|) && m == Blanked(s, toks)
    requires IsCharLiteral(m, i, e)
    ensures !Covered(toks, i) && IsCharLiteral(s, i, e)
  {
    var body := m[i + 1..e - 1];
    assert m[i] == '\'' && m[e - 1] == '\'';
    assert !Covered(toks, i) && !Covered(toks, e - 1);
    forall k | i < k < e - 1 ensures m[k] == s[k] {
      assert body[k - i - 1] == m[k];
      if |body| == 1 {
        LoneCharacterIsCode(s, alnum, toks, k);
      } else {
        EscapesHaveNoBlanks(body);
      }
    }
    assert s[i + 1..e - 1] == body;
  }

  /** Masking twice is masking once. */
  lemma MaskingIsIdempotent(s: string, alnum: char -> bool, m: string, again: string)
    requires Masks(s, alnum, m)
    ensures Masks(m, alnum, m)
    ensures Masks(m, alnum, again) ==> again == m
  {
    MaskedTextIsPlainCode(s, alnum, m);
    assert Lexing(m, alnum, [], |m|);
    assert Blanked(m, []) == m;
    if Masks(m, alnum, again) {
      var toks :| Lexing(m, alnum, toks, |m|) && again == Blanked(m, toks);
      LexingIsUnique(m, alnum, toks, []);
    }
  }

  // ---------- Texts inside a text ----------

  /** The text stands in `s` at `p`. */
  ghost predicate At(s: string, p: nat, text: string) {
    p + |text| <= |s| && forall k :: 0 <= k < |text| ==> text[k] == s[p + k]
  }

  lemma AtBoth(s: string, p: nat, a: string, b: string)
    requires At(s, p, a + b)
    ensures At(s, p, a) && At(s, p + |a|, b)
  {
    assert forall k :: 0 <= k < |a| ==> a[k] == (a + b)[k];
    assert forall k :: 0 <= k < |b| ==> b[k] == (a + b)[|a| + k];
  }

  lemma AtJoined(s: string, p: nat, a: string, b: string)
    requires At(s, p, a) && At(s, p + |a|, b)
    ensures At(s, p, a + b)
  {
    forall k | 0 <= k < |a + b| ensures (a + b)[k] == s[p + k] {
      if k >= |a| {
        assert b[k - |a|] == s[p + |a| + (k - |a|)];
      }
    }
  }

  lemma AtThree(s: string, p: nat, a: string, b: string, c: string)
    requires At(s, p, a + b + c)
    ensures At(s, p, a) && At(s, p + |a|, b) && At(s, p + |a| + |b|, c)
  {
    AtBoth(s, p, a + b, c);
    AtBoth(s, p, a, b);
  }

  // ---------- Strings by their spelling ----------

  /** What a string is made of: a character that is neither a quote nor a backslash, or a backslash and any
      character. */
  datatype Unit = Plain(c: char) | Escaped(c: char)

  function WriteUnit(u: Unit): string {
    match u
    case Plain(c) => [c]
    case Escaped(c) => ['\\', c]
  }

  function Write(units: seq<Unit>): string {
    if units == [] then "" else Write(units[..|units| - 1]) + WriteUnit(units[|units| - 1])
  }

  predicate AreUnits(units: seq<Unit>) {
    forall k :: 0 <= k < |units| && units[k].Plain? ==> units[k].c != '"' && units[k].c != '\\'
  }

  /** A closed string: quote, units, quote. */
  ghost predicate IsStringText(text: string) {
    exists units :: AreUnits(units) && text == "\"" + Write(units) + "\""
  }

  /** The text after the quote at `i` consists of these units up to `p`. */
  ghost predicate UnitsTo(s: string, i: nat, units: seq<Unit>, p: nat) {
    AreUnits(units) && p == i + 1 + |Write(units)| && At(s, i + 1, Write(units))
  }

  lemma OneMoreUnit(s: string, i: nat, units: seq<Unit>, p: nat, u: Unit)
    requires UnitsTo(s, i, units, p) && AreUnits([u]) && At(s, p, WriteUnit(u))
    ensures UnitsTo(s, i, units + [u], p + |WriteUnit(u)|)
  {
    var more := units + [u];
    assert more[..|more| - 1] == units;
    assert forall k :: 0 <= k < |more| ==> more[k] == if k < |units| then units[k] else [u][0];
    AtJoined(s, i + 1, Write(units), WriteUnit(u));
  }

  /** The text up to `p` may be followed by a whole unit: the run of backslashes is even and no quote has closed it. */
  ghost predicate StaysOpen(s: string, i: nat, p: nat) {
    i < p <= |s| && Backslashes(s, i, p) % 2 == 0 && forall c :: i < c < p ==> !ClosesQuote(s, i, c)
  }

  lemma UnitDoesNotClose(s: string, i: nat, u: Unit, q: nat)
    requires StaysOpen(s, i, q) && AreUnits([u])
    requires At(s, q, WriteUnit(u))
    ensures StaysOpen(s, i, q + |WriteUnit(u)|)
  {
    assert [u][0] == u && s[q] == WriteUnit(u)[0];
    if u.Escaped? {
      assert Backslashes(s, i, q + 1) == 1 + Backslashes(s, i, q);
    }
  }

  lemma LastUnit(s: string, i: nat, units: seq<Unit>, p: nat) returns (q: nat)
    requires UnitsTo(s, i, units, p) && units != []
    ensures var u := units[|units| - 1];
            && q + |WriteUnit(u)| == p && At(s, q, WriteUnit(u)) && AreUnits([u])
            && UnitsTo(s, i, units[..|units| - 1], q)
  {
    var fewer, u := units[..|units| - 1], units[|units| - 1];
    q := i + 1 + |Write(fewer)|;
    AtBoth(s, i + 1, Write(fewer), WriteUnit(u));
  }

  /** Between whole units the run of backslashes is even, and no quote inside them closes the string. */
  lemma {:induction false} UnitsDoNotClose(s: string, i: nat, units: seq<Unit>, p: nat)
    requires UnitsTo(s, i, units, p)
    ensures StaysOpen(s, i, p)
    decreases |units|
  {
    if units == [] {
      assert p == i + 1;
    } else {
      var q := LastUnit(s, i, units, p);
      UnitsDoNotClose(s, i, units[..|units| - 1], q);
      UnitDoesNotClose(s, i, units[|units| - 1], q);
    }
  }

  /** Whole units lead up to the first quote that closes the string. */
  lemma {:induction false} UnitsUpTo(s: string, i: nat, units: seq<Unit>, p: nat, c: nat) returns (all: seq<Unit>)
    requires UnitsTo(s, i, units, p) && p <= c && ClosesQuote(s, i, c)
    requires forall k :: i < k < c ==> !ClosesQuote(s, i, k)
    ensures UnitsTo(s, i, all, c)
    decreases c - p
  {
    if p == c {
      all := units;
    } else {
      UnitsDoNotClose(s, i, units, p);
      var u := NextUnit(s, i, p, c);
      OneMoreUnit(s, i, units, p, u);
      all := UnitsUpTo(s, i, units + [u], p + |WriteUnit(u)|, c);
    }
  }

  lemma NextUnit(s: string, i: nat, p: nat, c: nat) returns (u: Unit)
    requires i < p < c && ClosesQuote(s, i, c) && !ClosesQuote(s, i, p) && Backslashes(s, i, p) % 2 == 0
    ensures AreUnits([u]) && p + |WriteUnit(u)| <= c && At(s, p, WriteUnit(u))
  {
    u := if s[p] == '\\' then Escaped(s[p + 1]) else Plain(s[p]);
    if s[p] == '\\' {
      assert Backslashes(s, i, p + 1) == 1 + Backslashes(s, i, p);
    }
  }

  lemma QuotedBody(text: string, body: string)
    requires text == "\"" + body + "\""
    ensures |text| == |body| + 2 && text[1..|text| - 1] == body && text[|text| - 1] == '"'
  {
  }

  lemma InnerSlice(s: string, i: nat, e: nat)
    requires i + 2 <= e <= |s|
    ensures s[i..e][1..e - i - 1] == s[i + 1..e - 1] && s[i..e][e - i - 1] == s[e - 1]
  {
    var inner, outer := s[i + 1..e - 1], s[i..e];
    assert outer == [s[i]] + inner + [s[e - 1]];
  }

  lemma StringTextCloses(s: string, i: nat, e: nat)
    requires i + 1 < e <= |s| && IsStringText(s[i..e])
    ensures ClosesQuote(s, i, e - 1) && forall c :: i < c < e - 1 ==> !ClosesQuote(s, i, c)
  {
    var text := s[i..e];
    var units :| AreUnits(units) && text == "\"" + Write(units) + "\"";
    QuotedBody(text, Write(units));
    InnerSlice(s, i, e);
    UnitsDoNotClose(s, i, units, e - 1);
  }

  lemma FirstClosingIsStringText(s: string, i: nat, e: nat)
    requires i + 1 < e <= |s| && s[i] == '"' && ClosesQuote(s, i, e - 1)
    requires forall c :: i < c < e - 1 ==> !ClosesQuote(s, i, c)
    ensures IsStringText(s[i..e])
  {
    var units := UnitsUpTo(s, i, [], i + 1, e - 1);
    assert s[i..e] == [s[i]] + s[i + 1..e - 1] + [s[e - 1]];
    assert [s[i]] == "\"" && [s[e - 1]] == "\"";
  }

  /** A closing quote is the end of a closed string, and the other way round. */
  lemma ClosedByUnits(s: string, i: nat, e: nat)
    requires i + 1 < e <= |s| && s[i] == '"'
    ensures IsStringText(s[i..e]) <==> ClosesQuote(s, i, e - 1) && forall c :: i < c < e - 1 ==> !ClosesQuote(s, i, c)
  {
    if IsStringText(s[i..e]) {
      StringTextCloses(s, i, e);
    }
    if ClosesQuote(s, i, e - 1) && forall c :: i < c < e - 1 ==> !ClosesQuote(s, i, c) {
      FirstClosingIsStringText(s, i, e);
    }
  }

  /** A string token is a closed string, or the rest of a text in which the quote opens no closed string. */
  lemma QuotedExactly(s: string, alnum: char -> bool, i: nat, e: nat)
    ensures IsToken(s, alnum, Quoted, i, e)
        <==> && i < e <= |s| && s[i] == '"'
             && (|| IsStringText(s[i..e])
                 || (e == |s| && forall k :: i < k <= |s| ==> !IsStringText(s[i..k])))
  {
    if i < e <= |s| && s[i] == '"' {
      forall k | i + 1 < k <= |s|
        ensures IsStringText(s[i..k]) <==>
                  ClosesQuote(s, i, k - 1) && forall c :: i < c < k - 1 ==> !ClosesQuote(s, i, c)
      {
        ClosedByUnits(s, i, k);
      }
      assert forall k :: k == i + 1 ==> |s[i..k]| == 1 && !IsStringText(s[i..k]);
      var end := QuotedExists(s, alnum, i);
      assert ClosesQuote(s, i, end - 1) ==> IsStringText(s[i..end]);
    }
  }

  /** Wherever a closed string is written, the quote at its start opens a token of exactly its length. */
  lemma WrittenStringIsToken(s: string, alnum: char -> bool, i: nat, units: seq<Unit>)
    requires AreUnits(units) && At(s, i, "\"" + Write(units) + "\"")
    ensures IsToken(s, alnum, Quoted, i, i + |Write(units)| + 2)
  {
    var text := "\"" + Write(units) + "\"";
    assert s[i] == text[0] && s[i..i + |text|] == text;
    QuotedExactly(s, alnum, i, i + |text|);
  }

  // ---------- Block comments by their grammar ----------

  /** The text from `p` to `q` is the body of a comment: characters at which no mark starts, and whole inner
      comments. */
  ghost predicate IsBalanced(s: string, p: nat, q: nat)
    decreases q - p
  {
    && p <= q <= |s|
    && (|| p == q
        || (!StartsWith(s, p, '/', '*') && !StartsWith(s, p, '*', '/') && IsBalanced(s, p + 1, q))
        || (StartsWith(s, p, '/', '*')
            && exists m: nat :: p + 2 <= m && m + 2 <= q && StartsWith(s, m, '*', '/')
                                && IsBalanced(s, p + 2, m) && IsBalanced(s, m + 2, q)))
  }

  /** A balanced body from `p` is closed at `q`. */
  ghost predicate ClosesComment(s: string, p: nat, q: nat) {
    IsBalanced(s, p, q) && StartsWith(s, q, '*', '/')
  }

  ghost predicate NeverCloses(s: string, p: nat) {
    forall q: nat :: !ClosesComment(s, p, q)
  }

  lemma {:induction false} NestedEndIsBalanced(s: string, p: nat)
    requires p <= |s|
    ensures NestedEnd(s, p).Some? ==> ClosesComment(s, p, NestedEnd(s, p).value - 2)
    decreases |s| - p
  {
    if p < |s| && !StartsWith(s, p, '*', '/') && NestedEnd(s, p).Some? {
      if StartsWith(s, p, '/', '*') {
        var q := NestedEnd(s, p + 2).value;
        NestedEndIsBalanced(s, p + 2);
        NestedEndIsBalanced(s, q);
        assert StartsWith(s, q - 2, '*', '/') && IsBalanced(s, p + 2, q - 2);
      } else {
        NestedEndIsBalanced(s, p + 1);
      }
    }
  }

  /** A comment ends where it would end if it began behind a balanced part of its body. */
  lemma {:induction false} BalancedIsSkipped(s: string, p: nat, q: nat)
    requires IsBalanced(s, p, q)
    ensures NestedEnd(s, p) == NestedEnd(s, q)
    decreases q - p
  {
    if p < q {
      if StartsWith(s, p, '/', '*') {
        var m: nat :| p + 2 <= m && m + 2 <= q && StartsWith(s, m, '*', '/')
                      && IsBalanced(s, p + 2, m) && IsBalanced(s, m + 2, q);
        BalancedIsSkipped(s, p + 2, m);
        BalancedIsSkipped(s, m + 2, q);
      } else {
        BalancedIsSkipped(s, p + 1, q);
      }
    }
  }

  lemma CommentCloses(s: string, p: nat)
    requires p <= |s|
    ensures NestedEnd(s, p).None? <==> NeverCloses(s, p)
    ensures forall q: nat :: ClosesComment(s, p, q) <==> NestedEnd(s, p) == Some(q + 2)
  {
    NestedEndIsBalanced(s, p);
    forall q: nat | ClosesComment(s, p, q) ensures NestedEnd(s, p) == Some(q + 2) {
      BalancedIsSkipped(s, p, q);
    }
  }

  /** A block comment ends right after the closing mark of its balanced body, or with a text that closes none. */
  lemma BlockCommentExactly(s: string, alnum: char -> bool, i: nat, e: nat)
    ensures IsToken(s, alnum, BlockComment, i, e)
        <==> && i + 2 <= e <= |s| && StartsWith(s, i, '/', '*')
             && ((i + 4 <= e && ClosesComment(s, i + 2, e - 2)) || (e == |s| && NeverCloses(s, i + 2)))
  {
    if i + 2 <= |s| {
      CommentCloses(s, i + 2);
    }
  }

  /** A comment that opens inside a comment, behind a balanced part of its body, lies inside it, and the outer one goes
      on behind it. */
  lemma InnerLiesInside(s: string, alnum: char -> bool, i: nat, e: nat, p: nat, d: nat)
    requires IsToken(s, alnum, BlockComment, i, e) && IsToken(s, alnum, BlockComment, p, d)
    requires IsBalanced(s, i + 2, p) && p < e
    ensures d <= e && (d == e ==> e == |s|)
  {
    BalancedIsSkipped(s, i + 2, p);
  }

  /** A comment as it is written: words without slashes and stars, and inner comments. */
  datatype Piece = Word(text: string) | Inner(pieces: seq<Piece>)

  function WritePiece(piece: Piece): string {
    match piece
    case Word(text) => text
    case Inner(pieces) => "/*" + WriteBody(pieces) + "*/"
  }

  function WriteBody(pieces: seq<Piece>): string {
    if pieces == [] then "" else WritePiece(pieces[0]) + WriteBody(pieces[1..])
  }

  predicate IsPiece(piece: Piece) {
    match piece
    case Word(text) => '/' !in text && '*' !in text
    case Inner(pieces) => forall inner <- pieces :: IsPiece(inner)
  }

  lemma {:induction false} WordIsBalanced(s: string, p: nat, q: nat)
    requires p <= q <= |s| && forall k :: p <= k < q ==> s[k] != '/' && s[k] != '*'
    ensures IsBalanced(s, p, q)
    decreases q - p
  {
    if p < q {
      WordIsBalanced(s, p + 1, q);
    }
  }

  lemma {:induction false} BalancedThenBalanced(s: string, p: nat, q: nat, r: nat)
    requires IsBalanced(s, p, q) && IsBalanced(s, q, r)
    ensures IsBalanced(s, p, r)
    decreases q - p
  {
    if p < q {
      if StartsWith(s, p, '/', '*') {
        var m: nat :| p + 2 <= m && m + 2 <= q && StartsWith(s, m, '*', '/')
                      && IsBalanced(s, p + 2, m) && IsBalanced(s, m + 2, q);
        BalancedThenBalanced(s, m + 2, q, r);
      } else {
        BalancedThenBalanced(s, p + 1, q, r);
      }
    }
  }

  lemma {:induction false} PieceIsBalanced(s: string, p: nat, piece: Piece)
    requires IsPiece(piece) && At(s, p, WritePiece(piece))
    ensures IsBalanced(s, p, p + |WritePiece(piece)|)
    decreases piece, 0
  {
    var text := WritePiece(piece);
    match piece
    case Word(_) =>
      forall k | p <= k < p + |text| ensures s[k] != '/' && s[k] != '*' {
        assert s[k] == text[k - p] && text[k - p] in text;
      }
      WordIsBalanced(s, p, p + |text|);
    case Inner(pieces) =>
      CommentParts(s, p, pieces);
      BodyIsBalanced(s, p + 2, pieces);
      InnerIsBalanced(s, p, p + 2 + |WriteBody(pieces)|);
  }

  lemma MarksAreThere(s: string, p: nat, m: nat)
    requires At(s, p, "/*") && At(s, m, "*/")
    ensures StartsWith(s, p, '/', '*') && StartsWith(s, m, '*', '/')
  {
    assert s[p] == "/*"[0] && s[p + 1] == "/*"[1];
    assert s[m] == "*/"[0] && s[m + 1] == "*/"[1];
  }

  lemma InnerIsBalanced(s: string, p: nat, m: nat)
    requires p + 2 <= m && At(s, p, "/*") && At(s, m, "*/") && IsBalanced(s, p + 2, m)
    ensures IsBalanced(s, p, m + 2)
  {
    MarksAreThere(s, p, m);
    assert IsBalanced(s, m + 2, m + 2);
  }

  lemma {:induction false} BodyIsBalanced(s: string, p: nat, pieces: seq<Piece>)
    requires (forall piece <- pieces :: IsPiece(piece)) && At(s, p, WriteBody(pieces))
    ensures IsBalanced(s, p, p + |WriteBody(pieces)|)
    decreases pieces
  {
    if pieces != [] {
      var first, rest := WritePiece(pieces[0]), WriteBody(pieces[1..]);
      var q, r := p + |first|, p + |first| + |rest|;
      assert r == p + |WriteBody(pieces)|;
      AtBoth(s, p, first, rest);
      PieceIsBalanced(s, p, pieces[0]);
      assert forall piece <- pieces[1..] :: piece in pieces;
      BodyIsBalanced(s, q, pieces[1..]);
      BalancedThenBalanced(s, p, q, r);
    }
  }

  /** Wherever a comment is written, its opening mark starts a token of exactly its length, inner comments included. */
  lemma WrittenCommentIsToken(s: string, alnum: char -> bool, i: nat, pieces: seq<Piece>)
    requires IsPiece(Inner(pieces)) && At(s, i, WritePiece(Inner(pieces)))
    ensures IsToken(s, alnum, BlockComment, i, i + |WriteBody(pieces)| + 4)
  {
    WrittenCommentEnds(s, i, pieces);
  }

  lemma WrittenCommentEnds(s: string, i: nat, pieces: seq<Piece>)
    requires IsPiece(Inner(pieces)) && At(s, i, WritePiece(Inner(pieces)))
    ensures StartsWith(s, i, '/', '*') && NestedEnd(s, i + 2) == Some(i + 4 + |WriteBody(pieces)|)
  {
    WrittenMarks(s, i, pieces);
    WrittenBody(s, i, pieces);
    EndFollows(s, i, i + 2 + |WriteBody(pieces)|);
  }

  lemma WrittenMarks(s: string, i: nat, pieces: seq<Piece>)
    requires At(s, i, WritePiece(Inner(pieces)))
    ensures StartsWith(s, i, '/', '*') && StartsWith(s, i + 2 + |WriteBody(pieces)|, '*', '/')
  {
    CommentParts(s, i, pieces);
    MarksAreThere(s, i, i + 2 + |WriteBody(pieces)|);
  }

  lemma WrittenBody(s: string, i: nat, pieces: seq<Piece>)
    requires IsPiece(Inner(pieces)) && At(s, i, WritePiece(Inner(pieces)))
    ensures IsBalanced(s, i + 2, i + 2 + |WriteBody(pieces)|)
  {
    CommentParts(s, i, pieces);
    BodyIsBalanced(s, i + 2, pieces);
  }

  lemma EndFollows(s: string, i: nat, m: nat)
    requires StartsWith(s, i, '/', '*') && StartsWith(s, m, '*', '/') && IsBalanced(s, i + 2, m)
    ensures NestedEnd(s, i + 2) == Some(m + 2)
  {
    BalancedIsSkipped(s, i + 2, m);
  }

  lemma CommentParts(s: string, i: nat, pieces: seq<Piece>)
    requires At(s, i, WritePiece(Inner(pieces)))
    ensures At(s, i, "/*") && At(s, i + 2, WriteBody(pieces)) && At(s, i + 2 + |WriteBody(pieces)|, "*/")
  {
    AtThree(s, i, "/*", WriteBody(pieces), "*/");
  }

  // ---------- Raw strings by their spelling ----------

  function Hashes(n: nat): string {
    seq(n, _ => '#')
  }

  /** The closing mark of a raw string with this many hashes. */
  function Closer(n: nat): string {
    ['"'] + Hashes(n)
  }

  /** The mark stands nowhere in the body or across its end. */
  ghost predicate IsRawBody(body: string, n: nat) {
    forall c :: 0 <= c < |body| ==> !At(body + Closer(n), c, Closer(n))
  }

  function WriteRaw(byte: bool, n: nat, body: string): string {
    (if byte then "br" else "r") + (Hashes(n) + (['"'] + (body + Closer(n))))
  }

  /** Wherever a raw string is written that does not continue a word, it is a token of exactly its length; backslashes
      and quotes in it mean nothing. */
  lemma WrittenRawIsToken(s: string, alnum: char -> bool, i: nat, byte: bool, n: nat, body: string)
    requires i == 0 || (i <= |s| && !alnum(s[i - 1]) && s[i - 1] != '_')
    requires IsRawBody(body, n) && At(s, i, WriteRaw(byte, n, body))
    ensures IsToken(s, alnum, RawString, i, i + |WriteRaw(byte, n, body)|)
  {
    RawTextIsRaw(s, alnum, i, byte, n, body);
  }

  lemma RawTextIsRaw(s: string, alnum: char -> bool, i: nat, byte: bool, n: nat, body: string)
    requires i == 0 || (i <= |s| && !alnum(s[i - 1]) && s[i - 1] != '_')
    requires IsRawBody(body, n) && At(s, i, WriteRaw(byte, n, body))
    ensures IsRawString(s, alnum, i, i + |WriteRaw(byte, n, body)|)
  {
    RawParts(s, i, byte, n, body);
    RawOpens(s, alnum, i, byte, n);
    RawEnds(s, n, RawHashes(i, byte) + n, body);
  }

  /** Where the hashes of a raw string that starts at `i` begin. */
  function RawHashes(i: nat, byte: bool): nat {
    if byte then i + 2 else i + 1
  }

  lemma RawParts(s: string, i: nat, byte: bool, n: nat, body: string)
    requires At(s, i, WriteRaw(byte, n, body))
    ensures At(s, i, if byte then "br" else "r") && At(s, RawHashes(i, byte), Hashes(n))
    ensures At(s, RawHashes(i, byte) + n, ['"']) && At(s, RawHashes(i, byte) + n + 1, body + Closer(n))
    ensures i + |WriteRaw(byte, n, body)| == RawHashes(i, byte) + n + 1 + |body| + 1 + n
  {
    AtFour(s, i, if byte then "br" else "r", Hashes(n), ['"'], body + Closer(n));
  }

  lemma AtFour(s: string, i: nat, a: string, b: string, c: string, d: string)
    requires At(s, i, a + (b + (c + d)))
    ensures At(s, i, a) && At(s, i + |a|, b) && At(s, i + |a| + |b|, c) && At(s, i + |a| + |b| + |c|, d)
    ensures |a + (b + (c + d))| == |a| + |b| + |c| + |d|
  {
    AtBoth(s, i, a, b + (c + d));
    AtBoth(s, i + |a|, b, c + d);
    AtBoth(s, i + |a| + |b|, c, d);
  }

  lemma RawOpens(s: string, alnum: char -> bool, i: nat, byte: bool, n: nat)
    requires i == 0 || (i <= |s| && !alnum(s[i - 1]) && s[i - 1] != '_')
    requires At(s, i, if byte then "br" else "r")
    requires At(s, RawHashes(i, byte), Hashes(n)) && At(s, RawHashes(i, byte) + n, ['"'])
    ensures OpensRaw(s, alnum, i, RawHashes(i, byte) + n) && RawLetter(s, i) + 1 == RawHashes(i, byte)
  {
    var h := RawHashes(i, byte);
    var prefix := if byte then "br" else "r";
    assert s[i] == prefix[0] && s[h - 1] == prefix[h - 1 - i];
    assert forall k :: h <= k < h + n ==> s[k] == Hashes(n)[k - h];
    assert s[h + n] == ['"'][0];
  }

  lemma RawEnds(s: string, n: nat, q: nat, body: string)
    requires IsRawBody(body, n) && At(s, q + 1, body + Closer(n))
    ensures EndsRaw(s, n, q, q + 1 + |body| + 1 + n)
  {
    var tail := body + Closer(n);
    assert forall k :: q + 1 <= k < q + 1 + |tail| ==> s[k] == tail[k - q - 1];
    assert TerminatorAt(s, n, q + 1 + |body|);
    forall c | q < c < q + 1 + |body| ensures !TerminatorAt(s, n, c) {
      TerminatorIsCloser(s, n, q + 1, tail, c - q - 1);
    }
  }

  lemma TerminatorIsCloser(s: string, n: nat, p: nat, tail: string, d: nat)
    requires At(s, p, tail) && d + 1 + n <= |tail|
    ensures TerminatorAt(s, n, p + d) ==> At(tail, d, Closer(n))
  {
    if TerminatorAt(s, n, p + d) {
      forall k | 0 <= k < 1 + n ensures Closer(n)[k] == tail[d + k] {
        assert tail[d + k] == s[p + d + k];
      }
    }
  }

  /** What stands before the body. */
  function RawOpening(byte: bool, n: nat): string {
    (if byte then "br" else "r") + Hashes(n) + ['"']
  }

  ghost predicate NoCloser(s: string, p: nat, n: nat) {
    forall c: nat :: p <= c ==> !At(s, c, Closer(n))
  }

  /** A raw string with its closing mark, or one that the text never closes. */
  ghost predicate IsRawText(s: string, i: nat, byte: bool, n: nat, e: nat) {
    || (exists body :: IsRawBody(body, n) && At(s, i, WriteRaw(byte, n, body)) && e == i + |WriteRaw(byte, n, body)|)
    || (At(s, i, RawOpening(byte, n)) && e == |s| && NoCloser(s, RawHashes(i, byte) + n + 1, n))
  }

  lemma TerminatorIsAt(s: string, n: nat, c: nat)
    ensures TerminatorAt(s, n, c) <==> At(s, c, Closer(n))
  {
    if TerminatorAt(s, n, c) {
      forall k | 0 <= k < 1 + n ensures Closer(n)[k] == s[c + k] {
      }
    }
    if At(s, c, Closer(n)) {
      assert s[c] == Closer(n)[0];
      forall h | c < h <= c + n ensures s[h] == '#' {
        assert Closer(n)[h - c] == s[c + (h - c)];
      }
    }
  }

  lemma NeverTerminated(s: string, n: nat, q: nat)
    ensures NoCloser(s, q + 1, n) <==> forall c: nat :: q < c < |s| ==> !TerminatorAt(s, n, c)
  {
    forall c: nat ensures TerminatorAt(s, n, c) <==> At(s, c, Closer(n)) {
      TerminatorIsAt(s, n, c);
    }
  }

  lemma OpeningIsThere(s: string, alnum: char -> bool, i: nat, q: nat)
    requires OpensRaw(s, alnum, i, q)
    ensures var byte, n := s[i] == 'b', q - RawLetter(s, i) - 1;
            At(s, i, RawOpening(byte, n)) && RawHashes(i, byte) + n == q
  {
    var byte, n := s[i] == 'b', q - RawLetter(s, i) - 1;
    var opening := RawOpening(byte, n);
    var h := RawHashes(i, byte);
    forall k | 0 <= k < |opening| ensures opening[k] == s[i + k] {
      if h - i <= k < h - i + n {
        assert opening[k] == Hashes(n)[k - (h - i)];
      }
    }
  }

  /** The body of a raw string that is closed at `m`. */
  lemma BodyIsThere(s: string, i: nat, byte: bool, n: nat, m: nat)
    requires At(s, i, RawOpening(byte, n)) && At(s, m, Closer(n)) && RawHashes(i, byte) + n < m
    requires forall c :: RawHashes(i, byte) + n < c < m ==> !At(s, c, Closer(n))
    ensures IsRawText(s, i, byte, n, m + 1 + n)
  {
    var p := RawHashes(i, byte) + n + 1;
    var body := s[p..m];
    assert At(s, p, body);
    AtJoined(s, p, body, Closer(n));
    forall c | 0 <= c < |body| ensures !At(body + Closer(n), c, Closer(n)) {
      AtInside(s, p, body + Closer(n), c, Closer(n));
    }
    AtJoined(s, i, RawOpening(byte, n), body + Closer(n));
    assert RawOpening(byte, n) + (body + Closer(n)) == WriteRaw(byte, n, body);
  }

  lemma AtInside(s: string, p: nat, text: string, c: nat, part: string)
    requires At(s, p, text)
    ensures At(text, c, part) ==> At(s, p + c, part)
  {
    if At(text, c, part) {
      forall k | 0 <= k < |part| ensures part[k] == s[p + c + k] {
        assert text[c + k] == s[p + (c + k)];
      }
    }
  }

  lemma RawIsWritten(s: string, alnum: char -> bool, i: nat, e: nat)
    requires IsRawString(s, alnum, i, e)
    ensures exists byte, n :: IsRawText(s, i, byte, n, e)
  {
    var q: nat :| OpensRaw(s, alnum, i, q) && EndsRaw(s, q - RawLetter(s, i) - 1, q, e);
    var byte, n := s[i] == 'b', q - RawLetter(s, i) - 1;
    OpeningIsThere(s, alnum, i, q);
    forall c: nat ensures TerminatorAt(s, n, c) <==> At(s, c, Closer(n)) {
      TerminatorIsAt(s, n, c);
    }
    if forall c :: q < c < |s| ==> !TerminatorAt(s, n, c) {
      NeverTerminated(s, n, q);
    } else {
      BodyIsThere(s, i, byte, n, e - 1 - n);
    }
    assert IsRawText(s, i, byte, n, e);
  }

  lemma UnclosedRawIsRaw(s: string, alnum: char -> bool, i: nat, byte: bool, n: nat)
    requires i == 0 || (i <= |s| && !alnum(s[i - 1]) && s[i - 1] != '_')
    requires At(s, i, RawOpening(byte, n)) && NoCloser(s, RawHashes(i, byte) + n + 1, n)
    ensures IsRawString(s, alnum, i, |s|)
  {
    AtThree(s, i, if byte then "br" else "r", Hashes(n), ['"']);
    RawOpens(s, alnum, i, byte, n);
    NeverTerminated(s, n, RawHashes(i, byte) + n);
  }

  /** A raw string token does not continue a word, and is written so. */
  lemma RawExactly(s: string, alnum: char -> bool, i: nat, e: nat)
    ensures IsToken(s, alnum, RawString, i, e)
        <==> && i < e <= |s| && (i == 0 || (!alnum(s[i - 1]) && s[i - 1] != '_'))
             && exists byte, n :: IsRawText(s, i, byte, n, e)
  {
    if IsToken(s, alnum, RawString, i, e) {
      RawIsWritten(s, alnum, i, e);
    }
    if i < e <= |s| && (i == 0 || (!alnum(s[i - 1]) && s[i - 1] != '_')) {
      if byte, n: nat :| IsRawText(s, i, byte, n, e) {
        RawTextIsToken(s, alnum, i, byte, n, e);
      }
    }
  }

  lemma RawTextIsToken(s: string, alnum: char -> bool, i: nat, byte: bool, n: nat, e: nat)
    requires i == 0 || (i <= |s| && !alnum(s[i - 1]) && s[i - 1] != '_')
    requires IsRawText(s, i, byte, n, e)
    ensures IsRawString(s, alnum, i, e)
  {
    if body :| IsRawBody(body, n) && At(s, i, WriteRaw(byte, n, body)) && e == i + |WriteRaw(byte, n, body)| {
      RawTextIsRaw(s, alnum, i, byte, n, body);
    } else {
      UnclosedRawIsRaw(s, alnum, i, byte, n);
    }
  }

  // ---------- Character literals by their spelling ----------

  datatype Spelling = Single(c: char) | Simple(c: char) | TwoDigits(a: char, b: char) | CodePoint(digits: string)

  function WriteChar(spelling: Spelling): string {
    match spelling
    case Single(c) => [c]
    case Simple(c) => ['\\', c]
    case TwoDigits(a, b) => ['\\', 'x', a, b]
    case CodePoint(digits) => ['\\', 'u', '{'] + digits + ['}']
  }

  /** The digits without their underscores. */
  function Bare(digits: string): string {
    if digits == "" then "" else (if digits[0] == '_' then "" else [digits[0]]) + Bare(digits[1..])
  }

  predicate IsSpelling(spelling: Spelling) {
    match spelling
    case Single(c) => c !in {'\'', '\n', '\r', '\\'}
    case Simple(c) => c in {'n', 'r', 't', '\\', '0', '\'', '"'}
    case TwoDigits(a, b) => IsHex(a) && IsHex(b)
    case CodePoint(digits) => 1 <= |Bare(digits)| <= 6 && forall c <- Bare(digits) :: IsHex(c)
  }

  lemma {:induction false} BareMeans(digits: string)
    ensures |Bare(digits)| == HexDigits(digits)
    ensures (forall c <- Bare(digits) :: IsHex(c)) <==>
              forall k :: 0 <= k < |digits| ==> IsHex(digits[k]) || digits[k] == '_'
  {
    if digits != "" {
      BareMeans(digits[1..]);
      assert forall k :: 1 <= k < |digits| ==> digits[k] == digits[1..][k - 1];
      assert forall c <- Bare(digits) :: (c == digits[0] && digits[0] != '_') || c in Bare(digits[1..]);
      assert digits[0] != '_' ==> Bare(digits)[0] == digits[0] && digits[0] in Bare(digits);
      assert forall c <- Bare(digits[1..]) :: c in Bare(digits);
    }
  }

  lemma CodePointIsBody(digits: string)
    ensures IsUnicodeEscape(WriteChar(CodePoint(digits))) <==> IsSpelling(CodePoint(digits))
  {
    var body := WriteChar(CodePoint(digits));
    assert body[3..|body| - 1] == digits;
    assert forall k :: 3 <= k < |body| - 1 ==> body[k] == digits[k - 3];
    assert forall k :: 0 <= k < |digits| ==> digits[k] == body[k + 3];
    BareMeans(digits);
  }

  lemma SpellingIsBody(spelling: Spelling)
    requires IsSpelling(spelling)
    ensures IsCharBody(WriteChar(spelling))
  {
    if spelling.CodePoint? {
      CodePointIsBody(spelling.digits);
    }
  }

  lemma BodyIsSpelled(body: string) returns (spelling: Spelling)
    requires IsCharBody(body)
    ensures IsSpelling(spelling) && WriteChar(spelling) == body
  {
    if |body| == 1 {
      spelling := Single(body[0]);
    } else if |body| == 2 && body[0] == '\\' && IsSimpleEscape(body[1]) {
      spelling := Simple(body[1]);
    } else if |body| == 4 && body[1] == 'x' {
      spelling := TwoDigits(body[2], body[3]);
    } else {
      var digits := body[3..|body| - 1];
      spelling := CodePoint(digits);
      assert body == WriteChar(spelling);
      CodePointIsBody(digits);
    }
  }

  /** Wherever a character literal is written, it is a token of exactly its length. */
  lemma WrittenCharIsToken(s: string, alnum: char -> bool, i: nat, spelling: Spelling)
    requires IsSpelling(spelling) && At(s, i, ['\''] + WriteChar(spelling) + ['\''])
    ensures IsToken(s, alnum, CharLiteral, i, i + |WriteChar(spelling)| + 2)
  {
    var body := WriteChar(spelling);
    AtThree(s, i, ['\''], body, ['\'']);
    SpellingIsBody(spelling);
    assert s[i] == ['\''][0] && s[i + 1 + |body|] == ['\''][0];
    assert s[i + 1..i + 1 + |body|] == body;
  }

  /** And every character literal is written so. */
  lemma CharIsWritten(s: string, alnum: char -> bool, i: nat, e: nat) returns (spelling: Spelling)
    requires IsToken(s, alnum, CharLiteral, i, e)
    ensures IsSpelling(spelling) && e == i + |WriteChar(spelling)| + 2
    ensures At(s, i, ['\''] + WriteChar(spelling) + ['\''])
  {
    var body := s[i + 1..e - 1];
    spelling := BodyIsSpelled(body);
    AtBetween(s, i, e, '\'');
  }

  lemma AtBetween(s: string, i: nat, e: nat, c: char)
    requires i + 2 <= e <= |s| && s[i] == c && s[e - 1] == c
    ensures At(s, i, [c] + s[i + 1..e - 1] + [c])
  {
    assert s[i..e] == [c] + s[i + 1..e - 1] + [c];
  }

  /** A lifetime or a label is code: an apostrophe, a character, and no apostrophe behind it. */
  lemma LifetimeIsCode(s: string, alnum: char -> bool, i: nat)
    requires i + 1 < |s| && s[i] == '\'' && s[i + 1] != '\\' && (i + 2 == |s| || s[i + 2] != '\'')
    ensures NoTokenAt(s, alnum, i)
  {
    forall e: nat ensures !IsCharLiteral(s, i, e) {
      assert i + 3 <= e <= |s| ==> s[i + 1..e - 1][0] == s[i + 1];
    }
  }

  // ---------- The scanner ----------

  method MaskRange(masked: array<char>, start: nat, end: nat)
    requires start <= end <= masked.Length
    modifies masked
    ensures forall k :: start <= k < end ==>
              masked[k] == if old(masked[k]) == '\n' then '\n' else ' '
    ensures forall k :: 0 <= k < masked.Length && !(start <= k < end) ==> masked[k] == old(masked[k])
  {
    for index := start to end
      invariant forall k :: start <= k < index ==>
                  masked[k] == if old(masked[k]) == '\n' then '\n' else ' '
      invariant forall k :: 0 <= k < masked.Length && !(start <= k < index) ==> masked[k] == old(masked[k])
    {
      if masked[index] != '\n' {
        masked[index] := ' ';
      }
    }
  }

  method FindChar(s: string, c: char, start: nat) returns (r: Option<nat>)
    requires start <= |s|
    ensures r.Some? ==> start <= r.value < |s| && s[r.value] == c
                        && forall k :: start <= k < r.value ==> s[k] != c
    ensures r.None? ==> forall k :: start <= k < |s| ==> s[k] != c
  {
    for index := start to |s|
      invariant forall k :: start <= k < index ==> s[k] != c
    {
      if s[index] == c {
        return Some(index);
      }
    }
    return None;
  }

  method RawStringEnd(s: string, alnum: char -> bool, start: nat) returns (r: Option<nat>)
    requires start < |s|
    ensures r.Some? ==> IsToken(s, alnum, RawString, start, r.value)
    ensures r.None? ==> forall e: nat :: !IsToken(s, alnum, RawString, start, e)
  {
    var rawStart := start;
    if StartsWith(s, start, 'b', 'r') {
      rawStart := rawStart + 1;
    } else if s[start] != 'r' {
      return None;
    }
    if start > 0 && (alnum(s[start - 1]) || s[start - 1] == '_') {
      return None;
    }
    var delimiterEnd := rawStart + 1;
    while delimiterEnd < |s| && s[delimiterEnd] == '#'
      invariant rawStart < delimiterEnd <= |s|
      invariant forall h :: rawStart < h < delimiterEnd ==> s[h] == '#'
    {
      delimiterEnd := delimiterEnd + 1;
    }
    if delimiterEnd == |s| || s[delimiterEnd] != '"' {
      return None;
    }
    var hashes := delimiterEnd - rawStart - 1;
    assert OpensRaw(s, alnum, start, delimiterEnd);
    var end := delimiterEnd + 1;
    while end < |s| && !TerminatorAt(s, hashes, end)
      invariant delimiterEnd < end <= |s|
      invariant forall c :: delimiterEnd < c < end ==> !TerminatorAt(s, hashes, c)
    {
      end := end + 1;
    }
    end := if end == |s| then |s| else end + 1 + hashes;
    assert EndsRaw(s, hashes, delimiterEnd, end);
    return Some(end);
  }

  method DoubleQuotedEnd(s: string, alnum: char -> bool, start: nat) returns (end: nat)
    requires start < |s| && s[start] == '"'
    ensures IsToken(s, alnum, Quoted, start, end)
  {
    var index := start + 1;
    while index < |s|
      invariant start < index <= |s| + 1
      invariant forall c :: start < c < index ==> !ClosesQuote(s, start, c)
      invariant index <= |s| ==> Backslashes(s, start, index) % 2 == 0
    {
      if s[index] == '\n' {
        index := index + 1;
      } else if s[index] == '\\' {
        assert Backslashes(s, start, index + 1) == 1 + Backslashes(s, start, index);
        index := index + 2;
      } else if s[index] == '"' {
        return index + 1;
      } else {
        index := index + 1;
      }
    }
    return |s|;
  }

  method CharLiteralEnd(s: string, alnum: char -> bool, start: nat) returns (r: Option<nat>)
    requires start < |s| && s[start] == '\''
    ensures r.Some? ==> IsToken(s, alnum, CharLiteral, start, r.value)
    ensures r.None? ==> forall e: nat :: !IsToken(s, alnum, CharLiteral, start, e)
  {
    var index := start + 1;
    if index >= |s| || s[index] == '\'' || s[index] == '\n' || s[index] == '\r' {
      NoCharLiteral(s, start);
      return None;
    }
    if s[index] != '\\' {
      index := index + 1;
    } else {
      var escaped := EscapeEnd(s, start);
      if escaped.None? {
        return None;
      }
      index := escaped.value;
    }
    if index < |s| && s[index] == '\'' {
      return Some(index + 1);
    }
    OnlyThisEnd(s, start, index);
    return None;
  }

  /** The escape branch: the end of the escape whose backslash follows the quote at `start`. */
  method EscapeEnd(s: string, start: nat) returns (r: Option<nat>)
    requires start + 1 < |s| && s[start + 1] == '\\'
    ensures r.Some? ==> start + 1 < r.value <= |s| && IsCharBody(s[start + 1..r.value])
    ensures r.None? ==> forall e: nat :: !IsCharLiteral(s, start, e)
  {
    var index := start + 2;
    if index >= |s| {
      return None;
    }
    var escape := s[index];
    if IsSimpleEscape(escape) {
      return Some(index + 1);
    } else if escape == 'x' {
      if index + 2 < |s| && IsHex(s[index + 1]) && IsHex(s[index + 2]) {
        return Some(index + 3);
      }
    } else if escape == 'u' && index + 1 < |s| && s[index + 1] == '{' {
      var closing := FindChar(s, '}', index + 2);
      if closing.Some? {
        r := UnicodeEscapeEnd(s, start, closing.value);
        return;
      }
    }
    NoCharLiteral(s, start);
    return None;
  }

  method UnicodeEscapeEnd(s: string, start: nat, closing: nat) returns (r: Option<nat>)
    requires start + 4 <= closing < |s|
    requires s[start + 1] == '\\' && s[start + 2] == 'u' && s[start + 3] == '{' && s[closing] == '}'
    requires forall k :: start + 4 <= k < closing ==> s[k] != '}'
    ensures r.Some? ==> r.value == closing + 1 && IsUnicodeEscape(s[start + 1..r.value])
    ensures r.None? ==> forall e: nat :: !IsCharLiteral(s, start, e)
  {
    var digits := s[start + 4..closing];
    ghost var body := s[start + 1..closing + 1];
    assert forall k :: 0 <= k < |digits| ==> digits[k] == s[start + 4 + k] == body[k + 3];
    assert body[3..|body| - 1] == digits;
    if 1 <= HexDigits(digits) <= 6 && forall k :: 0 <= k < |digits| ==> IsHex(digits[k]) || digits[k] == '_' {
      assert forall k :: 3 <= k < |body| - 1 ==> body[k] == digits[k - 3];
      return Some(closing + 1);
    }
    NoUnicodeLiteral(s, start, closing);
    return None;
  }

  /** The two characters after the opening quote rule a literal out. */
  lemma NoCharLiteral(s: string, i: nat)
    requires i < |s|
    requires
      || i + 1 >= |s|
      || s[i + 1] in {'\'', '\n', '\r'}
      || (s[i + 1] == '\\' && i + 2 < |s| && !IsSimpleEscape(s[i + 2])
          && (s[i + 2] == 'x' ==> !(i + 4 < |s| && IsHex(s[i + 3]) && IsHex(s[i + 4])))
          && (s[i + 2] == 'u' ==> !(i + 3 < |s| && s[i + 3] == '{' && exists k :: i + 4 <= k < |s| && s[k] == '}')))
    ensures forall e: nat :: !IsCharLiteral(s, i, e)
  {
    forall e: nat ensures !IsCharLiteral(s, i, e) {
      assert i + 3 <= e <= |s| ==> forall k :: i < k < e - 1 ==> s[i + 1..e - 1][k - i - 1] == s[k];
    }
  }

  lemma NoUnicodeLiteral(s: string, i: nat, closing: nat)
    requires i + 4 <= closing < |s| && s[i + 1] == '\\' && s[i + 2] == 'u' && s[i + 3] == '{' && s[closing] == '}'
    requires forall k :: i + 4 <= k < closing ==> s[k] != '}'
    requires !IsUnicodeEscape(s[i + 1..closing + 1])
    ensures forall e: nat :: !IsCharLiteral(s, i, e)
  {
    forall e: nat ensures !IsCharLiteral(s, i, e) {
      assert i + 3 <= e <= |s| ==> forall k :: i < k < e - 1 ==> s[i + 1..e - 1][k - i - 1] == s[k];
    }
  }

  /** Once a body is spelled out, only the quote right after it can close the literal. */
  lemma OnlyThisEnd(s: string, i: nat, index: nat)
    requires i + 1 < index <= |s| && IsCharBody(s[i + 1..index])
    requires index == |s| || s[index] != '\''
    ensures forall e: nat :: !IsCharLiteral(s, i, e)
  {
    forall e: nat ensures !IsCharLiteral(s, i, e) {
      if IsCharLiteral(s, i, e) {
        BodyIsDetermined(s, i + 1, index, e - 1);
      }
    }
  }

  /** What is left to close after `depth` more levels, starting the scan at `p`. */
  ghost function Unwind(s: string, p: nat, depth: nat): (r: Option<nat>)
    requires p <= |s|
    decreases depth
  {
    if depth == 0 then Some(p)
    else match NestedEnd(s, p)
         case None => None
         case Some(q) => Unwind(s, q, depth - 1)
  }

  /** The depth counter computes what the nested grammar describes. */
  method BlockCommentEnd(s: string, alnum: char -> bool, start: nat) returns (end: nat)
    requires StartsWith(s, start, '/', '*')
    ensures IsToken(s, alnum, BlockComment, start, end)
  {
    end := start + 2;
    var depth := 1;
    while end < |s| && depth > 0
      invariant start + 2 <= end <= |s| && 0 <= depth
      invariant Unwind(s, end, depth) == NestedEnd(s, start + 2)
    {
      if StartsWith(s, end, '/', '*') {
        depth := depth + 1;
        end := end + 2;
      } else if StartsWith(s, end, '*', '/') {
        depth := depth - 1;
        end := end + 2;
      } else {
        end := end + 1;
      }
    }
  }

  lemma ExtendLexing(s: string, alnum: char -> bool, toks: seq<Token>, tok: Token)
    requires Lexing(s, alnum, toks, tok.start)
    requires IsToken(s, alnum, tok.kind, tok.start, tok.end)
    ensures Lexing(s, alnum, toks + [tok], tok.end)
    ensures forall i: nat :: Covered(toks + [tok], i) <==> Covered(toks, i) || tok.start <= i < tok.end
  {
    var next := toks + [tok];
    forall i: nat
      ensures Covered(next, i) <==> Covered(toks, i) || tok.start <= i < tok.end
    {
      if Covered(toks, i) {
        var j :| 0 <= j < |toks| && toks[j].start <= i < toks[j].end;
        assert next[j] == toks[j];
      }
      assert next[|toks|] == tok;
    }
  }

  /** One round of the scanner: the token that starts at `index`, if any. */
  method NextToken(source: string, alnum: char -> bool, index: nat) returns (tok: Option<Token>)
    requires index < |source|
    ensures tok.Some? ==> tok.value.start == index && IsToken(source, alnum, tok.value.kind, index, tok.value.end)
    ensures tok.None? ==> NoTokenAt(source, alnum, index)
  {
    if StartsWith(source, index, '/', '/') {
      var end := FindChar(source, '\n', index);
      return Some(Token(LineComment, index, if end.None? then |source| else end.value));
    } else if StartsWith(source, index, '/', '*') {
      var end := BlockCommentEnd(source, alnum, index);
      return Some(Token(BlockComment, index, end));
    } else {
      var rawEnd := RawStringEnd(source, alnum, index);
      if rawEnd.Some? {
        return Some(Token(RawString, index, rawEnd.value));
      } else if source[index] == '"' {
        var end := DoubleQuotedEnd(source, alnum, index);
        return Some(Token(Quoted, index, end));
      } else if source[index] == '\'' {
        var end := CharLiteralEnd(source, alnum, index);
        if end.Some? {
          return Some(Token(CharLiteral, index, end.value));
        }
      }
    }
    return None;
  }

  method MaskNonCode(source: string, alnum: char -> bool) returns (result: string)
    ensures Masks(source, alnum, result)
  {
    var masked := new char[|source|](i requires 0 <= i < |source| => source[i]);
    var index := 0;
    ghost var toks: seq<Token> := [];
    while index < |source|
      invariant 0 <= index <= |source|
      invariant Lexing(source, alnum, toks, index)
      invariant masked[..] == Blanked(source, toks)
    {
      var tok := NextToken(source, alnum, index);
      if tok.Some? {
        MaskRange(masked, index, tok.value.end);
        ExtendLexing(source, alnum, toks, tok.value);
        toks := toks + [tok.value];
        index := tok.value.end;
      } else {
        index := index + 1;
      }
    }
    return masked[..];
  }
}
