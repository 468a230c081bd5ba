/** String literals as section 7 of RFC 8259 has them: which the tokener takes, and for what. */
module JsonStrings {
  import opened Wrappers
  import opened JsonMachine
  import opened JsonCall
  import opened JsonParser
  import opened JsonPrinter
  import opened JsonRoundTrip

  /** The rule `char` of the section, byte by byte: unescaped, behind a backslash, or four hexadecimal digits. */
  datatype Piece = Plain(c: char) | Short(c: char) | Unicode(digits: string)

  predicate IsHexDigit(c: char) {
    IsDigit(c) || 'a' <= c <= 'f' || 'A' <= c <= 'F'
  }

  predicate Grammatical(p: Piece) {
    match p
    case Plain(c) => c >= ' ' && c != '"' && c != '\\'
    case Short(c) => c in "\"\\/bfnrt"
    case Unicode(digits) => |digits| == 4 && forall i :: 0 <= i < 4 ==> IsHexDigit(digits[i])
  }

  function Spelt(p: Piece): string {
    match p
    case Plain(c) => [c]
    case Short(c) => ['\\', c]
    case Unicode(digits) => "\\u" + digits
  }

  function HexValue(c: char): nat
    requires IsHexDigit(c)
  {
    if IsDigit(c) then c as int - '0' as int
    else if c >= 'a' then c as int - 'a' as int + 10 else c as int - 'A' as int + 10
  }

  function Code(digits: string): nat
    requires forall i :: 0 <= i < |digits| ==> IsHexDigit(digits[i])
  {
    if digits == [] then 0 else 16 * Code(digits[..|digits| - 1]) + HexValue(digits[|digits| - 1])
  }

  /** The character that the piece stands for, in UTF-8 */
  function Denoted(p: Piece): string
    requires Grammatical(p)
  {
    match p
    case Plain(c) => [c]
    case Short(c) =>
      [if c == 'b' then 8 as char else if c == 'f' then 12 as char else if c == 'n' then 10 as char
       else if c == 'r' then 13 as char else if c == 't' then 9 as char else c]
    case Unicode(digits) => Utf8(Code(digits))
  }

  /** The tokener knows no form feed and only lower-case digits. */
  predicate Taken(p: Piece) {
    match p
    case Plain(_) => true
    case Short(c) => c != 'f'
    case Unicode(digits) => forall i :: 0 <= i < |digits| ==> !('A' <= digits[i] <= 'F')
  }

  function Spelling(ps: seq<Piece>): string {
    if ps == [] then [] else Spelt(ps[0]) + Spelling(ps[1..])
  }

  function Denotation(ps: seq<Piece>): string
    requires forall i :: 0 <= i < |ps| ==> Grammatical(ps[i])
  {
    if ps == [] then [] else Denoted(ps[0]) + Denotation(ps[1..])
  }

  // ---------- hexadecimal digits ----------

  /** `ucs_char` after these digits, the first of which goes to place `n` */
  function MoreDigits(ucs: nat, n: nat, digits: string): nat
    requires n + |digits| <= 4
    decreases |digits|
  {
    if digits == [] then ucs else MoreDigits(MoreHex(ucs, n, digits[0]), n + 1, digits[1..])
  }

  predicate LowerHex(digits: string) {
    forall i :: 0 <= i < |digits| ==> IsHexChar(digits[i]) && digits[i] != NUL
  }

  lemma LowerHexDigit(c: char)
    requires IsHexDigit(c)
    ensures c != NUL && HexValue(c) < 16
    ensures IsHexChar(c) <==> !('A' <= c <= 'F')
    ensures IsHexChar(c) ==> HexDigit(c) == HexValue(c)
  {
    if 'a' <= c <= 'f' {
      assert c as int % 8 == c as int - 96;
    }
  }

  lemma FourDigits(digits: string)
    requires |digits| == 4 && forall i :: 0 <= i < 4 ==> IsHexDigit(digits[i])
    requires LowerHex(digits)
    ensures MoreDigits(0, 0, digits) == Code(digits) < 0x1_0000
  {
    var (a, b, c, d) := (digits[0], digits[1], digits[2], digits[3]);
    LowerHexDigit(a);
    LowerHexDigit(b);
    LowerHexDigit(c);
    LowerHexDigit(d);
    CodeOfFour(digits);
    MoreOfFour(digits);
  }

  lemma CodeOfFour(digits: string)
    requires |digits| == 4 && forall i :: 0 <= i < 4 ==> IsHexDigit(digits[i])
    ensures Code(digits) == HexValue(digits[0]) * 4096 + HexValue(digits[1]) * 256 + HexValue(digits[2]) * 16
                            + HexValue(digits[3])
  {
    hide HexValue, IsHexDigit;
    var (x, y, z) := (digits[..3], digits[..2], digits[..1]);
    assert x[..2] == y && y[..1] == z && z[..0] == [];
    assert Code(z) == HexValue(digits[0]);
    assert Code(y) == 16 * Code(z) + HexValue(digits[1]);
    assert Code(x) == 16 * Code(y) + HexValue(digits[2]);
  }

  lemma MoreOfFour(digits: string)
    requires |digits| == 4 && forall i :: 0 <= i < 4 ==> 0 <= HexDigit(digits[i]) < 16
    ensures MoreDigits(0, 0, digits) == HexDigit(digits[0]) * 4096 + HexDigit(digits[1]) * 256
                                        + HexDigit(digits[2]) * 16 + HexDigit(digits[3])
  {
    hide HexDigit;
    var (x, y, z) := (digits[1..], digits[2..], digits[3..]);
    assert x[1..] == y && y[1..] == z && z[1..] == [];
    var u := MoreHex(0, 0, digits[0]);
    var v := MoreHex(u, 1, digits[1]);
    var w := MoreHex(v, 2, digits[2]);
    assert u == HexDigit(digits[0]) * 4096;
    assert v == u + HexDigit(digits[1]) * 256;
    assert w == v + HexDigit(digits[2]) * 16;
    hide MoreHex;
    assert MoreDigits(w, 3, z) == MoreDigits(MoreHex(w, 3, digits[3]), 4, []);
    assert MoreDigits(v, 2, y) == MoreDigits(w, 3, z);
    assert MoreDigits(u, 1, x) == MoreDigits(v, 2, y);
    LastPlace(w, digits[3]);
  }

  lemma LastPlace(ucs: nat, c: char)
    requires ucs < 0x1_0000 && 0 <= HexDigit(c) < 16
    ensures MoreHex(ucs, 3, c) == ucs + HexDigit(c)
  {
  }

  /** What section 3 of RFC 3629 reads from such bytes */
  function Decoded(bytes: string): int {
    if |bytes| == 1 then bytes[0] as int
    else if |bytes| == 2 then (bytes[0] as int - 0xc0) * 64 + (bytes[1] as int - 0x80)
    else if |bytes| == 3 then
      (bytes[0] as int - 0xe0) * 4096 + (bytes[1] as int - 0x80) * 64 + (bytes[2] as int - 0x80)
    else -1
  }

  lemma Utf8Decodes(ucs: nat)
    requires ucs < 0x1_0000
    ensures Decoded(Utf8(ucs)) == ucs
    ensures |Utf8(ucs)| == if ucs < 0x80 then 1 else if ucs < 0x800 then 2 else 3
    ensures NUL in Utf8(ucs) <==> ucs == 0
  {
  }

  // ---------- reading ----------

  lemma BadEscape(t: Tokener, s: string, text: string, back: State)
    requires Escaping(t, text, back) && t.Top().state == StringEscape && s != [] && s[0] == 'f'
    ensures Run(t, s).err == ParseString
  {
    Resume(t, s, Null);
    Turn(t, s, Null);
  }

  lemma BadDigit(t: Tokener, s: string, text: string, back: State)
    requires Escaping(t, text, back) && t.Top().state == EscapeUnicode && s != [] && !IsHexChar(s[0])
    ensures Run(t, s).err == ParseString
  {
    assert IsHexChar(NUL);
    hide IsHexChar;
    Resume(t, s, Null);
    Turn(t, s, Null);
  }

  lemma LastDigit(t: Tokener, s: string, text: string, back: State) returns (t': Tokener)
    requires Escaping(t, text, back) && t.Top().state == EscapeUnicode && t.stPos == 3
    requires s != [] && IsHexChar(s[0]) && s[0] != NUL
    ensures InQuotes(t', text + Utf8(MoreHex(t.ucs, 3, s[0]))) && Run(t, s) == Run(t', s[1..])
    ensures t'.stack == t.stack[..|t.stack| - 1] + [t.Top().(state := back)]
  {
    hide MoreHex, IsHexChar, Utf8;
    Resume(t, s, Null);
    Turn(t, s, Null);
    t' := Case(t, s[0], Null).t;
  }

  /** The rest of the digits, from place `t.stPos` on */
  lemma {:induction false} ReadDigits(t: Tokener, digits: string, s: string, text: string, back: State, rest: string)
    returns (t': Tokener)
    requires Escaping(t, text, back) && t.Top().state == EscapeUnicode && t.stPos + |digits| == 4 && t.stPos < 4
    requires s == digits + rest && forall i :: 0 <= i < |digits| ==> IsHexDigit(digits[i])
    ensures
      if LowerHex(digits) then
        && InQuotes(t', text + Utf8(MoreDigits(t.ucs, t.stPos, digits))) && Run(t, s) == Run(t', rest)
        && t'.stack == t.stack[..|t.stack| - 1] + [t.Top().(state := back)]
      else Run(t, s).err == ParseString
    decreases |digits|
  {
    hide Run, MoreHex, IsHexChar, IsHexDigit, Utf8, Ready;
    var more := digits[1..];
    assert s[0] == digits[0] && s[1..] == more + rest;
    LowerHexDigit(digits[0]);
    t' := t;
    if !IsHexChar(digits[0]) {
      BadDigit(t, s, text, back);
    } else if |digits| == 1 {
      t' := LastDigit(t, s, text, back);
      assert more == [] && more + rest == rest;
      assert LowerHex(digits);
    } else {
      var t1 := ReadHex(t, s, text, back);
      t' := ReadDigits(t1, more, s[1..], text, back, rest);
      LowerTail(digits);
    }
  }

  lemma LowerTail(digits: string)
    requires digits != [] && IsHexChar(digits[0]) && digits[0] != NUL
    ensures LowerHex(digits) <==> LowerHex(digits[1..])
  {
    hide IsHexChar;
    assert forall i :: 0 < i < |digits| ==> digits[i] == digits[1..][i - 1];
  }

  lemma TakenDigits(digits: string)
    requires forall i :: 0 <= i < |digits| ==> IsHexDigit(digits[i])
    ensures LowerHex(digits) <==> Taken(Unicode(digits))
  {
    hide IsHexChar, IsHexDigit;
    forall i | 0 <= i < |digits|
      ensures digits[i] != NUL && (IsHexChar(digits[i]) <==> !('A' <= digits[i] <= 'F'))
    {
      LowerHexDigit(digits[i]);
    }
  }

  /** A piece is read for what it denotes, or is an error. */
  lemma ReadPiece(t: Tokener, p: Piece, s: string, text: string, rest: string) returns (t': Tokener)
    requires InQuotes(t, text) && Grammatical(p) && s == Spelt(p) + rest
    ensures
      if Taken(p) then MoreText(t', t, text + Denoted(p)) && Run(t, s) == Run(t', rest)
      else Run(t, s).err == ParseString
  {
    hide Run, TopOk, Waiting, IsHexDigit, IsHexChar, MoreHex, Utf8, Code;
    t' := t;
    match p
    case Plain(c) =>
      assert s[0] == c && s[1..] == rest;
      t' := ReadPlain(t, s, text);
    case Short(c) =>
      assert s[0] == '\\' && s[1..][0] == c && s[1..][1..] == rest;
      var t1 := ReadBackslash(t, s, text);
      if c == 'f' {
        BadEscape(t1, s[1..], text, t.Top().state);
      } else {
        t' := ReadLetter(t1, s[1..], text, t.Top().state);
      }
    case Unicode(digits) => t' := ReadUnicode(t, digits, s, text, rest);
  }

  lemma ReadUnicode(t: Tokener, digits: string, s: string, text: string, rest: string) returns (t': Tokener)
    requires InQuotes(t, text) && Grammatical(Unicode(digits)) && s == Spelt(Unicode(digits)) + rest
    ensures
      if Taken(Unicode(digits)) then
        MoreText(t', t, text + Denoted(Unicode(digits))) && Run(t, s) == Run(t', rest)
      else Run(t, s).err == ParseString
  {
    hide Run, TopOk, Waiting, IsHexDigit, IsHexChar, MoreHex, Utf8, Code;
    assert s[0] == '\\' && s[1..][0] == 'u' && s[1..][1..] == digits + rest;
    var t1 := ReadBackslash(t, s, text);
    var t2 := ReadU(t1, s[1..], text, t.Top().state);
    t' := ReadDigits(t2, digits, s[1..][1..], text, t.Top().state, rest);
    TakenDigits(digits);
    if Taken(Unicode(digits)) {
      FourDigits(digits);
    }
  }

  predicate AllTaken(ps: seq<Piece>) {
    forall i :: 0 <= i < |ps| ==> Taken(ps[i])
  }

  lemma {:induction false} ReadPieces(t: Tokener, ps: seq<Piece>, s: string, text: string, rest: string)
    returns (t': Tokener)
    requires InQuotes(t, text) && s == Spelling(ps) + rest && forall i :: 0 <= i < |ps| ==> Grammatical(ps[i])
    ensures
      if AllTaken(ps) then MoreText(t', t, text + Denotation(ps)) && Run(t, s) == Run(t', rest)
      else Run(t, s).err == ParseString
    decreases |ps|
  {
    hide Run, TopOk, Waiting, Grammatical, Taken, Spelt, Denoted;
    t' := t;
    if ps == [] {
      assert s == rest && text + [] == text;
    } else {
      var s1 := Spelling(ps[1..]) + rest;
      assert s == Spelt(ps[0]) + s1;
      var t1 := ReadPiece(t, ps[0], s, text, s1);
      if Taken(ps[0]) {
        t' := ReadPieces(t1, ps[1..], s1, text + Denoted(ps[0]), rest);
        assert text + Denoted(ps[0]) + Denotation(ps[1..]) == text + Denotation(ps);
      }
    }
  }

  lemma CloseQuotes(t: Tokener, s: string, text: string) returns (t': Tokener)
    requires InQuotes(t, text) && t.Top().state == StringState && s != [] && s[0] == '"'
    ensures Ready(t') && t'.stack == t.stack[..|t.stack| - 1] + [Level(Eatws, Finish, Str(CString(text)), t.Top().fieldName)]
    ensures Run(t, s) == Run(t', s[1..])
  {
    hide CString;
    Resume(t, s, Null);
    Turn(t, s, Null);
    t' := Case(t, s[0], Null).t;
  }

  /** Every string literal of the grammar: the tokener takes it for the characters that it denotes, up to the first NUL,
      exactly if it has no `\f` and no upper-case hexadecimal digit; otherwise it reports an error. */
  lemma StringLiteral(ps: seq<Piece>)
    requires forall i :: 0 <= i < |ps| ==> Grammatical(ps[i])
    ensures Parsed("\"" + Spelling(ps) + "\"") ==
      if AllTaken(ps) then (Some(Str(CString(Denotation(ps)))), Success) else (None, ParseString)
  {
    hide Run, Ready, Grammatical, Taken, CString, Spelling, Denotation;
    var s := "\"" + Spelling(ps) + "\"" + [NUL];
    var rest := "\"" + [NUL];
    NewIsFresh();
    QuotedText(Spelling(ps));
    var t1 := OpenString(NEW, s);
    var t2 := ReadPieces(t1, ps, s[1..], "", rest);
    if AllTaken(ps) {
      assert "" + Denotation(ps) == Denotation(ps);
      var t3 := CloseQuotes(t2, rest, Denotation(ps));
      assert t3.stack == [Level(Eatws, Finish, Str(CString(Denotation(ps))), None)];
      EndOfInput(t3, Str(CString(Denotation(ps))));
    }
  }

  lemma QuotedText(p: string)
    ensures var (s, rest) := ("\"" + p + "\"" + [NUL], "\"" + [NUL]);
      s != [] && s[0] == '"' && s[1..] == p + rest && rest[0] == '"' && rest[1..] == [NUL]
  {
  }

  predicate IsNulPiece(p: Piece)
    requires Grammatical(p)
  {
    p.Unicode? && Code(p.digits) == 0
  }

  /** The value is cut off exactly if the literal has a `\u0000`. */
  lemma {:induction false} CutAtNul(ps: seq<Piece>)
    requires forall i :: 0 <= i < |ps| ==> Grammatical(ps[i])
    ensures NUL in Denotation(ps) <==> exists i :: 0 <= i < |ps| && IsNulPiece(ps[i])
    ensures NUL !in Denotation(ps) ==> CString(Denotation(ps)) == Denotation(ps)
  {
    hide Grammatical, Denoted, IsNulPiece, CString;
    if ps != [] {
      CutAtNul(ps[1..]);
      NulDenoted(ps[0]);
      assert forall i :: 0 < i < |ps| ==> ps[i] == ps[1..][i - 1];
      assert forall i :: 0 <= i < |ps| - 1 ==> ps[1..][i] == ps[i + 1];
    }
    if NUL !in Denotation(ps) {
      CStringWhole(Denotation(ps));
    }
  }

  lemma NulDenoted(p: Piece)
    requires Grammatical(p)
    ensures NUL in Denoted(p) <==> IsNulPiece(p)
  {
    hide Code, Utf8;
    if p.Unicode? {
      CodeOfFour(p.digits);
      DigitBound(p.digits);
      Utf8Decodes(Code(p.digits));
    }
  }

  lemma DigitBound(digits: string)
    requires forall i :: 0 <= i < |digits| ==> IsHexDigit(digits[i])
    ensures forall i :: 0 <= i < |digits| ==> HexValue(digits[i]) < 16
  {
  }
}
