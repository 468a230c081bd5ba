/** The printers of lib/json/json_object.c. */
module JsonPrinter {
  import opened JsonMachine

  const BACKSPACE := 8 as char

  function HexChar(d: nat): char
    requires d < 16
  {
    "0123456789abcdef"[d]
  }

  /** The characters that `json_escape_str` does not copy. */
  predicate Special(c: char) {
    c in {BACKSPACE, '\n', '\r', '\t', '"', '\\', '/'} || c < ' '
  }

  function EscapeChar(c: char): (e: string) {
    if c == BACKSPACE then "\\b"
    else if c == '\n' then "\\n"
    else if c == '\r' then "\\r"
    else if c == '\t' then "\\t"
    else if c == '"' then "\\\""
    else if c == '\\' then "\\\\"
    else if c == '/' then "\\/"
    else if c < ' ' then ['\\', 'u', '0', '0', HexChar(c as int / 16), HexChar(c as int % 16)]
    else [c]
  }

  /** The text written for the characters of `s`. */
  function Escape(s: string): string {
    if s == [] then [] else EscapeChar(s[0]) + Escape(s[1..])
  }

  function Digits(n: nat): (s: string)
    ensures s != [] && forall c :: c in s ==> IsDigit(c)
  {
    var last := ['0' + (n % 10) as char];
    if n < 10 then last else Digits(n / 10) + last
  }

  /** `%d` */
  function Decimal(i: int): string {
    if i < 0 then "-" + Digits(-i) else Digits(i)
  }

  /** `json_object_to_json_string`.  What `%lf` makes of the number that a text denotes is left to `lf`. */
  function Print(v: Json, lf: string -> string): string
    decreases v
  {
    match v
    case Null => "null"
    case Bool(b) => if b then "true" else "false"
    case Int(i) => Decimal(i)
    case Double(text) => lf(text)
    case Str(s) => "\"" + Escape(CString(s)) + "\""
    case Arr(items) => "[" + PrintItems(items, 0, lf) + " ]"
    case Obj(members) => "{" + PrintMembers(members, 0, lf) + " }"
  }

  /** The elements from index `i` on. */
  function PrintItems(items: seq<Json>, i: nat, lf: string -> string): string
    requires i <= |items|
    decreases items, |items| - i
  {
    if i == |items| then ""
    else (if i > 0 then ", " else " ") + Print(items[i], lf) + PrintItems(items, i + 1, lf)
  }

  function PrintMember(m: Member, first: bool, lf: string -> string): string
    decreases m
  {
    (if first then "" else ",") + " \"" + Escape(CString(m.key)) + "\": " + Print(m.value, lf)
  }

  function PrintMembers(members: seq<Member>, i: nat, lf: string -> string): string
    requires i <= |members|
    decreases members, |members| - i
  {
    if i == |members| then ""
    else PrintMember(members[i], i == 0, lf) + PrintMembers(members, i + 1, lf)
  }

  // ---------- the printers as they run ----------

  lemma {:induction false} EscapeConcat(a: string, b: string)
    ensures Escape(a + b) == Escape(a) + Escape(b)
  {
    if a == [] {
      assert a + b == b;
    } else {
      EscapeStep(a);
      EscapeStep(a + b);
      hide *;
      EscapeConcat(a[1..], b);
      DropConcat(a, b);
      Assoc(EscapeChar(a[0]), Escape(a[1..]), Escape(b));
    }
  }

  lemma EscapeStep(s: string)
    requires s != []
    ensures Escape(s) == EscapeChar(s[0]) + Escape(s[1..])
  {
  }

  lemma DropConcat(a: string, b: string)
    requires a != []
    ensures (a + b)[0] == a[0] && (a + b)[1..] == a[1..] + b
  {
  }

  lemma Assoc(a: string, b: string, c: string)
    ensures (a + b) + c == a + (b + c)
  {
  }

  predicate Plain(s: string) {
    forall i :: 0 <= i < |s| ==> EscapeChar(s[i]) == [s[i]]
  }

  lemma {:induction false} EscapePlain(s: string)
    requires Plain(s)
    ensures Escape(s) == s
  {
    if s != [] {
      EscapePlain(s[1..]);
    }
  }

  /** `json_escape_str`: plain characters are gathered and copied in one piece. */
  method EscapeStr(pb0: string, str: string) returns (pb: string)
    requires NUL in str
    ensures pb == pb0 + Escape(CString(str))
  {
    var pos, startOffset, c := 0, 0, NUL;
    ghost var n := |CString(str)|;
    CStringEnds(str);
    pb := pb0;
    assert Escape(str[..0]) == "" && Plain(str[0..0]);
    hide *;
    var more := true;
    while more
      invariant startOffset <= pos <= n && (!more ==> pos == n)
      invariant Plain(str[startOffset..pos])
      invariant pb == pb0 + Escape(str[..startOffset])
      decreases n - pos, more
    {
      c := str[pos];
      if c == NUL {
        more := false;
      } else if Special(c) {
        pb := EscapeAt(pb0, str, startOffset, pos, pb);
        pos := pos + 1;
        startOffset := pos;
        PlainNothing(str, pos);
      } else {
        PlainMore(str, startOffset, pos);
        pos := pos + 1;
      }
    }
    pb := Flush(pb0, str, startOffset, pos, pb);
  }

  lemma PlainMore(s: string, i: nat, j: nat)
    requires i <= j < |s| && Plain(s[i..j]) && !Special(s[j])
    ensures Plain(s[i..j + 1])
  {
    assert s[i..j + 1] == s[i..j] + [s[j]];
    assert EscapeChar(s[j]) == [s[j]];
  }

  lemma PlainNothing(s: string, i: nat)
    requires i <= |s|
    ensures Plain(s[i..i])
  {
  }

  /** The cases of the switch that write an escape sequence */
  method AppendEscape(pb0: string, c: char) returns (pb: string)
    requires Special(c)
    ensures pb == pb0 + Escape([c])
  {
    assert Escape([c]) == EscapeChar(c) + Escape([]);
    if c == BACKSPACE {
      pb := pb0 + "\\b";
    } else if c == '\n' {
      pb := pb0 + "\\n";
    } else if c == '\r' {
      pb := pb0 + "\\r";
    } else if c == '\t' {
      pb := pb0 + "\\t";
    } else if c == '"' {
      pb := pb0 + "\\\"";
    } else if c == '\\' {
      pb := pb0 + "\\\\";
    } else if c == '/' {
      pb := pb0 + "\\/";
    } else {
      pb := pb0 + "\\u00" + [HexChar(c as int / 16), HexChar(c as int % 16)];
    }
  }

  /** A character that is not copied, after the plain ones before it */
  method EscapeAt(ghost pb0: string, str: string, startOffset: nat, pos: nat, pb: string) returns (pb': string)
    requires startOffset <= pos < |str| && Special(str[pos])
    requires Plain(str[startOffset..pos]) && pb == pb0 + Escape(str[..startOffset])
    ensures pb' == pb0 + Escape(str[..pos + 1])
  {
    var c := str[pos];
    assert str[..pos + 1] == str[..pos] + [c];
    EscapeConcat(str[..pos], [c]);
    Assoc(pb0, Escape(str[..pos]), Escape([c]));
    hide *;
    pb' := Flush(pb0, str, startOffset, pos, pb);
    pb' := AppendEscape(pb', c);
  }

  /** Copies the plain characters gathered so far. */
  method Flush(ghost pb0: string, str: string, startOffset: nat, pos: nat, pb: string) returns (pb': string)
    requires startOffset <= pos <= |str|
    requires Plain(str[startOffset..pos]) && pb == pb0 + Escape(str[..startOffset])
    ensures pb' == pb0 + Escape(str[..pos])
  {
    hide Plain, Escape;
    Flushed(pb0, str, startOffset, pos);
    var plain := str[startOffset..pos];
    pb' := pb;
    if pos - startOffset > 0 {
      pb' := pb' + plain;
    } else {
      assert pb + plain == pb;
    }
  }

  lemma Flushed(pb0: string, str: string, startOffset: nat, pos: nat)
    requires startOffset <= pos <= |str| && Plain(str[startOffset..pos])
    ensures pb0 + Escape(str[..startOffset]) + str[startOffset..pos] == pb0 + Escape(str[..pos])
  {
    hide Plain, Escape;
    var plain := str[startOffset..pos];
    EscapePlain(plain);
    EscapeConcat(str[..startOffset], plain);
    assert str[..startOffset] + plain == str[..pos];
    Assoc(pb0, Escape(str[..startOffset]), plain);
  }

  /** A C string is what comes before the first NUL. */
  lemma {:induction false} CStringEnds(s: string)
    requires NUL in s
    ensures var n := |CString(s)|; n < |s| && s[n] == NUL && CString(s) == s[..n] && NUL !in s[..n]
  {
    if s[0] != NUL {
      CStringEnds(s[1..]);
    }
  }

  lemma {:induction false} CStringOfBuffer(s: string)
    ensures CString(s + [NUL]) == CString(s)
  {
    if s != [] && s[0] != NUL {
      CStringOfBuffer(s[1..]);
      assert (s + [NUL])[1..] == s[1..] + [NUL];
    }
  }

  /** `_to_json_string` of a value, whatever its type. */
  method ToJsonString(v: Json, lf: string -> string, pb0: string) returns (pb: string)
    ensures pb == pb0 + Print(v, lf)
    decreases v
  {
    match v {
      case Null => pb := pb0 + "null";
      case Bool(b) => pb := pb0 + (if b then "true" else "false");
      case Int(i) => pb := pb0 + Decimal(i);
      case Double(text) => pb := pb0 + lf(text);
      case Str(s) =>
        pb := pb0 + "\"";
        pb := EscapeStr(pb, s + [NUL]);
        CStringOfBuffer(s);
        pb := pb + "\"";
      case Arr(items) => pb := ArrayToJsonString(items, lf, pb0);
      case Obj(members) => pb := ObjectToJsonString(members, lf, pb0);
    }
  }

  /** `json_object_array_to_json_string` */
  method ArrayToJsonString(items: seq<Json>, lf: string -> string, pb0: string) returns (pb: string)
    ensures pb == pb0 + Print(Arr(items), lf)
    decreases items
  {
    hide Print, PrintItems;
    pb := pb0 + "[";
    var i := 0;
    while i < |items|
      invariant i <= |items|
      invariant pb + PrintItems(items, i, lf) == pb0 + "[" + PrintItems(items, 0, lf)
    {
      ItemsStep(pb, items, i, lf);
      if i > 0 {
        pb := pb + ", ";
      } else {
        pb := pb + " ";
      }
      pb := ToJsonString(items[i], lf, pb);
      i := i + 1;
    }
    ItemsEnd(pb0, pb, items, lf);
    pb := pb + " ]";
  }

  lemma ItemsStep(pb: string, items: seq<Json>, i: nat, lf: string -> string)
    requires i < |items|
    ensures pb + PrintItems(items, i, lf) ==
      pb + (if i > 0 then ", " else " ") + Print(items[i], lf) + PrintItems(items, i + 1, lf)
  {
    hide Print;
    var (sep, text, rest) := (if i > 0 then ", " else " ", Print(items[i], lf), PrintItems(items, i + 1, lf));
    Assoc(pb, sep, text);
    Assoc(pb, sep + text, rest);
  }

  lemma ItemsEnd(pb0: string, pb: string, items: seq<Json>, lf: string -> string)
    requires pb + PrintItems(items, |items|, lf) == pb0 + "[" + PrintItems(items, 0, lf)
    ensures pb + " ]" == pb0 + Print(Arr(items), lf)
  {
    var text := PrintItems(items, 0, lf);
    assert PrintItems(items, |items|, lf) == "" && pb + "" == pb;
    hide PrintItems;
    Assoc(pb0, "[", text);
    Assoc(pb0, "[" + text, " ]");
  }

  /** `json_object_object_to_json_string` */
  method ObjectToJsonString(members: seq<Member>, lf: string -> string, pb0: string) returns (pb: string)
    ensures pb == pb0 + Print(Obj(members), lf)
    decreases members
  {
    hide Print, PrintMember, PrintMembers;
    pb := pb0 + "{";
    var i := 0;
    while i < |members|
      invariant i <= |members|
      invariant pb + PrintMembers(members, i, lf) == pb0 + "{" + PrintMembers(members, 0, lf)
    {
      MembersStep(pb, members, i, lf);
      pb := MemberToJsonString(members[i], i == 0, lf, pb);
      i := i + 1;
    }
    MembersEnd(pb0, pb, members, lf);
    pb := pb + " }";
  }

  lemma MembersStep(pb: string, members: seq<Member>, i: nat, lf: string -> string)
    requires i < |members|
    ensures pb + PrintMembers(members, i, lf) ==
      pb + PrintMember(members[i], i == 0, lf) + PrintMembers(members, i + 1, lf)
  {
    hide Print, PrintMember;
    Assoc(pb, PrintMember(members[i], i == 0, lf), PrintMembers(members, i + 1, lf));
  }

  lemma MembersEnd(pb0: string, pb: string, members: seq<Member>, lf: string -> string)
    requires pb + PrintMembers(members, |members|, lf) == pb0 + "{" + PrintMembers(members, 0, lf)
    ensures pb + " }" == pb0 + Print(Obj(members), lf)
  {
    var text := PrintMembers(members, 0, lf);
    assert PrintMembers(members, |members|, lf) == "" && pb + "" == pb;
    hide PrintMembers;
    Assoc(pb0, "{", text);
    Assoc(pb0, "{" + text, " }");
  }

  /** One round of the loop of `json_object_object_to_json_string` */
  method MemberToJsonString(m: Member, first: bool, lf: string -> string, pb0: string) returns (pb: string)
    ensures pb == pb0 + PrintMember(m, first, lf)
    decreases m
  {
    CStringOfBuffer(m.key);
    ghost var name := Escape(CString(m.key));
    hide Escape, CString, Print;
    pb := pb0;
    if !first {
      pb := pb + ",";
    }
    pb := pb + " \"";
    pb := EscapeStr(pb, m.key + [NUL]);
    pb := pb + "\": ";
    assert pb == pb0 + ((if first then "" else ",") + " \"" + name + "\": ");
    pb := ToJsonString(m.value, lf, pb);
  }
}
