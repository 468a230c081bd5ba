/** Parsing what the printers write gives the value back: for every value of height at most 31, and no other. */
module JsonRoundTrip {
  import opened Wrappers
  import opened JsonMachine
  import opened JsonMembers
  import opened JsonCall
  import opened JsonPrinter
  import opened JsonParser

  /** Values as the library builds them: 32-bit numbers, C strings, objects without equal keys; and no doubles. */
  predicate Printable(v: Json)
    decreases v
  {
    match v
    case Null | Bool(_) => true
    case Int(i) => -0x8000_0000 <= i <= 0x7fff_ffff
    case Double(_) => false
    case Str(s) => NUL !in s
    case Arr(items) => forall i :: 0 <= i < |items| ==> Printable(items[i])
    case Obj(members) =>
      && Distinct(members)
      && forall i :: 0 <= i < |members| ==> NUL !in members[i].key && Printable(members[i].value)
  }

  /** How many levels lie below the value's own. */
  function Height(v: Json): nat
    decreases v
  {
    match v
    case Arr(items) => ItemsHeight(items, 0)
    case Obj(members) => MembersHeight(members, 0)
    case _ => 0
  }

  function ItemsHeight(items: seq<Json>, i: nat): nat
    requires i <= |items|
    decreases items, |items| - i
  {
    if i == |items| then 0 else Max(1 + Height(items[i]), ItemsHeight(items, i + 1))
  }

  function MembersHeight(members: seq<Member>, i: nat): nat
    requires i <= |members|
    decreases members, |members| - i
  {
    if i == |members| then 0
    else Max(1 + Height(members[i].value), MembersHeight(members, i + 1))
  }

  function Max(a: nat, b: nat): nat {
    if a > b then a else b
  }

  // ---------- single characters ----------

  predicate Blank(c: char) {
    IsSpace(c) || c == '/'
  }

  /** A level at which a value is about to begin. */
  predicate Fresh(t: Tokener) {
    Ready(t) && t.Top() == FRESH
  }

  lemma NewIsFresh()
    ensures Fresh(NEW) && |NEW.stack| == 1
  {
  }

  /** `t'` has `l` at the top, and all else in place. */
  predicate Tops(t': Tokener, t: Tokener, l: Level)
    requires |t.stack| > 0
  {
    Ready(t') && t'.stack == t.stack[..|t.stack| - 1] + [l]
  }

  lemma SkipBlank(t: Tokener, s: string)
    requires Ready(t) && t.Top().state == Eatws && s != [] && s[0] == ' '
    ensures Run(t, s) == Run(t, s[1..])
  {
    Resume(t, s, Null);
    Turn(t, s, Null);
    hide Ok, Process, SavedOk;
  }

  /** Behind white space, the saved state takes over. */
  lemma Enter(t: Tokener, s: string)
    requires Ready(t) && t.Top().state == Eatws && s != [] && !Blank(s[0])
    ensures Ok(t.In(t.Top().saved)) && Run(t, s) == AtChar(t.In(t.Top().saved), s, Null)
  {
    Resume(t, s, Null);
    Turn(t, s, Null);
  }

  // ---------- arrays ----------

  lemma OpenArray(t: Tokener, s: string) returns (t': Tokener)
    requires Fresh(t) && s != [] && s[0] == '['
    ensures Tops(t', t, Level(Eatws, ArrayState, Arr([]), None)) && Run(t, s) == Run(t', s[1..])
  {
    Enter(t, s);
    Turn(t.In(Start), s, Null);
    t' := Case(t.In(Start), s[0], Null).t;
  }

  predicate InArray(t: Tokener, saved: State, items: seq<Json>) {
    Ready(t) && t.Top() == Level(Eatws, saved, Arr(items), None)
  }

  lemma CommaArray(t: Tokener, s: string, items: seq<Json>) returns (t': Tokener)
    requires InArray(t, ArraySep, items) && s != [] && s[0] == ','
    ensures Tops(t', t, Level(Eatws, ArrayState, Arr(items), None)) && Run(t, s) == Run(t', s[1..])
  {
    Enter(t, s);
    Turn(t.In(ArraySep), s, Null);
    t' := Case(t.In(ArraySep), s[0], Null).t;
  }

  lemma CloseArray(t: Tokener, s: string, saved: State, items: seq<Json>) returns (t': Tokener)
    requires saved == ArrayState || saved == ArraySep
    requires InArray(t, saved, items) && s != [] && s[0] == ']'
    ensures Tops(t', t, Level(Eatws, Finish, Arr(items), None)) && Run(t, s) == Run(t', s[1..])
  {
    Enter(t, s);
    Turn(t.In(saved), s, Null);
    t' := Case(t.In(saved), s[0], Null).t;
  }

  /** The levels below the top of `t'` are those of `t`, with `l` for the top one. */
  predicate Pushed(t': Tokener, t: Tokener, l: Level)
    requires |t.stack| > 0
  {
    Fresh(t') && t'.stack == t.stack[..|t.stack| - 1] + [l] + [FRESH]
  }

  lemma PushItem(t: Tokener, s: string, items: seq<Json>) returns (t': Tokener)
    requires InArray(t, ArrayState, items) && s != [] && !Blank(s[0]) && s[0] != ']' && s[0] != NUL
    ensures if |t.stack| < MAX_DEPTH
            then Pushed(t', t, Level(ArrayAdd, ArrayState, Arr(items), None)) && Run(t, s) == Run(t', s)
            else Run(t, s).err == ErrorDepth
  {
    Enter(t, s);
    Turn(t.In(ArrayState), s, Null);
    t' := t;
    if |t.stack| < MAX_DEPTH {
      t' := t.In(ArrayState).Push(ArrayAdd);
      Resume(t', s, Null);
    }
  }

  /** A value finished above `l`. */
  predicate Finished(t: Tokener, l: Level, v: Json) {
    && Ready(t) && |t.stack| >= 2
    && t.stack[|t.stack| - 2] == l && t.Top() == Level(Eatws, Finish, v, None)
  }

  /** A finished value reaches the level below. */
  lemma PopLevel(t: Tokener, s: string, l: Level, v: Json)
    requires Finished(t, l, v) && s != [] && !Blank(s[0])
    ensures var t1 := t.(stack := t.stack[..|t.stack| - 1]);
      Ok(t1) && t1.Top() == l && Run(t, s) == AtChar(t1, s, v)
  {
    hide IsSpace, AtChar, Process, SameStart;
    Enter(t, s);
    Turn(t.In(Finish), s, Null);
  }

  lemma PopItem(t: Tokener, s: string, items: seq<Json>, v: Json) returns (t': Tokener)
    requires Finished(t, Level(ArrayAdd, ArrayState, Arr(items), None), v) && s != [] && !Blank(s[0])
    ensures Ready(t') && Run(t, s) == Run(t', s)
    ensures t'.stack == t.stack[..|t.stack| - 2] + [Level(Eatws, ArraySep, Arr(items + [v]), None)]
  {
    PopLevel(t, s, Level(ArrayAdd, ArrayState, Arr(items), None), v);
    var t1 := t.(stack := t.stack[..|t.stack| - 1]);
    Turn(t1, s, v);
    t' := t1.Hold(Arr(items + [v])).Then(ArraySep);
    Resume(t', s, v);
  }

  // ---------- objects ----------

  lemma OpenObject(t: Tokener, s: string) returns (t': Tokener)
    requires Fresh(t) && s != [] && s[0] == '{'
    ensures Tops(t', t, Level(Eatws, ObjectFieldStart, Obj([]), None)) && Run(t, s) == Run(t', s[1..])
  {
    Enter(t, s);
    Turn(t.In(Start), s, Null);
    t' := Case(t.In(Start), s[0], Null).t;
  }

  predicate InObject(t: Tokener, saved: State, members: seq<Member>, name: Option<string>) {
    Ready(t) && t.Top() == Level(Eatws, saved, Obj(members), name)
  }

  lemma CommaObject(t: Tokener, s: string, members: seq<Member>) returns (t': Tokener)
    requires InObject(t, ObjectSep, members, None) && s != [] && s[0] == ','
    ensures Tops(t', t, Level(Eatws, ObjectFieldStart, Obj(members), None)) && Run(t, s) == Run(t', s[1..])
  {
    Enter(t, s);
    Turn(t.In(ObjectSep), s, Null);
    t' := Case(t.In(ObjectSep), s[0], Null).t;
  }

  lemma CloseObject(t: Tokener, s: string, saved: State, members: seq<Member>) returns (t': Tokener)
    requires saved == ObjectFieldStart || saved == ObjectSep
    requires InObject(t, saved, members, None) && s != [] && s[0] == '}'
    ensures Tops(t', t, Level(Eatws, Finish, Obj(members), None)) && Run(t, s) == Run(t', s[1..])
  {
    Enter(t, s);
    Turn(t.In(saved), s, Null);
    t' := Case(t.In(saved), s[0], Null).t;
  }

  lemma OpenField(t: Tokener, s: string, members: seq<Member>) returns (t': Tokener)
    requires InObject(t, ObjectFieldStart, members, None) && s != [] && s[0] == '"'
    ensures Tops(t', t, Level(ObjectField, ObjectFieldStart, Obj(members), None)) && Run(t, s) == Run(t', s[1..])
    ensures t'.pb == "" && t'.quote == '"'
  {
    Enter(t, s);
    Turn(t.In(ObjectFieldStart), s, Null);
    t' := Case(t.In(ObjectFieldStart), s[0], Null).t;
  }

  lemma CloseField(t: Tokener, s: string, members: seq<Member>, key: string) returns (t': Tokener)
    requires Ready(t) && t.Top().state == ObjectField && t.Top().current == Obj(members)
    requires t.pb == key && NUL !in key && t.quote == '"' && s != [] && s[0] == '"'
    ensures Tops(t', t, Level(Eatws, ObjectFieldEnd, Obj(members), Some(key))) && Run(t, s) == Run(t', s[1..])
  {
    CStringWhole(key);
    Resume(t, s, Null);
    Turn(t, s, Null);
    t' := Case(t, s[0], Null).t;
  }

  lemma ColonField(t: Tokener, s: string, members: seq<Member>, key: string) returns (t': Tokener)
    requires InObject(t, ObjectFieldEnd, members, Some(key)) && s != [] && s[0] == ':'
    ensures Tops(t', t, Level(Eatws, ObjectValue, Obj(members), Some(key))) && Run(t, s) == Run(t', s[1..])
  {
    Enter(t, s);
    Turn(t.In(ObjectFieldEnd), s, Null);
    t' := Case(t.In(ObjectFieldEnd), s[0], Null).t;
  }

  lemma PushValue(t: Tokener, s: string, members: seq<Member>, key: string) returns (t': Tokener)
    requires InObject(t, ObjectValue, members, Some(key)) && s != [] && !Blank(s[0]) && s[0] != NUL
    ensures if |t.stack| < MAX_DEPTH
            then Pushed(t', t, Level(ObjectValueAdd, ObjectValue, Obj(members), Some(key))) && Run(t, s) == Run(t', s)
            else Run(t, s).err == ErrorDepth
  {
    Enter(t, s);
    Turn(t.In(ObjectValue), s, Null);
    t' := t;
    if |t.stack| < MAX_DEPTH {
      t' := t.In(ObjectValue).Push(ObjectValueAdd);
      Resume(t', s, Null);
    }
  }

  lemma PopValue(t: Tokener, s: string, members: seq<Member>, key: string, v: Json) returns (t': Tokener)
    requires Finished(t, Level(ObjectValueAdd, ObjectValue, Obj(members), Some(key)), v) && s != [] && !Blank(s[0])
    requires forall i :: 0 <= i < |members| ==> members[i].key != key
    ensures Ready(t') && Run(t, s) == Run(t', s)
    ensures t'.stack == t.stack[..|t.stack| - 2] + [Level(Eatws, ObjectSep, Obj(members + [Member(key, v)]), None)]
  {
    DelNone(members, key);
    PopLevel(t, s, Level(ObjectValueAdd, ObjectValue, Obj(members), Some(key)), v);
    hide ObjectDel, Waiting;
    var t1 := t.(stack := t.stack[..|t.stack| - 1]);
    Turn(t1, s, v);
    t' := t1.Hold(Obj(members + [Member(key, v)])).Name(None).Then(ObjectSep);
    Resume(t', s, v);
  }

  lemma {:induction false} CStringWhole(s: string)
    requires NUL !in s
    ensures CString(s) == s
  {
    if s != [] {
      CStringWhole(s[1..]);
    }
  }

  // ---------- text in quotes ----------

  /** Inside a string or a name, with `text` read so far. */
  predicate InQuotes(t: Tokener, text: string) {
    Ready(t) && t.quote == '"' && t.pb == text && (t.Top().state == StringState || t.Top().state == ObjectField)
  }

  /** `t'` is `t` with other text; reading it may have overwritten the saved state. */
  predicate MoreText(t': Tokener, t: Tokener, text: string)
    requires |t.stack| > 0
  {
    InQuotes(t', text) && t'.stack == t.stack[..|t.stack| - 1] + [t.Top().(saved := t'.Top().saved)]
  }

  lemma ReadPlain(t: Tokener, s: string, text: string) returns (t': Tokener)
    requires InQuotes(t, text) && s != [] && s[0] !in {NUL, '"', '\\'}
    ensures MoreText(t', t, text + [s[0]]) && Run(t, s) == Run(t', s[1..])
  {
    Resume(t, s, Null);
    Turn(t, s, Null);
    t' := Case(t, s[0], Null).t;
  }

  /** After a backslash: back to `back` with the character that follows. */
  predicate Escaping(t: Tokener, text: string, back: State) {
    && Ready(t) && t.quote == '"' && t.pb == text && (back == StringState || back == ObjectField)
    && t.Top().saved == back
  }

  lemma ReadBackslash(t: Tokener, s: string, text: string) returns (t': Tokener)
    requires InQuotes(t, text) && s != [] && s[0] == '\\'
    ensures Escaping(t', text, t.Top().state) && t'.Top().state == StringEscape
    ensures t'.stack == t.stack[..|t.stack| - 1] + [t.Top().(state := StringEscape, saved := t.Top().state)]
    ensures Run(t, s) == Run(t', s[1..])
  {
    Resume(t, s, Null);
    Turn(t, s, Null);
    t' := Case(t, s[0], Null).t;
  }

  /** The character meant by the letter behind a backslash. */
  function Meant(c: char): char {
    if c == 'b' then BACKSPACE else if c == 'n' then '\n' else if c == 'r' then '\r' else if c == 't' then '\t' else c
  }

  lemma ReadLetter(t: Tokener, s: string, text: string, back: State) returns (t': Tokener)
    requires Escaping(t, text, back) && t.Top().state == StringEscape && s != [] && s[0] in "bnrt\"\\/"
    ensures InQuotes(t', text + [Meant(s[0])]) && Run(t, s) == Run(t', s[1..])
    ensures t'.stack == t.stack[..|t.stack| - 1] + [t.Top().(state := back)]
  {
    Resume(t, s, Null);
    Turn(t, s, Null);
    t' := Case(t, s[0], Null).t;
  }

  lemma ReadU(t: Tokener, s: string, text: string, back: State) returns (t': Tokener)
    requires Escaping(t, text, back) && t.Top().state == StringEscape && s != [] && s[0] == 'u'
    ensures Escaping(t', text, back) && t'.stPos == 0 && t'.ucs == 0 && Run(t, s) == Run(t', s[1..])
    ensures t'.stack == t.stack[..|t.stack| - 1] + [t.Top().(state := EscapeUnicode)]
  {
    Resume(t, s, Null);
    Turn(t, s, Null);
    t' := Case(t, s[0], Null).t;
  }

  lemma ReadHex(t: Tokener, s: string, text: string, back: State) returns (t': Tokener)
    requires Escaping(t, text, back) && t.Top().state == EscapeUnicode && t.stPos < 3
    requires s != [] && IsHexChar(s[0]) && s[0] != NUL
    ensures Escaping(t', text, back) && t'.stack == t.stack && Run(t, s) == Run(t', s[1..])
    ensures t'.stPos == t.stPos + 1 && t'.ucs == MoreHex(t.ucs, t.stPos, s[0])
  {
    hide MoreHex, IsHexChar, Utf8;
    Resume(t, s, Null);
    Turn(t, s, Null);
    t' := Case(t, s[0], Null).t;
  }

  lemma ReadLastHex(t: Tokener, s: string, text: string, back: State, c: char) returns (t': Tokener)
    requires Escaping(t, text, back) && t.Top().state == EscapeUnicode && t.stPos == 3
    requires s != [] && IsHexChar(s[0]) && s[0] != NUL && MoreHex(t.ucs, 3, s[0]) == c as int < 0x80
    ensures InQuotes(t', text + [c]) && Run(t, s) == Run(t', s[1..])
    ensures t'.stack == t.stack[..|t.stack| - 1] + [t.Top().(state := back)]
  {
    assert Utf8(c as int) == [c];
    hide MoreHex, IsHexChar, Utf8;
    Resume(t, s, Null);
    Turn(t, s, Null);
    t' := Case(t, s[0], Null).t;
  }

  lemma HexDigits(c: char)
    requires c < ' '
    ensures var h, l := HexChar(c as int / 16), HexChar(c as int % 16);
      && IsHexChar(h) && IsHexChar(l) && h != NUL && l != NUL && IsHexChar('0')
      && MoreHex(0, 0, '0') == 0 && MoreHex(0, 1, '0') == 0
      && MoreHex(MoreHex(0, 2, h), 3, l) == c as int
  {
    var h, l := HexChar(c as int / 16), HexChar(c as int % 16);
    assert HexDigit(h) == c as int / 16;
    assert HexDigit(l) == c as int % 16;
    assert [4096, 256, 16, 1][2] == 16 && [4096, 256, 16, 1][3] == 1;
  }

  lemma ReadControl(t: Tokener, c: char, s: string, text: string, rest: string) returns (t': Tokener)
    requires InQuotes(t, text) && c < ' ' && |EscapeChar(c)| == 6 && s == EscapeChar(c) + rest
    ensures MoreText(t', t, text + [c]) && Run(t, s) == Run(t', rest)
  {
    var back := t.Top().state;
    HexDigits(c);
    assert s == ['\\', 'u', '0', '0', HexChar(c as int / 16), HexChar(c as int % 16)] + rest;
    hide Run, Ready, EscapeChar, HexChar, MoreHex, IsHexChar;
    var s1 := s[1..];
    var s2 := s1[1..];
    var s3 := s2[1..];
    var s4 := s3[1..];
    var s5 := s4[1..];
    assert s5[1..] == rest;
    var t1 := ReadBackslash(t, s, text);
    var t2 := ReadU(t1, s1, text, back);
    var t3 := ReadHex(t2, s2, text, back);
    var t4 := ReadHex(t3, s3, text, back);
    var t5 := ReadHex(t4, s4, text, back);
    t' := ReadLastHex(t5, s5, text, back, c);
  }

  /** One character of a text, in whatever form the printer gives it. */
  lemma ReadChar(t: Tokener, c: char, s: string, text: string, rest: string) returns (t': Tokener)
    requires InQuotes(t, text) && c != NUL && s == EscapeChar(c) + rest
    ensures MoreText(t', t, text + [c]) && Run(t, s) == Run(t', rest)
  {
    hide Run, TopOk, Waiting, HexChar;
    if |EscapeChar(c)| == 1 {
      assert s[0] == c && s[1..] == rest;
      t' := ReadPlain(t, s, text);
    } else if |EscapeChar(c)| == 2 {
      var t1 := ReadBackslash(t, s, text);
      assert s[1..][1..] == rest;
      t' := ReadLetter(t1, s[1..], text, t.Top().state);
    } else {
      t' := ReadControl(t, c, s, text, rest);
    }
  }

  lemma {:induction false} ReadText(t: Tokener, more: string, s: string, text: string, rest: string)
    returns (t': Tokener)
    requires InQuotes(t, text) && NUL !in more && s == Escape(more) + rest
    ensures MoreText(t', t, text + more) && Run(t, s) == Run(t', rest)
    decreases |more|
  {
    hide Run, TopOk, Waiting, EscapeChar;
    if more == [] {
      assert s == rest && text + more == text;
      t' := t;
    } else {
      var s1 := Escape(more[1..]) + rest;
      assert s == EscapeChar(more[0]) + s1;
      var t1 := ReadChar(t, more[0], s, text, s1);
      t' := ReadText(t1, more[1..], s1, text + [more[0]], rest);
      assert text + [more[0]] + more[1..] == text + more;
    }
  }

  // ---------- values without parts ----------

  /** What may follow a printed value. */
  predicate Stops(s: string) {
    s != [] && s[0] in {',', ' ', NUL}
  }

  predicate Parsed1(t: Tokener, s: string, v: Json, t': Tokener, rest: string)
    requires |t.stack| > 0
  {
    Tops(t', t, Level(Eatws, Finish, v, None)) && Ready(t) && Run(t, s) == Run(t', rest)
  }

  lemma ReadString(t: Tokener, text: string, s: string, rest: string) returns (t': Tokener)
    requires Fresh(t) && NUL !in text && s == "\"" + Escape(text) + "\"" + rest
    ensures Parsed1(t, s, Str(text), t', rest)
  {
    var s1 := Escape(text) + ("\"" + rest);
    assert s[1..] == s1;
    var t1 := OpenString(t, s);
    var t2 := ReadText(t1, text, s1, "", "\"" + rest);
    assert "" + text == text;
    t' := CloseString(t2, "\"" + rest, text);
    assert ("\"" + rest)[1..] == rest;
  }

  lemma OpenString(t: Tokener, s: string) returns (t': Tokener)
    requires Fresh(t) && s != [] && s[0] == '"'
    ensures InQuotes(t', "") && Tops(t', t, Level(StringState, Start, Null, None)) && Run(t, s) == Run(t', s[1..])
  {
    Enter(t, s);
    Turn(t.In(Start), s, Null);
    t' := Case(t.In(Start), s[0], Null).t;
  }

  lemma CloseString(t: Tokener, s: string, text: string) returns (t': Tokener)
    requires InQuotes(t, text) && NUL !in text && t.Top().state == StringState && t.Top().fieldName == None
    requires s != [] && s[0] == '"'
    ensures Tops(t', t, Level(Eatws, Finish, Str(text), None)) && Run(t, s) == Run(t', s[1..])
  {
    CStringWhole(text);
    Resume(t, s, Null);
    Turn(t, s, Null);
    t' := Case(t, s[0], Null).t;
  }

  // numbers

  predicate InNumber(t: Tokener, text: string) {
    Ready(t) && t.Top().state == Number && t.pb == text && !t.isDouble
  }

  lemma {:induction false} ReadNumberText(t: Tokener, more: string, s: string, text: string, rest: string)
    returns (t': Tokener)
    requires InNumber(t, text) && s == more + rest
    requires forall c :: c in more ==> IsDigit(c) || c == '-'
    ensures InNumber(t', text + more) && t'.stack == t.stack && Run(t, s) == Run(t', rest)
    decreases |more|
  {
    hide Run, TopOk, Waiting, IsDigit;
    if more == [] {
      assert s == rest && text + more == text;
      t' := t;
    } else {
      assert s[0] == more[0] && s[1..] == more[1..] + rest;
      var t1 := ReadNumberChar(t, s, text);
      t' := ReadNumberText(t1, more[1..], s[1..], text + [more[0]], rest);
      assert text + [more[0]] + more[1..] == text + more;
    }
  }

  lemma ReadNumberChar(t: Tokener, s: string, text: string) returns (t': Tokener)
    requires InNumber(t, text) && s != [] && (IsDigit(s[0]) || s[0] == '-')
    ensures InNumber(t', text + [s[0]]) && t'.stack == t.stack && Run(t, s) == Run(t', s[1..])
  {
    Resume(t, s, Null);
    Turn(t, s, Null);
    t' := Case(t, s[0], Null).t;
  }

  lemma OpenNumber(t: Tokener, s: string) returns (t': Tokener)
    requires Fresh(t) && s != [] && (IsDigit(s[0]) || s[0] == '-')
    ensures InNumber(t', "") && Tops(t', t, Level(Number, Start, Null, None)) && Run(t, s) == Run(t', s)
  {
    Enter(t, s);
    StartNumber(t.In(Start), s[0]);
    hide Case;
    Turn(t.In(Start), s, Null);
    t' := t.In(Start).In(Number).(pb := "", isDouble := false);
    Resume(t', s, Null);
  }

  lemma StartNumber(t: Tokener, c: char)
    requires Ok(t) && t.Top().state == Start && (IsDigit(c) || c == '-')
    ensures Case(t, c, Null) == Redo(t.In(Number).(pb := "", isDouble := false), Null)
  {
    hide TopOk, Waiting;
  }

  lemma CloseNumber(t: Tokener, s: string, i: int) returns (t': Tokener)
    requires InNumber(t, t.pb) && ScanInt(t.pb) == Some(i) && t.Top() == Level(Number, Start, Null, None) && Stops(s)
    ensures Tops(t', t, Level(Eatws, Finish, Int(i), None)) && Run(t, s) == Run(t', s)
  {
    hide ScanInt, ScansDouble;
    Resume(t, s, Null);
    Turn(t, s, Null);
    t' := Case(t, s[0], Null).t;
    Resume(t', s, Null);
  }

  lemma ReadInt(t: Tokener, i: int, s: string, rest: string) returns (t': Tokener)
    requires Fresh(t) && -0x8000_0000 <= i <= 0x7fff_ffff && s == Decimal(i) + rest && Stops(rest)
    ensures Parsed1(t, s, Int(i), t', rest)
  {
    ScanDecimal(i);
    var t1 := OpenNumber(t, s);
    var t2 := ReadNumberText(t1, Decimal(i), s, "", rest);
    assert "" + Decimal(i) == Decimal(i);
    t' := CloseNumber(t2, rest, i);
  }

  lemma {:induction false} LeadingAll(d: string)
    requires forall c :: c in d ==> IsDigit(c)
    ensures LeadingDigits(d) == d
  {
    if d != [] {
      LeadingAll(d[1..]);
    }
  }

  lemma {:induction false} ValueOfDigits(n: nat)
    ensures DigitsValue(Digits(n)) == n
  {
    var d := Digits(n);
    var last := ['0' + (n % 10) as char];
    if n < 10 {
      assert d[..0] == "";
    } else {
      ValueOfDigits(n / 10);
      assert d[..|d| - 1] == Digits(n / 10) && d[|d| - 1] == last[0];
    }
  }

  /** `sscanf` reads what `sprintf` wrote. */
  lemma ScanDecimal(i: int)
    requires -0x8000_0000 <= i <= 0x7fff_ffff
    ensures ScanInt(Decimal(i)) == Some(i)
  {
    var n := if i < 0 then -i else i;
    LeadingAll(Digits(n));
    ValueOfDigits(n);
    SmallInt32(i);
    SignOf(i);
    hide ToInt32, Digits, DigitsValue, LeadingDigits, Decimal, IsDigit;
  }

  lemma SignOf(i: int)
    ensures Decimal(i) != [] && Decimal(i)[0] != '+'
    ensures i < 0 ==> Decimal(i)[0] == '-' && Decimal(i)[1..] == Digits(-i)
    ensures i >= 0 ==> Decimal(i)[0] != '-' && Decimal(i) == Digits(i)
  {
    if i >= 0 {
      assert Digits(i)[0] in Digits(i);
    }
  }

  lemma SmallInt32(i: int)
    requires -0x8000_0000 <= i <= 0x7fff_ffff
    ensures ToInt32(i) == i
  {
  }

  // words

  /** `k` letters of the word have been read. */
  predicate InWord(t: Tokener, state: State, word: string, k: nat) {
    && k <= |word| && Ready(t) && t.Top() == Level(state, Start, Null, None)
    && t.stPos == k && t.pb == word[..k]
  }

  predicate IsWord(state: State, word: string) {
    (state == NullState && word == "null") || (state == Boolean && (word == "true" || word == "false"))
  }

  lemma OpenWord(t: Tokener, state: State, word: string, s: string) returns (t': Tokener)
    requires Fresh(t) && IsWord(state, word) && s != [] && s[0] == word[0]
    ensures InWord(t', state, word, 0) && Tops(t', t, Level(state, Start, Null, None)) && Run(t, s) == Run(t', s)
  {
    Enter(t, s);
    Turn(t.In(Start), s, Null);
    t' := Case(t.In(Start), s[0], Null).t;
    Resume(t', s, Null);
  }

  lemma ReadWordChar(t: Tokener, state: State, word: string, k: nat, s: string) returns (t': Tokener)
    requires IsWord(state, word) && k < |word| && InWord(t, state, word, k) && s != [] && s[0] == word[k]
    ensures InWord(t', state, word, k + 1) && t'.stack == t.stack && Run(t, s) == Run(t', s[1..])
  {
    MoreWord(t, state, word, k, s[0]);
    t' := t.(pb := word[..k + 1], stPos := k + 1);
    EatOne(t, s, t');
  }

  lemma EatOne(t: Tokener, s: string, t': Tokener)
    requires Ready(t) && s != [] && s[0] != NUL && Case(t, s[0], Null) == Eat(t')
    ensures Ready(t') && Run(t, s) == Run(t', s[1..])
  {
    hide Case;
    Resume(t, s, Null);
    Turn(t, s, Null);
  }

  lemma MoreWord(t: Tokener, state: State, word: string, k: nat, c: char)
    requires IsWord(state, word) && k < |word| && InWord(t, state, word, k) && c == word[k]
    ensures Case(t, c, Null) == Eat(t.(pb := word[..k + 1], stPos := k + 1))
  {
    WordSoFar(word, k);
    assert t.pb + [c] == word[..k + 1];
    hide SameStart, Case, TopOk, Waiting;
    if state == NullState {
      MoreNull(t, c);
    } else {
      MoreBoolean(t, c);
    }
  }

  lemma MoreNull(t: Tokener, c: char)
    requires Ok(t) && t.Top().state == NullState && t.stPos < 4
    requires SameStart("null", t.pb + [c], t.stPos + 1)
    ensures Case(t, c, Null) == Eat(t.(pb := t.pb + [c], stPos := t.stPos + 1))
  {
    hide SameStart, TopOk, Waiting;
  }

  lemma MoreBoolean(t: Tokener, c: char)
    requires Ok(t) && t.Top().state == Boolean
    requires
      var pb, n := t.pb + [c], t.stPos + 1;
      (n <= 4 && SameStart("true", pb, n)) || (n <= 5 && SameStart("false", pb, n) && !SameStart("true", pb, Min(n, 4)))
    ensures Case(t, c, Null) == Eat(t.(pb := t.pb + [c], stPos := t.stPos + 1))
  {
    hide SameStart, TopOk, Waiting;
  }

  lemma WordSoFar(word: string, k: nat)
    requires word in {"null", "true", "false"} && k < |word|
    ensures forall w | w in {"null", "true", "false"} ::
      SameStart(w, word[..k + 1], Min(k + 1, |w|)) <==> w == word
  {
    var pb := word[..k + 1];
    assert forall i :: 0 <= i <= k ==> Lower(pb[i]) == word[i];
    forall w | w in {"null", "true", "false"}
      ensures SameStart(w, pb, Min(k + 1, |w|)) <==> w == word
    {
      assert pb[0] == word[0] && (w != word ==> w[0] != word[0]);
    }
  }

  lemma {:induction false} ReadWord(t: Tokener, state: State, word: string, k: nat, s: string, rest: string)
    returns (t': Tokener)
    requires IsWord(state, word) && k <= |word| && InWord(t, state, word, k) && s == word[k..] + rest
    ensures InWord(t', state, word, |word|) && t'.stack == t.stack && Run(t, s) == Run(t', rest)
    decreases |word| - k
  {
    hide Run, TopOk, Waiting;
    if k == |word| {
      assert s == rest;
      t' := t;
    } else {
      var t1 := ReadWordChar(t, state, word, k, s);
      t' := ReadWord(t1, state, word, k + 1, s[1..], rest);
    }
  }

  function Meaning(word: string): Json {
    if word == "null" then Null else Bool(word == "true")
  }

  lemma CloseWord(t: Tokener, state: State, word: string, s: string) returns (t': Tokener)
    requires IsWord(state, word) && InWord(t, state, word, |word|) && Stops(s)
    ensures Tops(t', t, Level(Eatws, Finish, Meaning(word), None)) && Run(t, s) == Run(t', s)
  {
    EndWord(t, state, word, s[0]);
    t' := t.(pb := word + [s[0]]).Complete(Meaning(word));
    RedoOne(t, s, t');
  }

  lemma RedoOne(t: Tokener, s: string, t': Tokener)
    requires Ready(t) && s != [] && Case(t, s[0], Null) == Redo(t', Null)
    requires |t'.stack| > 0 && !Adding(t')
    ensures Ready(t') && Run(t, s) == Run(t', s)
  {
    hide Case, Process;
    Resume(t, s, Null);
    Turn(t, s, Null);
    Resume(t', s, Null);
  }

  lemma EndWord(t: Tokener, state: State, word: string, c: char)
    requires IsWord(state, word) && InWord(t, state, word, |word|)
    ensures Case(t, c, Null) == Redo(t.(pb := word + [c]).Complete(Meaning(word)), Null)
  {
    WholeWord(word, c);
    assert word[..|word|] == word;
    hide SameStart, TopOk, Waiting;
  }

  lemma WholeWord(word: string, c: char)
    requires word in {"null", "true", "false"}
    ensures var pb := word[..|word|] + [c];
      && SameStart(word, pb, |word|)
      && forall w, n | w in {"null", "true", "false"} && w != word && 0 < n :: !SameStart(w, pb, n)
  {
    var pb := word[..|word|] + [c];
    forall w, n | w in {"null", "true", "false"} && w != word && 0 < n
      ensures !SameStart(w, pb, n)
    {
      assert pb[0] == word[0] && w[0] != Lower(pb[0]);
    }
  }

  lemma ReadWholeWord(t: Tokener, state: State, word: string, s: string, rest: string) returns (t': Tokener)
    requires Fresh(t) && IsWord(state, word) && s == word + rest && Stops(rest)
    ensures Parsed1(t, s, Meaning(word), t', rest)
  {
    var t1 := OpenWord(t, state, word, s);
    assert word[0..] == word;
    var t2 := ReadWord(t1, state, word, 0, s, rest);
    t' := CloseWord(t2, state, word, rest);
  }

  // ---------- values with parts ----------

  /** The ways in which a printed value may begin. */
  lemma FirstChar(v: Json, lf: string -> string)
    requires Printable(v)
    ensures var p := Print(v, lf);
      p != [] && !Blank(p[0]) && p[0] != ']' && p[0] != NUL
  {
    match v
    case Int(i) =>
      if i >= 0 {
        assert Digits(i)[0] in Digits(i);
      }
    case _ =>
  }

  /** What becomes of the value `v`, printed at the beginning of `s`. */
  ghost predicate Reads(t: Tokener, v: Json, s: string, t': Tokener, rest: string)
    requires Ready(t)
  {
    if |t.stack| + Height(v) <= MAX_DEPTH then Parsed1(t, s, v, t', rest) else Run(t, s).err == ErrorDepth
  }

  lemma {:induction false} ReadValue(t: Tokener, v: Json, lf: string -> string, s: string, rest: string)
    returns (t': Tokener)
    requires Fresh(t) && Printable(v) && s == Print(v, lf) + rest && Stops(rest)
    ensures Reads(t, v, s, t', rest)
    decreases v, 0, 0
  {
    hide Run, TopOk, Waiting, Escape, Digits, IsDigit, CString;
    match v
    case Null => t' := ReadWholeWord(t, NullState, "null", s, rest);
    case Bool(b) => t' := ReadWholeWord(t, Boolean, if b then "true" else "false", s, rest);
    case Int(i) => t' := ReadInt(t, i, s, rest);
    case Str(text) =>
      CStringWhole(text);
      t' := ReadString(t, text, s, rest);
    case Arr(items) =>
      var s1 := PrintItems(items, 0, lf) + " ]" + rest;
      assert s[1..] == s1;
      var t1 := OpenArray(t, s);
      assert items[..0] == [];
      t' := ReadItems(t1, items, 0, lf, s1, rest);
    case Obj(members) =>
      var s1 := PrintMembers(members, 0, lf) + " }" + rest;
      assert s[1..] == s1;
      var t1 := OpenObject(t, s);
      assert members[..0] == [];
      t' := ReadMembers(t1, members, 0, lf, s1, rest);
  }

  /** The elements from index `i` on, and the closing bracket. */
  lemma {:induction false} ReadItems(
    t: Tokener, items: seq<Json>, i: nat, lf: string -> string, s: string, rest: string) returns (t': Tokener)
    requires i <= |items| && Printable(Arr(items)) && Stops(rest)
    requires InArray(t, if i == 0 then ArrayState else ArraySep, items[..i])
    requires s == PrintItems(items, i, lf) + " ]" + rest
    ensures
      if |t.stack| + ItemsHeight(items, i) <= MAX_DEPTH then Parsed1(t, s, Arr(items), t', rest)
      else Run(t, s).err == ErrorDepth
    decreases items, |items| - i, 1
  {
    hide Run, TopOk, Waiting, Printable;
    if i == |items| {
      assert items[..i] == items;
      t' := EndArray(t, items, s, rest);
    } else {
      t' := ReadItem(t, items, i, lf, s, rest);
    }
  }

  /** The element at index `i`, and then the others. */
  lemma {:induction false} ReadItem(
    t: Tokener, items: seq<Json>, i: nat, lf: string -> string, s: string, rest: string) returns (t': Tokener)
    requires i < |items| && Printable(Arr(items)) && Stops(rest)
    requires InArray(t, if i == 0 then ArrayState else ArraySep, items[..i])
    requires s == PrintItems(items, i, lf) + " ]" + rest
    ensures
      if |t.stack| + ItemsHeight(items, i) <= MAX_DEPTH then Parsed1(t, s, Arr(items), t', rest)
      else Run(t, s).err == ErrorDepth
    decreases items, |items| - i, 0
  {
    hide Run, TopOk, Waiting, Printable;
    var done, r := items[..i], PrintItems(items, i + 1, lf) + " ]" + rest;
    AnItem(items, i, lf);
    MoreItems(items, i + 1, lf, rest);
    SplitItems(items, i, lf, rest);
    var t2 := EnterItem(t, items, i, lf, s, rest);
    hide Print, PrintItems, Height, ItemsHeight, Blank, Parted;
    t' := t2;
    if |t.stack| < MAX_DEPTH {
      var t3 := ReadValue(t2, items[i], lf, Print(items[i], lf) + r, r);
      if |t.stack| + 1 + Height(items[i]) <= MAX_DEPTH {
        var t4 := LeaveItem(t, t2, t3, r, done, items[i]);
        t' := ReadItems(t4, items, i + 1, lf, r, rest);
      }
    }
  }

  /** From the beginning of an element to its level */
  lemma EnterItem(t: Tokener, items: seq<Json>, i: nat, lf: string -> string, s: string, rest: string)
    returns (t': Tokener)
    requires i < |items| && Printable(Arr(items))
    requires InArray(t, if i == 0 then ArrayState else ArraySep, items[..i])
    requires s == PrintItems(items, i, lf) + " ]" + rest
    ensures var r := PrintItems(items, i + 1, lf) + " ]" + rest;
      if |t.stack| < MAX_DEPTH
      then Pushed(t', t, Level(ArrayAdd, ArrayState, Arr(items[..i]), None)) && Run(t, s) == Run(t', Print(items[i], lf) + r)
      else Run(t, s).err == ErrorDepth
  {
    var s1 := Print(items[i], lf) + (PrintItems(items, i + 1, lf) + " ]" + rest);
    AnItem(items, i, lf);
    SplitItems(items, i, lf, rest);
    hide Run, TopOk, Waiting, Printable, Print, PrintItems, Height, ItemsHeight, Blank;
    var t1 := ReachItem(t, items[..i], i == 0, s, s1);
    t' := PushItem(t1, s1, items[..i]);
  }

  /** From the level of an element back to the array */
  lemma LeaveItem(t: Tokener, t2: Tokener, t3: Tokener, r: string, done: seq<Json>, v: Json) returns (t': Tokener)
    requires Ready(t) && Parted(r)
    requires Pushed(t2, t, Level(ArrayAdd, ArrayState, Arr(done), None))
    requires Tops(t3, t2, Level(Eatws, Finish, v, None))
    ensures Tops(t', t, Level(Eatws, ArraySep, Arr(done + [v]), None)) && Run(t3, r) == Run(t', r)
  {
    hide Run, TopOk, Waiting, Parted;
    t' := ItemDone(t3, r, done, v);
  }

  lemma EndArray(t: Tokener, items: seq<Json>, s: string, rest: string) returns (t': Tokener)
    requires InArray(t, if items == [] then ArrayState else ArraySep, items) && s == " ]" + rest
    ensures Parsed1(t, s, Arr(items), t', rest)
  {
    assert s[1..] == "]" + rest && s[1..][1..] == rest;
    SkipBlank(t, s);
    t' := CloseArray(t, s[1..], t.Top().saved, items);
  }

  lemma AnItem(items: seq<Json>, i: nat, lf: string -> string)
    requires Printable(Arr(items)) && i < |items|
    ensures Printable(items[i])
    ensures var p := Print(items[i], lf);
      p != [] && !Blank(p[0]) && p[0] != ']' && p[0] != NUL
  {
    FirstChar(items[i], lf);
  }

  lemma SplitItems(items: seq<Json>, i: nat, lf: string -> string, rest: string)
    requires i < |items|
    ensures ItemsHeight(items, i) == Max(1 + Height(items[i]), ItemsHeight(items, i + 1))
    ensures PrintItems(items, i, lf) + " ]" + rest ==
      (if i == 0 then " " else ", ") + (Print(items[i], lf) + (PrintItems(items, i + 1, lf) + " ]" + rest))
    ensures items[..i] + [items[i]] == items[..i + 1]
  {
    hide Print, Height;
  }

  lemma MoreItems(items: seq<Json>, i: nat, lf: string -> string, rest: string)
    requires 0 < i <= |items|
    ensures var r := PrintItems(items, i, lf) + " ]" + rest; Stops(r) && Parted(r)
  {
  }

  /** What follows an element or a member. */
  predicate Parted(r: string) {
    r != [] && (r[0] == ',' || (r[0] == ' ' && |r| > 1 && !Blank(r[1])))
  }

  /** To the first character of an element */
  lemma ReachItem(t: Tokener, items: seq<Json>, first: bool, s: string, s1: string) returns (t': Tokener)
    requires InArray(t, if first then ArrayState else ArraySep, items)
    requires s == (if first then " " else ", ") + s1
    ensures Tops(t', t, Level(Eatws, ArrayState, Arr(items), None)) && Run(t, s) == Run(t', s1)
  {
    hide Run, TopOk, Waiting;
    if first {
      assert s[1..] == s1;
      SkipBlank(t, s);
      t' := t;
    } else {
      assert s[1..][1..] == s1;
      t' := CommaArray(t, s, items);
      SkipBlank(t', s[1..]);
    }
  }

  /** From the last character of an element to the array */
  lemma ItemDone(t: Tokener, r: string, items: seq<Json>, v: Json) returns (t': Tokener)
    requires Finished(t, Level(ArrayAdd, ArrayState, Arr(items), None), v) && Parted(r)
    ensures Ready(t') && Run(t, r) == Run(t', r)
    ensures t'.stack == t.stack[..|t.stack| - 2] + [Level(Eatws, ArraySep, Arr(items + [v]), None)]
  {
    hide Run, TopOk, Waiting;
    if r[0] == ' ' {
      SkipBlank(t, r);
      t' := PopItem(t, r[1..], items, v);
      SkipBlank(t', r);
    } else {
      t' := PopItem(t, r, items, v);
    }
  }

  /** The members from index `i` on, and the closing brace. */
  lemma {:induction false} ReadMembers(
    t: Tokener, members: seq<Member>, i: nat, lf: string -> string, s: string, rest: string) returns (t': Tokener)
    requires i <= |members| && Printable(Obj(members)) && Stops(rest)
    requires InObject(t, if i == 0 then ObjectFieldStart else ObjectSep, members[..i], None)
    requires s == PrintMembers(members, i, lf) + " }" + rest
    ensures
      if |t.stack| + MembersHeight(members, i) <= MAX_DEPTH then Parsed1(t, s, Obj(members), t', rest)
      else Run(t, s).err == ErrorDepth
    decreases members, |members| - i, 1
  {
    hide Run, TopOk, Waiting, Printable;
    if i == |members| {
      assert members[..i] == members;
      t' := EndObject(t, members, s, rest);
    } else {
      t' := ReadMember(t, members, i, lf, s, rest);
    }
  }

  /** The member at index `i`, and then the others. */
  lemma {:induction false} ReadMember(
    t: Tokener, members: seq<Member>, i: nat, lf: string -> string, s: string, rest: string) returns (t': Tokener)
    requires i < |members| && Printable(Obj(members)) && Stops(rest)
    requires InObject(t, if i == 0 then ObjectFieldStart else ObjectSep, members[..i], None)
    requires s == PrintMembers(members, i, lf) + " }" + rest
    ensures
      if |t.stack| + MembersHeight(members, i) <= MAX_DEPTH then Parsed1(t, s, Obj(members), t', rest)
      else Run(t, s).err == ErrorDepth
    decreases members, |members| - i, 0
  {
    hide Run, TopOk, Waiting, Printable;
    var m, done := members[i], members[..i];
    var r := PrintMembers(members, i + 1, lf) + " }" + rest;
    AMember(members, i, lf);
    MoreMembers(members, i + 1, lf, rest);
    SplitHeight(members, i);
    var t2 := EnterMember(t, members, i, lf, s, rest);
    hide Print, PrintMember, PrintMembers, Escape, Height, MembersHeight, Blank, Distinct, EscapeChar, CString, Parted;
    t' := t2;
    if |t.stack| < MAX_DEPTH {
      var t3 := ReadValue(t2, m.value, lf, Print(m.value, lf) + r, r);
      if |t.stack| + 1 + Height(m.value) <= MAX_DEPTH {
        var t4 := LeaveMember(t, t2, t3, r, done, m);
        t' := ReadMembers(t4, members, i + 1, lf, r, rest);
      }
    }
  }

  /** From the level of a value back to the object */
  lemma LeaveMember(t: Tokener, t2: Tokener, t3: Tokener, r: string, done: seq<Member>, m: Member)
    returns (t': Tokener)
    requires Ready(t) && Parted(r)
    requires Pushed(t2, t, Level(ObjectValueAdd, ObjectValue, Obj(done), Some(m.key)))
    requires Tops(t3, t2, Level(Eatws, Finish, m.value, None))
    requires forall i :: 0 <= i < |done| ==> done[i].key != m.key
    ensures Tops(t', t, Level(Eatws, ObjectSep, Obj(done + [m]), None)) && Run(t3, r) == Run(t', r)
  {
    hide Run, TopOk, Waiting, Parted;
    t' := ValueDone(t3, r, done, m.key, m.value);
  }

  /** From the beginning of a member to the level of its value */
  lemma EnterMember(t: Tokener, members: seq<Member>, i: nat, lf: string -> string, s: string, rest: string)
    returns (t': Tokener)
    requires i < |members| && Printable(Obj(members))
    requires InObject(t, if i == 0 then ObjectFieldStart else ObjectSep, members[..i], None)
    requires s == PrintMembers(members, i, lf) + " }" + rest
    ensures var m, r := members[i], PrintMembers(members, i + 1, lf) + " }" + rest;
      if |t.stack| < MAX_DEPTH
      then Pushed(t', t, Level(ObjectValueAdd, ObjectValue, Obj(members[..i]), Some(m.key)))
        && Run(t, s) == Run(t', Print(m.value, lf) + r)
      else Run(t, s).err == ErrorDepth
  {
    var m, done := members[i], members[..i];
    var s1 := Print(m.value, lf) + (PrintMembers(members, i + 1, lf) + " }" + rest);
    AMember(members, i, lf);
    SplitMembers(members, i, lf, rest);
    hide Run, TopOk, Waiting, Printable, Print, PrintMember, PrintMembers, Escape, Blank, EscapeChar, CString;
    var t1 := ReachValue(t, done, m.key, i == 0, s, s1);
    t' := PushValue(t1, s1, done, m.key);
  }

  lemma EndObject(t: Tokener, members: seq<Member>, s: string, rest: string) returns (t': Tokener)
    requires InObject(t, if members == [] then ObjectFieldStart else ObjectSep, members, None) && s == " }" + rest
    ensures Parsed1(t, s, Obj(members), t', rest)
  {
    assert s[1..] == "}" + rest && s[1..][1..] == rest;
    SkipBlank(t, s);
    t' := CloseObject(t, s[1..], t.Top().saved, members);
  }

  lemma AMember(members: seq<Member>, i: nat, lf: string -> string)
    requires Printable(Obj(members)) && i < |members|
    ensures Printable(members[i].value) && NUL !in members[i].key
    ensures forall j :: 0 <= j < i ==> members[..i][j].key != members[i].key
    ensures var p := Print(members[i].value, lf);
      p != [] && !Blank(p[0]) && p[0] != NUL
  {
    FirstChar(members[i].value, lf);
  }

  lemma SplitMembers(members: seq<Member>, i: nat, lf: string -> string, rest: string)
    requires i < |members| && NUL !in members[i].key
    ensures PrintMembers(members, i, lf) + " }" + rest ==
      (if i == 0 then "" else ",") + " \"" + Escape(members[i].key) + "\": " +
      (Print(members[i].value, lf) + (PrintMembers(members, i + 1, lf) + " }" + rest))
  {
    var m := members[i];
    CStringWhole(m.key);
    var head, tail := (if i == 0 then "" else ",") + " \"" + Escape(m.key) + "\": ", PrintMembers(members, i + 1, lf);
    assert PrintMembers(members, i, lf) == head + Print(m.value, lf) + tail;
    hide *;
    Regroup(head, Print(m.value, lf), tail, " }", rest);
  }

  lemma SplitHeight(members: seq<Member>, i: nat)
    requires i < |members|
    ensures MembersHeight(members, i) == Max(1 + Height(members[i].value), MembersHeight(members, i + 1))
    ensures members[..i] + [members[i]] == members[..i + 1]
  {
  }

  lemma Regroup(a: string, b: string, c: string, d: string, e: string)
    ensures a + b + c + d + e == a + (b + (c + d + e))
  {
  }

  lemma MoreMembers(members: seq<Member>, i: nat, lf: string -> string, rest: string)
    requires 0 < i <= |members|
    ensures var r := PrintMembers(members, i, lf) + " }" + rest; Stops(r) && Parted(r)
  {
  }

  /** Through a member's name to the first character of its value */
  lemma ReachValue(t: Tokener, members: seq<Member>, key: string, first: bool, s: string, s1: string)
    returns (t': Tokener)
    requires InObject(t, if first then ObjectFieldStart else ObjectSep, members, None) && NUL !in key
    requires s == (if first then "" else ",") + " \"" + Escape(key) + "\": " + s1
    ensures Tops(t', t, Level(Eatws, ObjectValue, Obj(members), Some(key))) && Run(t, s) == Run(t', s1)
  {
    hide Run, TopOk, Waiting, Escape, Blank, EscapeChar, IsSpace;
    var a := " \"" + Escape(key) + "\": " + s1;
    var t1 := t;
    if first {
      assert s == a;
    } else {
      assert s[1..] == a;
      t1 := CommaObject(t, s, members);
    }
    var b := Escape(key) + ("\": " + s1);
    assert a[1..][1..] == b;
    SkipBlank(t1, a);
    var t2 := OpenField(t1, a[1..], members);
    var t3 := ReadText(t2, key, b, "", "\": " + s1);
    assert "" + key == key;
    var c := "\": " + s1;
    var t4 := CloseField(t3, c, members, key);
    t' := ColonField(t4, c[1..], members, key);
    assert c[1..][1..][1..] == s1;
    SkipBlank(t', c[1..][1..]);
  }

  /** From the last character of a value to the object */
  lemma ValueDone(t: Tokener, r: string, members: seq<Member>, key: string, v: Json) returns (t': Tokener)
    requires Finished(t, Level(ObjectValueAdd, ObjectValue, Obj(members), Some(key)), v) && Parted(r)
    requires forall i :: 0 <= i < |members| ==> members[i].key != key
    ensures Ready(t') && Run(t, r) == Run(t', r)
    ensures t'.stack == t.stack[..|t.stack| - 2] + [Level(Eatws, ObjectSep, Obj(members + [Member(key, v)]), None)]
  {
    hide Run, TopOk, Waiting;
    if r[0] == ' ' {
      SkipBlank(t, r);
      t' := PopValue(t, r[1..], members, key, v);
      SkipBlank(t', r);
    } else {
      t' := PopValue(t, r, members, key, v);
    }
  }

  // ---------- the round trip ----------

  lemma EndOfInput(t: Tokener, v: Json)
    requires Ready(t) && t.stack == [Level(Eatws, Finish, v, None)]
    ensures Run(t, [NUL]).err == Success && Value(Run(t, [NUL])) == Some(v)
  {
    Enter(t, [NUL]);
    Turn(t.In(Finish), [NUL], Null);
  }

  /** Parsing a printed value gives it back exactly if its height is at most 31; a higher one is too deep. */
  lemma RoundTrip(v: Json, lf: string -> string)
    requires Printable(v)
    ensures Parsed(Print(v, lf)) == if Height(v) < MAX_DEPTH then (Some(v), Success) else (None, ErrorDepth)
  {
    assert Fresh(NEW);
    hide Run, TopOk, Waiting, Print, Printable, Height;
    var t := ReadValue(NEW, v, lf, Print(v, lf) + [NUL], [NUL]);
    if Height(v) < MAX_DEPTH {
      assert t.stack == [Level(Eatws, Finish, v, None)];
      EndOfInput(t, v);
    }
  }
}
