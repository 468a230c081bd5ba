/** The JSON tokener of lib/json/json_tokener.c as a machine that takes one character at a time. */
module JsonMachine {
  import opened Wrappers

  /** A `struct json_object`, or the null pointer that stands for JSON's null.  A number with a
      `.` or an `e` is kept as the text that `sscanf` would convert. */
  datatype Json =
    | Null
    | Bool(b: bool)
    | Int(i: int)
    | Double(text: string)
    | Str(s: string)
    | Arr(items: seq<Json>)
    | Obj(members: seq<Member>)

  datatype Member = Member(key: string, value: Json)

  /** `enum json_tokener_state` */
  datatype State =
    | Eatws | Start | Finish | NullState | CommentStart | Comment | CommentEol | CommentEnd
    | StringState | StringEscape | EscapeUnicode | Boolean | Number
    | ArrayState | ArrayAdd | ArraySep
    | ObjectFieldStart | ObjectField | ObjectFieldEnd | ObjectValue | ObjectValueAdd | ObjectSep

  /** `enum json_tokener_error` */
  datatype Error =
    | Success | Continue | ErrorDepth | ParseEof | ParseUnexpected | ParseNull | ParseBoolean | ParseNumber
    | ParseArray | ParseObjectKeyName | ParseObjectKeySep | ParseObjectValueSep | ParseString | ParseComment

  /** `struct json_tokener_srec` */
  datatype Level = Level(state: State, saved: State, current: Json, fieldName: Option<string>)

  /** `struct json_tokener`, with the levels up to `depth` as a sequence. */
  datatype Tokener = Tokener(
    stack: seq<Level>, pb: string, isDouble: bool, stPos: nat, ucs: nat, quote: char)
  {
    function Top(): Level
      requires |stack| > 0
    {
      stack[|stack| - 1]
    }

    function WithTop(l: Level): Tokener
      requires |stack| > 0
    {
      this.(stack := stack[|stack| - 1 := l])
    }

    function In(state: State): Tokener
      requires |stack| > 0
    {
      WithTop(Top().(state := state))
    }

    /** Skip white space, then go to `saved`. */
    function Then(saved: State): Tokener
      requires |stack| > 0
    {
      WithTop(Top().(state := Eatws, saved := saved))
    }

    function Name(name: Option<string>): Tokener
      requires |stack| > 0
    {
      WithTop(Top().(fieldName := name))
    }

    function Hold(value: Json): Tokener
      requires |stack| > 0
    {
      WithTop(Top().(current := value))
    }

    /** A value is complete at this level. */
    function Complete(value: Json): Tokener
      requires |stack| > 0
    {
      Hold(value).Then(Finish)
    }

    function Push(state: State): Tokener
      requires |stack| > 0
    {
      var t := In(state);
      t.(stack := t.stack + [FRESH])
    }
  }

  const MAX_DEPTH := 32
  const NUL: char := 0 as char
  const FRESH := Level(Eatws, Start, Null, None)

  /** `json_tokener_new` */
  const NEW := Tokener([FRESH], "", false, 0, 0, NUL)

  // ---------- characters ----------

  /** `isspace` in the C locale */
  predicate IsSpace(c: char) {
    c == ' ' || (9 <= c as int <= 13)
  }

  predicate IsDigit(c: char) {
    '0' <= c <= '9'
  }

  predicate IsNumberChar(c: char) {
    IsDigit(c) || c == '.' || c == '+' || c == '-' || c == 'e' || c == 'E'
  }

  /** `strchr(json_hex_chars, c)`: lower case only, and the terminating NUL is found, too. */
  predicate IsHexChar(c: char) {
    IsDigit(c) || 'a' <= c <= 'f' || c == NUL
  }

  /** The macro `hexdigit` */
  function HexDigit(c: char): int {
    if c <= '9' then c as int - '0' as int else c as int % 8 + 9
  }

  /** `ucs_char += hexdigit(c) << (3 - st_pos) * 4`, in 32 bits */
  function MoreHex(ucs: nat, stPos: nat, c: char): nat
    requires stPos < 4
  {
    (ucs + HexDigit(c) * [4096, 256, 16, 1][stPos]) % 0x1_0000_0000
  }

  function Lower(c: char): char {
    if 'A' <= c <= 'Z' then (c as int + 32) as char else c
  }

  /** `strncasecmp(word, text, n) == 0` */
  predicate SameStart(word: string, text: string, n: nat) {
    n <= |word| && n <= |text| && forall i :: 0 <= i < n ==> word[i] == Lower(text[i])
  }

  function Min(a: nat, b: nat): nat {
    if a < b then a else b
  }

  /** A buffer read as a C string ends at its first NUL. */
  function CString(s: string): string {
    if s == [] || s[0] == NUL then [] else [s[0]] + CString(s[1..])
  }

  /** The UTF-8 encoding of a 16-bit character. */
  function Utf8(ucs: nat): string {
    if ucs < 0x80 then [ucs as char]
    else if ucs < 0x800 then [(0xc0 + ucs / 64) as char, (0x80 + ucs % 64) as char]
    else [(0xe0 + ucs / 4096 % 32) as char, (0x80 + ucs / 64 % 64) as char, (0x80 + ucs % 64) as char]
  }

  // ---------- numbers ----------

  function DigitsValue(s: string): nat
    requires forall c :: c in s ==> IsDigit(c)
  {
    if s == [] then 0
    else
      assert IsDigit(s[|s| - 1]);
      10 * DigitsValue(s[..|s| - 1]) + (s[|s| - 1] as int - '0' as int)
  }

  function LeadingDigits(s: string): (d: string)
    ensures forall c :: c in d ==> IsDigit(c)
  {
    if s == [] || !IsDigit(s[0]) then [] else [s[0]] + LeadingDigits(s[1..])
  }

  /** Conversion to a 64-bit `long`, then to a 32-bit `int`. */
  function ToInt32(v: int): int {
    var long := if v < -0x8000_0000_0000_0000 then -0x8000_0000_0000_0000
                else if v > 0x7fff_ffff_ffff_ffff then 0x7fff_ffff_ffff_ffff else v;
    (long + 0x8000_0000) % 0x1_0000_0000 - 0x8000_0000
  }

  /** `sscanf(s, "%d", ..)`: an optional sign, then at least one digit. */
  function ScanInt(s: string): Option<int> {
    var signed := s != [] && (s[0] == '-' || s[0] == '+');
    var digits := LeadingDigits(if signed then s[1..] else s);
    if digits == [] then None
    else
      var v: int := DigitsValue(digits);
      Some(ToInt32(if signed && s[0] == '-' then -v else v))
  }

  /** `sscanf(s, "%lf", ..) == 1`: an optional sign, then digits around an optional point, at least one. */
  predicate ScansDouble(s: string) {
    var rest := if s != [] && (s[0] == '-' || s[0] == '+') then s[1..] else s;
    rest != [] && (IsDigit(rest[0]) || (rest[0] == '.' && |rest| > 1 && IsDigit(rest[1])))
  }

  // ---------- objects ----------

  /** `json_object_object_add`: an older member of the same name goes, the new one comes last. */
  function ObjectAdd(members: seq<Member>, key: string, value: Json): seq<Member> {
    ObjectDel(members, key) + [Member(key, value)]
  }

  function ObjectDel(members: seq<Member>, key: string): seq<Member> {
    if members == [] then []
    else if members[0].key == key then ObjectDel(members[1..], key)
    else [members[0]] + ObjectDel(members[1..], key)
  }

  // ---------- what every reachable tokener satisfies ----------

  /** The state that follows white space or a comment. */
  predicate SavedOk(l: Level) {
    match l.saved
    case Start | Finish => true
    case ArrayState | ArraySep => l.current.Arr?
    case ObjectFieldStart | ObjectSep => l.current.Obj?
    case ObjectFieldEnd | ObjectValue => l.current.Obj? && l.fieldName.Some?
    case _ => false
  }

  predicate TopOk(t: Tokener)
    requires |t.stack| > 0
  {
    var l := t.Top();
    match l.state
    case Eatws | CommentStart | Comment | CommentEol | CommentEnd => SavedOk(l)
    case Start | Finish | StringState | Number => true
    case NullState => |t.pb| == t.stPos && SameStart("null", t.pb, t.stPos)
    case Boolean => |t.pb| == t.stPos && (SameStart("true", t.pb, t.stPos) || SameStart("false", t.pb, t.stPos))
    case StringEscape => l.saved == StringState || (l.saved == ObjectField && l.current.Obj?)
    case EscapeUnicode => t.stPos < 4 && (l.saved == StringState || (l.saved == ObjectField && l.current.Obj?))
    case ArrayState | ArrayAdd | ArraySep => l.current.Arr?
    case ObjectFieldStart | ObjectField | ObjectSep => l.current.Obj?
    case ObjectFieldEnd | ObjectValue | ObjectValueAdd => l.current.Obj? && l.fieldName.Some?
  }

  predicate Waiting(l: Level) {
    (l.state.ArrayAdd? && l.current.Arr?) || (l.state.ObjectValueAdd? && l.current.Obj? && l.fieldName.Some?)
  }

  predicate Ok(t: Tokener) {
    && 1 <= |t.stack| <= MAX_DEPTH
    && (forall i :: 0 <= i < |t.stack| - 1 ==> Waiting(t.stack[i]))
    && TopOk(t)
  }

  /** A finished value is waiting to be added at this level; never so between two characters. */
  predicate Adding(t: Tokener)
    requires |t.stack| > 0
  {
    t.Top().state.ArrayAdd? || t.Top().state.ObjectValueAdd?
  }

  // ---------- one case of the switch ----------

  /** How a case ends: with `goto redo_char`, with `break`, or with `goto out`. */
  datatype Action =
    | Redo(t: Tokener, obj: Json)
    | Eat(t: Tokener)
    | Stop(t: Tokener, err: Error)

  /** One case of the switch, for one character.  `obj` is the local variable of that name: the
      value that was finished one level up. */
  function Case(t: Tokener, c: char, obj: Json): Action
    requires Ok(t)
  {
    var l := t.Top();
    match l.state
    case Eatws =>
      if IsSpace(c) then Eat(t)
      else if c == '/' then Eat(t.In(CommentStart).(pb := "/"))
      else Redo(t.In(l.saved), obj)
    case Start => CaseStart(t, c, obj)
    case Finish =>
      if |t.stack| == 1 then Stop(t, Success)
      else Redo(t.(stack := t.stack[..|t.stack| - 1]), l.current)
    case NullState =>
      var t := t.(pb := t.pb + [c]);
      if !SameStart("null", t.pb, Min(t.stPos + 1, 4)) then Stop(t, ParseNull)
      else if t.stPos == 4 then Redo(t.Complete(Null), obj)
      else Eat(t.(stPos := t.stPos + 1))
    case CommentStart =>
      if c == '*' then Eat(t.In(Comment).(pb := t.pb + [c]))
      else if c == '/' then Eat(t.In(CommentEol).(pb := t.pb + [c]))
      else Stop(t, ParseComment)
    case Comment =>
      Eat(if c == '*' then t.In(CommentEnd).(pb := t.pb + [c]) else t.(pb := t.pb + [c]))
    case CommentEol =>
      Eat(if c == '\n' then t.In(Eatws) else t.(pb := t.pb + [c]))
    case CommentEnd =>
      Eat(t.In(if c == '/' then Eatws else Comment).(pb := t.pb + [c]))
    case StringState =>
      if c == t.quote then Eat(t.Complete(Str(CString(t.pb))))
      else if c == '\\' then Eat(t.WithTop(l.(state := StringEscape, saved := StringState)))
      else Eat(t.(pb := t.pb + [c]))
    case StringEscape => CaseStringEscape(t, c)
    case EscapeUnicode =>
      if !IsHexChar(c) then Stop(t, ParseString)
      else
        var ucs := MoreHex(t.ucs, t.stPos, c);
        var t := t.(ucs := ucs, stPos := t.stPos + 1);
        if t.stPos == 4 then Eat(t.In(l.saved).(pb := t.pb + Utf8(ucs))) else Eat(t)
    case Boolean => CaseBoolean(t, c, obj)
    case Number =>
      if IsNumberChar(c) then Eat(t.(pb := t.pb + [c], isDouble := t.isDouble || c == '.' || c == 'e'))
      else if t.isDouble && ScansDouble(t.pb) then Redo(t.Complete(Double(t.pb)), obj)
      else if !t.isDouble && ScanInt(t.pb).Some? then Redo(t.Complete(Int(ScanInt(t.pb).value)), obj)
      else Stop(t, ParseNumber)
    case ArrayState =>
      if c == ']' then Eat(t.Then(Finish))
      else if |t.stack| >= MAX_DEPTH then Stop(t, ErrorDepth)
      else Redo(t.Push(ArrayAdd), obj)
    case ArrayAdd =>
      Redo(t.Hold(Arr(l.current.items + [obj])).Then(ArraySep), obj)
    case ArraySep =>
      if c == ']' then Eat(t.Then(Finish))
      else if c == ',' then Eat(t.Then(ArrayState))
      else Stop(t, ParseArray)
    case ObjectFieldStart =>
      if c == '}' then Eat(t.Then(Finish))
      else if c == '"' || c == '\'' then Eat(t.In(ObjectField).(quote := c, pb := ""))
      else Stop(t, ParseObjectKeyName)
    case ObjectField =>
      if c == t.quote then
        Eat(t.Name(Some(CString(t.pb))).Then(ObjectFieldEnd))
      else if c == '\\' then Eat(t.WithTop(l.(state := StringEscape, saved := ObjectField)))
      else Eat(t.(pb := t.pb + [c]))
    case ObjectFieldEnd =>
      if c == ':' then Eat(t.Then(ObjectValue)) else Stop(t, ParseObjectKeySep)
    case ObjectValue =>
      if |t.stack| >= MAX_DEPTH then Stop(t, ErrorDepth)
      else Redo(t.Push(ObjectValueAdd), obj)
    case ObjectValueAdd =>
      Redo(t.Hold(Obj(ObjectAdd(l.current.members, l.fieldName.value, obj))).Name(None).Then(ObjectSep), obj)
    case ObjectSep =>
      if c == '}' then Eat(t.Then(Finish))
      else if c == ',' then Eat(t.Then(ObjectFieldStart))
      else Stop(t, ParseObjectValueSep)
  }

  function CaseStart(t: Tokener, c: char, obj: Json): Action
    requires |t.stack| > 0
  {
    if c == '{' then Eat(t.Then(ObjectFieldStart).Hold(Obj([])))
    else if c == '[' then Eat(t.Then(ArrayState).Hold(Arr([])))
    else if c == 'N' || c == 'n' then Redo(t.In(NullState).(pb := "", stPos := 0), obj)
    else if c == '"' || c == '\'' then Eat(t.In(StringState).(pb := "", quote := c))
    else if c == 'T' || c == 't' || c == 'F' || c == 'f' then Redo(t.In(Boolean).(pb := "", stPos := 0), obj)
    else if IsDigit(c) || c == '-' then Redo(t.In(Number).(pb := "", isDouble := false), obj)
    else Stop(t, ParseUnexpected)
  }

  function CaseBoolean(t: Tokener, c: char, obj: Json): Action
    requires |t.stack| > 0
  {
    var t := t.(pb := t.pb + [c]);
    if SameStart("true", t.pb, Min(t.stPos + 1, 4)) then
      if t.stPos == 4 then Redo(t.Complete(Bool(true)), obj) else Eat(t.(stPos := t.stPos + 1))
    else if SameStart("false", t.pb, Min(t.stPos + 1, 5)) then
      if t.stPos == 5 then Redo(t.Complete(Bool(false)), obj) else Eat(t.(stPos := t.stPos + 1))
    else Stop(t, ParseBoolean)
  }

  function CaseStringEscape(t: Tokener, c: char): Action
    requires |t.stack| > 0
  {
    var back := t.In(t.Top().saved);
    if c == '"' || c == '\\' || c == '/' then Eat(back.(pb := t.pb + [c]))
    else if c == 'b' then Eat(back.(pb := t.pb + [8 as char]))
    else if c == 'n' then Eat(back.(pb := t.pb + ['\n']))
    else if c == 'r' then Eat(back.(pb := t.pb + ['\r']))
    else if c == 't' then Eat(back.(pb := t.pb + ['\t']))
    else if c == 'u' then Eat(t.In(EscapeUnicode).(ucs := 0, stPos := 0))
    else Stop(t, ParseString)
  }

  /** What a case leaves: a tokener in order, unless it reports an error, and never too deep. */
  predicate Kept(a: Action) {
    && 1 <= |a.t.stack| <= MAX_DEPTH
    && ((a.Stop? && a.err != Success) || (Ok(a.t) && (a.Eat? ==> !Adding(a.t))))
  }

  /** A case that changes no level but the top one */
  predicate KeptTop(t: Tokener, a: Action)
    requires |t.stack| > 0
  {
    && |a.t.stack| == |t.stack| && a.t.stack[..|t.stack| - 1] == t.stack[..|t.stack| - 1]
    && ((a.Stop? && a.err != Success) || (TopOk(a.t) && (a.Eat? ==> !Adding(a.t))))
  }

  lemma KeptByTop(t: Tokener, a: Action)
    requires Ok(t) && KeptTop(t, a)
    ensures Kept(a)
  {
    hide TopOk, Waiting;
    forall i | 0 <= i < |t.stack| - 1
      ensures a.t.stack[i] == t.stack[i]
    {
      assert a.t.stack[..|t.stack| - 1][i] == t.stack[..|t.stack| - 1][i];
    }
  }

  lemma NotEmpty(t: Tokener)
    requires Ok(t)
    ensures 1 <= |t.stack| <= MAX_DEPTH && TopOk(t)
  {
  }

  lemma TopNull(t: Tokener, c: char, obj: Json)
    requires Ok(t) && t.Top().state.NullState?
    ensures KeptTop(t, Case(t, c, obj))
  {
    hide Ok;
    NotEmpty(t);
    assert t.stPos <= 4;
  }

  lemma TopBoolean(t: Tokener, c: char, obj: Json)
    requires |t.stack| > 0 && TopOk(t) && t.Top().state.Boolean?
    ensures KeptTop(t, CaseBoolean(t, c, obj))
  {
    var pb, n := t.pb + [c], t.stPos;
    NotBothWords(pb);
    if n > 0 && SameStart("true", t.pb, n) {
      assert SameStart("true", pb, 1);
    } else if n > 0 {
      assert SameStart("false", pb, 1);
    }
  }

  lemma NotBothWords(pb: string)
    ensures !(SameStart("true", pb, 1) && SameStart("false", pb, 1))
  {
    if SameStart("true", pb, 1) {
      assert "true"[0] == Lower(pb[0]) && "false"[0] != Lower(pb[0]);
    }
  }

  lemma TopStart(t: Tokener, c: char, obj: Json)
    requires |t.stack| > 0 && t.Top().state.Start?
    ensures KeptTop(t, CaseStart(t, c, obj))
  {
    hide IsDigit, SameStart;
    NoLetters();
  }

  lemma NoLetters()
    ensures SameStart("null", "", 0) && SameStart("true", "", 0)
  {
  }

  lemma TopNumber(t: Tokener, c: char, obj: Json)
    requires Ok(t) && t.Top().state.Number?
    ensures KeptTop(t, Case(t, c, obj))
  {
    hide Ok, IsNumberChar, ScanInt, ScansDouble;
    NotEmpty(t);
  }

  lemma TopSpace(t: Tokener, c: char, obj: Json)
    requires Ok(t) && t.Top().state in {Eatws, CommentStart, Comment, CommentEol, CommentEnd}
    ensures KeptTop(t, Case(t, c, obj))
  {
    hide Ok, IsSpace;
    NotEmpty(t);
  }

  lemma TopString(t: Tokener, c: char, obj: Json)
    requires Ok(t) && (t.Top().state.StringState? || t.Top().state.ObjectField?)
    ensures KeptTop(t, Case(t, c, obj))
  {
    hide Ok, CString;
    NotEmpty(t);
  }

  lemma TopEscape(t: Tokener, c: char)
    requires |t.stack| > 0 && TopOk(t) && t.Top().state.StringEscape?
    ensures KeptTop(t, CaseStringEscape(t, c))
  {
  }

  lemma TopUnicode(t: Tokener, c: char, obj: Json)
    requires Ok(t) && t.Top().state.EscapeUnicode?
    ensures KeptTop(t, Case(t, c, obj))
  {
    hide Ok, IsHexChar, MoreHex, Utf8;
    NotEmpty(t);
  }

  lemma TopArray(t: Tokener, c: char, obj: Json)
    requires Ok(t) && (t.Top().state.ArrayAdd? || t.Top().state.ArraySep?)
    ensures KeptTop(t, Case(t, c, obj))
  {
    hide Ok;
    NotEmpty(t);
  }

  lemma TopObject(t: Tokener, c: char, obj: Json)
    requires Ok(t) && t.Top().state in {ObjectFieldStart, ObjectFieldEnd, ObjectValueAdd, ObjectSep}
    ensures KeptTop(t, Case(t, c, obj))
  {
    hide Ok, ObjectAdd;
    NotEmpty(t);
  }

  lemma CaseOkPush(t: Tokener, c: char, obj: Json)
    requires Ok(t) && (t.Top().state.ArrayState? || t.Top().state.ObjectValue?)
    ensures Kept(Case(t, c, obj))
  {
    var a := Case(t, c, obj);
    if a.Redo? {
      forall i | 0 <= i < |a.t.stack| - 1
        ensures Waiting(a.t.stack[i])
      {
        assert i < |t.stack| - 1 ==> Waiting(t.stack[i]);
      }
    }
  }

  lemma CaseOkFinish(t: Tokener, c: char, obj: Json)
    requires Ok(t) && t.Top().state.Finish?
    ensures Kept(Case(t, c, obj))
  {
    if |t.stack| > 1 {
      assert Waiting(t.stack[|t.stack| - 2]);
    }
  }

  /** The cases with a function of their own */
  lemma NamedCases(t: Tokener, c: char, obj: Json)
    requires Ok(t)
    ensures t.Top().state == Start ==> Case(t, c, obj) == CaseStart(t, c, obj)
    ensures t.Top().state == Boolean ==> Case(t, c, obj) == CaseBoolean(t, c, obj)
    ensures t.Top().state == StringEscape ==> Case(t, c, obj) == CaseStringEscape(t, c)
  {
    hide CaseStart, CaseBoolean, CaseStringEscape, TopOk;
  }

  /** Every case keeps the tokener in order; in particular its depth stays within bounds. */
  lemma CaseOk(t: Tokener, c: char, obj: Json)
    requires Ok(t)
    ensures Kept(Case(t, c, obj))
  {
    hide Ok, Case, CaseStart, CaseBoolean, CaseStringEscape, KeptTop, Kept, TopOk;
    NotEmpty(t);
    NamedCases(t, c, obj);
    match t.Top().state {
      case Finish => CaseOkFinish(t, c, obj);
      case ArrayState | ObjectValue => CaseOkPush(t, c, obj);
      case _ =>
        CaseTop(t, c, obj);
        KeptByTop(t, Case(t, c, obj));
    }
  }

  lemma CaseTop(t: Tokener, c: char, obj: Json)
    requires Ok(t) && t.Top().state !in {Finish, ArrayState, ObjectValue}
    ensures KeptTop(t, Case(t, c, obj))
  {
    hide Ok, Case, CaseStart, CaseBoolean, CaseStringEscape, KeptTop, TopOk;
    NotEmpty(t);
    NamedCases(t, c, obj);
    match t.Top().state {
      case NullState => TopNull(t, c, obj);
      case Boolean => TopBoolean(t, c, obj);
      case Start => TopStart(t, c, obj);
      case Number => TopNumber(t, c, obj);
      case Eatws | CommentStart | Comment | CommentEol | CommentEnd => TopSpace(t, c, obj);
      case StringState | ObjectField => TopString(t, c, obj);
      case StringEscape => TopEscape(t, c);
      case EscapeUnicode => TopUnicode(t, c, obj);
      case ArrayAdd | ArraySep => TopArray(t, c, obj);
      case ObjectFieldStart | ObjectFieldEnd | ObjectValueAdd | ObjectSep => TopObject(t, c, obj);
    }
  }

  // ---------- one character ----------

  /** How far a character can still travel through `goto redo_char`. */
  function Travel(t: Tokener, c: char): (nat, nat, nat)
    requires Ok(t)
  {
    var l, d := t.Top(), |t.stack|;
    match l.state
    case Start => (0, 0, 1)
    case Eatws => if l.saved == Start then (0, 0, 2) else (1, d, 2)
    case NullState | Boolean => if t.stPos < 4 then (0, 0, 0) else (1, d, 3)
    case Number => if IsNumberChar(c) then (0, 0, 0) else (1, d, 3)
    case ArrayAdd | ObjectValueAdd => (1, d, 3)
    case Finish => (1, d, 1)
    case _ => (1, d, 1)
  }

  predicate Sooner(a: (nat, nat, nat), b: (nat, nat, nat)) {
    a.0 < b.0 || (a.0 == b.0 && (a.1 < b.1 || (a.1 == b.1 && a.2 < b.2)))
  }

  lemma CaseTravelSpace(t: Tokener, c: char, obj: Json)
    requires Ok(t) && t.Top().state.Eatws? && Case(t, c, obj).Redo? && Ok(Case(t, c, obj).t)
    ensures Sooner(Travel(Case(t, c, obj).t, c), Travel(t, c))
  {
    hide IsSpace, IsDigit, IsHexChar, HexDigit, SameStart, CString, Utf8, ScanInt, ScansDouble, ObjectAdd, ObjectDel, Lower, Waiting;
  }

  lemma CaseTravelStart(t: Tokener, c: char, obj: Json)
    requires Ok(t) && t.Top().state.Start? && Case(t, c, obj).Redo? && Ok(Case(t, c, obj).t)
    ensures Sooner(Travel(Case(t, c, obj).t, c), Travel(t, c))
  {
    hide IsSpace, IsHexChar, HexDigit, SameStart, CString, Utf8, ScanInt, ScansDouble, ObjectAdd, ObjectDel, Lower, Waiting;
  }

  lemma CaseTravel(t: Tokener, c: char, obj: Json)
    requires Ok(t) && Case(t, c, obj).Redo? && Ok(Case(t, c, obj).t)
    ensures Sooner(Travel(Case(t, c, obj).t, c), Travel(t, c))
  {
    hide IsSpace, IsDigit, IsHexChar, HexDigit, SameStart, CString, Utf8, ScanInt, ScansDouble, ObjectAdd, ObjectDel, Lower, CaseStart, Waiting;
    match t.Top().state
    case Eatws => CaseTravelSpace(t, c, obj);
    case Start => CaseTravelStart(t, c, obj);
    case _ =>
  }

  datatype Step = Next(t: Tokener) | Halt(t: Tokener, err: Error)

  /** All that happens for one character, up to its consumption or the end of the call. */
  function Process(t: Tokener, c: char, obj: Json): (r: Step)
    requires Ok(t)
    ensures 1 <= |r.t.stack| <= MAX_DEPTH
    ensures r.Next? ==> Ok(r.t) && !Adding(r.t)
    decreases Travel(t, c).0, Travel(t, c).1, Travel(t, c).2
  {
    hide Case, Travel, Ok, Adding;
    CaseOk(t, c, obj);
    var a := Case(t, c, obj);
    if a.Redo? then
      CaseTravel(t, c, obj);
      Process(a.t, c, a.obj)
    else if a.Eat? then Next(a.t)
    else Halt(a.t, a.err)
  }
}
