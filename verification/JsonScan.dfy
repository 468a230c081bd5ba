/** Which texts are cut short: a condition on the characters alone. */
module JsonScan {
  import opened Wrappers
  import opened JsonMachine
  import opened JsonCall
  import opened JsonParser
  import opened JsonCutShort

  /** Where a character stands: outside, in the four parts of a comment, in a string, behind a backslash; or behind the
      end of the whole value, or in a value that has no parts. */
  datatype Mode = Text | Slash | Block | Star | Line | InString | Escape | Over

  /** `depth` counts the brackets and braces that are open. */
  datatype Scanner = Scanner(mode: Mode, depth: nat, quote: char)

  const BEGIN := Scanner(Text, 0, NUL)

  function Look(l: Scanner, c: char): Scanner {
    match l.mode
    case Text =>
      if IsSpace(c) then l
      else if c == '/' then l.(mode := Slash)
      else if c == '[' || c == '{' then l.(depth := l.depth + 1)
      else if l.depth == 0 then l.(mode := Over)
      else if c == ']' || c == '}' then if l.depth == 1 then l.(mode := Over) else l.(depth := l.depth - 1)
      else if c == '"' || c == '\'' then l.(mode := InString, quote := c)
      else l
    case Slash => l.(mode := if c == '*' then Block else if c == '/' then Line else Over)
    case Block => if c == '*' then l.(mode := Star) else l
    case Star => l.(mode := if c == '/' then Text else Block)
    case Line => if c == '\n' then l.(mode := Text) else l
    case InString => if c == l.quote then l.(mode := Text) else if c == '\\' then l.(mode := Escape) else l
    case Escape => l.(mode := InString)
    case Over => l
  }

  /** A C string, character by character */
  function Scan(l: Scanner, s: string): Scanner
    decreases |s|
  {
    if s == [] || s[0] == NUL then l else Scan(Look(l, s[0]), s[1..])
  }

  predicate Inside(l: Scanner) {
    l.mode in {Block, Star, Line} && l.depth > 0
  }

  /** The text ends in a comment while a bracket or brace is open. */
  predicate EndsInside(str: string) {
    Inside(Scan(BEGIN, str))
  }

  // ---------- the scanner and the tokener ----------

  predicate Spacing(s: State) {
    s in {Eatws, CommentStart, Comment, CommentEol, CommentEnd}
  }

  /** What the level is about, whatever white space, comment or escape it is in. */
  function About(l: Level): State {
    if Spacing(l.state) || l.state == StringEscape || l.state == EscapeUnicode then l.saved else l.state
  }

  /** The array or object of the level is open. */
  predicate Opened(l: Level) {
    About(l) !in {Start, Finish, NullState, StringState, Boolean, Number}
  }

  function Count(t: Tokener): nat
    requires |t.stack| > 0
  {
    |t.stack| - 1 + if Opened(t.Top()) then 1 else 0
  }

  /** The only level holds a whole value or one without parts. */
  predicate Closing(t: Tokener)
    requires |t.stack| > 0
  {
    |t.stack| == 1 && About(t.Top()) in {Finish, NullState, StringState, Boolean, Number}
  }

  function ModeOf(s: State): Mode {
    match s
    case CommentStart => Slash
    case Comment => Block
    case CommentEnd => Star
    case CommentEol => Line
    case StringState | ObjectField | EscapeUnicode => InString
    case StringEscape => Escape
    case _ => Text
  }

  predicate Follows(t: Tokener, l: Scanner)
    requires |t.stack| > 0
  {
    if l.mode == Over then Closing(t)
    else
      && !Closing(t) && l.mode == ModeOf(t.Top().state) && l.depth == Count(t)
      && (l.mode in {InString, Escape} ==> l.quote == t.quote && t.quote in {'"', '\''})
  }

  /** Before the switch with the character `c`: a value without parts may have been begun by it. */
  predicate Meets(t: Tokener, c: char, l: Scanner)
    requires |t.stack| > 0
  {
    Follows(t, l) || (Closing(t) && l.mode == Text && l.depth == 0 && Look(l, c).mode == Over)
  }

  predicate Keeps(a: Action, c: char, l: Scanner) {
    |a.t.stack| > 0 && match a
    case Redo(t, _) => Meets(t, c, l)
    case Eat(t) => Follows(t, Look(l, c))
    case Stop(_, _) => true
  }

  // ---------- case by case ----------

  /** Behind the end, nothing is opened any more. */
  predicate StaysClosing(a: Action) {
    |a.t.stack| > 0 && (!a.Stop? ==> Closing(a.t))
  }

  lemma ClosingBoolean(t: Tokener, c: char, obj: Json)
    requires |t.stack| > 0 && Closing(t) && t.Top().state == Boolean
    ensures StaysClosing(CaseBoolean(t, c, obj))
  {
    hide SameStart;
  }

  lemma ClosingEscape(t: Tokener, c: char)
    requires |t.stack| > 0 && Closing(t) && t.Top().state == StringEscape && TopOk(t)
    ensures StaysClosing(CaseStringEscape(t, c))
  {
  }

  lemma ClosingSpace(t: Tokener, c: char, obj: Json)
    requires Ok(t) && Closing(t) && Spacing(t.Top().state)
    ensures StaysClosing(Case(t, c, obj))
  {
    hide Ok, IsSpace;
    NotEmpty(t);
  }

  lemma ClosingRest(t: Tokener, c: char, obj: Json)
    requires Ok(t) && Closing(t) && t.Top().state in {NullState, StringState, Number, EscapeUnicode, Finish}
    ensures StaysClosing(Case(t, c, obj))
  {
    hide Ok, SameStart, CString, IsNumberChar, ScanInt, ScansDouble, IsHexChar, MoreHex, Utf8;
    NotEmpty(t);
  }

  lemma ClosingCase(t: Tokener, c: char, obj: Json)
    requires Ok(t) && Closing(t)
    ensures StaysClosing(Case(t, c, obj))
  {
    hide Ok, Case, CaseBoolean, CaseStringEscape, TopOk, StaysClosing;
    NotEmpty(t);
    NamedCases(t, c, obj);
    match t.Top().state
    case Boolean => ClosingBoolean(t, c, obj);
    case StringEscape => ClosingEscape(t, c);
    case Eatws | CommentStart | Comment | CommentEol | CommentEnd => ClosingSpace(t, c, obj);
    case _ => ClosingRest(t, c, obj);
  }

  lemma OpenSpace(t: Tokener, c: char, obj: Json, l: Scanner)
    requires Ok(t) && l.mode != Over && Follows(t, l) && t.Top().state == Eatws
    ensures Keeps(Case(t, c, obj), c, l)
  {
    hide Ok, IsSpace;
    NotEmpty(t);
  }

  lemma OpenComment(t: Tokener, c: char, obj: Json, l: Scanner)
    requires Ok(t) && l.mode != Over && Follows(t, l) && t.Top().state in {CommentStart, Comment, CommentEol, CommentEnd}
    ensures Keeps(Case(t, c, obj), c, l)
  {
    hide Ok;
    NotEmpty(t);
  }

  lemma OpenStart(t: Tokener, c: char, obj: Json, l: Scanner)
    requires |t.stack| > 0 && l.mode != Over && Follows(t, l) && t.Top().state == Start
    ensures Keeps(CaseStart(t, c, obj), c, l)
  {
    hide CaseStart, Keeps, Follows, Look, IsDigit;
    if c in {'{', '[', '"', '\''} {
      OpenBox(t, c, obj, l);
    } else {
      OpenLetter(t, c, obj, l);
    }
  }

  lemma OpenBox(t: Tokener, c: char, obj: Json, l: Scanner)
    requires |t.stack| > 0 && l.mode != Over && Follows(t, l) && t.Top().state == Start && c in {'{', '[', '"', '\''}
    ensures Keeps(CaseStart(t, c, obj), c, l)
  {
    hide IsDigit;
  }

  lemma OpenLetter(t: Tokener, c: char, obj: Json, l: Scanner)
    requires |t.stack| > 0 && l.mode != Over && Follows(t, l) && t.Top().state == Start && c !in {'{', '[', '"', '\''}
    ensures Keeps(CaseStart(t, c, obj), c, l)
  {
    NotSpecial(c);
    hide IsDigit, IsNumberChar, IsSpace;
  }

  lemma NotSpecial(c: char)
    ensures IsDigit(c) || c == '-' ==> IsNumberChar(c)
    ensures IsNumberChar(c) || 'a' <= Lower(c) <= 'z' ==>
      !IsSpace(c) && c !in {'/', '[', '{', ']', '}', '"', '\''}
  {
  }

  /** A character that carries a word on is a letter. */
  lemma NextLetter(word: string, pb: string, n: nat)
    requires word in {"null", "true", "false"} && n < |word| && n < |pb| && SameStart(word, pb, n + 1)
    ensures 'a' <= Lower(pb[n]) <= 'z'
  {
    assert word[n] == Lower(pb[n]);
  }

  /** A word or number goes on, is complete, or is none. */
  predicate WordGoesOn(t: Tokener, c: char, a: Action)
    requires |t.stack| > 0
  {
    && |a.t.stack| == |t.stack|
    && (a.Redo? ==> a.t.Top().state == Eatws && a.t.Top().saved == Finish)
    && (a.Eat? ==> a.t.stack == t.stack && (IsNumberChar(c) || 'a' <= Lower(c) <= 'z'))
  }

  lemma WordKeeps(t: Tokener, c: char, a: Action, l: Scanner)
    requires |t.stack| > 0 && l.mode != Over && Follows(t, l) && t.Top().state in {NullState, Boolean, Number}
    requires WordGoesOn(t, c, a)
    ensures Keeps(a, c, l)
  {
    hide IsNumberChar, IsSpace, Lower;
    NotSpecial(c);
  }

  lemma NullGoesOn(t: Tokener, c: char, obj: Json)
    requires Ok(t) && t.Top().state == NullState
    ensures WordGoesOn(t, c, Case(t, c, obj))
  {
    hide Ok, SameStart, IsNumberChar, Lower;
    NotEmpty(t);
    NullLength(t);
    if t.stPos < 4 && SameStart("null", t.pb + [c], t.stPos + 1) {
      NextLetter("null", t.pb + [c], t.stPos);
    }
  }

  lemma NullLength(t: Tokener)
    requires Ok(t)
    ensures t.Top().state == NullState ==> |t.pb| == t.stPos && t.stPos <= 4
    ensures t.Top().state == Boolean ==> |t.pb| == t.stPos && t.stPos <= 5
  {
  }

  lemma FalseStays(t: Tokener, c: char)
    requires Ok(t) && t.Top().state == Boolean && t.stPos == 5
    ensures !SameStart("true", t.pb + [c], 4)
  {
    var pb := t.pb + [c];
    NotBothWords(pb);
    assert SameStart("false", t.pb, 1) && pb[0] == t.pb[0];
    assert SameStart("false", pb, 1);
  }

  lemma BooleanGoesOn(t: Tokener, c: char, obj: Json)
    requires Ok(t) && t.Top().state == Boolean
    ensures WordGoesOn(t, c, CaseBoolean(t, c, obj))
  {
    hide Ok, SameStart, IsNumberChar, Lower, TopOk;
    NotEmpty(t);
    NullLength(t);
    var pb := t.pb + [c];
    if t.stPos == 5 {
      FalseStays(t, c);
    }
    if t.stPos < 4 && SameStart("true", pb, t.stPos + 1) {
      NextLetter("true", pb, t.stPos);
    }
    if t.stPos < 5 && SameStart("false", pb, t.stPos + 1) {
      NextLetter("false", pb, t.stPos);
    }
  }

  lemma NumberGoesOn(t: Tokener, c: char, obj: Json)
    requires Ok(t) && t.Top().state == Number
    ensures WordGoesOn(t, c, Case(t, c, obj))
  {
    hide Ok, TopOk, IsNumberChar, ScanInt, ScansDouble, Lower;
    NotEmpty(t);
  }

  lemma OpenText(t: Tokener, c: char, obj: Json, l: Scanner)
    requires Ok(t) && l.mode != Over && Follows(t, l) && t.Top().state in {StringState, ObjectField}
    ensures Keeps(Case(t, c, obj), c, l)
  {
    hide Ok, CString;
    NotEmpty(t);
  }

  lemma OpenEscape(t: Tokener, c: char, l: Scanner)
    requires |t.stack| > 0 && TopOk(t) && l.mode != Over && Follows(t, l) && t.Top().state == StringEscape
    ensures Keeps(CaseStringEscape(t, c), c, l)
  {
  }

  lemma OpenUnicode(t: Tokener, c: char, obj: Json, l: Scanner)
    requires Ok(t) && l.mode != Over && Follows(t, l) && t.Top().state == EscapeUnicode
    ensures Keeps(Case(t, c, obj), c, l)
  {
    hide Ok, MoreHex, Utf8;
    NotEmpty(t);
  }

  lemma OpenSep(t: Tokener, c: char, obj: Json, l: Scanner)
    requires Ok(t) && l.mode != Over && Follows(t, l)
    requires t.Top().state in {ArraySep, ObjectFieldStart, ObjectFieldEnd, ObjectSep, ArrayAdd, ObjectValueAdd}
    ensures Keeps(Case(t, c, obj), c, l)
  {
    hide Ok, ObjectAdd;
    NotEmpty(t);
  }

  lemma OpenDepth(t: Tokener, c: char, obj: Json, l: Scanner)
    requires Ok(t) && l.mode != Over && Follows(t, l) && t.Top().state in {ArrayState, ObjectValue}
    ensures Keeps(Case(t, c, obj), c, l)
  {
    hide Ok;
    NotEmpty(t);
  }

  lemma OpenFinish(t: Tokener, c: char, obj: Json, l: Scanner)
    requires Ok(t) && l.mode != Over && Follows(t, l) && t.Top().state == Finish
    ensures Keeps(Case(t, c, obj), c, l)
  {
    if |t.stack| > 1 {
      assert Waiting(t.stack[|t.stack| - 2]);
    }
  }

  lemma CaseKeeps(t: Tokener, c: char, obj: Json, l: Scanner)
    requires Ok(t) && Meets(t, c, l)
    ensures Keeps(Case(t, c, obj), c, l)
  {
    hide Ok, Case, CaseStart, CaseBoolean, CaseStringEscape, TopOk, IsSpace;
    NotEmpty(t);
    NamedCases(t, c, obj);
    if Closing(t) {
      ClosingCase(t, c, obj);
    } else {
      OpenCase(t, c, obj, l);
    }
  }

  lemma OpenCase(t: Tokener, c: char, obj: Json, l: Scanner)
    requires Ok(t) && l.mode != Over && Follows(t, l)
    ensures Keeps(Case(t, c, obj), c, l)
  {
    hide Ok, Case, CaseStart, CaseBoolean, CaseStringEscape, TopOk, Keeps, Follows, WordGoesOn;
    NotEmpty(t);
    NamedCases(t, c, obj);
    match t.Top().state
    case Eatws => OpenSpace(t, c, obj, l);
    case CommentStart | Comment | CommentEol | CommentEnd => OpenComment(t, c, obj, l);
    case Start => OpenStart(t, c, obj, l);
    case NullState =>
      NullGoesOn(t, c, obj);
      WordKeeps(t, c, Case(t, c, obj), l);
    case Boolean =>
      BooleanGoesOn(t, c, obj);
      WordKeeps(t, c, Case(t, c, obj), l);
    case Number =>
      NumberGoesOn(t, c, obj);
      WordKeeps(t, c, Case(t, c, obj), l);
    case StringState | ObjectField => OpenText(t, c, obj, l);
    case StringEscape => OpenEscape(t, c, l);
    case EscapeUnicode => OpenUnicode(t, c, obj, l);
    case ArrayState | ObjectValue => OpenDepth(t, c, obj, l);
    case Finish => OpenFinish(t, c, obj, l);
    case _ => OpenSep(t, c, obj, l);
  }

  // ---------- whole texts ----------

  lemma {:induction false} ProcessKeeps(t: Tokener, c: char, obj: Json, l: Scanner)
    requires Ok(t) && Meets(t, c, l)
    ensures
      match Process(t, c, obj)
      case Next(t') => |t'.stack| > 0 && Follows(t', Look(l, c))
      case Halt(t', err) => err == Success ==> |t'.stack| == 1 && Look(l, c).mode == Over && !Inside(l)
    decreases Travel(t, c).0, Travel(t, c).1, Travel(t, c).2
  {
    hide Travel, Ok, Adding, Case, Follows, Look;
    CaseOk(t, c, obj);
    CaseKeeps(t, c, obj, l);
    var a := Case(t, c, obj);
    if a.Redo? {
      CaseTravel(t, c, obj);
      ProcessKeeps(a.t, c, a.obj, l);
    } else if a.Stop? && a.err == Success {
      StopsWhere(t, c, obj, l);
    }
  }

  /** Only a whole value stops the tokener with a success. */
  lemma StopsWhere(t: Tokener, c: char, obj: Json, l: Scanner)
    requires Ok(t) && Meets(t, c, l) && Case(t, c, obj).Stop? && Case(t, c, obj).err == Success
    ensures |Case(t, c, obj).t.stack| == 1 && Look(l, c).mode == Over && !Inside(l)
  {
    hide IsSpace, IsDigit, SameStart, CString, IsNumberChar, ScanInt, ScansDouble, IsHexChar, MoreHex, Utf8, ObjectAdd, Waiting;
  }

  lemma {:induction false} StaysOver(l: Scanner, s: string)
    requires l.mode == Over
    ensures Scan(l, s) == l
    decreases |s|
  {
    if s != [] && s[0] != NUL {
      StaysOver(Look(l, s[0]), s[1..]);
    }
  }

  /** At the end of the text */
  lemma AtTheNul(t: Tokener, l: Scanner)
    requires |t.stack| > 0 && Follows(t, Look(l, NUL)) && t.Top().state in {Comment, CommentEol} && t.Top().saved == Finish
    ensures |t.stack| > 1 <==> Inside(l)
  {
  }

  lemma {:induction false} RunEnds(t: Tokener, s: string, l: Scanner)
    requires Ready(t) && Settled(t) && Follows(t, l) && s != [] && s[|s| - 1] == NUL
    ensures Run(t, s).err == Success ==> (|Run(t, s).t.stack| > 1 <==> Inside(Scan(l, s)))
    decreases |s|
  {
    hide Process, Ok, JsonCutShort.Behind, Quoted, Follows, Look, Settled;
    ProcessSettled(t, s[0], Null);
    ProcessKeeps(t, s[0], Null, l);
    match Process(t, s[0], Null)
    case Next(t') =>
      if s[0] != NUL {
        RunEnds(t', s[1..], Look(l, s[0]));
      } else if t'.Top().saved == Finish {
        AtTheNul(t', l);
      }
    case Halt(t', err) =>
      if s[0] != NUL && err == Success {
        StaysOver(Look(l, s[0]), s[1..]);
      }
  }

  /** `json_tokener_parse` returns an inner value instead of the whole one exactly for the texts that end in a comment
      while a bracket or brace is open. */
  lemma CutShortIff(str: string)
    ensures var r := Run(NEW, str + [NUL]);
      Parsed(str).1 == Success ==> (|r.t.stack| > 1 <==> EndsInside(str))
  {
    hide Run;
    RunEnds(NEW, str + [NUL], BEGIN);
    ScanEnd(BEGIN, str);
  }

  lemma {:induction false} ScanEnd(l: Scanner, s: string)
    ensures Scan(l, s + [NUL]) == Scan(l, s)
    decreases |s|
  {
    hide Look;
    if s != [] && s[0] != NUL {
      assert (s + [NUL])[1..] == s[1..] + [NUL];
      ScanEnd(Look(l, s[0]), s[1..]);
    }
  }

  // ---------- texts without a slash ----------

  predicate Uncommented(t: Tokener)
    requires |t.stack| > 0
  {
    t.Top().state !in {CommentStart, Comment, CommentEol, CommentEnd}
  }

  /** The case does not go on in a comment. */
  predicate NoComment(a: Action) {
    |a.t.stack| > 0 && (!a.Stop? ==> Uncommented(a.t))
  }

  lemma NamedUncommented(t: Tokener, c: char, obj: Json)
    requires |t.stack| > 0 && Uncommented(t)
    ensures NoComment(CaseBoolean(t, c, obj))
    ensures t.Top().state == StringEscape && TopOk(t) ==> NoComment(CaseStringEscape(t, c))
  {
    hide SameStart;
  }

  lemma StartUncommented(t: Tokener, c: char, obj: Json)
    requires |t.stack| > 0 && Uncommented(t)
    ensures NoComment(CaseStart(t, c, obj))
  {
    hide IsDigit;
  }

  lemma TextUncommented(t: Tokener, c: char, obj: Json)
    requires Ok(t) && t.Top().state in {NullState, Number, StringState, ObjectField, EscapeUnicode}
    ensures NoComment(Case(t, c, obj))
  {
    hide Ok, SameStart, CString, IsNumberChar, ScanInt, ScansDouble, IsHexChar, MoreHex, Utf8;
    NotEmpty(t);
  }

  lemma SpaceUncommented(t: Tokener, c: char, obj: Json)
    requires Ok(t) && t.Top().state == Eatws && c != '/'
    ensures NoComment(Case(t, c, obj))
  {
    hide Ok, IsSpace;
    NotEmpty(t);
  }

  lemma PartUncommented(t: Tokener, c: char, obj: Json)
    requires Ok(t)
    requires t.Top().state in {ArraySep, ObjectFieldStart, ObjectFieldEnd, ObjectSep, ArrayAdd, ObjectValueAdd,
                               ArrayState, ObjectValue}
    ensures NoComment(Case(t, c, obj))
  {
    hide Ok, ObjectAdd;
    NotEmpty(t);
  }

  lemma FinishUncommented(t: Tokener, c: char, obj: Json)
    requires Ok(t) && t.Top().state == Finish
    ensures NoComment(Case(t, c, obj))
  {
    if |t.stack| > 1 {
      assert Waiting(t.stack[|t.stack| - 2]);
    }
  }

  lemma CaseUncommented(t: Tokener, c: char, obj: Json)
    requires Ok(t) && Uncommented(t) && c != '/'
    ensures NoComment(Case(t, c, obj))
  {
    hide Ok, Case, CaseStart, CaseBoolean, CaseStringEscape, TopOk, NoComment;
    NotEmpty(t);
    NamedCases(t, c, obj);
    match t.Top().state
    case Start => StartUncommented(t, c, obj);
    case Boolean | StringEscape => NamedUncommented(t, c, obj);
    case NullState | Number | StringState | ObjectField | EscapeUnicode => TextUncommented(t, c, obj);
    case Eatws => SpaceUncommented(t, c, obj);
    case Finish => FinishUncommented(t, c, obj);
    case _ => PartUncommented(t, c, obj);
  }

  lemma {:induction false} ProcessUncommented(t: Tokener, c: char, obj: Json)
    requires Ok(t) && Uncommented(t) && c != '/'
    ensures Process(t, c, obj).Next? ==> Uncommented(Process(t, c, obj).t)
    decreases Travel(t, c).0, Travel(t, c).1, Travel(t, c).2
  {
    hide Travel, Ok, Adding, Case;
    CaseOk(t, c, obj);
    CaseUncommented(t, c, obj);
    var a := Case(t, c, obj);
    if a.Redo? {
      CaseTravel(t, c, obj);
      ProcessUncommented(a.t, c, a.obj);
    }
  }

  lemma {:induction false} RunWhole(t: Tokener, s: string)
    requires Ready(t) && Settled(t) && Uncommented(t) && '/' !in s && s != [] && s[|s| - 1] == NUL
    ensures Run(t, s).err == Success ==> |Run(t, s).t.stack| == 1 && Run(t, s).t.Top().state == Finish
    decreases |s|
  {
    hide Process, Ok, JsonCutShort.Behind, Quoted, Settled;
    ProcessSettled(t, s[0], Null);
    ProcessUncommented(t, s[0], Null);
    HaltsWhole(t, s[0], Null);
    match Process(t, s[0], Null)
    case Next(t') =>
      if s[0] != NUL {
        RunWhole(t', s[1..]);
      }
    case Halt(_, _) =>
  }

  lemma {:induction false} HaltsWhole(t: Tokener, c: char, obj: Json)
    requires Ok(t)
    ensures var r := Process(t, c, obj);
      r.Halt? && r.err == Success ==> |r.t.stack| == 1 && r.t.Top().state == Finish
    decreases Travel(t, c).0, Travel(t, c).1, Travel(t, c).2
  {
    hide Travel, Ok, Adding, Case;
    CaseOk(t, c, obj);
    StopsWhole(t, c, obj);
    var a := Case(t, c, obj);
    if a.Redo? {
      CaseTravel(t, c, obj);
      HaltsWhole(a.t, c, a.obj);
    }
  }

  lemma StopsWhole(t: Tokener, c: char, obj: Json)
    requires Ok(t)
    ensures var a := Case(t, c, obj);
      a.Stop? && a.err == Success ==> |a.t.stack| == 1 && a.t.Top().state == Finish
  {
    hide IsSpace, IsDigit, SameStart, CString, IsNumberChar, ScanInt, ScansDouble, IsHexChar, MoreHex, Utf8, ObjectAdd;
  }

  /** A text without a slash is parsed exactly if a whole value is. */
  lemma WholeWithoutSlash(str: string)
    requires '/' !in str
    ensures var t := Run(NEW, str + [NUL]).t; Parsed(str).1 == Success <==> |t.stack| == 1 && t.Top().state == Finish
  {
    hide Run;
    ParsedIff(str);
    RunWhole(NEW, str + [NUL]);
  }
}
