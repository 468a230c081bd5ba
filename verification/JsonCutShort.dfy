/** When `json_tokener_parse` succeeds: not only at the end of a whole value, but also inside a comment that the text
    leaves open behind an inner one. */
module JsonCutShort {
  import opened Wrappers
  import opened JsonMachine
  import opened JsonCall
  import opened JsonPrinter
  import opened JsonParser
  import opened JsonRoundTrip

  /** Behind a value there is only white space and comments. */
  predicate Behind(l: Level) {
    l.saved == Finish ==> l.state in {Eatws, Finish, CommentStart, Comment, CommentEol, CommentEnd}
  }

  /** Inside a string, the quote character is not NUL. */
  predicate Quoted(t: Tokener)
    requires |t.stack| > 0
  {
    t.Top().state in {StringState, ObjectField, StringEscape, EscapeUnicode} ==> t.quote != NUL
  }

  predicate Settled(t: Tokener) {
    |t.stack| > 0 && (forall i :: 0 <= i < |t.stack| ==> Behind(t.stack[i])) && Quoted(t)
  }

  /** A whole value, or a comment behind a value at any depth */
  predicate Accepts(t: Tokener)
    requires |t.stack| > 0
  {
    var l := t.Top();
    (|t.stack| == 1 && l.state == Finish) || (l.state in {Comment, CommentEol} && l.saved == Finish)
  }

  /** What a case may leave at the top: only a whole value is reported as a success, and a NUL is used up behind a value
      only by a comment. */
  predicate TopSettles(c: char, a: Action) {
    && |a.t.stack| > 0
    && (!a.Stop? ==> Behind(a.t.Top()) && Quoted(a.t))
    && (a.Stop? ==> (a.err == Success <==> Accepts(a.t)))
    && (a.Eat? ==> a.t.Top().state != Finish)
    && (a.Eat? && c == NUL ==> (a.t.Top().saved == Finish <==> Accepts(a.t)))
  }

  predicate CaseSettles(c: char, a: Action) {
    TopSettles(c, a) && (!a.Stop? ==> Settled(a.t))
  }

  lemma SettledTop(t: Tokener, c: char, a: Action)
    requires |t.stack| > 0 && Settled(t) && KeptTop(t, a) && TopSettles(c, a)
    ensures CaseSettles(c, a)
  {
    hide Behind, TopOk, Accepts, Quoted;
    if !a.Stop? {
      forall i | 0 <= i < |t.stack| - 1
        ensures Behind(a.t.stack[i])
      {
        assert a.t.stack[..|t.stack| - 1][i] == t.stack[..|t.stack| - 1][i];
      }
    }
  }

  lemma StartSettles(t: Tokener, c: char, obj: Json)
    requires |t.stack| > 0 && Behind(t.Top()) && t.Top().state == Start
    ensures TopSettles(c, CaseStart(t, c, obj))
  {
    hide IsDigit, TopSettles;
    if c in {'{', '[', '"', '\''} {
      BoxSettles(t, c, obj);
    } else {
      LetterSettles(t, c, obj);
    }
  }

  lemma BoxSettles(t: Tokener, c: char, obj: Json)
    requires |t.stack| > 0 && Behind(t.Top()) && t.Top().state == Start && c in {'{', '[', '"', '\''}
    ensures TopSettles(c, CaseStart(t, c, obj))
  {
    hide IsDigit;
  }

  lemma LetterSettles(t: Tokener, c: char, obj: Json)
    requires |t.stack| > 0 && Behind(t.Top()) && t.Top().state == Start && c !in {'{', '[', '"', '\''}
    ensures TopSettles(c, CaseStart(t, c, obj))
  {
    hide IsDigit;
  }

  lemma BooleanSettles(t: Tokener, c: char, obj: Json)
    requires |t.stack| > 0 && Behind(t.Top()) && Quoted(t) && t.Top().state == Boolean
    requires KeptTop(t, CaseBoolean(t, c, obj))
    ensures TopSettles(c, CaseBoolean(t, c, obj))
  {
    hide SameStart, TopOk, KeptTop;
  }

  lemma EscapeSettles(t: Tokener, c: char)
    requires |t.stack| > 0 && Behind(t.Top()) && Quoted(t) && t.Top().state == StringEscape && TopOk(t)
    ensures TopSettles(c, CaseStringEscape(t, c))
  {
  }

  lemma SpaceSettles(t: Tokener, c: char, obj: Json)
    requires Ok(t) && Behind(t.Top()) && Quoted(t) && t.Top().state in {Eatws, CommentStart, Comment, CommentEol, CommentEnd}
    ensures TopSettles(c, Case(t, c, obj))
  {
    NotEmpty(t);
    hide Ok;
    assert !IsSpace(NUL);
  }

  lemma TextSettles(t: Tokener, c: char, obj: Json)
    requires Ok(t) && Behind(t.Top()) && Quoted(t) && t.Top().state in {StringState, ObjectField, EscapeUnicode}
    ensures TopSettles(c, Case(t, c, obj))
  {
    hide Ok, CString, IsHexChar, MoreHex, Utf8;
    NotEmpty(t);
  }

  lemma WordSettles(t: Tokener, c: char, obj: Json)
    requires Ok(t) && Behind(t.Top()) && Quoted(t) && t.Top().state in {NullState, Number}
    ensures TopSettles(c, Case(t, c, obj))
  {
    hide Ok, TopOk, SameStart, IsNumberChar, ScanInt, ScansDouble;
    NotEmpty(t);
  }

  lemma PartSettles(t: Tokener, c: char, obj: Json)
    requires Ok(t) && Behind(t.Top()) && Quoted(t)
    requires t.Top().state in {ArrayAdd, ArraySep, ObjectFieldStart, ObjectFieldEnd, ObjectValueAdd, ObjectSep}
    ensures TopSettles(c, Case(t, c, obj))
  {
    hide Ok, ObjectAdd;
    NotEmpty(t);
  }

  lemma DepthSettles(t: Tokener, c: char, obj: Json)
    requires Ok(t) && Settled(t) && t.Top().state in {Finish, ArrayState, ObjectValue}
    ensures CaseSettles(c, Case(t, c, obj))
  {
    var a := Case(t, c, obj);
    assert Behind(t.Top());
    if !a.Stop? {
      forall i | 0 <= i < |a.t.stack|
        ensures Behind(a.t.stack[i])
      {
        assert i < |t.stack| ==> Behind(t.stack[i]);
      }
    }
  }

  lemma {:induction false} CaseSettled(t: Tokener, c: char, obj: Json)
    requires Ok(t) && Settled(t)
    ensures CaseSettles(c, Case(t, c, obj))
  {
    hide Ok, Case, CaseStart, CaseBoolean, CaseStringEscape, KeptTop, TopOk, TopSettles, CaseSettles, Behind, Quoted;
    NotEmpty(t);
    NamedCases(t, c, obj);
    var s := t.Top().state;
    assert Behind(t.Top());
    if s in {Finish, ArrayState, ObjectValue} {
      DepthSettles(t, c, obj);
    } else {
      CaseTop(t, c, obj);
      match s {
        case Start => StartSettles(t, c, obj);
        case Boolean => BooleanSettles(t, c, obj);
        case StringEscape => EscapeSettles(t, c);
        case Eatws | CommentStart | Comment | CommentEol | CommentEnd => SpaceSettles(t, c, obj);
        case StringState | ObjectField | EscapeUnicode => TextSettles(t, c, obj);
        case NullState | Number => WordSettles(t, c, obj);
        case ArrayAdd | ArraySep | ObjectFieldStart | ObjectFieldEnd | ObjectValueAdd | ObjectSep =>
          PartSettles(t, c, obj);
      }
      SettledTop(t, c, Case(t, c, obj));
    }
  }

  lemma {:induction false} ProcessSettled(t: Tokener, c: char, obj: Json)
    requires Ok(t) && Settled(t)
    ensures
      match Process(t, c, obj)
      case Next(t') => Settled(t') && t'.Top().state != Finish && (c == NUL ==> (t'.Top().saved == Finish <==> Accepts(t')))
      case Halt(t', err) => |t'.stack| > 0 && (err == Success <==> Accepts(t'))
    decreases Travel(t, c).0, Travel(t, c).1, Travel(t, c).2
  {
    hide Travel, Ok, Adding, Case, Behind, Quoted, Accepts;
    CaseOk(t, c, obj);
    CaseSettled(t, c, obj);
    var a := Case(t, c, obj);
    if a.Redo? {
      CaseTravel(t, c, obj);
      ProcessSettled(a.t, c, a.obj);
    }
  }

  /** A call on a text that ends with a NUL succeeds exactly if it stops at a whole value or inside a comment behind a
      value. */
  lemma {:induction false} SucceedsIff(t: Tokener, s: string)
    requires Ready(t) && Settled(t) && s != [] && s[|s| - 1] == NUL
    ensures Run(t, s).err == Success <==> Accepts(Run(t, s).t)
    decreases |s|
  {
    hide Process, Ok, Behind, Quoted;
    ProcessSettled(t, s[0], Null);
    match Process(t, s[0], Null)
    case Next(t') =>
      if s[0] != NUL {
        SucceedsIff(t', s[1..]);
      }
    case Halt(_, _) =>
  }

  lemma ParsedIff(str: string)
    ensures Parsed(str).1 == Success <==> Accepts(Run(NEW, str + [NUL]).t)
  {
    hide Run;
    SucceedsIff(NEW, str + [NUL]);
  }

  /** So a value that is cut short counts as a success: the array that contains `v` is lost. */
  lemma CutShort(v: Json, lf: string -> string)
    requires Printable(v) && Height(v) < MAX_DEPTH - 1
    ensures Parsed("[" + Print(v, lf) + " /*") == (Some(v), Success)
  {
    hide Run, TopOk, Waiting, Print, Printable, Height, Blank, IsSpace, Ready;
    NewIsFresh();
    FirstChar(v, lf);
    var p, rest := Print(v, lf), " /*" + [NUL];
    var s := "[" + p + " /*" + [NUL];
    CutText(p);
    var t1 := OpenArray(NEW, s);
    var t2 := PushItem(t1, p + rest, []);
    var t3 := ReadValue(t2, v, lf, p + rest, rest);
    OpenComment(t3, rest);
  }

  lemma CutText(p: string)
    requires p != []
    ensures var s, rest := "[" + p + " /*" + [NUL], " /*" + [NUL];
      s != [] && s[0] == '[' && s[1..] == p + rest && (p + rest)[0] == p[0] && Stops(rest)
  {
  }

  lemma OpenComment(t: Tokener, s: string)
    requires Ready(t) && t.Top().state == Eatws && t.Top().saved == Finish && s == " /*" + [NUL]
    ensures Run(t, s).err == Success && Value(Run(t, s)) == Some(t.Top().current)
  {
    NotEmpty(t);
    hide Ok, Process, Run;
    SkipBlank(t, s);
    var t1 := t.In(CommentStart).(pb := "/");
    var t2 := t1.In(Comment).(pb := t1.pb + ['*']);
    OpensComment(t);
    assert s[1..] == "/*" + [NUL] && s[1..][1..] == "*" + [NUL] && s[1..][1..][1..] == [NUL];
    EatOne(t, s[1..], t1);
    EatOne(t1, s[1..][1..], t2);
    LastNul(t2);
  }

  lemma OpensComment(t: Tokener)
    requires Ready(t) && t.Top().state == Eatws
    ensures var t1 := t.In(CommentStart).(pb := "/");
      Ready(t1) && Case(t, '/', Null) == Eat(t1)
      && Case(t1, '*', Null) == Eat(t1.In(Comment).(pb := t1.pb + ['*']))
      && Ready(t1.In(Comment).(pb := t1.pb + ['*']))
  {
  }

  lemma LastNul(t: Tokener)
    requires Ready(t) && t.Top().state == Comment && t.Top().saved == Finish
    ensures Run(t, [NUL]).err == Success && Value(Run(t, [NUL])) == Some(t.Top().current)
  {
    Turn(t, [NUL], Null);
    Resume(t, [NUL], Null);
    StayComment(t, NUL, Null);
  }
}
