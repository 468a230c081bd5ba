/** What the tokener builds from any input at all; and that printing and parsing it again changes nothing. */
module JsonStable {
  import opened Wrappers
  import opened JsonMachine
  import opened JsonMembers
  import opened JsonCall
  import opened JsonPrinter
  import opened JsonParser
  import opened JsonRoundTrip

  /** 32-bit numbers, C strings, no object with equal names. */
  predicate Built(v: Json)
    decreases v
  {
    match v
    case Null | Bool(_) | Double(_) => true
    case Int(i) => -0x8000_0000 <= i <= 0x7fff_ffff
    case Str(s) => NUL !in s
    case Arr(items) => forall i :: 0 <= i < |items| ==> Built(items[i])
    case Obj(members) =>
      && Distinct(members)
      && forall i :: 0 <= i < |members| ==> NUL !in members[i].key && Built(members[i].value)
  }

  predicate DoubleFree(v: Json)
    decreases v
  {
    match v
    case Double(_) => false
    case Arr(items) => forall i :: 0 <= i < |items| ==> DoubleFree(items[i])
    case Obj(members) => forall i :: 0 <= i < |members| ==> DoubleFree(members[i].value)
    case _ => true
  }

  lemma {:induction false} BuiltIsPrintable(v: Json)
    requires Built(v) && DoubleFree(v)
    ensures Printable(v)
    decreases v
  {
    match v
    case Arr(items) =>
      forall i | 0 <= i < |items|
        ensures Printable(items[i])
      {
        BuiltIsPrintable(items[i]);
      }
    case Obj(members) =>
      forall i | 0 <= i < |members|
        ensures Printable(members[i].value)
      {
        BuiltIsPrintable(members[i].value);
      }
    case _ =>
  }

  // ---------- heights ----------

  lemma {:induction false} ItemsLow(items: seq<Json>, i: nat, h: nat)
    requires i <= |items|
    ensures ItemsHeight(items, i) <= h <==> forall k :: i <= k < |items| ==> 1 + Height(items[k]) <= h
    decreases |items| - i
  {
    if i < |items| {
      ItemsLow(items, i + 1, h);
    }
  }

  lemma {:induction false} MembersLow(members: seq<Member>, i: nat, h: nat)
    requires i <= |members|
    ensures MembersHeight(members, i) <= h <==> forall k :: i <= k < |members| ==> 1 + Height(members[k].value) <= h
    decreases |members| - i
  {
    if i < |members| {
      MembersLow(members, i + 1, h);
    }
  }

  /** A value that may stand at level `i`. */
  predicate Fits(v: Json, i: nat) {
    Built(v) && i + Height(v) < MAX_DEPTH
  }

  lemma ItemFits(items: seq<Json>, v: Json, i: nat)
    requires Fits(Arr(items), i) && Fits(v, i + 1)
    ensures Fits(Arr(items + [v]), i)
  {
    var h: nat := MAX_DEPTH - 1 - i;
    ItemsLow(items, 0, h);
    ItemsLow(items + [v], 0, h);
    forall k | 0 <= k < |items + [v]|
      ensures Built((items + [v])[k]) && 1 + Height((items + [v])[k]) <= h
    {
      assert k < |items| ==> (items + [v])[k] == items[k];
    }
  }

  lemma MemberFits(members: seq<Member>, key: string, v: Json, i: nat)
    requires Fits(Obj(members), i) && Fits(v, i + 1) && NUL !in key
    ensures Fits(Obj(ObjectAdd(members, key, v)), i)
  {
    var more, h: nat := ObjectAdd(members, key, v), MAX_DEPTH - 1 - i;
    MembersLow(members, 0, h);
    MembersLow(more, 0, h);
    AddSound(members, key, v);
    DelKeeps(members, key);
    forall k | 0 <= k < |more|
      ensures NUL !in more[k].key && Built(more[k].value) && 1 + Height(more[k].value) <= h
    {
      var m := more[k];
      assert m in more;
      if m.key != key {
        var j :| 0 <= j < |members| && members[j] == m;
      } else {
        assert m in ObjectDel(members, key) + [Member(key, v)];
      }
    }
  }

  // ---------- the invariant ----------

  predicate LevelFits(l: Level, i: nat) {
    Fits(l.current, i) && (l.fieldName.Some? ==> NUL !in l.fieldName.value)
  }

  /** Every value under construction is well built, and low enough for its level. */
  predicate Tidy(t: Tokener) {
    forall i :: 0 <= i < |t.stack| ==> LevelFits(t.stack[i], i)
  }

  /** So is the finished value on its way to the level below. */
  predicate TidyObj(t: Tokener, obj: Json)
    requires |t.stack| > 0
  {
    Adding(t) ==> Fits(obj, |t.stack|)
  }

  predicate TidyAction(a: Action) {
    Tidy(a.t) && (a.Redo? ==> |a.t.stack| > 0 && TidyObj(a.t, a.obj))
  }

  lemma Scalars(t: Tokener, i: nat)
    requires i < MAX_DEPTH
    ensures Fits(Null, i) && Fits(Arr([]), i) && Fits(Obj([]), i)
    ensures forall b :: Fits(Bool(b), i)
    ensures forall text :: Fits(Double(text), i)
    ensures Fits(Str(CString(t.pb)), i) && NUL !in CString(t.pb)
    ensures ScanInt(t.pb).Some? ==> Fits(Int(ScanInt(t.pb).value), i)
  {
    NoNul(t.pb);
  }

  lemma {:induction false} NoNul(s: string)
    ensures NUL !in CString(s)
  {
    if s != [] && s[0] != NUL {
      NoNul(s[1..]);
    }
  }

  /** A case that stays at its level, and leaves a value that fits there. */
  predicate Stays(t: Tokener, a: Action)
    requires |t.stack| > 0
  {
    && |a.t.stack| == |t.stack| && a.t.stack[..|t.stack| - 1] == t.stack[..|t.stack| - 1]
    && LevelFits(a.t.Top(), |t.stack| - 1) && (a.Redo? ==> !Adding(a.t))
  }

  lemma TidyStays(t: Tokener, a: Action)
    requires |t.stack| > 0 && Tidy(t) && Stays(t, a)
    ensures TidyAction(a)
  {
    hide LevelFits;
    forall i | 0 <= i < |a.t.stack|
      ensures LevelFits(a.t.stack[i], i)
    {
      if i < |t.stack| - 1 {
        assert a.t.stack[i] == a.t.stack[..|t.stack| - 1][i] == t.stack[..|t.stack| - 1][i];
      }
    }
  }

  lemma TopFits(t: Tokener)
    requires |t.stack| > 0 && Tidy(t)
    ensures LevelFits(t.Top(), |t.stack| - 1)
  {
  }

  lemma StartStays(t: Tokener, c: char, obj: Json)
    requires 0 < |t.stack| <= MAX_DEPTH && t.Top().state.Start? && LevelFits(t.Top(), |t.stack| - 1)
    ensures Stays(t, CaseStart(t, c, obj))
  {
    if c == '{' || c == '[' {
      OpenStays(t, c, obj);
    } else {
      hide LevelFits, IsDigit;
      SameTop(t, CaseStart(t, c, obj).t, |t.stack| - 1);
    }
  }

  lemma SameTop(t: Tokener, t': Tokener, n: nat)
    requires |t.stack| > 0 && |t'.stack| > 0 && LevelFits(t.Top(), n)
    requires t'.Top().current == t.Top().current && t'.Top().fieldName == t.Top().fieldName
    ensures LevelFits(t'.Top(), n)
  {
  }

  lemma OpenStays(t: Tokener, c: char, obj: Json)
    requires 0 < |t.stack| <= MAX_DEPTH && LevelFits(t.Top(), |t.stack| - 1) && (c == '{' || c == '[')
    ensures Stays(t, CaseStart(t, c, obj))
  {
    Scalars(t, |t.stack| - 1);
    hide Fits, IsDigit;
  }

  /** A word or number is complete, or goes on with other scratch fields. */
  predicate WordOrMore(t: Tokener, a: Action)
    requires |t.stack| > 0
  {
    || (a.t.stack == t.stack && !a.Redo?)
    || (|a.t.stack| > 0 && a.t.stack == t.Complete(a.t.Top().current).stack && Fits(a.t.Top().current, |t.stack| - 1))
  }

  lemma WordStays(t: Tokener, a: Action)
    requires |t.stack| > 0 && WordOrMore(t, a) && LevelFits(t.Top(), |t.stack| - 1)
    ensures Stays(t, a)
  {
    hide Fits;
  }

  lemma NullStays(t: Tokener, c: char, obj: Json)
    requires Ok(t) && t.Top().state.NullState?
    ensures WordOrMore(t, Case(t, c, obj))
  {
    hide Fits, TopOk, Waiting, SameStart;
    Scalars(t, |t.stack| - 1);
  }

  lemma WordEnds(t: Tokener, t': Tokener, v: Json, obj: Json)
    requires |t.stack| > 0 && t'.stack == t.stack && Fits(v, |t.stack| - 1)
    ensures WordOrMore(t, Redo(t'.Complete(v), obj))
  {
    hide Fits;
  }

  lemma BooleanStays(t: Tokener, c: char, obj: Json)
    requires 0 < |t.stack| <= MAX_DEPTH
    ensures WordOrMore(t, CaseBoolean(t, c, obj))
  {
    hide Fits, SameStart, CString;
    Scalars(t, |t.stack| - 1);
    var t' := t.(pb := t.pb + [c]);
    assert Fits(Bool(true), |t.stack| - 1) && Fits(Bool(false), |t.stack| - 1);
    WordEnds(t, t', Bool(true), obj);
    WordEnds(t, t', Bool(false), obj);
  }

  lemma NumberStays(t: Tokener, c: char, obj: Json)
    requires Ok(t) && t.Top().state.Number?
    ensures WordOrMore(t, Case(t, c, obj))
  {
    hide Fits, TopOk, Waiting, ScanInt, ScansDouble, IsNumberChar;
    Scalars(t, |t.stack| - 1);
  }

  lemma SpaceStays(t: Tokener, c: char, obj: Json)
    requires Ok(t) && LevelFits(t.Top(), |t.stack| - 1)
    requires t.Top().state in {Eatws, CommentStart, Comment, CommentEol, CommentEnd}
    ensures Stays(t, Case(t, c, obj))
  {
    hide Fits, Waiting, IsSpace;
  }

  lemma StringStays(t: Tokener, c: char, obj: Json)
    requires Ok(t) && LevelFits(t.Top(), |t.stack| - 1)
    requires t.Top().state == StringState || t.Top().state == ObjectField
    ensures Stays(t, Case(t, c, obj))
  {
    Scalars(t, |t.stack| - 1);
    hide Fits, Waiting, CString;
  }

  lemma UnicodeStays(t: Tokener, c: char, obj: Json)
    requires Ok(t) && LevelFits(t.Top(), |t.stack| - 1) && t.Top().state == EscapeUnicode
    ensures Stays(t, Case(t, c, obj))
  {
    hide Fits, Waiting, IsHexChar, MoreHex, Utf8;
  }

  lemma EscapeStays(t: Tokener, c: char)
    requires 0 < |t.stack| && LevelFits(t.Top(), |t.stack| - 1)
    ensures Stays(t, CaseStringEscape(t, c))
  {
    hide Fits;
  }

  lemma SepStays(t: Tokener, c: char, obj: Json)
    requires Ok(t) && LevelFits(t.Top(), |t.stack| - 1)
    requires t.Top().state in {ArraySep, ObjectFieldStart, ObjectFieldEnd, ObjectSep}
    ensures Stays(t, Case(t, c, obj))
  {
    hide Fits, Waiting, TopOk;
  }

  lemma AddStays(t: Tokener, c: char, obj: Json)
    requires Ok(t) && LevelFits(t.Top(), |t.stack| - 1) && Adding(t) && Fits(obj, |t.stack|)
    ensures Stays(t, Case(t, c, obj))
  {
    var l, n := t.Top(), |t.stack| - 1;
    if l.state == ArrayAdd {
      ItemFits(l.current.items, obj, n);
    } else {
      MemberFits(l.current.members, l.fieldName.value, obj, n);
    }
    hide Fits, Waiting, ObjectAdd;
  }

  lemma PushTidy(t: Tokener, c: char, obj: Json)
    requires Ok(t) && Tidy(t) && (t.Top().state == ArrayState || t.Top().state == ObjectValue)
    ensures TidyAction(Case(t, c, obj))
  {
    hide Fits, Waiting, TopOk, LevelFits;
    TopFits(t);
    var a := Case(t, c, obj);
    if a.Redo? {
      FreshFits(|t.stack|);
    }
    SameTop(t, t.(stack := [a.t.stack[|t.stack| - 1]]), |t.stack| - 1);
    forall i | 0 <= i < |a.t.stack|
      ensures LevelFits(a.t.stack[i], i)
    {
      assert i < |t.stack| ==> LevelFits(t.stack[i], i);
    }
  }

  lemma FreshFits(i: nat)
    requires i < MAX_DEPTH
    ensures LevelFits(FRESH, i)
  {
  }

  lemma PopTidy(t: Tokener, c: char, obj: Json)
    requires Ok(t) && Tidy(t) && t.Top().state == Finish
    ensures TidyAction(Case(t, c, obj))
  {
    TopFits(t);
    hide Fits;
    var a := Case(t, c, obj);
    forall i | 0 <= i < |a.t.stack|
      ensures LevelFits(a.t.stack[i], i)
    {
      assert LevelFits(t.stack[i], i);
    }
  }

  /** Every case keeps the values in order. */
  lemma CaseTidy(t: Tokener, c: char, obj: Json)
    requires Ok(t) && Tidy(t) && TidyObj(t, obj)
    ensures TidyAction(Case(t, c, obj))
  {
    hide Case, CaseStart, CaseBoolean, CaseStringEscape, Fits, Stays, WordOrMore, TopOk, Waiting, Tidy, TidyAction;
    TopFits(t);
    NamedCases(t, c, obj);
    var state := t.Top().state;
    if state == Finish {
      PopTidy(t, c, obj);
    } else if state == ArrayState || state == ObjectValue {
      PushTidy(t, c, obj);
    } else {
      match state {
        case Start => StartStays(t, c, obj);
        case NullState =>
          NullStays(t, c, obj);
          WordStays(t, Case(t, c, obj));
        case Boolean =>
          BooleanStays(t, c, obj);
          WordStays(t, Case(t, c, obj));
        case Number =>
          NumberStays(t, c, obj);
          WordStays(t, Case(t, c, obj));
        case Eatws | CommentStart | Comment | CommentEol | CommentEnd => SpaceStays(t, c, obj);
        case StringState | ObjectField => StringStays(t, c, obj);
        case EscapeUnicode => UnicodeStays(t, c, obj);
        case StringEscape => EscapeStays(t, c);
        case ArraySep | ObjectFieldStart | ObjectFieldEnd | ObjectSep => SepStays(t, c, obj);
        case ArrayAdd | ObjectValueAdd => AddStays(t, c, obj);
      }
      TidyStays(t, Case(t, c, obj));
    }
  }

  lemma {:induction false} ProcessTidy(t: Tokener, c: char, obj: Json)
    requires Ok(t) && Tidy(t) && TidyObj(t, obj)
    ensures Tidy(Process(t, c, obj).t)
    decreases Travel(t, c).0, Travel(t, c).1, Travel(t, c).2
  {
    hide Case, Travel, Ok, Adding, Tidy, TidyObj;
    CaseOk(t, c, obj);
    CaseTidy(t, c, obj);
    var a := Case(t, c, obj);
    if a.Redo? {
      CaseTravel(t, c, obj);
      ProcessTidy(a.t, c, a.obj);
    }
  }

  /** Whatever the input, and wherever it was cut before: only well built values of bounded height come out. */
  lemma {:induction false} RunBuilds(t: Tokener, s: string)
    requires Ready(t) && Tidy(t)
    ensures Tidy(Run(t, s).t)
    ensures Value(Run(t, s)).Some? ==> Fits(Value(Run(t, s)).value, 0)
    decreases |s|
  {
    hide Process, TopOk, Waiting, Fits;
    if s != [] {
      ProcessTidy(t, s[0], Null);
      if Process(t, s[0], Null).Next? && s[0] != NUL {
        RunBuilds(Process(t, s[0], Null).t, s[1..]);
      }
    }
    ResultFits(Run(t, s));
  }

  lemma ResultFits(r: Outcome)
    requires |r.t.stack| > 0 && Tidy(r.t)
    ensures Value(r).Some? ==> Fits(Value(r).value, 0)
  {
    assert LevelFits(r.t.Top(), |r.t.stack| - 1);
  }

  /** What has been parsed once is a fixed point: printing it and parsing it again gives the same value. */
  lemma ParsedIsStable(text: string, lf: string -> string)
    ensures var (v, err) := Parsed(text);
      err == Success ==> v.Some? && (DoubleFree(v.value) ==> Parsed(Print(v.value, lf)) == (v, Success))
  {
    assert LevelFits(FRESH, 0);
    assert Tidy(NEW) && Ready(NEW);
    hide Run, Ok;
    RunBuilds(NEW, text + [NUL]);
    var (v, err) := Parsed(text);
    if err == Success && DoubleFree(v.value) {
      BuiltIsPrintable(v.value);
      RoundTrip(v.value, lf);
    }
  }
}
