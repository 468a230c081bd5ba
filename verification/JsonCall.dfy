/** Whole calls of `json_tokener_parse_ex`, and how calls on consecutive pieces fit together. */
module JsonCall {
  import opened Wrappers
  import opened JsonMachine

  /** What a call leaves behind: the tokener and its error code. */
  datatype Outcome = Outcome(t: Tokener, err: Error)

  /** A tokener as a caller may find it between two calls. */
  predicate Ready(t: Tokener) {
    Ok(t) && !Adding(t)
  }

  /** Nothing but a finished value is left at depth 0. */
  predicate Done(t: Tokener)
    requires |t.stack| > 0
  {
    |t.stack| == 1 && t.Top().state.Eatws? && t.Top().saved.Finish?
  }

  /** The test behind the label `out`, after a NUL. */
  function AtNul(t: Tokener, err: Error): Outcome
    requires |t.stack| > 0
  {
    Outcome(t, if t.Top().state.Finish? || t.Top().saved.Finish? then err else ParseEof)
  }

  /** `json_tokener_parse_ex` on the characters `s`; a NUL ends the input early. */
  function Run(t: Tokener, s: string): (r: Outcome)
    requires Ready(t)
    ensures 1 <= |r.t.stack| <= MAX_DEPTH
    ensures r.err == Continue ==> Ready(r.t)
    decreases |s|
  {
    if s == [] then Outcome(t, if Done(t) then Success else Continue)
    else
      ProcessNeverContinues(t, s[0], Null);
      match Process(t, s[0], Null)
      case Next(t') => if s[0] == NUL then AtNul(t', Success) else Run(t', s[1..])
      case Halt(t', err) => if s[0] == NUL then AtNul(t', err) else Outcome(t', err)
  }

  /** The returned value. */
  function Value(r: Outcome): Option<Json>
    requires |r.t.stack| > 0
  {
    if r.err.Success? then Some(r.t.Top().current) else None
  }

  /** No case reports "continue". */
  lemma {:induction false} ProcessNeverContinues(t: Tokener, c: char, obj: Json)
    requires Ok(t)
    ensures Process(t, c, obj).Halt? ==> Process(t, c, obj).err != Continue
    decreases Travel(t, c).0, Travel(t, c).1, Travel(t, c).2
  {
    hide Travel, Ok, Adding;
    CaseOk(t, c, obj);
    CaseNeverContinues(t, c, obj);
    var a := Case(t, c, obj);
    if a.Redo? {
      CaseTravel(t, c, obj);
      ProcessNeverContinues(a.t, c, a.obj);
    }
  }

  lemma CaseNeverContinues(t: Tokener, c: char, obj: Json)
    requires Ok(t)
    ensures Case(t, c, obj).Stop? ==> Case(t, c, obj).err != Continue
  {
    hide Ok, IsSpace, IsDigit, IsHexChar, HexDigit, SameStart, CString, Utf8, ScanInt, ObjectAdd, ObjectDel;
  }

  /** Two pieces: if the first call asks for more, the second ends as one call on both does. */
  lemma {:induction false} TwoPieces(t: Tokener, a: string, b: string)
    requires Ready(t) && Run(t, a).err == Continue
    ensures Run(t, a + b) == Run(Run(t, a).t, b)
    decreases |a|
  {
    hide Process;
    if a == [] {
      assert a + b == b;
    } else {
      ProcessNeverContinues(t, a[0], Null);
      assert (a + b)[1..] == a[1..] + b;
      match Process(t, a[0], Null)
      case Next(t') => TwoPieces(t', a[1..], b);
      case Halt(_, _) =>
    }
  }

  function Concat(pieces: seq<string>): string {
    if pieces == [] then [] else pieces[0] + Concat(pieces[1..])
  }

  /** Calls on consecutive pieces, each of which but the last must ask for more. */
  predicate Chained(t: Tokener, pieces: seq<string>)
    requires Ready(t)
    decreases |pieces|
  {
    |pieces| <= 1 || (Run(t, pieces[0]).err == Continue && Chained(Run(t, pieces[0]).t, pieces[1..]))
  }

  function RunPieces(t: Tokener, pieces: seq<string>): Outcome
    requires Ready(t) && |pieces| > 0 && Chained(t, pieces)
    decreases |pieces|
  {
    if |pieces| == 1 then Run(t, pieces[0]) else RunPieces(Run(t, pieces[0]).t, pieces[1..])
  }

  /** Chunk invariance: however the input is cut, the last call leaves the same tokener, error
      code and value as one call on the whole input. */
  lemma {:induction false} ChunkInvariance(t: Tokener, pieces: seq<string>)
    requires Ready(t) && |pieces| > 0 && Chained(t, pieces)
    ensures RunPieces(t, pieces) == Run(t, Concat(pieces))
    decreases |pieces|
  {
    if |pieces| == 1 {
      assert Concat(pieces) == pieces[0] + Concat([]) == pieces[0];
    } else {
      ChunkInvariance(Run(t, pieces[0]).t, pieces[1..]);
      TwoPieces(t, pieces[0], Concat(pieces[1..]));
    }
  }

  /** Two actions that differ at most in a local `obj` nobody will read. */
  predicate Alike(a: Action, b: Action) {
    a == b || (a.Redo? && b.Redo? && a.t == b.t && |a.t.stack| > 0 && !Adding(a.t))
  }

  lemma StartAlike(t: Tokener, c: char, o: Json, o': Json)
    requires Ok(t) && t.Top().state.Start?
    ensures Alike(Case(t, c, o), Case(t, c, o'))
  {
    hide TopOk, Waiting, IsDigit;
  }

  lemma NumberAlike(t: Tokener, c: char, o: Json, o': Json)
    requires Ok(t) && t.Top().state.Number?
    ensures Alike(Case(t, c, o), Case(t, c, o'))
  {
    hide TopOk, Waiting, ScanInt, ScansDouble, IsNumberChar;
  }

  lemma NullAlike(t: Tokener, c: char, o: Json, o': Json)
    requires Ok(t) && t.Top().state.NullState?
    ensures Alike(Case(t, c, o), Case(t, c, o'))
  {
    hide TopOk, Waiting, SameStart;
  }

  lemma BooleanAlike(t: Tokener, c: char, o: Json, o': Json)
    requires |t.stack| > 0
    ensures Alike(CaseBoolean(t, c, o), CaseBoolean(t, c, o'))
  {
    hide SameStart;
  }

  lemma SpaceAlike(t: Tokener, c: char, o: Json, o': Json)
    requires Ok(t) && t.Top().state.Eatws?
    ensures Alike(Case(t, c, o), Case(t, c, o'))
  {
    hide IsSpace, Waiting;
  }

  lemma CaseAlike(t: Tokener, c: char, o: Json, o': Json)
    requires Ok(t) && !Adding(t)
    ensures Alike(Case(t, c, o), Case(t, c, o'))
  {
    hide TopOk, Waiting, IsSpace, IsDigit, IsHexChar, HexDigit, SameStart, CString, Utf8, ScanInt, ScansDouble, ObjectAdd, ObjectDel;
    hide CaseStart, CaseStringEscape, CaseBoolean;
    match t.Top().state
    case Start => StartAlike(t, c, o, o');
    case NullState => NullAlike(t, c, o, o');
    case Boolean => BooleanAlike(t, c, o, o');
    case Number => NumberAlike(t, c, o, o');
    case Eatws => SpaceAlike(t, c, o, o');
    case _ =>
  }

  /** The local variable `obj` never has to survive a call: between two characters its value does not matter. */
  lemma {:induction false} ObjNotLive(t: Tokener, c: char, o: Json, o': Json)
    requires Ok(t) && !Adding(t)
    ensures Process(t, c, o) == Process(t, c, o')
    decreases Travel(t, c).0, Travel(t, c).1, Travel(t, c).2
  {
    hide Travel, Ok, Adding, Case;
    CaseOk(t, c, o);
    CaseOk(t, c, o');
    CaseAlike(t, c, o, o');
    var a, b := Case(t, c, o), Case(t, c, o');
    if a != b {
      CaseTravel(t, c, o);
      ObjNotLive(a.t, c, a.obj, b.obj);
    }
  }

  // ---------- in the middle of a call ----------

  /** How a call goes on once the character `s[0]` has been used up. */
  function After(t: Tokener, s: string): Outcome
    requires Ready(t) && s != []
  {
    if s[0] == NUL then AtNul(t, Success) else Run(t, s[1..])
  }

  /** How a call ends on `goto out`. */
  function Ended(t: Tokener, c: char, err: Error): Outcome
    requires |t.stack| > 0
  {
    if c == NUL then AtNul(t, err) else Outcome(t, err)
  }

  /** How a call goes on that stands before the switch with the character `s[0]`. */
  function AtChar(t: Tokener, s: string, obj: Json): Outcome
    requires Ok(t) && s != []
  {
    match Process(t, s[0], obj)
    case Next(t') => After(t', s)
    case Halt(t', err) => Ended(t', s[0], err)
  }

  /** One turn through the switch. */
  lemma Turn(t: Tokener, s: string, obj: Json)
    requires Ok(t) && s != []
    ensures
      match Case(t, s[0], obj)
      case Redo(t', o) => Ok(t') && Sooner(Travel(t', s[0]), Travel(t, s[0])) && AtChar(t, s, obj) == AtChar(t', s, o)
      case Eat(t') => Ready(t') && AtChar(t, s, obj) == After(t', s)
      case Stop(t', err) => |t'.stack| > 0 && AtChar(t, s, obj) == Ended(t', s[0], err)
  {
    hide Case, Ok, Adding, Travel;
    CaseOk(t, s[0], obj);
    if Case(t, s[0], obj).Redo? {
      CaseTravel(t, s[0], obj);
    }
  }

  /** The next character begins with whatever `obj` holds by then. */
  lemma Resume(t: Tokener, s: string, obj: Json)
    requires Ready(t) && s != []
    ensures Run(t, s) == AtChar(t, s, obj)
  {
    ObjNotLive(t, s[0], Null, obj);
  }

  /** A case that uses up its character: what a tight loop around the case finds next. */
  lemma Eaten(t: Tokener, s: string, obj: Json)
    requires Ok(t) && s != [] && Case(t, s[0], obj).Eat?
    ensures var t' := Case(t, s[0], obj).t;
      Ready(t') &&
      AtChar(t, s, obj) ==
        if s[0] == NUL then Ended(t', NUL, Success)
        else if |s| == 1 then Outcome(t', if Done(t') then Success else Continue)
        else AtChar(t', s[1..], obj)
  {
    hide Case, Ok, Adding, Process;
    Turn(t, s, obj);
    if |s| > 1 {
      Resume(Case(t, s[0], obj).t, s[1..], obj);
    }
  }
}
