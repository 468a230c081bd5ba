/** `json_tokener_parse_ex` with its loops and gotos, on the fields of the tokener. */
module JsonParser {
  import opened Wrappers
  import opened JsonMachine
  import opened JsonCall

  /** Where the switch leads: `goto redo_char`, `break` or `goto out`. */
  datatype Flow = RedoChar | Break | Out

  /** Leaving the switch by `flow` with these values carries out the action `a`. */
  predicate Did(a: Action, flow: Flow, t: Tokener, obj: Json, err: Error) {
    match flow
    case RedoChar => a == Redo(t, obj) && err == Success
    case Break => a == Eat(t) && err == Success
    case Out => a == Stop(t, err)
  }

  /** Before the switch with the character `c` at `pos`, in a call that will end as `goal`. */
  ghost predicate At(str: string, pos: nat, c: char, t: Tokener, obj: Json, err: Error, goal: Outcome) {
    Ok(t) && pos < |str| && c == str[pos] && err == Success && AtChar(t, str[pos..], obj) == goal
  }

  /** Behind the switch, left by `flow`, in a call that will end as `goal`. */
  ghost predicate Went(
    flow: Flow, str: string, pos: nat, c: char, t: Tokener, obj: Json, err: Error, goal: Outcome)
    requires |t.stack| > 0
  {
    match flow
    case RedoChar => At(str, pos, c, t, obj, err, goal)
    case Break => Ready(t) && pos < |str| && c == str[pos] && err == Success && After(t, str[pos..]) == goal
    case Out => goal == Ended(t, c, err)
  }

  /** The switch is entered again with a later character, or nearer to using this one up. */
  ghost predicate Nearer(pos: nat, t: Tokener, c: char, pos': nat, t': Tokener, c': char)
    requires Ok(t) && Ok(t')
  {
    pos < pos' || (pos == pos' && Sooner(Travel(t', c'), Travel(t, c)))
  }

  /** A turn through the switch, as its cases carry it out. */
  lemma Turned(
    str: string, pos: nat, c: char, t: Tokener, obj: Json, goal: Outcome,
    flow: Flow, t': Tokener, obj': Json, err: Error)
    requires At(str, pos, c, t, obj, Success, goal) && |t'.stack| > 0
    requires Did(Case(t, c, obj), flow, t', obj', err)
    ensures Went(flow, str, pos, c, t', obj', err, goal)
    ensures flow.RedoChar? ==> Nearer(pos, t, c, pos, t', c)
  {
    hide Case, Ok, Adding, Process, AtChar, Travel, Sooner;
    Turn(t, str[pos..], obj);
  }

  lemma WentOut(str: string, pos: nat, c: char, t: Tokener, obj: Json, err: Error, goal: Outcome)
    requires |t.stack| > 0 && goal == Ended(t, c, err)
    ensures Went(Out, str, pos, c, t, obj, err, goal)
  {
  }

  /** A round of a tight loop: its character is used up, and the next one is looked at. */
  lemma Round(str: string, pos: nat, t: Tokener, t': Tokener, obj: Json, goal: Outcome)
    requires pos < |str| && At(str, pos, str[pos], t, obj, Success, goal)
    requires Case(t, str[pos], obj) == Eat(t')
    ensures Ready(t')
    ensures str[pos] != NUL && pos + 1 < |str| ==> At(str, pos + 1, str[pos + 1], t', obj, Success, goal)
    ensures str[pos] == NUL ==> goal == Ended(t', NUL, Success)
    ensures str[pos] != NUL && pos + 1 == |str| ==>
      (goal == Ended(t', str[pos], if Done(t') then Success else Continue))
  {
    hide Case, Process, AtChar;
    Eaten(t, str[pos..], obj);
    assert str[pos..][1..] == str[pos + 1..];
  }

  /** Behind the switch, the call goes on with the next character, if there is one. */
  lemma ResumeAfter(t: Tokener, str: string, pos: nat, obj: Json)
    requires Ready(t) && pos < |str|
    ensures var goal := After(t, str[pos..]);
      if str[pos] == NUL then goal == Ended(t, NUL, Success)
      else if pos + 1 == |str| then goal == Ended(t, str[pos], if Done(t) then Success else Continue)
      else At(str, pos + 1, str[pos + 1], t, obj, Success, goal)
  {
    hide Ok, Adding, Process, AtChar;
    assert str[pos..][1..] == str[pos + 1..];
    if pos + 1 < |str| {
      Resume(t, str[pos + 1..], obj);
    }
  }

  // ---------- the cases that stay where they are ----------

  lemma StaySpace(t: Tokener, c: char, obj: Json)
    requires Ok(t) && t.Top().state == Eatws && IsSpace(c)
    ensures Case(t, c, obj) == Eat(t)
  {
  }

  lemma StayComment(t: Tokener, c: char, obj: Json)
    requires Ok(t) && ((t.Top().state == Comment && c != '*') || (t.Top().state == CommentEol && c != '\n'))
    ensures Case(t, c, obj) == Eat(t.(pb := t.pb + [c]))
  {
  }

  lemma StayString(t: Tokener, c: char, obj: Json)
    requires Ok(t) && (t.Top().state == StringState || t.Top().state == ObjectField)
    requires c != t.quote && c != '\\'
    ensures Case(t, c, obj) == Eat(t.(pb := t.pb + [c]))
  {
  }

  lemma StayNumber(t: Tokener, c: char, obj: Json)
    requires Ok(t) && t.Top().state == Number && IsNumberChar(c)
    ensures Case(t, c, obj) == Eat(t.(pb := t.pb + [c], isDouble := t.isDouble || c == '.' || c == 'e'))
  {
  }

  lemma StayUnicode(t: Tokener, c: char, obj: Json)
    requires Ok(t) && t.Top().state == EscapeUnicode && IsHexChar(c) && t.stPos < 3
    ensures Case(t, c, obj) == Eat(t.(ucs := MoreHex(t.ucs, t.stPos, c), stPos := t.stPos + 1))
  {
  }

  // ---------- the cases that leave a loop ----------

  lemma LeaveSpace(t: Tokener, c: char, obj: Json)
    requires Ok(t) && t.Top().state == Eatws && !IsSpace(c)
    ensures Case(t, c, obj) ==
      if c == '/' then Eat(t.In(CommentStart).(pb := "/")) else Redo(t.In(t.Top().saved), obj)
  {
  }

  lemma LeaveComment(t: Tokener, c: char, obj: Json)
    requires Ok(t) && t.Top().state == Comment && c == '*'
    ensures Case(t, c, obj) == Eat(t.In(CommentEnd).(pb := t.pb + [c]))
  {
  }

  lemma LeaveCommentEol(t: Tokener, c: char, obj: Json)
    requires Ok(t) && t.Top().state == CommentEol && c == '\n'
    ensures Case(t, c, obj) == Eat(t.In(Eatws))
  {
  }

  lemma LeaveString(t: Tokener, c: char, obj: Json)
    requires Ok(t) && t.Top().state == StringState && (c == t.quote || c == '\\')
    ensures Case(t, c, obj) ==
      Eat(if c == t.quote then t.Complete(Str(CString(t.pb)))
          else t.WithTop(t.Top().(state := StringEscape, saved := StringState)))
  {
  }

  lemma LeaveField(t: Tokener, c: char, obj: Json)
    requires Ok(t) && t.Top().state == ObjectField && (c == t.quote || c == '\\')
    ensures Case(t, c, obj) ==
      Eat(if c == t.quote then t.Name(Some(CString(t.pb))).Then(ObjectFieldEnd)
          else t.WithTop(t.Top().(state := StringEscape, saved := ObjectField)))
  {
  }

  /** The states whose case has a loop. */
  predicate Loops(s: State) {
    s in {Eatws, Comment, CommentEol, StringState, ObjectField, EscapeUnicode, Number}
  }

  lemma InEscape(t: Tokener)
    requires Ok(t) && t.Top().state == EscapeUnicode
    ensures t.stPos < 4
  {
  }

  lemma LeaveUnicode(t: Tokener, c: char, obj: Json)
    requires Ok(t) && t.Top().state == EscapeUnicode && (!IsHexChar(c) || t.stPos == 3)
    ensures Case(t, c, obj) ==
      if !IsHexChar(c) then Stop(t, ParseString)
      else
        var ucs := MoreHex(t.ucs, 3, c);
        Eat(t.(ucs := ucs, stPos := 4).In(t.Top().saved).(pb := t.pb + Utf8(ucs)))
  {
  }

  lemma LeaveNumber(t: Tokener, c: char, obj: Json)
    requires Ok(t) && t.Top().state == Number && !IsNumberChar(c)
    ensures Case(t, c, obj) ==
      if t.isDouble && ScansDouble(t.pb) then Redo(t.Complete(Double(t.pb)), obj)
      else if !t.isDouble && ScanInt(t.pb).Some? then Redo(t.Complete(Int(ScanInt(t.pb).value)), obj)
      else Stop(t, ParseNumber)
  {
  }

  /** `struct json_tokener` */
  class JsonTokener {
    const stack: array<Level>
    var depth: nat
    var pb: string
    var isDouble: bool
    var stPos: nat
    var ucs: nat
    var quote: char
    var charOffset: nat
    var err: Error

    ghost function T(): Tokener
      requires depth < stack.Length
      reads this, stack
    {
      Tokener(stack[..depth + 1], pb, isDouble, stPos, ucs, quote)
    }

    predicate Room()
      reads this
    {
      stack.Length == MAX_DEPTH && depth < MAX_DEPTH
    }

    ghost predicate Sound()
      reads this, stack
    {
      Room() && Ok(T())
    }

    // ---------- the macros ----------

    method SetState(state: State)
      requires depth < stack.Length
      modifies stack
      ensures T() == old(T()).In(state)
    {
      stack[depth] := stack[depth].(state := state);
    }

    method SetSaved(state: State)
      requires depth < stack.Length
      modifies stack
      ensures T() == old(T().WithTop(T().Top().(saved := state)))
    {
      stack[depth] := stack[depth].(saved := state);
    }

    method SetCurrent(value: Json)
      requires depth < stack.Length
      modifies stack
      ensures T() == old(T()).Hold(value)
    {
      stack[depth] := stack[depth].(current := value);
    }

    method SetFieldName(name: Option<string>)
      requires depth < stack.Length
      modifies stack
      ensures T() == old(T()).Name(name)
    {
      stack[depth] := stack[depth].(fieldName := name);
    }

    /** `saved_state = saved; state = json_tokener_state_eatws` */
    method SkipSpaceThen(saved: State)
      requires depth < stack.Length
      modifies stack
      ensures T() == old(T()).Then(saved)
    {
      stack[depth] := stack[depth].(saved := saved);
      stack[depth] := stack[depth].(state := Eatws);
    }

    /** A value is complete. */
    method Finished(value: Json)
      requires depth < stack.Length
      modifies stack
      ensures T() == old(T()).Complete(value)
    {
      stack[depth] := stack[depth].(current := value);
      SkipSpaceThen(Finish);
    }

    /** `printbuf_memappend_fast` */
    method Append(text: string)
      requires depth < stack.Length
      modifies this`pb
      ensures T() == old(T()).(pb := old(pb) + text)
      ensures pb == old(pb) + text
    {
      pb := pb + text;
    }

    /** `printbuf_reset` */
    method ResetBuffer()
      requires depth < stack.Length
      modifies this`pb
      ensures T() == old(T()).(pb := "")
    {
      pb := "";
    }

    method SetStPos(pos: nat)
      requires depth < stack.Length
      modifies this`stPos
      ensures T() == old(T()).(stPos := pos)
      ensures stPos == pos
    {
      stPos := pos;
    }

    method SetUcs(c: nat)
      requires depth < stack.Length
      modifies this`ucs
      ensures T() == old(T()).(ucs := c)
      ensures ucs == c
    {
      ucs := c;
    }

    method SetQuote(c: char)
      requires depth < stack.Length
      modifies this`quote
      ensures T() == old(T()).(quote := c)
    {
      quote := c;
    }

    method SetDouble(b: bool)
      requires depth < stack.Length
      modifies this`isDouble
      ensures T() == old(T()).(isDouble := b)
    {
      isDouble := b;
    }

    /** The fields, and what they stand for. */
    lemma Fields()
      requires depth < stack.Length
      ensures T().Top() == stack[depth] && |T().stack| == depth + 1
      ensures T().pb == pb && T().stPos == stPos && T().isDouble == isDouble && T().quote == quote && T().ucs == ucs
    {
    }

    /** `json_tokener_reset_level` */
    method ResetLevel(i: nat)
      requires i < stack.Length
      modifies stack
      ensures stack[..] == old(stack[..])[i := FRESH]
    {
      stack[i] := FRESH;
    }

    /** `json_tokener_reset` */
    method Reset()
      requires Room()
      modifies this, stack
      ensures Sound() && Ready(T()) && err == Success
      ensures T() == old(T()).(stack := NEW.stack)
    {
      var i: int := depth;
      while i >= 0
        invariant -1 <= i <= depth == old(depth)
        invariant forall k :: i < k <= depth ==> stack[k] == FRESH
        modifies stack
      {
        ResetLevel(i);
        i := i - 1;
      }
      depth := 0;
      err := Success;
    }

    /** `json_tokener_new` */
    constructor ()
      ensures Sound() && Ready(T()) && fresh(stack)
      ensures T() == NEW
    {
      stack := new Level[MAX_DEPTH](_ => FRESH);
      depth, pb, isDouble, stPos, ucs, quote, charOffset, err := 0, "", false, 0, 0, NUL, 0, Success;
      new;
      Reset();
    }

    // ---------- reading ----------

    /** `POP_CHAR` */
    method PopChar(str: string, c: char) returns (more: bool, c': char)
      requires charOffset <= |str| && depth < stack.Length
      modifies this`err
      ensures more <==> charOffset < |str|
      ensures more ==> c' == str[charOffset] && err == old(err)
      ensures !more ==> c' == c && err == if Done(T()) then Success else Continue
    {
      if charOffset == |str| {
        if depth == 0 && stack[depth].state == Eatws && stack[depth].saved == Finish {
          err := Success;
        } else {
          err := Continue;
        }
        return false, c;
      }
      return true, str[charOffset];
    }

    /** `ADVANCE_CHAR && POP_CHAR`, as the tight loops have it. */
    method Advance(str: string, c: char) returns (more: bool, c': char)
      requires charOffset < |str| && depth < stack.Length
      modifies this`err, this`charOffset
      ensures charOffset == old(charOffset) + 1
      ensures more <==> c != NUL && charOffset < |str|
      ensures more ==> c' == str[charOffset] && err == old(err)
      ensures !more ==> c' == c
      ensures !more ==> err == (if c == NUL then old(err) else if Done(T()) then Success else Continue)
    {
      charOffset := charOffset + 1;
      if c == NUL {
        return false, c;
      }
      more, c' := PopChar(str, c);
    }

    /** A round of a tight loop: `t` is the tokener with the characters that are not appended yet, `t'` has
        used up `c0`, too. */
    method NextChar(str: string, c0: char, obj: Json, ghost t: Tokener, ghost t': Tokener, ghost goal: Outcome)
      returns (more: bool, c: char)
      requires Room() && At(str, charOffset, c0, t, obj, err, goal)
      requires Case(t, c0, obj) == Eat(t') && t' == T().(pb := t'.pb)
      modifies this`err, this`charOffset
      ensures charOffset == old(charOffset) + 1 <= |str|
      ensures more ==> err == Success && At(str, charOffset, c, t', obj, err, goal)
      ensures !more ==> goal == Ended(t', c, err)
    {
      hide Ok, Case, AtChar;
      Round(str, charOffset, t, t', obj, goal);
      more, c := Advance(str, c0);
    }

    // ---------- the cases without a loop ----------

    method SwitchStart(c: char, obj: Json) returns (flow: Flow)
      requires Room() && err == Success
      modifies this, stack
      ensures Room() && charOffset == old(charOffset)
      ensures Did(old(CaseStart(T(), c, obj)), flow, T(), obj, err)
    {
      Fields();
      hide T, IsDigit;
      if c == '{' {
        SkipSpaceThen(ObjectFieldStart);
        SetCurrent(Obj([]));
        flow := Break;
      } else if c == '[' {
        SkipSpaceThen(ArrayState);
        SetCurrent(Arr([]));
        flow := Break;
      } else if c == '"' || c == '\'' {
        SetState(StringState);
        ResetBuffer();
        SetQuote(c);
        flow := Break;
      } else {
        flow := SwitchStartWord(c, obj);
      }
    }

    /** The other characters that may start a value, and those that may not. */
    method SwitchStartWord(c: char, obj: Json) returns (flow: Flow)
      requires Room() && err == Success
      requires c !in "{[\"'"
      modifies this, stack
      ensures Room() && charOffset == old(charOffset)
      ensures Did(old(CaseStart(T(), c, obj)), flow, T(), obj, err)
    {
      Fields();
      hide T, IsDigit;
      flow := RedoChar;
      if c == 'N' || c == 'n' {
        SetState(NullState);
        ResetBuffer();
        SetStPos(0);
      } else if c == 'T' || c == 't' || c == 'F' || c == 'f' {
        SetState(Boolean);
        ResetBuffer();
        SetStPos(0);
      } else if IsDigit(c) || c == '-' {
        SetState(Number);
        ResetBuffer();
        SetDouble(false);
      } else {
        err := ParseUnexpected;
        flow := Out;
      }
    }

    method SwitchFinish(c: char, obj: Json) returns (flow: Flow, obj': Json)
      requires Sound() && err == Success && T().Top().state == Finish
      modifies this, stack
      ensures Room() && charOffset == old(charOffset)
      ensures Did(old(Case(T(), c, obj)), flow, T(), obj', err)
    {
      if depth == 0 {
        return Out, obj;
      }
      obj' := stack[depth].current;
      ResetLevel(depth);
      depth := depth - 1;
      flow := RedoChar;
    }

    method SwitchNull(c: char, obj: Json) returns (flow: Flow)
      requires Sound() && err == Success && T().Top().state == NullState
      modifies this, stack
      ensures Room() && charOffset == old(charOffset)
      ensures Did(old(Case(T(), c, obj)), flow, T(), obj, err)
    {
      Fields();
      hide T, TopOk, Waiting, ScanInt, ScansDouble, CString, Utf8, ObjectAdd, CaseStart, CaseStringEscape, SameStart;
      Append([c]);
      if SameStart("null", pb, Min(stPos + 1, 4)) {
        if stPos == 4 {
          Finished(Null);
          return RedoChar;
        }
      } else {
        err := ParseNull;
        return Out;
      }
      SetStPos(stPos + 1);
      flow := Break;
    }

    method SwitchBoolean(c: char, obj: Json) returns (flow: Flow)
      requires Room() && err == Success
      modifies this, stack
      ensures Room() && charOffset == old(charOffset)
      ensures Did(old(CaseBoolean(T(), c, obj)), flow, T(), obj, err)
    {
      Fields();
      hide T, TopOk, Waiting, ScanInt, ScansDouble, CString, Utf8, ObjectAdd, CaseStart, CaseStringEscape, SameStart;
      Append([c]);
      if SameStart("true", pb, Min(stPos + 1, 4)) {
        if stPos == 4 {
          Finished(Bool(true));
          return RedoChar;
        }
      } else if SameStart("false", pb, Min(stPos + 1, 5)) {
        if stPos == 5 {
          Finished(Bool(false));
          return RedoChar;
        }
      } else {
        err := ParseBoolean;
        return Out;
      }
      SetStPos(stPos + 1);
      flow := Break;
    }

    method SwitchComment(c: char, obj: Json) returns (flow: Flow)
      requires Sound() && err == Success
      requires T().Top().state == CommentStart || T().Top().state == CommentEnd
      modifies this, stack
      ensures Room() && charOffset == old(charOffset)
      ensures Did(old(Case(T(), c, obj)), flow, T(), obj, err)
    {
      flow := Break;
      if stack[depth].state == CommentStart {
        if c == '*' {
          SetState(Comment);
        } else if c == '/' {
          SetState(CommentEol);
        } else {
          err := ParseComment;
          return Out;
        }
        Append([c]);
      } else {
        Append([c]);
        SetState(if c == '/' then Eatws else Comment);
      }
    }

    method SwitchEscape(c: char, obj: Json) returns (flow: Flow)
      requires Room() && err == Success
      modifies this, stack
      ensures Room() && charOffset == old(charOffset)
      ensures Did(old(CaseStringEscape(T(), c)), flow, T(), obj, err)
    {
      Fields();
      hide T, SameStart, ScanInt, ScansDouble, CString, Utf8, ObjectAdd, CaseStart, TopOk, Waiting;
      flow := Break;
      if c == '"' || c == '\\' || c == '/' {
        Append([c]);
        SetState(stack[depth].saved);
      } else if c == 'b' || c == 'n' || c == 'r' || c == 't' {
        Append([if c == 'b' then 8 as char else if c == 'n' then '\n' else if c == 'r' then '\r' else '\t']);
        SetState(stack[depth].saved);
      } else if c == 'u' {
        SetUcs(0);
        SetStPos(0);
        SetState(EscapeUnicode);
      } else {
        err := ParseString;
        flow := Out;
      }
    }

    method SwitchArray(c: char, obj: Json) returns (flow: Flow)
      requires Sound() && err == Success
      requires var s := T().Top().state; s == ArrayState || s == ArrayAdd || s == ArraySep
      modifies this, stack
      ensures Room() && charOffset == old(charOffset)
      ensures Did(old(Case(T(), c, obj)), flow, T(), obj, err)
    {
      Fields();
      hide T, SameStart, ScanInt, ScansDouble, CString, Utf8, ObjectAdd, CaseStart, CaseStringEscape, Waiting;
      match stack[depth].state {
        case ArrayState =>
          if c == ']' {
            SkipSpaceThen(Finish);
          } else {
            if depth >= MAX_DEPTH - 1 {
              err := ErrorDepth;
              return Out;
            }
            SetState(ArrayAdd);
            depth := depth + 1;
            ResetLevel(depth);
            return RedoChar;
          }
        case ArrayAdd =>
          SetCurrent(Arr(stack[depth].current.items + [obj]));
          SkipSpaceThen(ArraySep);
          return RedoChar;
        case ArraySep =>
          if c == ']' {
            SkipSpaceThen(Finish);
          } else if c == ',' {
            SkipSpaceThen(ArrayState);
          } else {
            err := ParseArray;
            return Out;
          }
      }
      flow := Break;
    }

    method SwitchObject(c: char, obj: Json) returns (flow: Flow)
      requires Sound() && err == Success
      requires var s := T().Top().state; s == ObjectFieldStart || s == ObjectFieldEnd || s == ObjectSep
      modifies this, stack
      ensures Room() && charOffset == old(charOffset)
      ensures Did(old(Case(T(), c, obj)), flow, T(), obj, err)
    {
      Fields();
      hide T, TopOk, Waiting, SameStart, ScanInt, ScansDouble, CString, Utf8, ObjectAdd, CaseStart, CaseStringEscape, CaseBoolean;
      flow := Break;
      match stack[depth].state {
        case ObjectFieldStart =>
          if c == '}' {
            SkipSpaceThen(Finish);
          } else if c == '"' || c == '\'' {
            SetQuote(c);
            ResetBuffer();
            SetState(ObjectField);
          } else {
            err := ParseObjectKeyName;
            flow := Out;
          }
        case ObjectFieldEnd =>
          if c == ':' {
            SkipSpaceThen(ObjectValue);
          } else {
            err := ParseObjectKeySep;
            flow := Out;
          }
        case ObjectSep =>
          if c == '}' {
            SkipSpaceThen(Finish);
          } else if c == ',' {
            SkipSpaceThen(ObjectFieldStart);
          } else {
            err := ParseObjectValueSep;
            flow := Out;
          }
      }
    }

    method SwitchValue(c: char, obj: Json) returns (flow: Flow)
      requires Sound() && err == Success
      requires T().Top().state == ObjectValue || T().Top().state == ObjectValueAdd
      modifies this, stack
      ensures Room() && charOffset == old(charOffset)
      ensures Did(old(Case(T(), c, obj)), flow, T(), obj, err)
    {
      Fields();
      hide T, SameStart, ScanInt, ScansDouble, CString, Utf8, ObjectAdd, CaseStart, CaseStringEscape, Waiting;
      if stack[depth].state == ObjectValue {
        if depth >= MAX_DEPTH - 1 {
          err := ErrorDepth;
          return Out;
        }
        SetState(ObjectValueAdd);
        depth := depth + 1;
        ResetLevel(depth);
      } else {
        SetCurrent(Obj(ObjectAdd(stack[depth].current.members, stack[depth].fieldName.value, obj)));
        SetFieldName(None);
        SkipSpaceThen(ObjectSep);
      }
      flow := RedoChar;
    }

    // ---------- the cases with a loop ----------

    method SkipBlanks(str: string, c0: char, obj: Json, ghost goal: Outcome) returns (more: bool, c: char)
      requires Sound() && T().Top().state == Eatws && At(str, charOffset, c0, T(), obj, err, goal)
      modifies this`err, this`charOffset
      ensures charOffset >= old(charOffset)
      ensures more ==> Sound() && err == Success && At(str, charOffset, c, T(), obj, err, goal) && !IsSpace(c)
      ensures more && charOffset == old(charOffset) ==> c == c0
      ensures !more ==> goal == Ended(T(), c, err)
    {
      hide Ok, Case, AtChar, IsSpace;
      ghost var t := T();
      c := c0;
      while IsSpace(c)
        invariant T() == t && charOffset >= old(charOffset) && (charOffset == old(charOffset) ==> c == c0)
        invariant At(str, charOffset, c, t, obj, err, goal)
        decreases |str| - charOffset
      {
        StaySpace(t, c, obj);
        more, c := NextChar(str, c, obj, t, t, goal);
        if !more {
          return;
        }
      }
      more := true;
    }

    /** `json_tokener_state_eatws` */
    method SkipSpace(str: string, c0: char, obj: Json, ghost goal: Outcome) returns (flow: Flow, c: char)
      requires Sound() && T().Top().state == Eatws && At(str, charOffset, c0, T(), obj, err, goal)
      modifies this, stack
      ensures Room() && charOffset >= old(charOffset)
      ensures Went(flow, str, charOffset, c, T(), obj, err, goal)
      ensures flow.RedoChar? ==> Nearer(old(charOffset), old(T()), c0, charOffset, T(), c)
    {
      hide At, Went, Ended, Ok, Case, AtChar, Travel, Sooner;
      ghost var t := T();
      var more;
      more, c := SkipBlanks(str, c0, obj, goal);
      if !more {
        WentOut(str, charOffset, c, T(), obj, err, goal);
        return Out, c;
      }
      LeaveSpace(t, c, obj);
      if c == '/' {
        ResetBuffer();
        Append([c]);
        SetState(CommentStart);
        flow := Break;
      } else {
        SetState(stack[depth].saved);
        flow := RedoChar;
      }
      Turned(str, charOffset, c, t, obj, goal, flow, T(), obj, err);
    }

    /** The loops of `json_tokener_state_comment` and `json_tokener_state_comment_eol`. */
    method ReadUpTo(end: char, str: string, c0: char, obj: Json, ghost goal: Outcome)
      returns (more: bool, c: char, ghost t': Tokener)
      requires Sound() && At(str, charOffset, c0, T(), obj, err, goal)
      requires
        (T().Top().state == Comment && end == '*') || (T().Top().state == CommentEol && end == '\n')
      modifies this`pb, this`err, this`charOffset
      ensures charOffset >= old(charOffset) && T() == t' && t' == old(T()).(pb := pb)
      ensures more ==> Sound() && err == Success && c == end && At(str, charOffset, c, t', obj, err, goal)
      ensures !more ==> goal == Ended(t', c, err)
    {
      hide Ok, Case, AtChar;
      var caseStart := charOffset;
      ghost var t := T();
      t' := t;
      c := c0;
      while c != end
        invariant Room() && T() == t && caseStart <= charOffset <= |str|
        invariant t' == t.(pb := t.pb + str[caseStart..charOffset])
        invariant At(str, charOffset, c, t', obj, err, goal)
        decreases |str| - charOffset
        modifies this`err, this`charOffset, this`pb
      {
        StayComment(t', c, obj);
        ghost var t1 := t';
        t' := t'.(pb := t'.pb + [c]);
        more, c := NextChar(str, c, obj, t1, t', goal);
        if !more {
          Append(str[caseStart..charOffset]);
          return;
        }
      }
      Append(str[caseStart..charOffset]);
      more := true;
    }

    method ReadComment(str: string, c0: char, obj: Json, ghost goal: Outcome) returns (flow: Flow, c: char)
      requires Sound() && T().Top().state == Comment && At(str, charOffset, c0, T(), obj, err, goal)
      modifies this, stack
      ensures Room() && charOffset >= old(charOffset)
      ensures Went(flow, str, charOffset, c, T(), obj, err, goal) && flow != RedoChar
    {
      hide At, Went, Ended, Ok, Case, AtChar;
      var more;
      ghost var t;
      more, c, t := ReadUpTo('*', str, c0, obj, goal);
      if !more {
        WentOut(str, charOffset, c, T(), obj, err, goal);
        return Out, c;
      }
      Append([c]);
      SetState(CommentEnd);
      flow := Break;
      LeaveComment(t, c, obj);
      Turned(str, charOffset, c, t, obj, goal, flow, T(), obj, err);
    }

    method ReadCommentEol(str: string, c0: char, obj: Json, ghost goal: Outcome) returns (flow: Flow, c: char)
      requires Sound() && T().Top().state == CommentEol && At(str, charOffset, c0, T(), obj, err, goal)
      modifies this, stack
      ensures Room() && charOffset >= old(charOffset)
      ensures Went(flow, str, charOffset, c, T(), obj, err, goal) && flow != RedoChar
    {
      hide At, Went, Ended, Ok, Case, AtChar;
      var more;
      ghost var t;
      more, c, t := ReadUpTo('\n', str, c0, obj, goal);
      if !more {
        WentOut(str, charOffset, c, T(), obj, err, goal);
        return Out, c;
      }
      SetState(Eatws);
      flow := Break;
      LeaveCommentEol(t, c, obj);
      Turned(str, charOffset, c, t, obj, goal, flow, T(), obj, err);
    }

    /** The common loop of `json_tokener_state_string` and `json_tokener_state_object_field`. */
    method ReadQuoted(str: string, c0: char, obj: Json, ghost goal: Outcome)
      returns (more: bool, c: char, ghost t': Tokener)
      requires Sound() && At(str, charOffset, c0, T(), obj, err, goal)
      requires T().Top().state == StringState || T().Top().state == ObjectField
      modifies this`pb, this`err, this`charOffset
      ensures charOffset >= old(charOffset) && T() == t' && t' == old(T()).(pb := pb) && pb == t'.pb
      ensures more ==> Sound() && err == Success && (c == quote || c == '\\') && At(str, charOffset, c, t', obj, err, goal)
      ensures !more ==> goal == Ended(t', c, err)
    {
      hide Ok, Case, AtChar;
      var caseStart := charOffset;
      ghost var t := T();
      t' := t;
      c := c0;
      while c != quote && c != '\\'
        invariant Room() && T() == t && caseStart <= charOffset <= |str|
        invariant t' == t.(pb := t.pb + str[caseStart..charOffset])
        invariant At(str, charOffset, c, t', obj, err, goal)
        decreases |str| - charOffset
        modifies this`err, this`charOffset, this`pb
      {
        StayString(t', c, obj);
        ghost var t1 := t';
        t' := t'.(pb := t'.pb + [c]);
        more, c := NextChar(str, c, obj, t1, t', goal);
        if !more {
          Append(str[caseStart..charOffset]);
          return;
        }
      }
      Append(str[caseStart..charOffset]);
      more := true;
    }

    method ReadString(str: string, c0: char, obj: Json, ghost goal: Outcome) returns (flow: Flow, c: char)
      requires Sound() && T().Top().state == StringState && At(str, charOffset, c0, T(), obj, err, goal)
      modifies this, stack
      ensures Room() && charOffset >= old(charOffset)
      ensures Went(flow, str, charOffset, c, T(), obj, err, goal) && flow != RedoChar
    {
      hide At, Went, Ended, Ok, Case, AtChar, CString;
      var more;
      ghost var t;
      more, c, t := ReadQuoted(str, c0, obj, goal);
      if !more {
        WentOut(str, charOffset, c, T(), obj, err, goal);
        return Out, c;
      }
      if c == quote {
        SetCurrent(Str(CString(pb)));
        SkipSpaceThen(Finish);
      } else {
        SetSaved(StringState);
        SetState(StringEscape);
      }
      flow := Break;
      LeaveString(t, c, obj);
      Turned(str, charOffset, c, t, obj, goal, flow, T(), obj, err);
    }

    method ReadField(str: string, c0: char, obj: Json, ghost goal: Outcome) returns (flow: Flow, c: char)
      requires Sound() && T().Top().state == ObjectField && At(str, charOffset, c0, T(), obj, err, goal)
      modifies this, stack
      ensures Room() && charOffset >= old(charOffset)
      ensures Went(flow, str, charOffset, c, T(), obj, err, goal) && flow != RedoChar
    {
      hide At, Went, Ended, Ok, Case, AtChar, CString;
      var more;
      ghost var t;
      more, c, t := ReadQuoted(str, c0, obj, goal);
      if !more {
        WentOut(str, charOffset, c, T(), obj, err, goal);
        return Out, c;
      }
      if c == quote {
        SetFieldName(Some(CString(pb)));
        SkipSpaceThen(ObjectFieldEnd);
      } else {
        SetSaved(ObjectField);
        SetState(StringEscape);
      }
      flow := Break;
      LeaveField(t, c, obj);
      Turned(str, charOffset, c, t, obj, goal, flow, T(), obj, err);
    }

    /** A digit of `json_tokener_state_escape_unicode`; `more` if the loop goes on. */
    method TakeHex(c: char, ghost obj: Json) returns (more: bool)
      requires Sound() && T().Top().state == EscapeUnicode && IsHexChar(c)
      modifies this`pb, this`stPos, this`ucs, stack
      ensures Case(old(T()), c, obj) == Eat(T())
      ensures more ==> T().Top().state == EscapeUnicode
    {
      InEscape(T());
      Fields();
      if stPos == 3 {
        LeaveUnicode(T(), c, obj);
      } else {
        StayUnicode(T(), c, obj);
      }
      hide T, Ok, Case, IsHexChar, MoreHex, Utf8;
      SetUcs(MoreHex(ucs, stPos, c));
      SetStPos(stPos + 1);
      more := stPos != 4;
      if !more {
        SetState(stack[depth].saved);
        Append(Utf8(ucs));
      }
    }

    method ReadUnicode(str: string, c0: char, obj: Json, ghost goal: Outcome) returns (flow: Flow, c: char)
      requires Sound() && T().Top().state == EscapeUnicode && At(str, charOffset, c0, T(), obj, err, goal)
      modifies this, stack
      ensures Room() && charOffset >= old(charOffset)
      ensures Went(flow, str, charOffset, c, T(), obj, err, goal) && flow != RedoChar
    {
      hide Ok, Case, AtChar, Done, IsHexChar;
      c := c0;
      while true
        invariant Sound() && T().Top().state == EscapeUnicode && old(charOffset) <= charOffset <= |str|
        invariant At(str, charOffset, c, T(), obj, err, goal)
        decreases |str| - charOffset
      {
        ghost var t := T();
        var more;
        if !IsHexChar(c) {
          err := ParseString;
          LeaveUnicode(t, c, obj);
          Turned(str, charOffset, c, t, obj, goal, Out, t, obj, err);
          return Out, c;
        }
        more := TakeHex(c, obj);
        if !more {
          Turned(str, charOffset, c, t, obj, goal, Break, T(), obj, err);
          return Break, c;
        }
        more, c := NextChar(str, c, obj, t, T(), goal);
        if !more {
          return Out, c;
        }
      }
    }

    method ReadNumber(str: string, c0: char, obj: Json, ghost goal: Outcome) returns (flow: Flow, c: char)
      requires Sound() && T().Top().state == Number && At(str, charOffset, c0, T(), obj, err, goal)
      modifies this, stack
      ensures Room() && charOffset >= old(charOffset)
      ensures Went(flow, str, charOffset, c, T(), obj, err, goal)
      ensures flow.RedoChar? ==> Nearer(old(charOffset), old(T()), c0, charOffset, T(), c)
    {
      var more;
      ghost var t;
      more, c, t := ReadDigits(str, c0, obj, goal);
      if !more {
        WentOut(str, charOffset, c, T(), obj, err, goal);
        return Out, c;
      }
      flow := ConvertNumber(c, obj);
      LeaveNumber(t, c, obj);
      hide At, Went, Ended, Ok, Case, AtChar, Travel, Sooner;
      Turned(str, charOffset, c, t, obj, goal, flow, T(), obj, err);
    }

    /** One round of the loop in `json_tokener_state_number`; `t'` has the characters not appended yet. */
    method NextDigit(str: string, c0: char, obj: Json, ghost t: Tokener, ghost goal: Outcome)
      returns (more: bool, c: char, ghost t': Tokener)
      requires Room() && IsNumberChar(c0) && T().Top().state == Number
      requires t == T().(pb := t.pb) && At(str, charOffset, c0, t, obj, err, goal)
      modifies this`isDouble, this`err, this`charOffset
      ensures charOffset == old(charOffset) + 1 <= |str|
      ensures T() == old(T()).(isDouble := isDouble) && t' == t.(pb := t.pb + [c0], isDouble := isDouble)
      ensures more ==> At(str, charOffset, c, t', obj, err, goal)
      ensures !more ==> goal == Ended(t', c, err)
    {
      StayNumber(t, c0, obj);
      hide Ok, Case, AtChar, IsNumberChar;
      if c0 == '.' || c0 == 'e' {
        isDouble := true;
      }
      t' := t.(pb := t.pb + [c0], isDouble := isDouble);
      more, c := NextChar(str, c0, obj, t, t', goal);
    }

    method ReadDigits(str: string, c0: char, obj: Json, ghost goal: Outcome)
      returns (more: bool, c: char, ghost t': Tokener)
      requires Sound() && T().Top().state == Number && At(str, charOffset, c0, T(), obj, err, goal)
      modifies this`pb, this`isDouble, this`err, this`charOffset
      ensures charOffset >= old(charOffset) && T() == t' && t' == old(T()).(pb := pb, isDouble := isDouble)
      ensures more ==> Sound() && err == Success && !IsNumberChar(c) && At(str, charOffset, c, t', obj, err, goal)
      ensures more && charOffset == old(charOffset) ==> c == c0 && t' == old(T())
      ensures !more ==> goal == Ended(t', c, err)
    {
      hide Ok, Case, AtChar, IsNumberChar;
      var caseStart, caseLen := charOffset, 0;
      ghost var t := T();
      t' := t;
      c := c0;
      while IsNumberChar(c)
        invariant Room() && T() == t.(isDouble := isDouble) && caseLen == charOffset - caseStart >= 0
        invariant charOffset <= |str| && (caseLen == 0 ==> c == c0 && isDouble == t.isDouble)
        invariant t' == t.(pb := t.pb + str[caseStart..charOffset], isDouble := isDouble)
        invariant At(str, charOffset, c, t', obj, err, goal)
        decreases |str| - charOffset
        modifies this`err, this`charOffset, this`pb, this`isDouble
      {
        caseLen := caseLen + 1;
        more, c, t' := NextDigit(str, c, obj, t', goal);
        if !more {
          Append(str[caseStart..caseStart + caseLen]);
          return;
        }
      }
      if caseLen > 0 {
        Append(str[caseStart..caseStart + caseLen]);
      }
      more := true;
    }

    /** The end of `json_tokener_state_number` */
    method ConvertNumber(c: char, obj: Json) returns (flow: Flow)
      requires Sound() && err == Success && T().Top().state == Number && !IsNumberChar(c)
      modifies this`err, stack
      ensures Did(old(Case(T(), c, obj)), flow, T(), obj, err)
    {
      LeaveNumber(T(), c, obj);
      Fields();
      hide T, Ok, Case, ScanInt, ScansDouble;
      flow := RedoChar;
      if !isDouble && ScanInt(pb).Some? {
        SetCurrent(Int(ScanInt(pb).value));
      } else if isDouble && ScansDouble(pb) {
        SetCurrent(Double(pb));
      } else {
        err := ParseNumber;
        return Out;
      }
      SkipSpaceThen(Finish);
    }

    // ---------- the switch and the calls ----------

    /** The cases of the switch that take no more than the one character. */
    method SwitchOne(c: char, obj: Json) returns (flow: Flow, obj': Json)
      requires Sound() && err == Success && !Loops(T().Top().state)
      modifies this, stack
      ensures Room() && charOffset == old(charOffset)
      ensures Did(old(Case(T(), c, obj)), flow, T(), obj', err)
    {
      NamedCases(T(), c, obj);
      hide Ok, Case, CaseStart, CaseBoolean, CaseStringEscape, Did;
      obj' := obj;
      match stack[depth].state {
        case Start => flow := SwitchStart(c, obj);
        case Finish => flow, obj' := SwitchFinish(c, obj);
        case NullState => flow := SwitchNull(c, obj);
        case Boolean => flow := SwitchBoolean(c, obj);
        case CommentStart | CommentEnd => flow := SwitchComment(c, obj);
        case StringEscape => flow := SwitchEscape(c, obj);
        case ArrayState | ArrayAdd | ArraySep => flow := SwitchArray(c, obj);
        case ObjectFieldStart | ObjectFieldEnd | ObjectSep => flow := SwitchObject(c, obj);
        case ObjectValue | ObjectValueAdd => flow := SwitchValue(c, obj);
      }
    }

    /** The cases of the switch that may take many characters. */
    method SwitchMany(str: string, c0: char, obj: Json, ghost goal: Outcome) returns (flow: Flow, c: char)
      requires Sound() && Loops(T().Top().state) && At(str, charOffset, c0, T(), obj, err, goal)
      modifies this, stack
      ensures Room() && charOffset >= old(charOffset)
      ensures Went(flow, str, charOffset, c, T(), obj, err, goal)
      ensures flow.RedoChar? ==> Nearer(old(charOffset), old(T()), c0, charOffset, T(), c)
    {
      Fields();
      hide *;
      match stack[depth].state {
        case Eatws => flow, c := SkipSpace(str, c0, obj, goal);
        case Comment => flow, c := ReadComment(str, c0, obj, goal);
        case CommentEol => flow, c := ReadCommentEol(str, c0, obj, goal);
        case StringState => flow, c := ReadString(str, c0, obj, goal);
        case ObjectField => flow, c := ReadField(str, c0, obj, goal);
        case EscapeUnicode => flow, c := ReadUnicode(str, c0, obj, goal);
        case Number => flow, c := ReadNumber(str, c0, obj, goal);
      }
    }

    /** `switch(state)` */
    method Switch(str: string, c0: char, obj: Json, ghost goal: Outcome) returns (flow: Flow, c: char, obj': Json)
      requires Sound() && At(str, charOffset, c0, T(), obj, err, goal)
      modifies this, stack
      ensures Room() && charOffset >= old(charOffset)
      ensures Went(flow, str, charOffset, c, T(), obj', err, goal)
      ensures flow.RedoChar? ==> Nearer(old(charOffset), old(T()), c0, charOffset, T(), c)
    {
      hide Went, Nearer, Ok, Case, AtChar, Travel, Sooner, Did, Loops;
      c, obj' := c0, obj;
      ghost var t := T();
      if Loops(stack[depth].state) {
        flow, c := SwitchMany(str, c, obj, goal);
      } else {
        flow, obj' := SwitchOne(c, obj);
        Turned(str, charOffset, c, t, obj, goal, flow, T(), obj', err);
      }
    }

    /** `json_tokener_parse_ex`: the loops, gotos and tight inner loops come to what `Run` says. */
    method ParseEx(str: string) returns (value: Option<Json>)
      requires Sound() && Ready(T())
      modifies this, stack
      ensures Room()
      ensures Outcome(T(), err) == old(Run(T(), str))
      ensures value == Value(old(Run(T(), str)))
      ensures err == Continue ==> Sound() && Ready(T())
    {
      hide Ok, Case, AtChar, Adding, Travel, Sooner;
      ghost var goal := Run(T(), str);
      var obj, c, more := Null, 1 as char, true;
      charOffset := 0;
      err := Success;
      assert str[0..] == str;
      if str != [] {
        Resume(T(), str, obj);
      }
      more, c := PopChar(str, c);
      while more
        invariant Room()
        invariant more ==> At(str, charOffset, c, T(), obj, err, goal)
        invariant !more ==> goal == Ended(T(), c, err)
        decreases |str| - charOffset, more
      {
        var flow;
        flow, c, obj := RedoSwitch(str, c, obj, goal);
        if flow == Out {
          break;
        }
        ResumeAfter(T(), str, charOffset, obj);
        more, c := Advance(str, c);
      }
      value := Leave(c, goal);
    }

    /** Behind the label `out` */
    method Leave(c: char, ghost goal: Outcome) returns (value: Option<Json>)
      requires Room() && goal == Ended(T(), c, err)
      modifies this`err
      ensures Outcome(T(), err) == goal && value == Value(goal)
    {
      if c == NUL && stack[depth].state != Finish && stack[depth].saved != Finish {
        err := ParseEof;
      }
      value := if err == Success then Some(stack[depth].current) else None;
    }

    /** The switch, as often as `goto redo_char` asks for it. */
    method RedoSwitch(str: string, c0: char, obj0: Json, ghost goal: Outcome)
      returns (flow: Flow, c: char, obj: Json)
      requires Sound() && At(str, charOffset, c0, T(), obj0, err, goal)
      modifies this, stack
      ensures Room() && charOffset >= old(charOffset)
      ensures flow != RedoChar && Went(flow, str, charOffset, c, T(), obj, err, goal)
    {
      hide Ok, Case, AtChar, Travel;
      flow, c, obj := Switch(str, c0, obj0, goal);
      while flow == RedoChar
        invariant Room() && charOffset >= old(charOffset)
        invariant Went(flow, str, charOffset, c, T(), obj, err, goal)
        decreases |str| - charOffset, flow == RedoChar,
          if flow == RedoChar then Travel(T(), c).0 else 0,
          if flow == RedoChar then Travel(T(), c).1 else 0,
          if flow == RedoChar then Travel(T(), c).2 else 0
      {
        flow, c, obj := Switch(str, c, obj, goal);
      }
    }

    /** `json_tokener_parse`, with the error code in place of the error pointer */
    static method Parse(str: string) returns (value: Option<Json>, err: Error)
      ensures Parsed(str) == (value, err)
    {
      var tok := new JsonTokener();
      value := tok.ParseEx(str + [NUL]);
      err := tok.err;
    }
  }

  /** What parsing the C string `str` with a new tokener yields. */
  function Parsed(str: string): (Option<Json>, Error) {
    var r := Run(NEW, str + [NUL]);
    (Value(r), r.err)
  }
}
