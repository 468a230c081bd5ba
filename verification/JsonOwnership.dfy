/** Who owns the objects while the tokener runs: the reference counts behind `Case`, `Process`, `Run` and
    `json_tokener_parse`. */
module JsonOwnership {
  import opened Wrappers
  import opened JsonMachine
  import opened JsonCall
  import opened JsonParser
  import opened JsonMemory
  import opened JsonOwners

  /** The memory beside a tokener: the pointer `current` of each level, the local variable `obj`, the live objects,
      and the next address `calloc` will return. */
  datatype Mem = Mem(refs: seq<Ref>, obj: Ref, heap: Heap, free: nat)
  {
    function Top(): Ref
      requires |refs| > 0
    {
      refs[|refs| - 1]
    }

    function WithTop(r: Ref): Mem
      requires |refs| > 0
    {
      this.(refs := refs[..|refs| - 1] + [r])
    }

    /** `current = json_object_new_..()` */
    function Make(c: Content): Mem
      requires |refs| > 0
    {
      WithTop(Some(free)).(heap := New(heap, free, c), free := free + 1)
    }

    /** `obj = json_object_get(current)`, `json_tokener_reset_level`, `depth--` */
    function Up(): Mem
      requires |refs| > 0
    {
      Mem(refs[..|refs| - 1], Top(), Put(Get(heap, Top()), Top()), free)
    }

    /** `depth++`; a level that is not in use holds no object. */
    function Down(): Mem {
      this.(refs := refs + [None])
    }
  }

  /** What one case of the switch does to the memory. */
  function MemCase(t: Tokener, c: char, obj: Json, m: Mem): (m': Mem)
    requires Ok(t) && |m.refs| == |t.stack|
  {
    CaseOk(t, c, obj);
    var a := Case(t, c, obj);
    match t.Top().state
    case Start => if c == '{' then m.Make(Fields([], [])) else if c == '[' then m.Make(Items([])) else m
    case NullState | StringState | Boolean | Number =>
      if a.Stop? || !a.t.Top().state.Eatws? then m
      else if a.t.Top().current.Null? then m.WithTop(None)
      else m.Make(Scalar(a.t.Top().current))
    case Finish => if a.Redo? then m.Up() else m
    case ArrayState | ObjectValue => if a.Redo? then m.Down() else m
    case ArrayAdd => m.(heap := ArrayAppend(m.heap, m.Top(), m.obj))
    case ObjectValueAdd => m.(heap := TableAdd(m.heap, m.Top(), t.Top().fieldName.value, m.obj))
    case _ => m
  }

  // ---------- the account ----------

  function Currents(t: Tokener): (vs: seq<Json>)
    ensures |vs| == |t.stack|
  {
    seq(|t.stack|, i requires 0 <= i < |t.stack| => t.stack[i].current)
  }

  /** `os` are the owners: a value for each level, and the one in `obj` while it waits to be added.  They spell what
      the tokener holds, and no object is live besides theirs. */
  ghost predicate Accounts(t: Tokener, obj: Json, m: Mem, os: seq<Own>)
    requires |t.stack| > 0
  {
    && |m.refs| == |t.stack|
    && Vals(os) == Currents(t) + (if Adding(t) then [obj] else [])
    && Refs(os) == m.refs + (if Adding(t) then [m.obj] else [])
    && Owned(m.heap, os)
    && Bounded(m)
  }

  ghost predicate Bounded(m: Mem) {
    forall i :: i in m.heap ==> i < m.free
  }

  ghost predicate Accounted(t: Tokener, obj: Json, m: Mem)
    requires |t.stack| > 0
  {
    exists os :: Accounts(t, obj, m, os)
  }

  /** A level at which no value has been begun holds none: nothing is lost when `current` is assigned. */
  predicate Blank(t: Tokener)
    requires |t.stack| > 0
  {
    var l := t.Top();
    (match l.state
     case Start | NullState | Boolean | Number | StringState => true
     case Eatws | CommentStart | Comment | CommentEol | CommentEnd => l.saved == Start
     case StringEscape | EscapeUnicode => l.saved == StringState
     case _ => false)
    ==> l.current == Null
  }

  // ---------- the cases that create nothing ----------

  /** What a case leaves: all is accounted for, even when it reports an error. */
  ghost predicate CaseSound(a: Action, obj: Json, m: Mem) {
    && |a.t.stack| > 0 && Accounted(a.t, if a.Redo? then a.obj else obj, m)
    && (!a.Redo? ==> !Adding(a.t)) && (!a.Stop? ==> Blank(a.t))
  }

  predicate Quiet(s: State) {
    s in {Eatws, CommentStart, Comment, CommentEol, CommentEnd, StringEscape, EscapeUnicode, ArraySep,
          ObjectFieldStart, ObjectField, ObjectFieldEnd, ObjectSep}
  }

  /** Only the state of the top level changes. */
  predicate SameValues(t: Tokener, a: Action)
    requires |t.stack| > 0
  {
    && |a.t.stack| > 0 && Currents(a.t) == Currents(t) && !Adding(a.t)
    && (!a.Stop? ==> Blank(a.t))
  }

  /** The top level gets the value `v`. */
  predicate NewValue(t: Tokener, a: Action, v: Json)
    requires |t.stack| > 0
  {
    && |a.t.stack| == |t.stack| && Currents(a.t) == Currents(t)[..|t.stack| - 1] + [v] && !Adding(a.t)
    && (!a.Stop? ==> Blank(a.t))
  }

  lemma OneLevel(t: Tokener, t': Tokener)
    requires |t.stack| > 0 && |t'.stack| > 0 && t'.stack == t.stack[|t.stack| - 1 := t'.Top()]
    ensures Currents(t') == Currents(t)[..|t.stack| - 1] + [t'.Top().current]
    ensures t'.Top().current == t.Top().current ==> Currents(t') == Currents(t)
  {
  }

  lemma QuietEscape(t: Tokener, c: char)
    requires |t.stack| > 0 && TopOk(t) && Blank(t) && t.Top().state == StringEscape
    ensures SameValues(t, CaseStringEscape(t, c))
  {
    hide Currents;
    OneLevel(t, CaseStringEscape(t, c).t);
  }

  lemma QuietSpace(t: Tokener, c: char, obj: Json)
    requires Ok(t) && Blank(t) && t.Top().state in {Eatws, CommentStart, Comment, CommentEol, CommentEnd}
    ensures SameValues(t, Case(t, c, obj))
  {
    hide Ok, IsSpace, Currents, Waiting;
    NotEmpty(t);
    OneLevel(t, Case(t, c, obj).t);
  }

  lemma QuietText(t: Tokener, c: char, obj: Json)
    requires Ok(t) && Blank(t) && t.Top().state in {EscapeUnicode, ObjectField}
    ensures SameValues(t, Case(t, c, obj))
  {
    hide Ok, IsHexChar, MoreHex, CString, Utf8, Currents;
    NotEmpty(t);
    OneLevel(t, Case(t, c, obj).t);
  }

  lemma QuietSep(t: Tokener, c: char, obj: Json)
    requires Ok(t) && Blank(t) && t.Top().state in {ArraySep, ObjectFieldStart, ObjectFieldEnd, ObjectSep}
    ensures SameValues(t, Case(t, c, obj))
  {
    hide Ok, Currents;
    NotEmpty(t);
    OneLevel(t, Case(t, c, obj).t);
  }

  lemma QuietCase(t: Tokener, c: char, obj: Json)
    requires Ok(t) && Blank(t) && Quiet(t.Top().state)
    ensures SameValues(t, Case(t, c, obj))
  {
    hide Ok, Case, CaseStringEscape, SameValues, Blank, TopOk;
    NotEmpty(t);
    NamedCases(t, c, obj);
    match t.Top().state
    case StringEscape => QuietEscape(t, c);
    case EscapeUnicode | ObjectField => QuietText(t, c, obj);
    case ArraySep | ObjectFieldStart | ObjectFieldEnd | ObjectSep => QuietSep(t, c, obj);
    case _ => QuietSpace(t, c, obj);
  }

  lemma SameAccounts(t: Tokener, obj: Json, a: Action, m: Mem, os: seq<Own>)
    requires |t.stack| > 0 && Accounts(t, obj, m, os) && !Adding(t) && SameValues(t, a)
    ensures CaseSound(a, obj, m)
  {
    hide Owned, Currents, Blank;
    assert |Currents(a.t)| == |Currents(t)|;
    assert Accounts(a.t, if a.Redo? then a.obj else obj, m, os);
  }

  // ---------- the cases that create an object ----------

  lemma StartCase(t: Tokener, c: char, obj: Json)
    requires |t.stack| > 0 && t.Top().state.Start? && Blank(t)
    ensures var a := CaseStart(t, c, obj);
      if c == '{' then NewValue(t, a, Obj([])) else if c == '[' then NewValue(t, a, Arr([])) else SameValues(t, a)
  {
    hide CaseStart, SameValues, NewValue;
    if c == '{' || c == '[' {
      StartBox(t, c, obj);
    } else {
      StartWord(t, c, obj);
    }
  }

  lemma StartBox(t: Tokener, c: char, obj: Json)
    requires |t.stack| > 0 && (c == '{' || c == '[')
    ensures NewValue(t, CaseStart(t, c, obj), if c == '{' then Obj([]) else Arr([]))
  {
    hide IsDigit, Currents;
    OneLevel(t, CaseStart(t, c, obj).t);
  }

  lemma StartWord(t: Tokener, c: char, obj: Json)
    requires |t.stack| > 0 && t.Top().state.Start? && Blank(t) && c != '{' && c != '['
    ensures SameValues(t, CaseStart(t, c, obj))
  {
    hide IsDigit, Currents;
    OneLevel(t, CaseStart(t, c, obj).t);
  }

  /** A word, a number or a string goes on, cannot go on, or is complete. */
  predicate Grows(t: Tokener, a: Action)
    requires |t.stack| > 0 && |a.t.stack| > 0
  {
    if a.Stop? || !a.t.Top().state.Eatws? then SameValues(t, a)
    else (a.t.Top().current.Null? || Plain(a.t.Top().current)) && NewValue(t, a, a.t.Top().current)
  }

  lemma Completed(t: Tokener, v: Json)
    requires |t.stack| > 0
    ensures var t' := t.Complete(v);
      && |t'.stack| == |t.stack| && t'.Top().state == Eatws && t'.Top().saved == Finish && t'.Top().current == v
      && Currents(t') == Currents(t)[..|t.stack| - 1] + [v]
  {
    OneLevel(t, t.Complete(v));
  }

  lemma Held(t: Tokener, t': Tokener)
    requires t'.stack == t.stack
    ensures Currents(t') == Currents(t)
  {
  }

  lemma Moved(t: Tokener, l: Level)
    requires |t.stack| > 0 && l.current == t.Top().current
    ensures |t.WithTop(l).stack| == |t.stack| && t.WithTop(l).Top() == l && Currents(t.WithTop(l)) == Currents(t)
  {
    OneLevel(t, t.WithTop(l));
  }

  lemma NullCase(t: Tokener, c: char, obj: Json)
    requires Ok(t) && t.Top().state.NullState? && Blank(t)
    ensures |Case(t, c, obj).t.stack| > 0 && Grows(t, Case(t, c, obj))
  {
    hide Ok, TopOk, SameStart, Currents;
    NotEmpty(t);
    var t' := t.(pb := t.pb + [c]);
    Held(t, t');
    Held(t, t'.(stPos := t'.stPos + 1));
    Completed(t', Null);
  }

  lemma BooleanCase(t: Tokener, c: char, obj: Json)
    requires |t.stack| > 0 && t.Top().state.Boolean? && Blank(t)
    ensures |CaseBoolean(t, c, obj).t.stack| > 0 && Grows(t, CaseBoolean(t, c, obj))
  {
    hide SameStart, Currents;
    var t' := t.(pb := t.pb + [c]);
    Held(t, t');
    Held(t, t'.(stPos := t'.stPos + 1));
    Completed(t', Bool(true));
    Completed(t', Bool(false));
  }

  lemma StringCase(t: Tokener, c: char, obj: Json)
    requires Ok(t) && t.Top().state.StringState? && Blank(t)
    ensures |Case(t, c, obj).t.stack| > 0 && Grows(t, Case(t, c, obj))
  {
    hide Ok, TopOk, CString, Currents, SavedOk, Waiting;
    NotEmpty(t);
    Completed(t, Str(CString(t.pb)));
    Held(t, t.(pb := t.pb + [c]));
    Moved(t, t.Top().(state := StringEscape, saved := StringState));
  }

  lemma NumberCase(t: Tokener, c: char, obj: Json)
    requires Ok(t) && t.Top().state.Number? && Blank(t)
    ensures |Case(t, c, obj).t.stack| > 0 && Grows(t, Case(t, c, obj))
  {
    hide Ok, TopOk, IsNumberChar, ScanInt, ScansDouble, Currents;
    NotEmpty(t);
    OneLevel(t, Case(t, c, obj).t);
  }

  /** Null has no object, and nothing else spells null. */
  lemma NullIsNil(h: Heap, o: Own)
    requires Holds(h, o) && Val(o) == Null
    ensures o == Nil
  {
  }

  lemma TopOwner(t: Tokener, obj: Json, m: Mem, os: seq<Own>)
    requires |t.stack| > 0 && Accounts(t, obj, m, os) && !Adding(t)
    ensures |os| == |t.stack| && Val(os[|os| - 1]) == t.Top().current && Holds(m.heap, os[|os| - 1])
    ensures os == os[..|os| - 1] + [os[|os| - 1]]
    ensures Vals(os[..|os| - 1]) == Currents(t)[..|t.stack| - 1] && Refs(os[..|os| - 1]) == m.refs[..|m.refs| - 1]
  {
    hide Holds, Val;
    assert |Vals(os)| == |os|;
    var n := |os| - 1;
    assert Vals(os)[n] == Currents(t)[n];
    assert Vals(os[..n]) == Vals(os)[..n] && Refs(os[..n]) == Refs(os)[..n];
  }

  /** A level without a value gets one, made of `o`. */
  lemma NewAccounts(t: Tokener, obj: Json, a: Action, m: Mem, os: seq<Own>, o: Own, m': Mem)
    requires |t.stack| > 0 && Accounts(t, obj, m, os) && !Adding(t) && t.Top().current == Null
    requires NewValue(t, a, Val(o)) && m'.refs == m.refs[..|m.refs| - 1] + [RefOf(o)] && Bounded(m')
    requires |os| > 0 ==> Owned(m.heap, os[..|os| - 1] + [Nil]) ==> Owned(m'.heap, os[..|os| - 1] + [o])
    ensures CaseSound(a, obj, m')
  {
    hide Owned, Holds, Val, Currents, Blank, Vals, Refs;
    TopOwner(t, obj, m, os);
    NullIsNil(m.heap, os[|os| - 1]);
    var pre := os[..|os| - 1];
    ValsConcat(pre, [o]);
    RefsConcat(pre, [o]);
    Single(o);
    assert Accounts(a.t, if a.Redo? then a.obj else obj, m', pre + [o]);
  }

  lemma Single(o: Own)
    ensures Vals([o]) == [Val(o)] && Refs([o]) == [RefOf(o)]
  {
  }

  lemma MakeAccounts(t: Tokener, obj: Json, a: Action, m: Mem, os: seq<Own>, o: Own, c: Content)
    requires |t.stack| > 0 && Accounts(t, obj, m, os) && !Adding(t) && t.Top().current == Null
    requires NewValue(t, a, Val(o)) && Ids(o) == multiset{m.free} && RefOf(o) == Some(m.free)
    requires Holds(New(m.heap, m.free, c), o)
    ensures CaseSound(a, obj, m.Make(c))
  {
    hide Owned, Holds, Val, Currents, Blank, Vals, Refs, Ids, NewValue;
    if |os| > 0 && Owned(m.heap, os[..|os| - 1] + [Nil]) {
      NewOwned(m.heap, os[..|os| - 1], m.free, o, c);
    }
    NewAccounts(t, obj, a, m, os, o, m.Make(c));
  }

  lemma StartAccounts(t: Tokener, c: char, obj: Json, m: Mem, os: seq<Own>)
    requires Ok(t) && t.Top().state.Start? && Blank(t) && Accounts(t, obj, m, os)
    ensures CaseSound(Case(t, c, obj), obj, MemCase(t, c, obj, m))
  {
    hide Ok, Case, CaseStart, Owned, Currents, SameValues, NewValue, Accounts;
    NotEmpty(t);
    NamedCases(t, c, obj);
    StartCase(t, c, obj);
    var a := CaseStart(t, c, obj);
    Sizes(t, obj, m, os);
    if c == '{' {
      EmptyBoxes(m.heap, m.free);
      MakeAccounts(t, obj, a, m, os, Table(m.free, [], []), Fields([], []));
    } else if c == '[' {
      EmptyBoxes(m.heap, m.free);
      MakeAccounts(t, obj, a, m, os, Array(m.free, []), Items([]));
    } else {
      SameAccounts(t, obj, a, m, os);
    }
  }

  lemma Sizes(t: Tokener, obj: Json, m: Mem, os: seq<Own>)
    requires |t.stack| > 0 && Accounts(t, obj, m, os)
    ensures |m.refs| == |t.stack|
  {
  }

  lemma EmptyBoxes(h: Heap, id: nat)
    ensures var o := Table(id, [], []);
      Val(o) == Obj([]) && Ids(o) == multiset{id} && Holds(New(h, id, Fields([], [])), o)
    ensures var o := Array(id, []);
      Val(o) == Arr([]) && Ids(o) == multiset{id} && Holds(New(h, id, Items([])), o)
  {
  }

  /** The end of a word, a number or a string */
  lemma WordAccounts(t: Tokener, c: char, obj: Json, m: Mem, os: seq<Own>)
    requires Ok(t) && t.Top().state in {NullState, StringState, Boolean, Number} && Blank(t) && Accounts(t, obj, m, os)
    ensures CaseSound(Case(t, c, obj), obj, MemCase(t, c, obj, m))
  {
    hide Ok, Case, CaseBoolean, Owned, Currents, SameValues, NewValue, Accounts, Bounded, Vals, Refs, Ids, Holds;
    NotEmpty(t);
    NamedCases(t, c, obj);
    match t.Top().state {
      case NullState => NullCase(t, c, obj);
      case StringState => StringCase(t, c, obj);
      case Boolean => BooleanCase(t, c, obj);
      case Number => NumberCase(t, c, obj);
    }
    var a := Case(t, c, obj);
    Sizes(t, obj, m, os);
    if a.Stop? || !a.t.Top().state.Eatws? {
      SameAccounts(t, obj, a, m, os);
    } else if a.t.Top().current.Null? {
      NilAccounts(t, obj, a, m, os);
    } else {
      PlainHolds(m.heap, m.free, a.t.Top().current);
      MakeAccounts(t, obj, a, m, os, One(m.free, a.t.Top().current), Scalar(a.t.Top().current));
    }
  }

  lemma PlainHolds(h: Heap, id: nat, v: Json)
    requires Plain(v)
    ensures Val(One(id, v)) == v && Ids(One(id, v)) == multiset{id} && Holds(New(h, id, Scalar(v)), One(id, v))
  {
  }

  lemma NilAccounts(t: Tokener, obj: Json, a: Action, m: Mem, os: seq<Own>)
    requires |t.stack| > 0 && Accounts(t, obj, m, os) && !Adding(t) && t.Top().current == Null
    requires NewValue(t, a, Null)
    ensures CaseSound(a, obj, m.WithTop(None))
  {
    hide Owned, Holds, Val, Currents, Vals, Refs, NewValue;
    NilValue();
    NewAccounts(t, obj, a, m, os, Nil, m.WithTop(None));
  }

  lemma NilValue()
    ensures Val(Nil) == Null
  {
  }

  // ---------- the cases that change the depth ----------

  /** `json_object_get` before `json_tokener_reset_level`, which puts: the object only changes hands. */
  lemma GetThenPut(h: Heap, r: Ref)
    requires r.Some? ==> r.value in h && h[r.value].refs >= 1
    ensures Put(Get(h, r), r) == h
  {
  }

  lemma FinishCase(t: Tokener, c: char, obj: Json)
    requires Ok(t) && t.Top().state.Finish?
    ensures var a := Case(t, c, obj);
      if |t.stack| == 1 then SameValues(t, a) && a.Stop?
      else a.Redo? && |a.t.stack| == |t.stack| - 1 && Adding(a.t) && Blank(a.t) && Currents(a.t) + [a.obj] == Currents(t)
  {
    if |t.stack| > 1 {
      assert Waiting(t.stack[|t.stack| - 2]);
    }
  }

  /** The value at the top changes hands: from its level to `obj`. */
  lemma UpAccounts(t: Tokener, obj: Json, t': Tokener, obj': Json, m: Mem, os: seq<Own>)
    requires |t.stack| == |t'.stack| + 1 && |t'.stack| > 0 && Accounts(t, obj, m, os) && !Adding(t)
    requires Adding(t') && Currents(t') + [obj'] == Currents(t)
    ensures Accounts(t', obj', m.Up(), os)
  {
    hide Owned, Holds, Val, Put, Get, Currents;
    TopOwner(t, obj, m, os);
    OwnerLive(m.heap, os[|os| - 1]);
    assert Refs(os) == m.refs[..|m.refs| - 1] + [m.Top()];
    GetThenPut(m.heap, m.Top());
  }

  lemma FinishAccounts(t: Tokener, c: char, obj: Json, m: Mem, os: seq<Own>)
    requires Ok(t) && t.Top().state.Finish? && Accounts(t, obj, m, os)
    ensures CaseSound(Case(t, c, obj), obj, MemCase(t, c, obj, m))
  {
    hide Ok, Case, Accounts, Currents, Blank, SameValues;
    NotEmpty(t);
    FinishCase(t, c, obj);
    Sizes(t, obj, m, os);
    var a := Case(t, c, obj);
    if a.Redo? {
      UpAccounts(t, obj, a.t, a.obj, m, os);
    } else {
      SameAccounts(t, obj, a, m, os);
    }
  }

  lemma OwnerLive(h: Heap, o: Own)
    requires Holds(h, o)
    ensures RefOf(o).Some? ==> RefOf(o).value in h && h[RefOf(o).value].refs == 1
  {
  }

  lemma NilOnTop(h: Heap, os: seq<Own>)
    requires Owned(h, os)
    ensures Owned(h, os + [Nil])
  {
    hide Ids, IdsAll, HoldsAll, Distinct;
    IdsConcat(os, [Nil]);
    IdsSingle(Nil);
    NilIds();
    OwnedParts(h, os, [Nil]);
    HoldsSingle(h, Nil);
    assert IdsAll(os) + multiset{} == IdsAll(os);
  }

  lemma DownCase(t: Tokener, c: char, obj: Json)
    requires Ok(t) && t.Top().state in {ArrayState, ObjectValue}
    ensures var a := Case(t, c, obj);
      if a.Redo? then |a.t.stack| > 0 && !Adding(a.t) && Blank(a.t) && Currents(a.t) == Currents(t) + [Null]
      else SameValues(t, a)
  {
    hide Ok;
    NotEmpty(t);
    var a := Case(t, c, obj);
    if a.Redo? {
      assert Currents(a.t) == Currents(t) + [Null];
    } else {
      assert Currents(a.t) == Currents(t);
    }
  }

  lemma PushAccounts(t: Tokener, obj: Json, t': Tokener, obj': Json, m: Mem, os: seq<Own>)
    requires |t.stack| > 0 && |t'.stack| > 0 && Accounts(t, obj, m, os) && !Adding(t)
    requires !Adding(t') && Currents(t') == Currents(t) + [Null]
    ensures Accounts(t', obj', m.Down(), os + [Nil])
  {
    hide Owned, Val, Currents;
    NilOnTop(m.heap, os);
    NilValue();
    ValsConcat(os, [Nil]);
    RefsConcat(os, [Nil]);
    Single(Nil);
    assert |Currents(t')| == |Currents(t)| + 1;
  }

  lemma DownAccounts(t: Tokener, c: char, obj: Json, m: Mem, os: seq<Own>)
    requires Ok(t) && t.Top().state in {ArrayState, ObjectValue} && Accounts(t, obj, m, os)
    ensures CaseSound(Case(t, c, obj), obj, MemCase(t, c, obj, m))
  {
    hide Ok, Case, Accounts, Currents, Blank, SameValues;
    NotEmpty(t);
    DownCase(t, c, obj);
    Sizes(t, obj, m, os);
    var a := Case(t, c, obj);
    if a.Redo? {
      PushAccounts(t, obj, a.t, a.obj, m, os);
    } else {
      SameAccounts(t, obj, a, m, os);
    }
  }

  // ---------- the cases that add what is finished ----------

  lemma AddingOwners(t: Tokener, obj: Json, m: Mem, os: seq<Own>)
    requires |t.stack| > 0 && Accounts(t, obj, m, os) && Adding(t)
    ensures |os| == |t.stack| + 1 && |m.refs| == |t.stack|
    ensures var n := |t.stack| - 1; var (x, o) := (os[n], os[n + 1]);
      && os == os[..n] + [x, o] && Val(x) == t.Top().current && Val(o) == obj && Holds(m.heap, x)
      && RefOf(x) == m.Top() && RefOf(o) == m.obj
      && Vals(os[..n]) == Currents(t)[..n] && Refs(os[..n]) == m.refs[..n]
  {
    hide Holds, Val;
    assert |Vals(os)| == |os|;
    var n := |t.stack| - 1;
    assert Vals(os)[n] == Currents(t)[n] && Vals(os)[n + 1] == obj;
    assert Refs(os)[n] == m.refs[n] && Refs(os)[n + 1] == m.obj;
    assert Vals(os[..n]) == Vals(os)[..n] && Refs(os[..n]) == Refs(os)[..n];
  }

  lemma ArrIsArray(h: Heap, x: Own)
    requires Holds(h, x) && Val(x).Arr?
    ensures x.Array? && Val(x).items == Vals(x.parts)
  {
  }

  lemma ObjIsTable(h: Heap, x: Own)
    requires Holds(h, x) && Val(x).Obj?
    ensures x.Table? && |x.keys| == |x.parts| && Val(x).members == Named(x.keys, Vals(x.parts))
  {
  }

  lemma AddCase(t: Tokener, c: char, obj: Json)
    requires Ok(t) && t.Top().state.ArrayAdd?
    ensures Case(t, c, obj).Redo? && t.Top().current.Arr?
    ensures NewValue(t, Case(t, c, obj), Arr(t.Top().current.items + [obj]))
  {
    hide Ok, Currents;
    NotEmpty(t);
    OneLevel(t, Case(t, c, obj).t);
  }

  lemma ValueAddCase(t: Tokener, c: char, obj: Json)
    requires Ok(t) && t.Top().state.ObjectValueAdd?
    ensures Case(t, c, obj).Redo? && t.Top().current.Obj? && t.Top().fieldName.Some?
    ensures NewValue(t, Case(t, c, obj), Obj(ObjectAdd(t.Top().current.members, t.Top().fieldName.value, obj)))
  {
    hide Ok, Currents, ObjectAdd;
    NotEmpty(t);
    OneLevel(t, Case(t, c, obj).t);
  }

  lemma NewValueMeans(t: Tokener, a: Action, v: Json)
    requires |t.stack| > 0 && NewValue(t, a, v)
    ensures |a.t.stack| == |t.stack| && Currents(a.t) == Currents(t)[..|t.stack| - 1] + [v] && !Adding(a.t)
    ensures !a.Stop? ==> Blank(a.t)
  {
  }

  lemma GrownAccounts(t: Tokener, obj: Json, a: Action, m: Mem, pre: seq<Own>, o: Own, m': Mem)
    requires |t.stack| > 0 && NewValue(t, a, Val(o)) && Vals(pre) == Currents(t)[..|t.stack| - 1]
    requires |m'.refs| == |t.stack| && Refs(pre) == m'.refs[..|t.stack| - 1] && RefOf(o) == m'.Top()
    requires Owned(m'.heap, pre + [o]) && Bounded(m')
    ensures CaseSound(a, obj, m')
  {
    hide Owned, Holds, Val, Currents, Blank, Vals, Refs, Bounded, NewValue;
    ValsConcat(pre, [o]);
    RefsConcat(pre, [o]);
    Single(o);
    NewValueMeans(t, a, Val(o));
    assert m'.refs == m'.refs[..|t.stack| - 1] + [m'.Top()];
    assert Accounts(a.t, if a.Redo? then a.obj else obj, m', pre + [o]);
  }

  /** What `obj` holds matters only while it is waiting. */
  lemma AnyObj(t: Tokener, obj: Json, m: Mem, obj': Json, r: Ref)
    requires |t.stack| > 0 && Accounted(t, obj, m) && !Adding(t)
    ensures Accounted(t, obj', m.(obj := r))
  {
    hide Owned, Currents, Vals, Refs;
    var os :| Accounts(t, obj, m, os);
    assert Accounts(t, obj', m.(obj := r), os);
  }

  lemma AppendAccounts(t: Tokener, c: char, obj: Json, m: Mem, os: seq<Own>)
    requires Ok(t) && t.Top().state.ArrayAdd? && Accounts(t, obj, m, os)
    ensures CaseSound(Case(t, c, obj), obj, MemCase(t, c, obj, m))
  {
    hide Ok, Case, Owned, Holds, Val, Vals, Refs, Currents, NewValue, ArrayAppend, CaseSound;
    NotEmpty(t);
    AddCase(t, c, obj);
    AddingOwners(t, obj, m, os);
    var n := |t.stack| - 1;
    var (x, o) := (os[n], os[n + 1]);
    ArrIsArray(m.heap, x);
    AppendOwned(m.heap, os[..n], x.id, x.parts, o);
    AppendBounded(m, m.Top(), m.obj);
    GrownAccounts(t, obj, Case(t, c, obj), m, os[..n], Array(x.id, x.parts + [o]),
      m.(heap := ArrayAppend(m.heap, m.Top(), m.obj)));
  }

  lemma AppendBounded(m: Mem, box: Ref, r: Ref)
    requires Bounded(m)
    ensures Bounded(m.(heap := ArrayAppend(m.heap, box, r)))
  {
  }

  lemma {:induction false} PutKeys(h: Heap, r: Ref)
    ensures Put(h, r).Keys <= h.Keys
    decreases |h|, 0
  {
    if r.Some? && r.value in h && h[r.value].refs <= 1 {
      Smaller(h, r.value);
      PutAllKeys(h - {r.value}, Kids(h[r.value].content));
    }
  }

  lemma {:induction false} PutAllKeys(h: Heap, rs: seq<Ref>)
    ensures PutAll(h, rs).Keys <= h.Keys
    decreases |h|, 1 + |rs|
  {
    if rs != [] {
      PutKeys(h, rs[0]);
      PutAllKeys(Put(h, rs[0]), rs[1..]);
    }
  }

  lemma TableBounded(m: Mem, table: Ref, key: string, r: Ref)
    requires Bounded(m)
    ensures Bounded(m.(heap := TableAdd(m.heap, table, key, r)))
  {
    hide PutAll, Left, Gone;
    if table.Some? && table.value in m.heap && m.heap[table.value].content.Fields?
      && |m.heap[table.value].content.keys| == |m.heap[table.value].content.values|
    {
      var c := m.heap[table.value].content;
      PutAllKeys(m.heap, Gone(c.keys, c.values, key));
    }
  }

  lemma TableAccounts(t: Tokener, c: char, obj: Json, m: Mem, os: seq<Own>)
    requires Ok(t) && t.Top().state.ObjectValueAdd? && Accounts(t, obj, m, os)
    ensures CaseSound(Case(t, c, obj), obj, MemCase(t, c, obj, m))
  {
    hide Ok, Case, Owned, Holds, Val, Vals, Refs, Currents, NewValue, TableAdd, ObjectAdd, Left, CaseSound;
    NotEmpty(t);
    ValueAddCase(t, c, obj);
    AddingOwners(t, obj, m, os);
    var n := |t.stack| - 1;
    var (x, o, key) := (os[n], os[n + 1], t.Top().fieldName.value);
    ObjIsTable(m.heap, x);
    TableAddOwned(m.heap, os[..n], x.id, x.keys, x.parts, key, o);
    TableAddValue(x.id, x.keys, x.parts, key, o);
    TableBounded(m, m.Top(), key, m.obj);
    GrownAccounts(t, obj, Case(t, c, obj), m, os[..n],
      Table(x.id, Left(x.keys, x.keys, key) + [key], Left(x.keys, x.parts, key) + [o]),
      m.(heap := TableAdd(m.heap, m.Top(), key, m.obj)));
  }

  // ---------- every case, every character, every call ----------

  /** The tokener and the memory between two turns through the switch */
  ghost predicate Sound(t: Tokener, obj: Json, m: Mem) {
    Ok(t) && Blank(t) && Accounted(t, obj, m)
  }

  /** Every case keeps the account. */
  lemma CaseAccounts(t: Tokener, c: char, obj: Json, m: Mem)
    requires Sound(t, obj, m) && |m.refs| == |t.stack|
    ensures CaseSound(Case(t, c, obj), obj, MemCase(t, c, obj, m))
  {
    hide Ok, Case, Accounts, Currents, Blank, CaseSound, MemCase, SameValues;
    NotEmpty(t);
    var os :| Accounts(t, obj, m, os);
    match t.Top().state
    case Start => StartAccounts(t, c, obj, m, os);
    case NullState | StringState | Boolean | Number => WordAccounts(t, c, obj, m, os);
    case Finish => FinishAccounts(t, c, obj, m, os);
    case ArrayState | ObjectValue => DownAccounts(t, c, obj, m, os);
    case ArrayAdd => AppendAccounts(t, c, obj, m, os);
    case ObjectValueAdd => TableAccounts(t, c, obj, m, os);
    case _ => QuietAccounts(t, c, obj, m, os);
  }

  lemma QuietAccounts(t: Tokener, c: char, obj: Json, m: Mem, os: seq<Own>)
    requires Ok(t) && Quiet(t.Top().state) && Blank(t) && Accounts(t, obj, m, os)
    ensures CaseSound(Case(t, c, obj), obj, MemCase(t, c, obj, m))
  {
    hide Ok, Case, Accounts, Currents, Blank, CaseSound, SameValues;
    NotEmpty(t);
    Sizes(t, obj, m, os);
    QuietCase(t, c, obj);
    SameAccounts(t, obj, Case(t, c, obj), m, os);
  }

  // ---------- every character and every call ----------

  /** One pointer for each level, before and after. */
  lemma MemCaseFits(t: Tokener, c: char, obj: Json, m: Mem)
    requires Ok(t) && |m.refs| == |t.stack|
    ensures |MemCase(t, c, obj, m).refs| == |Case(t, c, obj).t.stack|
  {
    hide Ok, Case, CaseStart, CaseBoolean, CaseStringEscape, TopOk, PutAll, Put;
    NotEmpty(t);
    match t.Top().state {
      case Finish => FinishCase(t, c, obj);
      case ArrayState | ObjectValue => DownCase(t, c, obj);
      case _ => CaseTop(t, c, obj);
    }
  }

  /** The memory beside `Process` */
  function MemProcess(t: Tokener, c: char, obj: Json, m: Mem): (m': Mem)
    requires Ok(t) && |m.refs| == |t.stack|
    ensures |m'.refs| == |Process(t, c, obj).t.stack|
    decreases Travel(t, c).0, Travel(t, c).1, Travel(t, c).2
  {
    hide Case, Travel, Ok, Adding, MemCase;
    CaseOk(t, c, obj);
    MemCaseFits(t, c, obj, m);
    var a := Case(t, c, obj);
    var m' := MemCase(t, c, obj, m);
    if a.Redo? then
      CaseTravel(t, c, obj);
      MemProcess(a.t, c, a.obj, m')
    else m'
  }

  /** The memory beside `Run` */
  function MemRun(t: Tokener, s: string, m: Mem): (m': Mem)
    requires Ready(t) && |m.refs| == |t.stack|
    ensures |m'.refs| == |Run(t, s).t.stack|
    decreases |s|
  {
    if s == [] then m
    else
      var m' := MemProcess(t, s[0], Null, m);
      match Process(t, s[0], Null)
      case Next(t') => if s[0] == NUL then m' else MemRun(t', s[1..], m')
      case Halt(t', err) => m'
  }

  lemma {:induction false} ProcessAccounts(t: Tokener, c: char, obj: Json, m: Mem)
    requires Sound(t, obj, m) && |m.refs| == |t.stack|
    ensures var (r, m') := (Process(t, c, obj), MemProcess(t, c, obj, m));
      Accounted(r.t, Null, m') && !Adding(r.t) && (r.Next? ==> Blank(r.t))
    decreases Travel(t, c).0, Travel(t, c).1, Travel(t, c).2
  {
    hide Case, Travel, Ok, Adding, MemCase, Accounted, Blank;
    CaseOk(t, c, obj);
    MemCaseFits(t, c, obj, m);
    CaseAccounts(t, c, obj, m);
    var a := Case(t, c, obj);
    var m' := MemCase(t, c, obj, m);
    if a.Redo? {
      CaseTravel(t, c, obj);
      ProcessAccounts(a.t, c, a.obj, m');
    } else {
      AnyObj(a.t, obj, m', Null, m'.obj);
    }
  }

  /** A call keeps the account, however it ends; between the calls for two pieces of a text it can go on from there. */
  lemma {:induction false} RunAccounts(t: Tokener, s: string, m: Mem)
    requires Ready(t) && Blank(t) && |m.refs| == |t.stack| && Accounted(t, Null, m)
    ensures var (r, m') := (Run(t, s), MemRun(t, s, m));
      Accounted(r.t, Null, m') && !Adding(r.t) && (r.err == Continue ==> Ready(r.t) && Blank(r.t))
    decreases |s|
  {
    hide Process, MemProcess, Ok, Adding, Accounted, Blank;
    if s != [] {
      ProcessAccounts(t, s[0], Null, m);
      ProcessNeverContinues(t, s[0], Null);
      if Process(t, s[0], Null).Next? && s[0] != NUL {
        RunAccounts(Process(t, s[0], Null).t, s[1..], MemProcess(t, s[0], Null, m));
      }
    }
  }

  // ---------- the end ----------

  /** `json_tokener_reset`: every level from `depth` down to 0 */
  function ResetMem(h: Heap, refs: seq<Ref>): Heap
    decreases |refs|
  {
    if refs == [] then h else ResetMem(Put(h, refs[|refs| - 1]), refs[..|refs| - 1])
  }

  /** `json_tokener_parse_ex`: the value that is returned gets a reference of its own. */
  function Returned(r: Outcome, m: Mem): (Ref, Heap)
    requires |r.t.stack| > 0 && |m.refs| == |r.t.stack|
  {
    if r.err == Success then (m.Top(), Get(m.heap, m.Top())) else (None, m.heap)
  }

  lemma {:induction false} ResetFrees(h: Heap, os: seq<Own>)
    requires HoldsAll(h, os) && Distinct(IdsAll(os))
    ensures ResetMem(h, Refs(os)) == Minus(h, IdsAll(os))
    decreases |os|
  {
    hide Holds, Ids, IdsAll, Minus, Distinct, Put, HoldsAll;
    if os == [] {
      MinusOne(h, 0);
      NoIds();
    } else {
      var n := |os| - 1;
      var (rest, o) := (os[..n], os[n]);
      assert os == rest + [o];
      OneMore(h, rest, o);
      assert Ids(o) + IdsAll(rest) == IdsAll(rest) + Ids(o);
      FrameMinus(h, Ids(o), rest);
      PutFrees(h, o);
      assert Refs(os)[..n] == Refs(rest);
      ResetFrees(Minus(h, Ids(o)), rest);
      MinusTwice(h, Ids(o), IdsAll(rest));
    }
  }

  lemma NoIds()
    ensures IdsAll([]) == multiset{}
  {
  }

  lemma AllFreed(h: Heap, os: seq<Own>)
    requires Owned(h, os)
    ensures ResetMem(h, Refs(os)) == map[]
  {
    hide HoldsAll, IdsAll, Distinct, ResetMem;
    ResetFrees(h, os);
  }

  lemma RestFreed(h: Heap, rest: seq<Own>, o: Own)
    requires Owned(h, rest + [o])
    ensures Owned(ResetMem(h, Refs(rest)), [o])
  {
    hide Holds, HoldsAll, Ids, IdsAll, Distinct, ResetMem;
    OwnedParts(h, rest, [o]);
    IdsConcat(rest, [o]);
    assert IdsAll(rest) + IdsAll([o]) == IdsAll([o]) + IdsAll(rest);
    FrameMinus(h, IdsAll(rest), [o]);
    DistinctPart(IdsAll([o]), IdsAll(rest));
    ResetFrees(h, rest);
  }

  /** The reference for the caller is the one that survives the reset. */
  lemma ReturnedSurvives(h: Heap, refs: seq<Ref>)
    requires |refs| > 0
    requires refs[|refs| - 1].Some? ==> refs[|refs| - 1].value in h && h[refs[|refs| - 1].value].refs >= 1
    ensures ResetMem(Get(h, refs[|refs| - 1]), refs) == ResetMem(h, refs[..|refs| - 1])
  {
    hide Put, Get;
    GetThenPut(h, refs[|refs| - 1]);
  }

  /** After a reset no object is left of a call that reports an error; of one that returns a value, its objects are
      left, each with the one reference that the caller has or its container has. */
  lemma EndOwned(r: Outcome, m: Mem)
    requires |r.t.stack| > 0 && |m.refs| == |r.t.stack| && !Adding(r.t) && Accounted(r.t, Null, m)
    ensures var (ref, h) := Returned(r, m);
      var h' := ResetMem(h, m.refs);
      if r.err == Success then exists o :: SoleOwner(o, ref, r.t.Top().current, h') else h' == map[]
  {
    hide Owned, Holds, Val, Put, Get, Currents, ResetMem;
    var os :| Accounts(r.t, Null, m, os);
    if r.err == Success {
      TopOwner(r.t, Null, m, os);
      var n := |os| - 1;
      OwnerLive(m.heap, os[n]);
      assert m.Top() == Refs(os)[n];
      ReturnedSurvives(m.heap, m.refs);
      RestFreed(m.heap, os[..n], os[n]);
      assert SoleOwner(os[n], m.Top(), r.t.Top().current, ResetMem(m.heap, m.refs[..n]));
    } else {
      assert Refs(os) == m.refs;
      AllFreed(m.heap, os);
    }
  }

  /** `o` spells `v`, starting at `ref`, and no object is live besides its own. */
  ghost predicate SoleOwner(o: Own, ref: Ref, v: Json, h: Heap) {
    RefOf(o) == ref && Val(o) == v && Owned(h, [o])
  }

  // ---------- what can be reached ----------

  /** A way through the live objects, from a pointer and along the parts of containers. */
  ghost predicate Leads(h: Heap, r: Ref, path: seq<nat>)
    decreases |path|
  {
    && path != [] && r == Some(path[0]) && path[0] in h
    && (|path| == 1 || exists k :: 0 <= k < |Kids(h[path[0]].content)| && Leads(h, Kids(h[path[0]].content)[k], path[1..]))
  }

  ghost predicate Reachable(h: Heap, r: Ref, i: nat) {
    exists path :: Leads(h, r, path) && path[|path| - 1] == i
  }

  lemma {:induction false} LeadsInside(h: Heap, o: Own, path: seq<nat>)
    requires Holds(h, o) && Leads(h, RefOf(o), path)
    ensures path[|path| - 1] in Ids(o)
    decreases |path|
  {
    hide Holds, Ids, IdsAll;
    Holder(h, o);
    if |path| > 1 {
      var parts := PartsOf(o);
      var k :| 0 <= k < |parts| && Leads(h, Refs(parts)[k], path[1..]);
      LeadsInside(h, parts[k], path[1..]);
      IdsPart(parts, k);
    }
  }

  lemma {:induction false} PartOf(os: seq<Own>, i: nat) returns (k: nat)
    requires i in IdsAll(os)
    ensures k < |os| && i in Ids(os[k])
    decreases |os|
  {
    if i in Ids(os[0]) {
      k := 0;
    } else {
      k := PartOf(os[1..], i);
      k := k + 1;
    }
  }

  lemma {:induction false} LedTo(h: Heap, o: Own, i: nat) returns (path: seq<nat>)
    requires Holds(h, o) && i in Ids(o)
    ensures Leads(h, RefOf(o), path) && path[|path| - 1] == i
    decreases o
  {
    hide Holds, Ids, IdsAll;
    Holder(h, o);
    if i == o.id {
      path := [i];
    } else {
      var parts := PartsOf(o);
      var k := PartOf(parts, i);
      path := LedTo(h, parts[k], i);
      assert Leads(h, Refs(parts)[k], path);
      assert ([o.id] + path)[1..] == path;
      path := [o.id] + path;
    }
  }

  lemma LedToAny(h: Heap, o: Own, i: nat)
    requires Holds(h, o) && i in Ids(o)
    ensures Reachable(h, RefOf(o), i)
  {
    hide Holds, Ids;
    var path := LedTo(h, o, i);
  }

  lemma {:induction false} CountOne(h: Heap, o: Own, i: nat)
    requires Holds(h, o) && i in Ids(o)
    ensures i in h && h[i].refs == 1
    decreases o
  {
    hide Holds, Ids, IdsAll;
    Holder(h, o);
    if i != o.id {
      var k := PartOf(PartsOf(o), i);
      CountOne(h, PartsOf(o)[k], i);
    }
  }

  /** The live objects are those that can be reached from a pointer; each has one reference; and giving up the pointer
      frees them all. */
  ghost predicate Exclusive(h: Heap, ref: Ref) {
    && (forall i :: i in h <==> Reachable(h, ref, i))
    && (forall i :: i in h ==> h[i].refs == 1)
    && Put(h, ref) == map[]
  }

  lemma SoleOwnerOwns(o: Own, ref: Ref, v: Json, h: Heap)
    requires SoleOwner(o, ref, v, h)
    ensures Exclusive(h, ref)
  {
    hide Holds, Ids, IdsAll, Leads, Put, Reachable;
    HoldsSingle(h, o);
    IdsSingle(o);
    forall i | i in h
      ensures Reachable(h, ref, i) && h[i].refs == 1
    {
      LedToAny(h, o, i);
      CountOne(h, o, i);
    }
    forall i | Reachable(h, ref, i)
      ensures i in h
    {
      ReachableInside(h, o, i);
    }
    PutFrees(h, o);
  }

  lemma ReachableInside(h: Heap, o: Own, i: nat)
    requires Holds(h, o) && Reachable(h, RefOf(o), i)
    ensures i in Ids(o)
  {
    hide Holds, Ids;
    var path :| Leads(h, RefOf(o), path) && path[|path| - 1] == i;
    LeadsInside(h, o, path);
  }

  // ---------- json_tokener_parse ----------

  /** The memory of a new tokener */
  const NEW_MEM := Mem([None], None, map[], 0)

  /** `json_tokener_parse`: the pointer it returns, and the live objects once the tokener is freed. */
  function ParsedMem(str: string): (Ref, Heap) {
    var r := Run(NEW, str + [NUL]);
    var m := MemRun(NEW, str + [NUL], NEW_MEM);
    var (ref, h) := Returned(r, m);
    (ref, ResetMem(h, m.refs))
  }

  lemma NewAccounted()
    ensures Ready(NEW) && Blank(NEW) && Accounted(NEW, Null, NEW_MEM)
  {
    NilValue();
    Single(Nil);
    NoIds();
    NilOnTop(map[], []);
    assert [] + [Nil] == [Nil];
    assert Currents(NEW) == [Null];
    assert Accounts(NEW, Null, NEW_MEM, [Nil]);
  }

  /** A call, whatever was read before, and then a reset: what is live is the returned value, object by object, and
      nothing at all when the call returns none. */
  lemma CallOwns(t: Tokener, s: string, m: Mem)
    requires Ready(t) && Blank(t) && |m.refs| == |t.stack| && Accounted(t, Null, m)
    ensures
      var (r, m') := (Run(t, s), MemRun(t, s, m));
      var (ref, h) := Returned(r, m');
      var h' := ResetMem(h, m'.refs);
      if r.err == Success then
        (exists o :: SoleOwner(o, ref, r.t.Top().current, h')) && Exclusive(h', ref)
      else ref == None && h' == map[]
  {
    hide Run, MemRun, Ready, Blank, Accounted, SoleOwner, Exclusive, ResetMem;
    RunAccounts(t, s, m);
    var (r, m') := (Run(t, s), MemRun(t, s, m));
    EndOwned(r, m');
    if r.err == Success {
      var (ref, h) := Returned(r, m');
      var o :| SoleOwner(o, ref, r.t.Top().current, ResetMem(h, m'.refs));
      SoleOwnerOwns(o, ref, r.t.Top().current, ResetMem(h, m'.refs));
    }
  }

  /** `json_tokener_parse` neither leaks nor frees too much. */
  lemma ParseOwns(str: string)
    ensures
      var ((value, err), (ref, h)) := (Parsed(str), ParsedMem(str));
      if err == Success then
        value.Some? && (exists o :: SoleOwner(o, ref, value.value, h)) && Exclusive(h, ref)
      else value == None && ref == None && h == map[]
  {
    hide Run, MemRun, Ready, Blank, Accounted, SoleOwner, Exclusive, ResetMem;
    NewAccounted();
    CallOwns(NEW, str + [NUL], NEW_MEM);
  }
}
