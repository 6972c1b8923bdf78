/**
  What the filling pass keeps about the tokens made so far, on values.
 */
module JsmnTokens {
  import opened Jsmn

  predicate Container(t: Token) {
    t.kind == Object || t.kind == Array
  }

  /** A container whose closing bracket has not been met. */
  predicate Pending(t: Token) {
    t.start != -1 && t.end == -1
  }

  function Opener(k: Kind): char {
    if k == Object then '{' else '['
  }

  function Closer(k: Kind): char {
    if k == Object then '}' else ']'
  }

  /** A token made before position `p`, with the delimiters of its own kind around it. */
  predicate Placed(js: string, t: Token, p: nat) {
    && 0 <= t.start < p && t.start < |js| && t.end <= p && t.end <= |js|
    && match t.kind
       case Undefined => false
       case String => 1 <= t.start <= t.end < |js| && t.end < p && js[t.start - 1] == '\"' && js[t.end] == '\"'
       case Primitive => t.start < t.end
       case _ => && js[t.start] == Opener(t.kind)
                 && (t.end == -1 || (t.start + 1 < t.end && js[t.end - 1] == Closer(t.kind)))
  }

  /** The later token `b` starts after `a`; it comes after all of `a` or lies within the container `a`. */
  predicate Nested(a: Token, b: Token) {
    && a.start < b.start
    && (if a.end == -1 then Container(a)
        else a.end <= b.start || (Container(a) && b.end != -1 && b.end < a.end))
  }

  predicate Laid(js: string, toks: seq<Token>, p: nat) {
    && (forall i :: 0 <= i < |toks| ==> Placed(js, toks[i], p))
    && (forall i, j :: 0 <= i < j < |toks| ==> Nested(toks[i], toks[j]))
  }

  /** `sups` records the superior of each token, -1 for none; each size counts the tokens below. */
  predicate Sized(toks: seq<Token>, sups: seq<int>) {
    && |sups| == |toks|
    && (forall k :: 0 <= k < |sups| ==> -1 <= sups[k] < k)
    && (forall i :: 0 <= i < |toks| ==> toks[i].size == multiset(sups)[i])
  }

  /** The kinds of the pending containers, the outermost first. */
  function OpenKinds(toks: seq<Token>): seq<Kind> {
    if toks == [] then []
    else
      var t := toks[|toks| - 1];
      OpenKinds(toks[..|toks| - 1]) + if Pending(t) then [t.kind] else []
  }

  /** One more token below `super`. */
  function Bump(toks: seq<Token>, super: int): seq<Token>
    requires -1 <= super < |toks|
  {
    if super == -1 then toks else toks[super := toks[super].(size := toks[super].size + 1)]
  }

  // ---------------------------------------------------------------------
  // Adding a token
  // ---------------------------------------------------------------------

  lemma OpenKindsPush(toks: seq<Token>, t: Token)
    ensures OpenKinds(toks + [t]) == OpenKinds(toks) + if Pending(t) then [t.kind] else []
  {
    assert (toks + [t])[..|toks|] == toks;
  }

  lemma {:induction false} OpenKindsBump(toks: seq<Token>, super: int)
    requires -1 <= super < |toks|
    ensures OpenKinds(Bump(toks, super)) == OpenKinds(toks)
    decreases |toks|
  {
    if super != -1 {
      var n := |toks| - 1;
      if super < n {
        OpenKindsBump(toks[..n], super);
        assert Bump(toks, super)[..n] == Bump(toks[..n], super);
      } else {
        assert Bump(toks, super)[..n] == toks[..n];
      }
    }
  }

  lemma BumpKeepsLaid(js: string, toks: seq<Token>, p: nat, super: int)
    requires Laid(js, toks, p) && -1 <= super < |toks|
    ensures Laid(js, Bump(toks, super), p)
  {
    var u := Bump(toks, super);
    assert forall i :: 0 <= i < |toks| ==> u[i].(size := 0) == toks[i].(size := 0);
    forall i | 0 <= i < |u|
      ensures Placed(js, u[i], p)
    {
      assert Placed(js, toks[i], p);
    }
    forall i, j | 0 <= i < j < |u|
      ensures Nested(u[i], u[j])
    {
      assert Nested(toks[i], toks[j]);
    }
  }

  lemma PushKeepsLaid(js: string, toks: seq<Token>, p: nat, t: Token, q: nat)
    requires Laid(js, toks, p) && p <= t.start && p <= q && Placed(js, t, q)
    ensures Laid(js, toks + [t], q)
  {
    var u := toks + [t];
    forall i | 0 <= i < |u|
      ensures Placed(js, u[i], q)
    {
      if i < |toks| {
        assert Placed(js, toks[i], p);
      }
    }
    forall i, j | 0 <= i < j < |u|
      ensures Nested(u[i], u[j])
    {
      assert Placed(js, toks[i], p);
      assert j < |toks| ==> Nested(toks[i], toks[j]);
    }
  }

  lemma PushKeepsSized(toks: seq<Token>, sups: seq<int>, super: int, t: Token)
    requires Sized(toks, sups) && -1 <= super < |toks| && t.size == 0
    ensures Sized(Bump(toks, super) + [t], sups + [super])
  {
    var u, v := Bump(toks, super) + [t], sups + [super];
    assert multiset(v) == multiset(sups) + multiset{super};
    assert |toks| !in multiset(sups);
    forall i | 0 <= i < |u|
      ensures u[i].size == multiset(v)[i]
    {
      assert i < |toks| ==> toks[i].size == multiset(sups)[i];
    }
  }

  // ---------------------------------------------------------------------
  // Closing a bracket
  // ---------------------------------------------------------------------

  /** `i` is the last pending token. */
  predicate LastPending(toks: seq<Token>, i: int) {
    && -1 <= i < |toks|
    && (i >= 0 ==> Pending(toks[i]))
    && (forall j :: i < j < |toks| ==> !Pending(toks[j]))
  }

  /** The back-scan finds the top of the stack. */
  lemma {:induction false} LastPendingIsTop(toks: seq<Token>, i: int)
    requires LastPending(toks, i)
    ensures i == -1 ==> OpenKinds(toks) == []
    ensures i >= 0 ==> OpenKinds(toks) == OpenKinds(toks[..i]) + [toks[i].kind]
    decreases |toks|
  {
    var n := |toks| - 1;
    if i < n {
      LastPendingIsTop(toks[..n], i);
      assert i >= 0 ==> toks[..n][..i] == toks[..i];
    }
  }

  function Closed(toks: seq<Token>, i: nat, end: nat): seq<Token>
    requires i < |toks|
  {
    toks[i := toks[i].(end := end)]
  }

  lemma {:induction false} CloseDropsTop(toks: seq<Token>, i: nat, end: nat)
    requires i < |toks| && (forall j :: i < j < |toks| ==> !Pending(toks[j]))
    ensures OpenKinds(Closed(toks, i, end)) == OpenKinds(toks[..i])
    decreases |toks|
  {
    var n := |toks| - 1;
    var u := Closed(toks, i, end);
    if i < n {
      CloseDropsTop(toks[..n], i, end);
      assert u[..n] == Closed(toks[..n], i, end);
      assert toks[..n][..i] == toks[..i];
    } else {
      assert u[..n] == toks[..i];
    }
  }

  lemma CloseKeepsLaid(js: string, toks: seq<Token>, p: nat, i: nat)
    requires Laid(js, toks, p) && LastPending(toks, i) && p < |js| && js[p] == Closer(toks[i].kind)
    ensures Laid(js, Closed(toks, i, p + 1), p + 1)
  {
    var u := Closed(toks, i, p + 1);
    forall j | 0 <= j < |u|
      ensures Placed(js, u[j], p + 1)
    {
      assert Placed(js, toks[j], p);
    }
    forall k, j | 0 <= k < j < |u|
      ensures Nested(u[k], u[j])
    {
      assert Nested(toks[k], toks[j]);
      assert Placed(js, toks[j], p) && Placed(js, toks[k], p);
      assert k == i ==> !Pending(toks[j]);
    }
  }

  lemma CloseKeepsSized(toks: seq<Token>, sups: seq<int>, i: nat, end: nat)
    requires Sized(toks, sups) && i < |toks|
    ensures Sized(Closed(toks, i, end), sups)
  {
    var u := Closed(toks, i, end);
    assert forall j :: 0 <= j < |u| ==> u[j].size == toks[j].size;
  }

  lemma LaidLater(js: string, toks: seq<Token>, p: nat, q: nat)
    requires Laid(js, toks, p) && p <= q
    ensures Laid(js, toks, q)
  {
    forall i | 0 <= i < |toks|
      ensures Placed(js, toks[i], q)
    {
      assert Placed(js, toks[i], p);
    }
  }

  // ---------------------------------------------------------------------
  // The filling pass
  // ---------------------------------------------------------------------

  /** The tokens made, the superior of the next one, and the superior each token had when it was made. */
  datatype State = State(toks: seq<Token>, super: int, sups: seq<int>)

  predicate Apt(st: State) {
    -1 <= st.super < |st.toks|
  }

  /** The innermost container still open, -1 if there is none. */
  function Innermost(toks: seq<Token>): (i: int)
    ensures LastPending(toks, i)
  {
    if toks == [] then -1
    else if Pending(toks[|toks| - 1]) then |toks| - 1
    else Innermost(toks[..|toks| - 1])
  }

  lemma InnermostIsTheOnly(toks: seq<Token>, i: int)
    requires LastPending(toks, i)
    ensures i == Innermost(toks)
  {
    var k := Innermost(toks);
    assert k >= 0 ==> Pending(toks[k]);
    assert i >= 0 ==> Pending(toks[i]);
  }

  function Push(st: State, t: Token): (r: State)
    requires Apt(st)
    ensures Apt(r)
  {
    State(Bump(st.toks, st.super) + [t], st.super, st.sups + [st.super])
  }

  function CloseAt(st: State, i: nat, end: nat): (r: State)
    requires i < |st.toks|
    ensures Apt(r)
  {
    var toks := Closed(st.toks, i, end);
    State(toks, Innermost(toks), st.sups)
  }

  /** A comma ends the value of a key: the superior is again the container. */
  function AfterComma(st: State): (super: int)
    requires Apt(st)
    ensures -1 <= super < |st.toks|
  {
    if st.super != -1 && !Container(st.toks[st.super]) && Innermost(st.toks) != -1
    then Innermost(st.toks) else st.super
  }

  datatype Next = More(next: nat, state: State) | Halt(outcome: Outcome)

  /** One turn of the main loop. */
  function Step(js: string, p: nat, st: State, capacity: nat): (x: Next)
    requires Apt(st)
    ensures x.More? ==> p < x.next <= |js| && Apt(x.state)
  {
    Act(Lex(js, p), p, st, capacity)
  }

  function Act(x: Lexeme, p: nat, st: State, capacity: nat): (r: Next)
    requires Apt(st)
    ensures r.More? ==> !x.Done? && !x.Fault? && r.next == x.next && Apt(r.state)
  {
    match x
    case Done => Halt(if Innermost(st.toks) == -1 then Ok(|st.toks|) else Err(Partial))
    case Fault(e) => Halt(Err(e))
    case Open(k, q) =>
      if |st.toks| >= capacity then Halt(Err(NoMemory))
      else More(q, Push(st, Token(k, p, -1, 0)).(super := |st.toks|))
    case Leaf(t, q) =>
      if |st.toks| >= capacity then Halt(Err(NoMemory)) else More(q, Push(st, t))
    case Close(k, q) =>
      var i := Innermost(st.toks);
      if i == -1 || st.toks[i].kind != k then Halt(Err(Invalid)) else More(q, CloseAt(st, i, q))
    case Colon(q) => More(q, st.(super := |st.toks| - 1))
    case Comma(q) => More(q, st.(super := AfterComma(st)))
    case Space(q) => More(q, st)
  }

  datatype Final = Final(state: State, pos: nat, outcome: Outcome)

  /** The state, the position and the outcome that the filling pass ends with from `p` on. */
  function Run(js: string, p: nat, st: State, capacity: nat): Final
    requires Apt(st)
    decreases |js| - p
  {
    match Step(js, p, st, capacity)
    case Halt(o) => Final(st, p, o)
    case More(q, st') => Run(js, q, st', capacity)
  }

  lemma {:induction false} ActMatchesAStack(js: string, x: Lexeme, p: nat, st: State, capacity: nat)
    requires Fits(js, p, x) && Apt(st)
    ensures Take(x, |st.toks|, OpenKinds(st.toks), capacity) ==
            match Act(x, p, st, capacity)
            case Halt(o) => Stop(o)
            case More(q, st') => Onward(q, |st'.toks|, OpenKinds(st'.toks))
  {
    LastPendingIsTop(st.toks, Innermost(st.toks));
    match x
    case Open(k, q) => PushOpenKinds(st, Token(k, p, -1, 0));
    case Leaf(t, q) =>
      PushOpenKinds(st, t);
      assert OpenKinds(st.toks) + [] == OpenKinds(st.toks);
    case Close(k, q) =>
      var i := Innermost(st.toks);
      if i != -1 {
        CloseDropsTop(st.toks, i, q);
      }
    case _ =>
  }

  /** Searching the tokens backwards for the open one does what a stack of brackets does. */
  lemma {:induction false} RunMatchesAStack(js: string, p: nat, st: State, capacity: nat)
    requires Apt(st)
    ensures Run(js, p, st, capacity).outcome == Filling(js, p, |st.toks|, OpenKinds(st.toks), capacity)
    decreases |js| - p
  {
    LexFits(js, p);
    ActMatchesAStack(js, Lex(js, p), p, st, capacity);
    match Step(js, p, st, capacity)
    case Halt(_) =>
    case More(q, st') => RunMatchesAStack(js, q, st', capacity);
  }

  lemma PushOpenKinds(st: State, t: Token)
    requires Apt(st)
    ensures OpenKinds(Push(st, t).toks) == OpenKinds(st.toks) + if Pending(t) then [t.kind] else []
    ensures |Push(st, t).toks| == |st.toks| + 1
  {
    OpenKindsBump(st.toks, st.super);
    OpenKindsPush(Bump(st.toks, st.super), t);
  }

  /** What every step keeps. */
  predicate Inv(js: string, p: nat, st: State) {
    Apt(st) && p <= |js| && Laid(js, st.toks, p) && Sized(st.toks, st.sups)
  }

  /** What a lexeme at `p` says of the text. */
  predicate Fits(js: string, p: nat, x: Lexeme) {
    && (x.Open? ==> p < x.next <= |js| && Placed(js, Token(x.kind, p, -1, 0), x.next))
    && (x.Leaf? ==> && p < x.next <= |js| && Placed(js, x.token, x.next)
                    && !Pending(x.token) && x.token.start >= p && x.token.size == 0)
    && (x.Close? ==> p < |js| && js[p] == Closer(x.kind) && x.next == p + 1)
    && (x.Space? || x.Colon? || x.Comma? ==> p < x.next <= |js|)
    && (x.Open? || x.Close? ==> x.kind == Object || x.kind == Array)
  }

  lemma LexFits(js: string, p: nat)
    ensures Fits(js, p, Lex(js, p))
  {
  }

  lemma InvPush(js: string, p: nat, st: State, t: Token, q: nat)
    requires Inv(js, p, st) && p <= t.start && p <= q <= |js| && Placed(js, t, q) && t.size == 0
    ensures Inv(js, q, Push(st, t)) && Inv(js, q, Push(st, t).(super := |st.toks|))
  {
    BumpKeepsLaid(js, st.toks, p, st.super);
    PushKeepsLaid(js, Bump(st.toks, st.super), p, t, q);
    PushKeepsSized(st.toks, st.sups, st.super, t);
  }

  lemma InvClose(js: string, p: nat, st: State, i: nat)
    requires Inv(js, p, st) && i == Innermost(st.toks) && p < |js| && js[p] == Closer(st.toks[i].kind)
    ensures Inv(js, p + 1, CloseAt(st, i, p + 1))
  {
    CloseKeepsLaid(js, st.toks, p, i);
    CloseKeepsSized(st.toks, st.sups, i, p + 1);
  }

  lemma InvMoves(js: string, p: nat, st: State, super: int, q: nat)
    requires Inv(js, p, st) && p <= q <= |js| && -1 <= super < |st.toks|
    ensures Inv(js, q, st.(super := super))
  {
    LaidLater(js, st.toks, p, q);
  }

  lemma {:induction false} ActKeepsInv(js: string, x: Lexeme, p: nat, st: State, capacity: nat)
    requires Fits(js, p, x) && Inv(js, p, st)
    ensures var r := Act(x, p, st, capacity); r.More? ==> Inv(js, r.next, r.state)
  {
    match x
    case Open(_, _) => AddKeepsInv(js, x, p, st, capacity);
    case Leaf(_, _) => AddKeepsInv(js, x, p, st, capacity);
    case Close(_, _) => CloseKeepsInv(js, x, p, st, capacity);
    case _ => MoveKeepsInv(js, x, p, st, capacity);
  }

  lemma {:induction false} AddKeepsInv(js: string, x: Lexeme, p: nat, st: State, capacity: nat)
    requires Fits(js, p, x) && Inv(js, p, st) && (x.Open? || x.Leaf?)
    ensures var r := Act(x, p, st, capacity); r.More? ==> Inv(js, r.next, r.state)
  {
    InvPush(js, p, st, if x.Open? then Token(x.kind, p, -1, 0) else x.token, x.next);
  }

  lemma {:induction false} CloseKeepsInv(js: string, x: Lexeme, p: nat, st: State, capacity: nat)
    requires Fits(js, p, x) && Inv(js, p, st) && x.Close?
    ensures var r := Act(x, p, st, capacity); r.More? ==> Inv(js, r.next, r.state)
  {
    var i := Innermost(st.toks);
    if i != -1 && st.toks[i].kind == x.kind {
      InvClose(js, p, st, i);
    }
  }

  lemma {:induction false} MoveKeepsInv(js: string, x: Lexeme, p: nat, st: State, capacity: nat)
    requires Fits(js, p, x) && Inv(js, p, st) && !x.Open? && !x.Leaf? && !x.Close?
    ensures var r := Act(x, p, st, capacity); r.More? ==> Inv(js, r.next, r.state)
  {
    var r := Act(x, p, st, capacity);
    if r.More? {
      InvMoves(js, p, st, r.state.super, r.next);
    }
  }

  /** In every text, from every state in order, the filling pass stops in a state in order. */
  lemma {:induction false} RunKeepsInv(js: string, p: nat, st: State, capacity: nat)
    requires Inv(js, p, st)
    ensures var f := Run(js, p, st, capacity); Inv(js, f.pos, f.state)
    decreases |js| - p
  {
    LexFits(js, p);
    ActKeepsInv(js, Lex(js, p), p, st, capacity);
    match Step(js, p, st, capacity)
    case Halt(_) =>
    case More(q, st') => RunKeepsInv(js, q, st', capacity);
  }

  // ---------------------------------------------------------------------
  // Superiors
  // ---------------------------------------------------------------------

  /** Token `a` ends before token `b` starts. */
  predicate Before(a: Token, b: Token) {
    a.end != -1 && a.end <= b.start
  }

  /**
    The superior `i` of token `k` is the innermost container around it or ends before
    it, as a key does; without a superior no token is around it.
   */
  predicate SuperiorOf(toks: seq<Token>, i: int, k: nat)
    requires -1 <= i < k < |toks|
  {
    || (i >= 0 && Before(toks[i], toks[k]))
    || ((i >= 0 ==> Container(toks[i])) && forall j :: i < j < k ==> Before(toks[j], toks[k]))
  }

  /** The superior of the next token is the innermost open container, or has ended; there is none only with all closed. */
  predicate Guided(toks: seq<Token>, super: int)
    requires -1 <= super < |toks|
  {
    if super == -1 then Innermost(toks) == -1
    else Pending(toks[super]) ==> Innermost(toks) == super
  }

  predicate Parented(st: State)
    requires Apt(st) && Sized(st.toks, st.sups)
  {
    Guided(st.toks, st.super) && forall k :: 0 <= k < |st.toks| ==> SuperiorOf(st.toks, st.sups[k], k)
  }

  lemma NewSuperior(js: string, p: nat, toks: seq<Token>, super: int, t: Token)
    requires Laid(js, toks, p) && -1 <= super < |toks| && Guided(toks, super) && p <= t.start
    ensures SuperiorOf(Bump(toks, super) + [t], super, |toks|)
  {
    var u := Bump(toks, super) + [t];
    assert forall j :: 0 <= j < |toks| ==> Placed(js, toks[j], p);
    assert forall j :: 0 <= j < |toks| ==> u[j].end == toks[j].end && u[j].kind == toks[j].kind;
  }

  lemma SuperiorStays(toks: seq<Token>, u: seq<Token>, i: int, k: nat)
    requires -1 <= i < k < |toks| <= |u| && SuperiorOf(toks, i, k)
    requires u[k].start == toks[k].start
    requires forall j :: 0 <= j < |toks| ==> u[j].kind == toks[j].kind && (toks[j].end == -1 || u[j].end == toks[j].end)
    ensures SuperiorOf(u, i, k)
  {
  }

  lemma BumpKeepsInnermost(toks: seq<Token>, super: int)
    requires -1 <= super < |toks|
    ensures Innermost(Bump(toks, super)) == Innermost(toks)
  {
    InnermostIsTheOnly(Bump(toks, super), Innermost(toks));
  }

  lemma PushInnermost(toks: seq<Token>, t: Token)
    ensures Innermost(toks + [t]) == if Pending(t) then |toks| else Innermost(toks)
  {
    InnermostIsTheOnly(toks + [t], if Pending(t) then |toks| else Innermost(toks));
  }

  lemma PushKeepsParents(js: string, p: nat, st: State, t: Token)
    requires Inv(js, p, st) && Parented(st) && p <= t.start && t.size == 0
    ensures var st' := Push(st, t);
            && Sized(st'.toks, st'.sups)
            && (!Pending(t) ==> Parented(st'))
            && (Pending(t) ==> Parented(st'.(super := |st.toks|)))
  {
    var st' := Push(st, t);
    PushKeepsSized(st.toks, st.sups, st.super, t);
    BumpKeepsInnermost(st.toks, st.super);
    PushInnermost(Bump(st.toks, st.super), t);
    forall k | 0 <= k < |st'.toks|
      ensures SuperiorOf(st'.toks, st'.sups[k], k)
    {
      if k < |st.toks| {
        SuperiorStays(st.toks, st'.toks, st.sups[k], k);
      } else {
        NewSuperior(js, p, st.toks, st.super, t);
      }
    }
  }

  lemma CloseKeepsParents(st: State, i: nat, end: nat)
    requires Apt(st) && Sized(st.toks, st.sups) && Parented(st) && i == Innermost(st.toks)
    ensures Sized(CloseAt(st, i, end).toks, st.sups) && Parented(CloseAt(st, i, end))
  {
    var u := Closed(st.toks, i, end);
    CloseKeepsSized(st.toks, st.sups, i, end);
    forall k | 0 <= k < |u|
      ensures SuperiorOf(u, st.sups[k], k)
    {
      SuperiorStays(st.toks, u, st.sups[k], k);
    }
  }

  lemma {:induction false} ActKeepsParents(js: string, x: Lexeme, p: nat, st: State, capacity: nat)
    requires Fits(js, p, x) && Inv(js, p, st) && Parented(st)
    ensures var r := Act(x, p, st, capacity);
            r.More? ==> Sized(r.state.toks, r.state.sups) && Parented(r.state)
  {
    match x
    case Open(k, _) => PushKeepsParents(js, p, st, Token(k, p, -1, 0));
    case Leaf(t, _) => PushKeepsParents(js, p, st, t);
    case Close(k, q) =>
      var i := Innermost(st.toks);
      if i != -1 && st.toks[i].kind == k {
        CloseKeepsParents(st, i, q);
      }
    case Colon(_) => LastGuides(st.toks);
    case Comma(_) =>
    case _ =>
  }

  lemma LastGuides(toks: seq<Token>)
    ensures Guided(toks, |toks| - 1)
  {
  }

  lemma {:induction false} RunKeepsParents(js: string, p: nat, st: State, capacity: nat)
    requires Inv(js, p, st) && Parented(st)
    ensures var f := Run(js, p, st, capacity);
            Inv(js, f.pos, f.state) && Parented(f.state)
    decreases |js| - p
  {
    LexFits(js, p);
    ActKeepsInv(js, Lex(js, p), p, st, capacity);
    ActKeepsParents(js, Lex(js, p), p, st, capacity);
    match Step(js, p, st, capacity)
    case Halt(_) =>
    case More(q, st') => RunKeepsParents(js, q, st', capacity);
  }

  // ---------------------------------------------------------------------
  // What a successful parse leaves behind
  // ---------------------------------------------------------------------

  /** The tokens of a parsed text: none pending, and any two apart or one inside the other. */
  predicate WellNested(js: string, toks: seq<Token>) {
    && (forall i :: 0 <= i < |toks| ==> Placed(js, toks[i], |js|) && toks[i].end >= 0)
    && (forall i, j :: 0 <= i < j < |toks| ==> toks[i].start < toks[j].start)
    && (forall i, j :: 0 <= i < j < |toks| ==>
          || toks[i].end <= toks[j].start
          || (Container(toks[i]) && toks[j].end < toks[i].end))
  }

  lemma LaidIsWellNested(js: string, toks: seq<Token>, p: nat)
    requires Laid(js, toks, p) && p <= |js| && OpenKinds(toks) == []
    ensures WellNested(js, toks)
  {
    LaidLater(js, toks, p, |js|);
    NonePending(toks);
    forall i | 0 <= i < |toks|
      ensures Placed(js, toks[i], |js|) && toks[i].end >= 0
    {
    }
    forall i, j | 0 <= i < j < |toks|
      ensures toks[i].start < toks[j].start
      ensures toks[i].end <= toks[j].start || (Container(toks[i]) && toks[j].end < toks[i].end)
    {
      assert Nested(toks[i], toks[j]);
    }
  }

  lemma {:induction false} NonePending(toks: seq<Token>)
    requires OpenKinds(toks) == []
    ensures forall i :: 0 <= i < |toks| ==> !Pending(toks[i])
    decreases |toks|
  {
    if toks != [] {
      NonePending(toks[..|toks| - 1]);
    }
  }

  function TotalSize(toks: seq<Token>): int {
    if toks == [] then 0 else TotalSize(toks[..|toks| - 1]) + toks[|toks| - 1].size
  }

  /** How many tokens had a superior. */
  function WithSuperior(sups: seq<int>): nat {
    if sups == [] then 0
    else WithSuperior(sups[..|sups| - 1]) + if sups[|sups| - 1] != -1 then 1 else 0
  }

  /** How many entries lie in 0..n. */
  function Below(sups: seq<int>, n: nat): nat {
    if sups == [] then 0
    else Below(sups[..|sups| - 1], n) + if 0 <= sups[|sups| - 1] < n then 1 else 0
  }

  lemma {:induction false} BelowNext(sups: seq<int>, n: nat)
    ensures Below(sups, n + 1) == Below(sups, n) + multiset(sups)[n]
    ensures Below(sups, 0) == 0
    decreases |sups|
  {
    if sups != [] {
      var front, s := sups[..|sups| - 1], sups[|sups| - 1];
      assert sups == front + [s];
      BelowNext(front, n);
    }
  }

  lemma {:induction false} TotalSizeIsBelow(toks: seq<Token>, sups: seq<int>)
    requires forall i :: 0 <= i < |toks| ==> toks[i].size == multiset(sups)[i]
    ensures TotalSize(toks) == Below(sups, |toks|)
    decreases |toks|
  {
    if toks == [] {
      BelowNext(sups, 0);
    } else {
      TotalSizeIsBelow(toks[..|toks| - 1], sups);
      BelowNext(sups, |toks| - 1);
    }
  }

  lemma {:induction false} BelowIsWithSuperior(sups: seq<int>, n: nat)
    requires forall k :: 0 <= k < |sups| ==> -1 <= sups[k] < n
    ensures Below(sups, n) == WithSuperior(sups)
    decreases |sups|
  {
    if sups != [] {
      BelowIsWithSuperior(sups[..|sups| - 1], n);
    }
  }

  /** The sizes add up to the number of tokens that had a superior. */
  lemma SizesAddUp(toks: seq<Token>, sups: seq<int>)
    requires Sized(toks, sups)
    ensures TotalSize(toks) == WithSuperior(sups)
  {
    TotalSizeIsBelow(toks, sups);
    BelowIsWithSuperior(sups, |toks|);
  }

  const Fresh := State([], -1, [])

  /** A successful parse leaves properly nested tokens whose sizes count the tokens below them. */
  lemma ParsedTokensAreNested(js: string, capacity: nat)
    ensures var f := Run(js, 0, Fresh, capacity);
            f.outcome.Ok? ==>
              && f.outcome.count == |f.state.toks| <= capacity
              && WellNested(js, f.state.toks)
              && Sized(f.state.toks, f.state.sups)
              && (forall k :: 0 <= k < |f.state.toks| ==> SuperiorOf(f.state.toks, f.state.sups[k], k))
              && TotalSize(f.state.toks) == WithSuperior(f.state.sups)
  {
    RunKeepsParents(js, 0, Fresh, capacity);
    RunStops(js, 0, Fresh, capacity);
    var f := Run(js, 0, Fresh, capacity);
    if f.outcome.Ok? {
      LastPendingIsTop(f.state.toks, Innermost(f.state.toks));
      LaidIsWellNested(js, f.state.toks, f.pos);
      SizesAddUp(f.state.toks, f.state.sups);
    }
  }

  /** Success is reported with the number of tokens, at the end of the text, with nothing left open. */
  lemma {:induction false} RunStops(js: string, p: nat, st: State, capacity: nat)
    requires Apt(st) && |st.toks| <= capacity
    ensures var f := Run(js, p, st, capacity);
            && |f.state.toks| <= capacity
            && (f.outcome.Ok? ==> f.outcome.count == |f.state.toks| && AtEnd(js, f.pos) && Innermost(f.state.toks) == -1)
    decreases |js| - p
  {
    match Step(js, p, st, capacity)
    case Halt(_) =>
    case More(q, st') => RunStops(js, q, st', capacity);
  }

  /**
    The two passes agree: filling as many tokens as were counted does not run out of
    them, and succeeds, with that number, exactly when the brackets match.
   */
  lemma TwoPassesAgree(js: string)
    requires Counting(js, 0, 0).Ok?
    ensures var n := Counting(js, 0, 0).count;
            var f := Run(js, 0, Fresh, n);
            && f.outcome != Err(NoMemory)
            && (f.outcome.Ok? <==> Matched(js, 0, []))
            && (f.outcome.Ok? ==> f.outcome == Ok(n) && |f.state.toks| == n)
  {
    var n := Counting(js, 0, 0).count;
    RunMatchesAStack(js, 0, Fresh, n);
    CountedIsEnough(js, 0, 0, [], n);
    FillingSucceedsIff(js, 0, 0, [], n);
    RunStops(js, 0, Fresh, n);
  }
}
