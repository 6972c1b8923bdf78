/**
  Which token is the superior of another, said in terms of the text before it: the
  last colon or bracket outside strings and primitives, and whether a comma has
  followed.
 */
module JsmnSuperior {
  import opened Jsmn
  import opened JsmnTokens
  import opened JsmnText
  import opened JsmnReading

  /** Position `k` lies in a string with its quotes or in a primitive. */
  predicate InSome(toks: seq<Token>, k: nat) {
    exists i :: 0 <= i < |toks| && InLeaf(toks[i], k)
  }

  /** A colon or a bracket outside strings and primitives. */
  predicate Mark(js: string, toks: seq<Token>, k: nat)
    requires k < |js|
  {
    && !InSome(toks, k)
    && (js[k] == ':' || js[k] == '{' || js[k] == '[' || js[k] == '}' || js[k] == ']')
  }

  /** The last mark before `p`; -1 if there is none. */
  function LastMark(js: string, toks: seq<Token>, p: nat): (m: int)
    requires p <= |js|
    ensures -1 <= m < p
  {
    if p == 0 then -1 else if Mark(js, toks, p - 1) then p - 1 else LastMark(js, toks, p - 1)
  }

  /** A comma outside strings and primitives between the mark `m` and `p`. */
  predicate CommaSince(js: string, toks: seq<Token>, m: int, p: nat)
    requires p <= |js| && m >= -1
  {
    exists k: nat :: m < k < p && js[k] == ',' && !InSome(toks, k)
  }

  /** The last token that starts before `p`; -1 if there is none. */
  function LastBefore(toks: seq<Token>, p: nat): (i: int)
    ensures -1 <= i < |toks|
  {
    if toks == [] then -1
    else if toks[|toks| - 1].start < p then |toks| - 1
    else LastBefore(toks[..|toks| - 1], p)
  }

  /** The container is open at `p`. */
  predicate OpenAt(t: Token, p: nat) {
    Container(t) && t.start < p && (t.end == -1 || t.end > p)
  }

  /** The innermost container open at `p`; -1 if there is none. */
  function Around(toks: seq<Token>, p: nat): (i: int)
    ensures -1 <= i < |toks|
    ensures i >= 0 ==> OpenAt(toks[i], p)
    ensures forall j :: i < j < |toks| ==> !OpenAt(toks[j], p)
  {
    if toks == [] then -1
    else if OpenAt(toks[|toks| - 1], p) then |toks| - 1
    else Around(toks[..|toks| - 1], p)
  }

  /**
    The superior of what begins at `p`.  After a colon it is the token before the
    colon, the key; a comma ends that, if the key is no container and some container
    is open.  Otherwise it is the innermost open container.
   */
  function Superior(js: string, toks: seq<Token>, p: nat): (i: int)
    requires p <= |js|
    ensures -1 <= i < |toks|
  {
    var m := LastMark(js, toks, p);
    if m >= 0 && js[m] == ':' then
      var key := LastBefore(toks, m);
      if CommaSince(js, toks, m, p) && key >= 0 && !Container(toks[key]) && Around(toks, p) >= 0
      then Around(toks, p) else key
    else Around(toks, p)
  }

  /** Where a token begins in the text: a string at its quote. */
  function Site(t: Token): int {
    if t.kind == String then t.start - 1 else t.start
  }

  // ---------------------------------------------------------------------
  // The superior depends on what is before
  // ---------------------------------------------------------------------

  /** Tokens that agree on everything before `p`: the later ones begin at `p` or after, and no container open at `p` has closed before it. */
  predicate AgreeBefore(toks: seq<Token>, toks': seq<Token>, p: nat) {
    && |toks| <= |toks'|
    && (forall i :: 0 <= i < |toks| ==>
          && toks'[i].kind == toks[i].kind && toks'[i].start == toks[i].start
          && (toks'[i].end == toks[i].end || (Container(toks[i]) && toks[i].end == -1 && toks'[i].end > p)))
    && (forall i :: |toks| <= i < |toks'| ==> Site(toks'[i]) >= p)
  }

  lemma SameInSome(toks: seq<Token>, toks': seq<Token>, p: nat, k: nat)
    requires AgreeBefore(toks, toks', p) && k < p
    ensures InSome(toks', k) <==> InSome(toks, k)
  {
    if InSome(toks, k) {
      var i :| 0 <= i < |toks| && InLeaf(toks[i], k);
      assert InLeaf(toks'[i], k);
    }
    if InSome(toks', k) {
      var i :| 0 <= i < |toks'| && InLeaf(toks'[i], k);
      assert i < |toks| && InLeaf(toks[i], k);
    }
  }

  lemma {:induction false} SameLastMark(js: string, toks: seq<Token>, toks': seq<Token>, p: nat, q: nat)
    requires AgreeBefore(toks, toks', p) && q <= p <= |js|
    ensures LastMark(js, toks', q) == LastMark(js, toks, q)
    decreases q
  {
    if q > 0 {
      SameInSome(toks, toks', p, q - 1);
      SameLastMark(js, toks, toks', p, q - 1);
    }
  }

  lemma SameCommaSince(js: string, toks: seq<Token>, toks': seq<Token>, p: nat, m: int)
    requires AgreeBefore(toks, toks', p) && p <= |js| && m >= -1
    ensures CommaSince(js, toks', m, p) <==> CommaSince(js, toks, m, p)
  {
    forall k: nat | m < k < p
      ensures InSome(toks', k) <==> InSome(toks, k)
    {
      SameInSome(toks, toks', p, k);
    }
  }

  lemma {:induction false} LastBeforeIs(toks: seq<Token>, p: nat, i: int)
    requires -1 <= i < |toks| && (i >= 0 ==> toks[i].start < p)
    requires forall j :: i < j < |toks| ==> toks[j].start >= p
    ensures LastBefore(toks, p) == i
    decreases |toks|
  {
    if toks != [] && toks[|toks| - 1].start >= p {
      LastBeforeIs(toks[..|toks| - 1], p, i);
    }
  }

  lemma {:induction false} LastBeforeMeans(toks: seq<Token>, p: nat)
    ensures var i := LastBefore(toks, p);
            && (i >= 0 ==> toks[i].start < p)
            && forall j :: i < j < |toks| ==> toks[j].start >= p
    decreases |toks|
  {
    if toks != [] {
      LastBeforeMeans(toks[..|toks| - 1], p);
    }
  }

  lemma SameLastBefore(toks: seq<Token>, toks': seq<Token>, p: nat, m: nat)
    requires AgreeBefore(toks, toks', p) && m < p
    ensures LastBefore(toks', m) == LastBefore(toks, m)
  {
    LastBeforeMeans(toks, m);
    LastBeforeIs(toks', m, LastBefore(toks, m));
  }

  lemma AroundIs(toks: seq<Token>, p: nat, i: int)
    requires -1 <= i < |toks| && (i >= 0 ==> OpenAt(toks[i], p))
    requires forall j :: i < j < |toks| ==> !OpenAt(toks[j], p)
    ensures Around(toks, p) == i
  {
    var k := Around(toks, p);
    assert k >= 0 ==> OpenAt(toks[k], p);
  }

  lemma SameAround(toks: seq<Token>, toks': seq<Token>, p: nat)
    requires AgreeBefore(toks, toks', p)
    ensures Around(toks', p) == Around(toks, p)
  {
    AroundIs(toks', p, Around(toks, p));
  }

  /** What comes later does not change a superior. */
  lemma SameSuperior(js: string, toks: seq<Token>, toks': seq<Token>, p: nat)
    requires AgreeBefore(toks, toks', p) && p <= |js|
    ensures Superior(js, toks', p) == Superior(js, toks, p)
  {
    SameLastMark(js, toks, toks', p, p);
    var m := LastMark(js, toks, p);
    SameCommaSince(js, toks, toks', p, m);
    SameAround(toks, toks', p);
    if m >= 0 {
      SameLastBefore(toks, toks', p, m);
    }
  }

  // ---------------------------------------------------------------------
  // The superior as the text goes on
  // ---------------------------------------------------------------------

  /** All tokens lie before `p`, pending ones are containers. */
  predicate Before(toks: seq<Token>, p: nat) {
    forall i :: 0 <= i < |toks| ==>
      && 0 <= toks[i].start < p && toks[i].end <= p && (toks[i].kind == String ==> toks[i].end < p)
      && (toks[i].end == -1 || toks[i].end > toks[i].start || toks[i].kind == String)
      && (Pending(toks[i]) ==> Container(toks[i]))
  }

  lemma LaidIsBefore(js: string, toks: seq<Token>, p: nat)
    requires Laid(js, toks, p)
    ensures Before(toks, p)
  {
    forall i | 0 <= i < |toks|
      ensures && 0 <= toks[i].start < p && toks[i].end <= p && (toks[i].kind == String ==> toks[i].end < p)
      ensures toks[i].end == -1 || toks[i].end > toks[i].start || toks[i].kind == String
      ensures Pending(toks[i]) ==> Container(toks[i])
    {
      assert Placed(js, toks[i], p);
    }
  }

  /** The innermost container open at the reading position is the innermost pending one. */
  lemma AroundHere(toks: seq<Token>, p: nat)
    requires Before(toks, p)
    ensures Around(toks, p) == Innermost(toks)
  {
    AroundIs(toks, p, Innermost(toks));
  }

  lemma NothingHere(toks: seq<Token>, p: nat)
    requires Before(toks, p)
    ensures !InSome(toks, p)
  {
  }

  lemma AroundNext(toks: seq<Token>, p: nat)
    requires Before(toks, p)
    ensures Around(toks, p + 1) == Innermost(toks)
  {
    AroundIs(toks, p + 1, Innermost(toks));
  }

  /** A blank changes nothing. */
  lemma SpaceStep(js: string, toks: seq<Token>, p: nat)
    requires Before(toks, p) && p < |js| && White(js[p])
    ensures Superior(js, toks, p + 1) == Superior(js, toks, p)
  {
    NothingHere(toks, p);
    AroundHere(toks, p);
    AroundNext(toks, p);
    var m := LastMark(js, toks, p);
    assert CommaSince(js, toks, m, p + 1) <==> CommaSince(js, toks, m, p);
  }

  lemma ColonStep(js: string, toks: seq<Token>, p: nat)
    requires Before(toks, p) && p < |js| && js[p] == ':'
    ensures Superior(js, toks, p + 1) == |toks| - 1
  {
    NothingHere(toks, p);
    LastBeforeIs(toks, p, |toks| - 1);
  }

  lemma CommaStep(js: string, toks: seq<Token>, p: nat)
    requires Before(toks, p) && p < |js| && js[p] == ','
    ensures var super := Superior(js, toks, p);
            Superior(js, toks, p + 1) ==
            if super != -1 && !Container(toks[super]) && Innermost(toks) != -1 then Innermost(toks) else super
  {
    NothingHere(toks, p);
    AroundHere(toks, p);
    AroundNext(toks, p);
    var m := LastMark(js, toks, p);
    assert CommaSince(js, toks, m, p + 1);
  }

  lemma BracketStep(js: string, toks: seq<Token>, p: nat, toks': seq<Token>)
    requires p < |js| && (js[p] == '{' || js[p] == '[' || js[p] == '}' || js[p] == ']')
    requires !InSome(toks', p)
    ensures Superior(js, toks', p + 1) == Around(toks', p + 1)
  {
  }

  lemma {:induction false} NoMarkInLeaf(js: string, toks: seq<Token>, p: nat, q: nat)
    requires p <= q <= |js| && forall k :: p <= k < q ==> InSome(toks, k)
    ensures LastMark(js, toks, q) == LastMark(js, toks, p)
    decreases q - p
  {
    if p < q {
      NoMarkInLeaf(js, toks, p, q - 1);
    }
  }

  /** Reading a string or a primitive changes nothing. */
  lemma LeafStep(js: string, toks: seq<Token>, p: nat, q: nat)
    requires p <= q <= |js| && forall k :: p <= k < q ==> InSome(toks, k)
    requires Around(toks, q) == Around(toks, p)
    ensures Superior(js, toks, q) == Superior(js, toks, p)
  {
    NoMarkInLeaf(js, toks, p, q);
    var m := LastMark(js, toks, p);
    assert CommaSince(js, toks, m, q) <==> CommaSince(js, toks, m, p);
  }

  // ---------------------------------------------------------------------
  // Every step keeps it
  // ---------------------------------------------------------------------

  /** The superior to come and those recorded are what the text says. */
  predicate Told(js: string, p: nat, st: State) {
    p <= |js| && st.super == Superior(js, st.toks, p) && SitesTold(js, st.toks, st.sups)
  }

  /** The superior on record for each token is what the text before it says. */
  predicate SitesTold(js: string, toks: seq<Token>, sups: seq<int>) {
    && |sups| == |toks|
    && forall k :: 0 <= k < |toks| ==> 0 <= Site(toks[k]) < |js| && sups[k] == Superior(js, toks, Site(toks[k]))
  }

  lemma SitesStay(js: string, st: State, toks': seq<Token>, p: nat, k: nat)
    requires Told(js, p, st) && k < |st.toks| <= |toks'|
    requires Before(st.toks, p) && Continues(st.toks, toks')
    requires forall i :: 0 <= i < |st.toks| && st.toks[i].end == -1 ==> toks'[i].end == -1 || toks'[i].end > p
    requires forall i :: |st.toks| <= i < |toks'| ==> Site(toks'[i]) >= p
    ensures Site(toks'[k]) == Site(st.toks[k])
    ensures Superior(js, toks', Site(st.toks[k])) == st.sups[k]
  {
    var site := Site(st.toks[k]);
    assert AgreeBefore(st.toks, toks', site);
    SameSuperior(js, st.toks, toks', site);
  }

  lemma PushTold(js: string, p: nat, st: State, t: Token, q: nat)
    requires Told(js, p, st) && Before(st.toks, p) && Apt(st) && p < q <= |js| && Site(t) == p
    requires t.kind == String || t.kind == Primitive || Container(t)
    ensures var st' := Push(st, t);
            && AgreeBefore(st.toks, st'.toks, p)
            && SitesTold(js, st'.toks, st'.sups)
  {
    var st' := Push(st, t);
    PushContinues(st, t);
    assert AgreeBefore(st.toks, st'.toks, p);
    forall k | 0 <= k < |st'.toks|
      ensures 0 <= Site(st'.toks[k]) < |js| && st'.sups[k] == Superior(js, st'.toks, Site(st'.toks[k]))
    {
      if k < |st.toks| {
        SitesStay(js, st, st'.toks, p, k);
      } else {
        SameSuperior(js, st.toks, st'.toks, p);
      }
    }
  }

  lemma LeafSuperior(js: string, p: nat, st: State, t: Token, q: nat)
    requires p <= |js| && Before(st.toks, p) && Apt(st) && p < q <= |js| && Site(t) == p
    requires (t.kind == String && t.end + 1 == q) || (t.kind == Primitive && t.end == q)
    requires AgreeBefore(st.toks, Push(st, t).toks, p)
    ensures Superior(js, Push(st, t).toks, q) == Superior(js, st.toks, p)
  {
    var toks' := Push(st, t).toks;
    PushContinues(st, t);
    SameSuperior(js, st.toks, toks', p);
    var n := |st.toks|;
    forall k | p <= k < q
      ensures InSome(toks', k)
    {
      assert InLeaf(toks'[n], k);
    }
    SameAround(st.toks, toks', p);
    AroundHere(st.toks, p);
    AroundIs(toks', q, Innermost(st.toks));
    LeafStep(js, toks', p, q);
  }

  lemma LeafTold(js: string, p: nat, st: State, t: Token, q: nat)
    requires Told(js, p, st) && Before(st.toks, p) && Apt(st) && p < q <= |js| && Site(t) == p
    requires (t.kind == String && t.end + 1 == q) || (t.kind == Primitive && t.end == q)
    ensures Told(js, q, Push(st, t))
  {
    PushTold(js, p, st, t, q);
    LeafSuperior(js, p, st, t, q);
  }

  lemma OpenTold(js: string, p: nat, st: State, k: Kind)
    requires Told(js, p, st) && Before(st.toks, p) && Apt(st) && p < |js|
    requires (js[p] == '{' || js[p] == '[') && (k == Object || k == Array)
    ensures Told(js, p + 1, Push(st, Token(k, p, -1, 0)).(super := |st.toks|))
  {
    var t := Token(k, p, -1, 0);
    var st' := Push(st, t);
    PushTold(js, p, st, t, p + 1);
    PushContinues(st, t);
    NothingHere(st.toks, p);
    assert !InSome(st'.toks, p) by {
      forall i | 0 <= i < |st'.toks|
        ensures !InLeaf(st'.toks[i], p)
      {
        assert i < |st.toks| ==> !InLeaf(st.toks[i], p);
      }
    }
    AroundIs(st'.toks, p + 1, |st.toks|);
    BracketStep(js, st.toks, p, st'.toks);
  }

  lemma CloseSites(js: string, p: nat, st: State, i: nat)
    requires Told(js, p, st) && Before(st.toks, p) && i == Innermost(st.toks)
    ensures SitesTold(js, Closed(st.toks, i, p + 1), st.sups)
  {
    var toks' := Closed(st.toks, i, p + 1);
    forall k | 0 <= k < |toks'|
      ensures 0 <= Site(toks'[k]) < |js| && st.sups[k] == Superior(js, toks', Site(toks'[k]))
    {
      SitesStay(js, st, toks', p, k);
    }
  }

  lemma CloseSuperior(js: string, p: nat, toks: seq<Token>, i: nat)
    requires Before(toks, p) && p < |js| && (js[p] == '}' || js[p] == ']') && i == Innermost(toks)
    ensures var toks' := Closed(toks, i, p + 1); Superior(js, toks', p + 1) == Innermost(toks')
  {
    var toks' := Closed(toks, i, p + 1);
    NothingHere(toks, p);
    assert !InSome(toks', p) by {
      forall j | 0 <= j < |toks'|
        ensures !InLeaf(toks'[j], p)
      {
        assert !InLeaf(toks[j], p);
      }
    }
    AroundIs(toks', p + 1, Innermost(toks'));
    BracketStep(js, toks, p, toks');
  }

  lemma CloseTold(js: string, p: nat, st: State, i: nat, q: nat)
    requires Told(js, p, st) && Before(st.toks, p) && Apt(st) && p < |js| && q == p + 1
    requires (js[p] == '}' || js[p] == ']') && i == Innermost(st.toks)
    ensures Told(js, q, CloseAt(st, i, q))
  {
    CloseSites(js, p, st, i);
    CloseSuperior(js, p, st.toks, i);
  }

  lemma MarkSuperior(js: string, x: Lexeme, p: nat, st: State)
    requires p <= |js| && st.super == Superior(js, st.toks, p) && Before(st.toks, p) && Apt(st) && ReadsAs(js, p, x)
    requires x.Space? || x.Colon? || x.Comma?
    ensures var st' := Act(x, p, st, 0).state;
            x.next <= |js| && st' == st.(super := st'.super) && st'.super == Superior(js, st.toks, x.next)
  {
    match x
    case Space(_) => SpaceStep(js, st.toks, p);
    case Colon(_) => ColonStep(js, st.toks, p);
    case Comma(_) => CommaStep(js, st.toks, p);
  }

  lemma MarkTold(js: string, x: Lexeme, p: nat, st: State)
    requires Told(js, p, st) && Before(st.toks, p) && Apt(st) && ReadsAs(js, p, x)
    requires x.Space? || x.Colon? || x.Comma?
    ensures Told(js, x.next, Act(x, p, st, 0).state)
  {
    MarkSuperior(js, x, p, st);
  }

  /** A turn of the loop ends with what the text says, if it goes on. */
  predicate StaysTold(js: string, r: Next) {
    r.More? ==> Told(js, r.next, r.state)
  }

  lemma OpenActTold(js: string, x: Lexeme, p: nat, st: State, capacity: nat)
    requires Told(js, p, st) && Before(st.toks, p) && Apt(st) && ReadsAs(js, p, x) && x.Open?
    ensures StaysTold(js, Act(x, p, st, capacity))
  {
    OpenTold(js, p, st, x.kind);
  }

  lemma LeafActTold(js: string, x: Lexeme, p: nat, st: State, capacity: nat)
    requires Told(js, p, st) && Before(st.toks, p) && Apt(st) && ReadsAs(js, p, x) && x.Leaf?
    ensures StaysTold(js, Act(x, p, st, capacity))
  {
    LeafTold(js, p, st, x.token, x.next);
  }

  lemma CloseActs(x: Lexeme, p: nat, st: State, capacity: nat)
    requires Apt(st) && x.Close?
    ensures var i, r := Innermost(st.toks), Act(x, p, st, capacity);
            if i != -1 && st.toks[i].kind == x.kind then r == More(x.next, CloseAt(st, i, x.next)) else r.Halt?
  {
  }

  lemma CloseActTold(js: string, x: Lexeme, p: nat, st: State, capacity: nat)
    requires Told(js, p, st) && Before(st.toks, p) && Apt(st) && ReadsAs(js, p, x) && x.Close?
    ensures StaysTold(js, Act(x, p, st, capacity))
  {
    CloseActs(x, p, st, capacity);
    if Act(x, p, st, capacity).More? {
      CloseTold(js, p, st, Innermost(st.toks), x.next);
    }
  }

  lemma MarkActTold(js: string, x: Lexeme, p: nat, st: State, capacity: nat)
    requires Told(js, p, st) && Before(st.toks, p) && Apt(st) && ReadsAs(js, p, x)
    requires x.Space? || x.Colon? || x.Comma?
    ensures StaysTold(js, Act(x, p, st, capacity))
  {
    MarkTold(js, x, p, st);
  }

  lemma ActTold(js: string, x: Lexeme, p: nat, st: State, capacity: nat)
    requires Told(js, p, st) && Before(st.toks, p) && Apt(st) && ReadsAs(js, p, x)
    ensures StaysTold(js, Act(x, p, st, capacity))
  {
    if x.Open? {
      OpenActTold(js, x, p, st, capacity);
    } else if x.Leaf? {
      LeafActTold(js, x, p, st, capacity);
    } else if x.Close? {
      CloseActTold(js, x, p, st, capacity);
    } else if !x.Done? && !x.Fault? {
      MarkActTold(js, x, p, st, capacity);
    }
  }

  lemma {:induction false} RunTold(js: string, p: nat, st: State, capacity: nat)
    requires Inv(js, p, st) && Told(js, p, st)
    ensures var f := Run(js, p, st, capacity); Told(js, f.pos, f.state)
    decreases |js| - p
  {
    LexReads(js, p);
    LexFits(js, p);
    LaidIsBefore(js, st.toks, p);
    ActTold(js, Lex(js, p), p, st, capacity);
    ActKeepsInv(js, Lex(js, p), p, st, capacity);
    match Step(js, p, st, capacity)
    case Halt(_) =>
    case More(q, st') => RunTold(js, q, st', capacity);
  }

  /**
    The size of each token is the number of tokens whose superior it is in the text:
    the key for a value, the innermost open container for everything else.
   */
  lemma SizesCountTheValues(js: string, capacity: nat)
    ensures var f := Run(js, 0, Fresh, capacity);
            && SitesTold(js, f.state.toks, f.state.sups)
            && forall i :: 0 <= i < |f.state.toks| ==> f.state.toks[i].size == multiset(f.state.sups)[i]
  {
    RunKeepsInv(js, 0, Fresh, capacity);
    RunTold(js, 0, Fresh, capacity);
  }
}
