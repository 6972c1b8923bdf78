/**
  How the filling pass reads the text: every character up to the end belongs to a
  token, is a bracket of one, or is a blank, a colon or a comma; and where it stops.
 */
module JsmnReading {
  import opened Jsmn
  import opened JsmnTokens
  import opened JsmnText

  predicate White(c: char) {
    c == '\t' || c == '\r' || c == '\n' || c == ' '
  }

  /** A string token: what is between two quotes, the second the first one that no escape sequence covers. */
  predicate StringAt(js: string, t: Token) {
    && 1 <= t.start <= t.end < |js| && js[t.start - 1] == '\"' && js[t.end] == '\"'
    && StringBody(js, t.start, t.end)
  }

  /** A primitive token: printable characters up to the first delimiter or the end of the text. */
  predicate PrimitiveAt(js: string, t: Token) {
    && 0 <= t.start < t.end <= |js| && AllPrintable(js, t.start, t.end)
    && js[t.start] != '{' && js[t.start] != '[' && js[t.start] != '\"'
    && (TextEnds(js, t.end) || Delimits(js[t.end]))
  }

  predicate LeafAt(js: string, t: Token) {
    match t.kind
    case String => StringAt(js, t)
    case Primitive => PrimitiveAt(js, t)
    case _ => true
  }

  /** Position `k` belongs to a string with its quotes, or to a primitive. */
  predicate InLeaf(t: Token, k: nat) {
    || (t.kind == String && t.start - 1 <= k <= t.end)
    || (t.kind == Primitive && t.start <= k < t.end)
  }

  /** The character at `k` opens or closes the container. */
  predicate BracketOf(js: string, t: Token, k: nat)
    requires k < |js|
  {
    || (t.kind == Object && ((js[k] == '{' && t.start == k) || (js[k] == '}' && t.end == k + 1)))
    || (t.kind == Array && ((js[k] == '[' && t.start == k) || (js[k] == ']' && t.end == k + 1)))
  }

  predicate Covered(js: string, toks: seq<Token>, k: nat)
    requires k < |js|
  {
    || White(js[k]) || js[k] == ':' || js[k] == ','
    || exists t <- toks :: InLeaf(t, k) || BracketOf(js, t, k)
  }

  /** Everything before `p` is accounted for, and the leaves are what the text has there. */
  predicate Reading(js: string, toks: seq<Token>, p: nat) {
    && p <= |js|
    && (forall k :: 0 <= k < p ==> js[k] != 0 as char && Covered(js, toks, k))
    && (forall t <- toks :: LeafAt(js, t))
  }

  // ---------------------------------------------------------------------
  // Lexemes in the text
  // ---------------------------------------------------------------------

  predicate NoNul(js: string, p: nat, q: nat) {
    q <= |js| && forall k :: p <= k < q ==> js[k] != 0 as char
  }

  /** What a lexeme at `p` is in the text. */
  predicate ReadsAs(js: string, p: nat, x: Lexeme) {
    match x
    case Done => TextEnds(js, p)
    case Fault(_) => !TextEnds(js, p)
    case Space(q) => q == p + 1 && NoNul(js, p, q) && White(js[p])
    case Colon(q) => q == p + 1 && NoNul(js, p, q) && js[p] == ':'
    case Comma(q) => q == p + 1 && NoNul(js, p, q) && js[p] == ','
    case Open(k, q) => q == p + 1 && NoNul(js, p, q) && js[p] == (if k == Object then '{' else '[') && (k == Object || k == Array)
    case Close(k, q) => q == p + 1 && NoNul(js, p, q) && js[p] == (if k == Object then '}' else ']') && (k == Object || k == Array)
    case Leaf(t, q) =>
      && p < q && NoNul(js, p, q) && LeafAt(js, t) && t.size == 0
      && (|| (t.kind == String && t.start == p + 1 && t.end + 1 == q)
          || (t.kind == Primitive && t.start == p && t.end == q))
  }

  lemma {:induction false} BodyHasNoNul(js: string, p: nat, q: nat)
    requires p <= q <= |js| && StringBody(js, p, q)
    ensures NoNul(js, p, q)
    decreases q - p
  {
    if p < q {
      if Plain(js, p) {
        BodyHasNoNul(js, p + 1, q);
      } else if Escape(js, p) {
        BodyHasNoNul(js, p + 2, q);
      } else {
        BodyHasNoNul(js, p + 6, q);
      }
    }
  }

  lemma LexReads(js: string, p: nat)
    requires p <= |js|
    ensures ReadsAs(js, p, Lex(js, p))
  {
    if !AtEnd(js, p) {
      if js[p] == '\"' {
        var q := ScanStringEnds(js, p + 1);
        BodyHasNoNulTo(js, p + 1, q);
      } else if !(js[p] in "{}[]:,") && !Blank(js[p]) && !Unprintable(js[p]) && ScanPrimitive(js, p + 1).Found? {
        ScanPrimitiveMeans(js, p + 1, ScanPrimitive(js, p + 1).end);
      }
    }
  }

  lemma BodyHasNoNulTo(js: string, p: nat, q: nat)
    requires p <= q && StringBody(js, p, q)
    ensures q <= |js| ==> NoNul(js, p, q)
  {
    if q <= |js| {
      BodyHasNoNul(js, p, q);
    }
  }

  // ---------------------------------------------------------------------
  // Reading on
  // ---------------------------------------------------------------------

  /** The tokens are still there, with the same ends but for containers that have been closed. */
  predicate Continues(toks: seq<Token>, toks': seq<Token>) {
    && |toks| <= |toks'|
    && forall i :: 0 <= i < |toks| ==>
         && toks'[i].kind == toks[i].kind && toks'[i].start == toks[i].start
         && (toks'[i].end == toks[i].end || (Container(toks[i]) && toks[i].end == -1))
  }

  lemma CoveredStays(js: string, toks: seq<Token>, toks': seq<Token>, k: nat)
    requires k < |js| && Covered(js, toks, k) && Continues(toks, toks')
    ensures Covered(js, toks', k)
  {
    if t :| t in toks && (InLeaf(t, k) || BracketOf(js, t, k)) {
      var i :| 0 <= i < |toks| && toks[i] == t;
      assert toks'[i] in toks' && (InLeaf(toks'[i], k) || BracketOf(js, toks'[i], k));
    }
  }

  lemma LeavesStay(js: string, toks: seq<Token>, toks': seq<Token>)
    requires (forall t <- toks :: LeafAt(js, t)) && Continues(toks, toks')
    requires forall i :: |toks| <= i < |toks'| ==> LeafAt(js, toks'[i])
    ensures forall t <- toks' :: LeafAt(js, t)
  {
    forall t <- toks'
      ensures LeafAt(js, t)
    {
      var i :| 0 <= i < |toks'| && toks'[i] == t;
      if i < |toks| {
        assert LeafAt(js, toks[i]);
      }
    }
  }

  lemma ReadOn(js: string, toks: seq<Token>, p: nat, toks': seq<Token>, q: nat)
    requires Reading(js, toks, p) && Continues(toks, toks') && p <= q && NoNul(js, p, q)
    requires forall k :: p <= k < q ==> Covered(js, toks', k)
    requires forall i :: |toks| <= i < |toks'| ==> LeafAt(js, toks'[i])
    ensures Reading(js, toks', q)
  {
    LeavesStay(js, toks, toks');
    forall k | 0 <= k < q
      ensures js[k] != 0 as char && Covered(js, toks', k)
    {
      if k < p {
        CoveredStays(js, toks, toks', k);
      }
    }
  }

  lemma PushContinues(st: State, t: Token)
    requires Apt(st)
    ensures Continues(st.toks, Push(st, t).toks)
    ensures Push(st, t).toks[|st.toks|] == t && |Push(st, t).toks| == |st.toks| + 1
  {
  }

  lemma PushReads(js: string, x: Lexeme, p: nat, st: State, t: Token)
    requires Apt(st) && Reading(js, st.toks, p) && ReadsAs(js, p, x)
    requires (x.Leaf? && t == x.token) || (x.Open? && t == Token(x.kind, p, -1, 0))
    ensures Reading(js, Push(st, t).toks, x.next)
  {
    PushContinues(st, t);
    var toks' := Push(st, t).toks;
    assert t in toks';
    ReadOn(js, st.toks, p, toks', x.next);
  }

  lemma CloseReads(js: string, x: Lexeme, p: nat, st: State, i: nat)
    requires Apt(st) && Reading(js, st.toks, p) && ReadsAs(js, p, x) && x.Close?
    requires i < |st.toks| && st.toks[i].end == -1 && st.toks[i].kind == x.kind
    ensures Reading(js, CloseAt(st, i, x.next).toks, x.next)
  {
    var toks' := Closed(st.toks, i, x.next);
    assert toks'[i] in toks' && BracketOf(js, toks'[i], p);
    ReadOn(js, st.toks, p, toks', x.next);
  }

  lemma ActReads(js: string, x: Lexeme, p: nat, st: State, capacity: nat)
    requires Apt(st) && Reading(js, st.toks, p) && ReadsAs(js, p, x)
    ensures var r := Act(x, p, st, capacity); r.More? ==> Reading(js, r.state.toks, r.next)
  {
    match x
    case Open(k, _) => PushReads(js, x, p, st, Token(k, p, -1, 0));
    case Leaf(t, _) => PushReads(js, x, p, st, t);
    case Close(k, _) =>
      var i := Innermost(st.toks);
      if i != -1 && st.toks[i].kind == k {
        CloseReads(js, x, p, st, i);
      }
    case Space(q) => ReadOn(js, st.toks, p, st.toks, q);
    case Colon(q) => ReadOn(js, st.toks, p, st.toks, q);
    case Comma(q) => ReadOn(js, st.toks, p, st.toks, q);
    case _ =>
  }

  lemma {:induction false} RunReads(js: string, p: nat, st: State, capacity: nat)
    requires Apt(st) && Reading(js, st.toks, p)
    ensures var f := Run(js, p, st, capacity); Reading(js, f.state.toks, f.pos)
    decreases |js| - p
  {
    LexReads(js, p);
    ActReads(js, Lex(js, p), p, st, capacity);
    match Step(js, p, st, capacity)
    case Halt(_) =>
    case More(q, st') => RunReads(js, q, st', capacity);
  }

  /**
    After success the tokens account for the whole text: each character up to its end
    is a blank, a colon, a comma, a bracket of a container, or part of a string or a
    primitive; strings and primitives are what the text has there.
   */
  lemma ParsedTokensCoverTheText(js: string, capacity: nat)
    ensures var f := Run(js, 0, Fresh, capacity);
            && Reading(js, f.state.toks, f.pos)
            && (f.outcome.Ok? ==> TextEnds(js, f.pos))
  {
    RunReads(js, 0, Fresh, capacity);
    RunStops(js, 0, Fresh, capacity);
  }

  // ---------------------------------------------------------------------
  // Where the tokenizer stops
  // ---------------------------------------------------------------------

  /** Characters that are not the beginning of a primitive. */
  predicate Special(c: char) {
    White(c) || c == '{' || c == '}' || c == '[' || c == ']' || c == ':' || c == ',' || c == '\"'
  }

  /** A string at `p` with a bad escape, or a primitive at `p` with a stray character. */
  ghost predicate InvalidAt(js: string, p: nat) {
    && p < |js| && js[p] != 0 as char
    && if js[p] == '\"' then exists q: nat :: p < q && StringBody(js, p + 1, q) && BadEscape(js, q)
       else !Special(js[p]) && exists q: nat :: p <= q && AllPrintable(js, p, q) && Stray(js, q)
  }

  /** A string at `p` that the text breaks off. */
  ghost predicate UnfinishedAt(js: string, p: nat) {
    p < |js| && js[p] == '\"' && exists q: nat :: p < q && StringBody(js, p + 1, q) && BreaksOff(js, q)
  }

  lemma LexFaults(js: string, p: nat)
    requires p <= |js|
    ensures Lex(js, p) == Fault(Invalid) <==> InvalidAt(js, p)
    ensures Lex(js, p) == Fault(Partial) <==> UnfinishedAt(js, p)
    ensures Lex(js, p).Fault? ==> Lex(js, p).error == Invalid || Lex(js, p).error == Partial
  {
    if p < |js| && js[p] == '\"' {
      StringFaults(js, p);
    } else if !AtEnd(js, p) && !Special(js[p]) {
      PrimitiveFaults(js, p);
    }
  }

  lemma StringFaults(js: string, p: nat)
    requires p < |js| && js[p] == '\"'
    ensures ScanString(js, p + 1) == Failed(Invalid) <==> InvalidAt(js, p)
    ensures ScanString(js, p + 1) == Failed(Partial) <==> UnfinishedAt(js, p)
    ensures ScanString(js, p + 1) != Failed(NoMemory)
  {
    var r := ScanStringEnds(js, p + 1);
    assert r > p;
    forall q: nat | p < q
      ensures StringBody(js, p + 1, q) && BadEscape(js, q) ==> ScanString(js, p + 1) == Failed(Invalid)
      ensures StringBody(js, p + 1, q) && BreaksOff(js, q) ==> ScanString(js, p + 1) == Failed(Partial)
    {
      ScanStringMeans(js, p + 1, q);
    }
  }

  lemma PrimitiveFaults(js: string, p: nat)
    requires p < |js| && js[p] != 0 as char && !Special(js[p])
    ensures Lex(js, p) == Fault(Invalid) <==> InvalidAt(js, p)
    ensures Lex(js, p) == Fault(Invalid) || Lex(js, p).Leaf?
  {
    forall q: nat | p <= q && AllPrintable(js, p, q) && Stray(js, q)
      ensures Lex(js, p) == Fault(Invalid)
    {
      if p < q {
        assert Printable(js[p]);
        ScanPrimitiveMeans(js, p + 1, q);
      }
    }
    if Unprintable(js[p]) {
      assert AllPrintable(js, p, p) && Stray(js, p);
    } else if ScanPrimitive(js, p + 1).Failed? {
      var q := ScanPrimitiveFails(js, p + 1);
      assert AllPrintable(js, p, q);
    }
  }

  /** A closing bracket at `p` with no container open, or with one of the other kind innermost. */
  predicate UnmatchedAt(js: string, p: nat, toks: seq<Token>) {
    && p < |js|
    && (|| (js[p] == '}' && (Innermost(toks) == -1 || toks[Innermost(toks)].kind != Object))
        || (js[p] == ']' && (Innermost(toks) == -1 || toks[Innermost(toks)].kind != Array)))
  }

  lemma StepStops(js: string, p: nat, st: State, capacity: nat)
    requires p <= |js| && Apt(st) && Step(js, p, st, capacity).Halt?
    ensures var o := Step(js, p, st, capacity).outcome;
            && (o == Err(Invalid) <==> InvalidAt(js, p) || UnmatchedAt(js, p, st.toks))
            && (o == Err(Partial) <==> UnfinishedAt(js, p) || (TextEnds(js, p) && Innermost(st.toks) != -1))
  {
    LexFaults(js, p);
    LexReads(js, p);
  }

  lemma {:induction false} RunStopsWhere(js: string, p: nat, st: State, capacity: nat)
    requires p <= |js| && Apt(st)
    ensures var f := Run(js, p, st, capacity);
            && f.pos <= |js|
            && (f.outcome == Err(Invalid) <==> InvalidAt(js, f.pos) || UnmatchedAt(js, f.pos, f.state.toks))
            && (f.outcome == Err(Partial) <==>
                  UnfinishedAt(js, f.pos) || (TextEnds(js, f.pos) && Innermost(f.state.toks) != -1))
    decreases |js| - p
  {
    match Step(js, p, st, capacity)
    case Halt(_) => StepStops(js, p, st, capacity);
    case More(q, st') => RunStopsWhere(js, q, st', capacity);
  }

  /**
    The tokenizer calls a text invalid exactly if it has stopped at a primitive with a
    stray character, at a string with a bad escape, or at a closing bracket that does
    not match; and incomplete exactly if the text breaks off in a string or with a
    container open.
   */
  lemma StopsExactlyWhere(js: string, capacity: nat)
    ensures var f := Run(js, 0, Fresh, capacity);
            && (f.outcome == Err(Invalid) <==> InvalidAt(js, f.pos) || UnmatchedAt(js, f.pos, f.state.toks))
            && (f.outcome == Err(Partial) <==>
                  UnfinishedAt(js, f.pos) || (TextEnds(js, f.pos) && Innermost(f.state.toks) != -1))
  {
    RunStopsWhere(js, 0, Fresh, capacity);
  }
}
