/**
  The parser of src/jsmn/jsmn.c: an object with a position, the number of tokens in
  use and the index of the superior token, working on an array of tokens.  A null
  array makes the pass count only.
 */
module JsmnParser {
  import opened Jsmn
  import opened JsmnTokens
  import opened JsmnText
  import opened JsmnReading
  import opened JsmnSuperior

  /** The value the C function returns. */
  function Code(o: Outcome): int {
    match o
    case Ok(n) => n
    case Err(NoMemory) => -1
    case Err(Invalid) => -2
    case Err(Partial) => -3
  }

  class Parser {
    var pos: nat
    var toknext: nat
    var toksuper: int
    /** The superior that each token had when it was made. */
    ghost var sups: seq<int>

    /** jsmn_init */
    constructor ()
      ensures pos == 0 && toknext == 0 && toksuper == -1 && sups == []
    {
      pos, toknext, toksuper, sups := 0, 0, -1, [];
    }

    /** The fields are indices into the tokens in use, and only containers are pending. */
    ghost predicate Valid(tokens: array?<Token>)
      reads this, tokens
    {
      tokens != null ==>
        && toknext <= tokens.Length && -1 <= toksuper < toknext
        && (forall i :: 0 <= i < toknext ==> Pending(tokens[i]) ==> Container(tokens[i]))
    }

    ghost function View(tokens: array<Token>): State
      requires Valid(tokens)
      reads this, tokens
    {
      State(tokens[..toknext], toksuper, sups)
    }

    /** jsmn_alloc_token; -1 stands for NULL. */
    method Alloc(tokens: array<Token>) returns (tok: int)
      requires toknext <= tokens.Length
      modifies this`toknext, tokens
      ensures tok == if old(toknext) < tokens.Length then old(toknext) else -1
      ensures tok == -1 ==> toknext == old(toknext) && tokens[..] == old(tokens[..])
      ensures tok != -1 ==>
                && toknext == old(toknext) + 1
                && tokens[tok].start == -1 && tokens[tok].end == -1 && tokens[tok].size == 0
                && tokens[..tok] == old(tokens[..toknext])
    {
      if toknext >= tokens.Length {
        return -1;
      }
      tok := toknext;
      toknext := toknext + 1;
      tokens[tok] := tokens[tok].(start := -1, end := -1, size := 0);
    }

    /** jsmn_fill_token at the next free token, as both leaf scanners do it. */
    method Fill(kind: Kind, start: nat, end: nat, tokens: array<Token>) returns (ok: bool)
      requires toknext <= tokens.Length
      modifies this`toknext, tokens
      ensures ok <==> old(toknext) < tokens.Length
      ensures !ok ==> toknext == old(toknext) && tokens[..] == old(tokens[..])
      ensures ok ==>
                && toknext == old(toknext) + 1
                && tokens[..toknext] == old(tokens[..toknext]) + [Token(kind, start, end, 0)]
    {
      var tok := Alloc(tokens);
      ok := tok != -1;
      if ok {
        tokens[tok] := Token(kind, start, end, 0);
      }
    }

    /** The token of a leaf has been added, the position is its last character, and nothing else changed. */
    twostate predicate Added(t: Token, next: nat, tokens: array?<Token>)
      reads this, tokens
    {
      && pos + 1 == next
      && (tokens == null ==> toknext == old(toknext))
      && (tokens != null ==> old(toknext) < toknext == old(toknext) + 1 <= tokens.Length
                             && tokens[..toknext] == old(tokens[..toknext]) + [t])
    }

    twostate predicate Same(tokens: array?<Token>)
      reads this, tokens
    {
      pos == old(pos) && toknext == old(toknext) && (tokens != null ==> tokens[..] == old(tokens[..]))
    }

    /** jsmn_parse_primitive, called at a character that is no delimiter. */
    method ParsePrimitive(js: string, tokens: array?<Token>) returns (r: int)
      requires !AtEnd(js, pos) && !EndsPrimitive(js[pos])
      requires tokens != null ==> toknext <= tokens.Length
      modifies this`pos, this`toknext, tokens
      ensures match ScanPrimitive(js, old(pos))
              case Failed(e) => r == Code(Err(e)) && Same(tokens)
              case Found(q) =>
                if tokens != null && old(toknext) >= tokens.Length then r == Code(Err(NoMemory)) && Same(tokens)
                else r == 0 && Added(Token(Primitive, old(pos), q, 0), q, tokens)
    {
      var start := pos;
      while pos < |js| && js[pos] != '\0' && !EndsPrimitive(js[pos])
        invariant start <= pos <= |js| && ScanPrimitive(js, start) == ScanPrimitive(js, pos)
        invariant toknext == old(toknext) && (tokens != null ==> tokens[..] == old(tokens[..]))
        invariant pos == start ==> !AtEnd(js, pos) && !EndsPrimitive(js[pos])
      {
        if js[pos] < 32 as char || js[pos] >= 127 as char {
          pos := start;
          return -2;
        }
        pos := pos + 1;
      }
      if tokens != null {
        var ok := Fill(Primitive, start, pos, tokens);
        if !ok {
          pos := start;
          return -1;
        }
      }
      pos := pos - 1;
      return 0;
    }

    /** The four digits after a backslash and a u; the position is left on the last one. */
    method SkipHex(js: string) returns (ok: bool)
      requires 0 < pos <= |js|
      modifies this`pos
      ensures match ScanHex(js, old(pos), 4)
              case Failed(e) => !ok && e == Invalid
              case Found(q) => ok && pos + 1 == q
    {
      var i := 0;
      while i < 4 && pos < |js| && js[pos] != '\0'
        invariant 0 <= i <= 4 && old(pos) <= pos <= |js|
        invariant ScanHex(js, old(pos), 4) == ScanHex(js, pos, 4 - i)
      {
        if !HexDigit(js[pos]) {
          return false;
        }
        pos := pos + 1;
        i := i + 1;
      }
      pos := pos - 1;
      return true;
    }

    /** The switch on the character after a backslash; the position is left on the last one of the sequence. */
    method SkipEscape(js: string) returns (ok: bool)
      requires pos < |js|
      modifies this`pos
      ensures match ScanEscape(js, old(pos))
              case Failed(e) => !ok && e == Invalid
              case Found(q) => ok && pos + 1 == q
    {
      if Escapable(js[pos]) {
        return true;
      } else if js[pos] == 'u' {
        pos := pos + 1;
        ok := SkipHex(js);
      } else {
        return false;
      }
    }

    /** jsmn_parse_string, called at the opening quote. */
    method ParseString(js: string, tokens: array?<Token>) returns (r: int)
      requires pos < |js|
      requires tokens != null ==> toknext <= tokens.Length
      modifies this`pos, this`toknext, tokens
      ensures match ScanString(js, old(pos) + 1)
              case Failed(e) => r == Code(Err(e)) && Same(tokens)
              case Found(q) =>
                if tokens != null && old(toknext) >= tokens.Length then r == Code(Err(NoMemory)) && Same(tokens)
                else r == 0 && Added(Token(String, old(pos) + 1, q, 0), q + 1, tokens)
    {
      var start := pos;
      pos := pos + 1;
      while pos < |js| && js[pos] != '\0'
        invariant start < pos <= |js| && ScanString(js, start + 1) == ScanString(js, pos)
        invariant toknext == old(toknext) && (tokens != null ==> tokens[..] == old(tokens[..]))
        decreases |js| - pos
      {
        if js[pos] == '\"' {
          if tokens != null {
            var ok := Fill(String, start + 1, pos, tokens);
            if !ok {
              pos := start;
              return -1;
            }
          }
          return 0;
        }
        if js[pos] == '\\' && pos + 1 < |js| {
          pos := pos + 1;
          var ok := SkipEscape(js);
          if !ok {
            pos := start;
            return -2;
          }
        }
        pos := pos + 1;
      }
      pos := start;
      return -3;
    }

    /** One more token below the superior, if there is one. */
    method CountBelow(tokens: array<Token>)
      requires toknext <= tokens.Length && -1 <= toksuper < toknext
      modifies tokens
      ensures tokens[..toknext] == Bump(old(tokens[..toknext]), toksuper)
    {
      if toksuper != -1 {
        tokens[toksuper] := tokens[toksuper].(size := tokens[toksuper].size + 1);
      }
    }

    /** An opening bracket in the filling pass. */
    method OpenBracket(kind: Kind, tokens: array<Token>) returns (ok: bool)
      requires Valid(tokens) && (kind == Object || kind == Array)
      modifies this`toknext, this`toksuper, this`sups, tokens
      ensures Valid(tokens) && (ok <==> old(toknext) < tokens.Length)
      ensures !ok ==> View(tokens) == old(View(tokens))
      ensures ok ==> View(tokens) == Push(old(View(tokens)), Token(kind, pos, -1, 0)).(super := old(toknext))
    {
      var tok := Alloc(tokens);
      if tok == -1 {
        assert tokens[..toknext] == old(tokens[..toknext]);
        return false;
      }
      tokens[tok] := tokens[tok].(kind := kind, start := pos);
      assert tokens[..toknext] == old(tokens[..toknext]) + [Token(kind, pos, -1, 0)];
      CountBelow(tokens);
      sups := sups + [toksuper];
      toksuper := toknext - 1;
      return true;
    }

    /** The index of the last pending token from `from` on downwards. */
    method BackScan(from: int, tokens: array<Token>) returns (i: int)
      requires toknext <= tokens.Length && -1 <= from < toknext
      requires forall j :: from < j < toknext ==> !Pending(tokens[j])
      ensures -1 <= i <= from && i == Innermost(tokens[..toknext])
    {
      i := from;
      while i >= 0 && !Pending(tokens[i])
        invariant -1 <= i <= from
        invariant forall j :: i < j < toknext ==> !Pending(tokens[j])
      {
        i := i - 1;
      }
      InnermostIsTheOnly(tokens[..toknext], i);
    }

    /** A closing bracket in the filling pass. */
    method CloseBracket(kind: Kind, tokens: array<Token>) returns (ok: bool)
      requires Valid(tokens)
      modifies this`toksuper, tokens
      ensures Valid(tokens)
      ensures var i := Innermost(old(tokens[..toknext]));
              && (ok <==> i != -1 && old(tokens[..toknext])[i].kind == kind)
              && View(tokens) == if ok then CloseAt(old(View(tokens)), i, pos + 1) else old(View(tokens))
    {
      var i := BackScan(toknext - 1, tokens);
      if i == -1 || tokens[i].kind != kind {
        return false;
      }
      ghost var was := tokens[..toknext];
      assert LastPending(was, i);
      tokens[i] := tokens[i].(end := pos + 1);
      assert tokens[..toknext] == Closed(was, i, pos + 1);
      forall j | i < j < toknext
        ensures !Pending(tokens[j])
      {
        assert tokens[j] == was[j];
      }
      toksuper := BackScan(i, tokens);
      return true;
    }

    /** A comma in the filling pass. */
    method NextValue(tokens: array<Token>)
      requires Valid(tokens)
      modifies this`toksuper
      ensures Valid(tokens)
      ensures View(tokens) == old(View(tokens)).(super := AfterComma(old(View(tokens))))
    {
      if toksuper != -1 && tokens[toksuper].kind != Array && tokens[toksuper].kind != Object {
        var i := toknext - 1;
        while i >= 0 && !((tokens[i].kind == Array || tokens[i].kind == Object) && Pending(tokens[i]))
          invariant -1 <= i < toknext
          invariant forall j :: i < j < toknext ==> !Pending(tokens[j])
        {
          i := i - 1;
        }
        InnermostIsTheOnly(tokens[..toknext], i);
        if i >= 0 {
          toksuper := i;
        }
      }
    }

    /** A string or a primitive, and the count of its superior. */
    method ParseLeaf(js: string, tokens: array?<Token>) returns (r: int)
      requires Valid(tokens) && (Lex(js, pos).Leaf? || Lex(js, pos).Fault?)
      modifies this`pos, this`toknext, this`sups, tokens
      ensures Valid(tokens)
      ensures Lex(js, old(pos)).Fault? ==> r == Code(Err(Lex(js, old(pos)).error)) && Kept(tokens)
      ensures Lex(js, old(pos)).Leaf? ==>
                if tokens != null && old(toknext) >= tokens.Length then r == Code(Err(NoMemory)) && Kept(tokens)
                else && r == 0 && pos + 1 == Lex(js, old(pos)).next
                     && (if tokens == null then toknext == old(toknext)
                         else View(tokens) == Push(old(View(tokens)), Lex(js, old(pos)).token))
    {
      ghost var x := Lex(js, pos);
      if js[pos] == '\"' {
        r := ParseString(js, tokens);
      } else {
        r := ParsePrimitive(js, tokens);
      }
      if r < 0 {
        assert tokens != null ==> tokens[..toknext] == old(tokens[..toknext]);
        return;
      }
      assert x.Leaf? && Added(x.token, x.next, tokens);
      if tokens != null {
        CountBelow(tokens);
        sups := sups + [toksuper];
      }
    }

    /** Neither the position nor the tokens in use changed. */
    twostate predicate Kept(tokens: array?<Token>)
      requires old(Valid(tokens))
      requires Valid(tokens)
      reads this, tokens
    {
      && pos == old(pos) && toknext == old(toknext)
      && (tokens != null ==> View(tokens) == old(View(tokens)))
    }

    /** One character of the counting pass; the position is left on the last character it consumed. */
    method CountOne(js: string) returns (r: int, counted: bool)
      requires !AtEnd(js, pos)
      modifies this`pos, this`toknext, this`toksuper, this`sups
      ensures toknext == old(toknext)
      ensures var x := Lex(js, old(pos));
              if x.Fault? then r == Code(Err(x.error))
              else r == 0 && pos + 1 == x.next && (counted <==> x.Open? || x.Leaf?)
    {
      r, counted := 0, false;
      match js[pos] {
        case '{' => counted := true;
        case '[' => counted := true;
        case '}' =>
        case ']' =>
        case '\t' => case '\r' => case '\n' => case ' ' =>
        case ':' => toksuper := toknext - 1;
        case ',' =>
        case _ =>
          r := ParseLeaf(js, null);
          counted := r == 0;
      }
    }

    /** One character of the filling pass; the position is left on the last character it consumed. */
    method FillOne(js: string, tokens: array<Token>) returns (r: int, counted: bool)
      requires Valid(tokens) && !AtEnd(js, pos)
      modifies this, tokens
      ensures Valid(tokens)
      ensures match Step(js, old(pos), old(View(tokens)), tokens.Length)
              case Halt(o) => r == Code(o) < 0 && pos == old(pos) && View(tokens) == old(View(tokens))
              case More(q, st) =>
                && r == 0 && pos + 1 == q && View(tokens) == st
                && |st.toks| == old(toknext) + if counted then 1 else 0
    {
      r, counted := 0, false;
      var c := js[pos];
      if c == '{' || c == '[' {
        var ok := OpenBracket(if c == '{' then Object else Array, tokens);
        r, counted := if ok then 0 else -1, true;
      } else if c == '}' || c == ']' {
        var ok := CloseBracket(if c == '}' then Object else Array, tokens);
        r := if ok then 0 else -2;
      } else if Blank(c) {
      } else if c == ':' {
        toksuper := toknext - 1;
      } else if c == ',' {
        NextValue(tokens);
      } else {
        r := ParseLeaf(js, tokens);
        counted := true;
      }
    }

    /** What remains of either pass at this point: the state and the code it will end with. */
    ghost function Rest(js: string, tokens: array<Token>): Final
      requires Valid(tokens)
      reads this, tokens
    {
      Run(js, pos, View(tokens), tokens.Length)
    }

    /** One turn of the main loop. */
    method Turn(js: string, count: nat, tokens: array?<Token>) returns (r: int, count': nat)
      requires Valid(tokens) && !AtEnd(js, pos)
      requires tokens != null ==> count == toknext
      modifies this, tokens
      ensures Valid(tokens)
      ensures r >= 0 ==> pos > old(pos)
      ensures tokens == null ==>
                && toknext == old(toknext)
                && if r < 0 then r == Code(Counting(js, old(pos), count))
                   else Counting(js, pos, count') == Counting(js, old(pos), count)
      ensures tokens != null ==>
                if r < 0 then old(Rest(js, tokens)) == Final(View(tokens), pos, old(Rest(js, tokens)).outcome)
                              && r == Code(old(Rest(js, tokens)).outcome)
                else Rest(js, tokens) == old(Rest(js, tokens)) && count' == toknext
    {
      var counted;
      if tokens == null {
        r, counted := CountOne(js);
      } else {
        r, counted := FillOne(js, tokens);
      }
      count' := count;
      if r >= 0 {
        count' := if counted then count + 1 else count;
        pos := pos + 1;
      }
    }

    /** jsmn_parse */
    method Parse(js: string, tokens: array?<Token>) returns (r: int)
      requires Valid(tokens)
      modifies this, tokens
      ensures Valid(tokens)
      ensures tokens == null ==> toknext == old(toknext) && r == Code(Counting(js, old(pos), old(toknext)))
      ensures tokens != null ==>
                var f := Run(js, old(pos), old(View(tokens)), tokens.Length);
                r == Code(f.outcome) && pos == f.pos && View(tokens) == f.state
    {
      var count := toknext;
      while pos < |js| && js[pos] != '\0'
        invariant Valid(tokens)
        invariant tokens == null ==> && toknext == old(toknext)
                                     && Counting(js, pos, count) == Counting(js, old(pos), old(toknext))
        invariant tokens != null ==> count == toknext && Rest(js, tokens) == old(Rest(js, tokens))
        decreases |js| - pos
      {
        r, count := Turn(js, count, tokens);
        if r < 0 {
          return r;
        }
      }
      if tokens != null {
        var i := BackScan(toknext - 1, tokens);
        if i >= 0 {
          return -3;
        }
      }
      return count;
    }
  }

  /** What a call of the filling pass that began with a fresh parser has left, whatever it returns. */
  ghost predicate Left(js: string, toks: seq<Token>, pos: nat, r: int) {
    && Reading(js, toks, pos)
    && (r == -2 <==> InvalidAt(js, pos) || UnmatchedAt(js, pos, toks))
    && (r == -3 <==> UnfinishedAt(js, pos) || (TextEnds(js, pos) && Innermost(toks) != -1))
  }

  /** What a successful one has left. */
  ghost predicate Parsed(js: string, toks: seq<Token>, sups: seq<int>, pos: nat) {
    && TextEnds(js, pos) && WellNested(js, toks)
    && Sized(toks, sups) && SitesTold(js, toks, sups) && TotalSize(toks) == WithSuperior(sups)
    && (forall k :: 0 <= k < |toks| ==> SuperiorOf(toks, sups[k], k))
  }

  lemma RunLeft(js: string, capacity: nat)
    ensures var f := Run(js, 0, Fresh, capacity); Left(js, f.state.toks, f.pos, Code(f.outcome))
  {
    ParsedTokensCoverTheText(js, capacity);
    StopsExactlyWhere(js, capacity);
  }

  lemma RunParsed(js: string, capacity: nat)
    requires Run(js, 0, Fresh, capacity).outcome.Ok?
    ensures var f := Run(js, 0, Fresh, capacity);
            |f.state.toks| == f.outcome.count <= capacity && Parsed(js, f.state.toks, f.state.sups, f.pos)
  {
    ParsedTokensCoverTheText(js, capacity);
    ParsedTokensAreNested(js, capacity);
    SizesCountTheValues(js, capacity);
  }

  /**
    The two passes of load_locality_info over one text: `counted` and `filled` are
    what they return.  The second never lacks tokens, and it succeeds exactly when
    the brackets match; the tokens are then all in use, properly nested and sized,
    and account for the whole text.
   */
  method CountThenFill(js: string) returns (counted: int, filled: int, tokens: array?<Token>, parser: Parser)
    ensures counted == Code(Counting(js, 0, 0))
    ensures counted >= 0 ==>
              && tokens != null && tokens.Length == counted
              && filled != Code(Err(NoMemory))
              && (filled >= 0 <==> Matched(js, 0, []))
              && parser.toknext <= counted
              && Left(js, tokens[..parser.toknext], parser.pos, filled)
    ensures counted >= 0 && filled >= 0 ==>
              && filled == counted == parser.toknext
              && Parsed(js, tokens[..], parser.sups, parser.pos)
  {
    parser := new Parser();
    filled, tokens := -1, null;
    counted := parser.Parse(js, null);
    if counted >= 0 {
      tokens := new Token[counted](_ => Token(Undefined, 0, 0, 0));
      parser := new Parser();
      assert parser.View(tokens) == Fresh;
      filled := parser.Parse(js, tokens);
      TwoPassesAgree(js);
      RunLeft(js, counted);
      if filled >= 0 {
        RunParsed(js, counted);
      }
      assert filled >= 0 ==> tokens[..] == tokens[..parser.toknext];
    }
  }
}
