/**
  The JSON tokenizer of src/jsmn/jsmn.c, in its non-strict form and without parent
  links.  This module says what the tokenizer computes; JsmnParser has the parser
  itself.  A text is a sequence of characters; those from 127 on are the bytes that
  a primitive may not hold.
 */
module Jsmn {
  datatype Kind = Undefined | Object | Array | String | Primitive

  datatype Token = Token(kind: Kind, start: int, end: int, size: int)

  datatype Error = NoMemory | Invalid | Partial

  datatype Outcome = Ok(count: nat) | Err(error: Error)

  // ---------------------------------------------------------------------
  // Lexemes
  // ---------------------------------------------------------------------

  datatype Scan = Found(end: nat) | Failed(error: Error)

  predicate AtEnd(js: string, p: nat) {
    p >= |js| || js[p] == '\0'
  }

  predicate Blank(c: char) {
    c == '\t' || c == '\r' || c == '\n' || c == ' '
  }

  predicate EndsPrimitive(c: char) {
    Blank(c) || c == ':' || c == ',' || c == ']' || c == '}'
  }

  predicate Unprintable(c: char) {
    c < 32 as char || c >= 127 as char
  }

  /** Where the primitive that goes on at `p` ends. */
  function ScanPrimitive(js: string, p: nat): (r: Scan)
    ensures r.Found? ==> r.end >= p && (p <= |js| ==> r.end <= |js|)
    decreases |js| - p
  {
    if AtEnd(js, p) || EndsPrimitive(js[p]) then Found(p)
    else if Unprintable(js[p]) then Failed(Invalid)
    else ScanPrimitive(js, p + 1)
  }

  predicate Escapable(c: char) {
    c == '\"' || c == '/' || c == '\\' || c == 'b' || c == 'f' || c == 'r' || c == 'n' || c == 't'
  }

  predicate HexDigit(c: char) {
    '0' <= c <= '9' || 'A' <= c <= 'F' || 'a' <= c <= 'f'
  }

  /** Up to `n` hexadecimal digits; fewer only at the end of the text. */
  function ScanHex(js: string, p: nat, n: nat): (r: Scan)
    ensures r.Found? ==> r.end >= p && (p <= |js| ==> r.end <= |js|)
    decreases n
  {
    if n == 0 || AtEnd(js, p) then Found(p)
    else if HexDigit(js[p]) then ScanHex(js, p + 1, n - 1)
    else Failed(Invalid)
  }

  /** The rest of an escape sequence from the character after the backslash on. */
  function ScanEscape(js: string, p: nat): (r: Scan)
    requires p < |js|
    ensures r.Found? ==> p < r.end <= |js|
  {
    if Escapable(js[p]) then Found(p + 1)
    else if js[p] == 'u' then ScanHex(js, p + 1, 4)
    else Failed(Invalid)
  }

  /** Where the closing quote of the string that goes on at `p` is. */
  function ScanString(js: string, p: nat): (r: Scan)
    ensures r.Found? ==> p <= r.end < |js| && js[r.end] == '\"'
    decreases |js| - p
  {
    if AtEnd(js, p) then Failed(Partial)
    else if js[p] == '\"' then Found(p)
    else if js[p] == '\\' && p + 1 < |js| then
      match ScanEscape(js, p + 1)
      case Failed(e) => Failed(e)
      case Found(q) => ScanString(js, q)
    else ScanString(js, p + 1)
  }

  /** What the main loop meets at a position, and where it goes on. */
  datatype Lexeme =
    | Done
    | Fault(error: Error)
    | Space(next: nat)
    | Colon(next: nat)
    | Comma(next: nat)
    | Open(kind: Kind, next: nat)
    | Close(kind: Kind, next: nat)
    | Leaf(token: Token, next: nat)

  function Lex(js: string, p: nat): (x: Lexeme)
    ensures !x.Done? && !x.Fault? ==> p < x.next <= |js|
    ensures x.Open? || x.Close? ==> x.kind == Object || x.kind == Array
  {
    if AtEnd(js, p) then Done
    else
      match js[p]
      case '{' => Open(Object, p + 1)
      case '[' => Open(Array, p + 1)
      case '}' => Close(Object, p + 1)
      case ']' => Close(Array, p + 1)
      case '\"' =>
        (match ScanString(js, p + 1)
         case Failed(e) => Fault(e)
         case Found(q) => Leaf(Token(String, p + 1, q, 0), q + 1))
      case ':' => Colon(p + 1)
      case ',' => Comma(p + 1)
      case c =>
        if Blank(c) then Space(p + 1)
        else if Unprintable(c) then Fault(Invalid)
        else
          match ScanPrimitive(js, p + 1)
          case Failed(e) => Fault(e)
          case Found(q) => Leaf(Token(Primitive, p, q, 0), q)
  }

  // ---------------------------------------------------------------------
  // The two passes
  // ---------------------------------------------------------------------

  /** The counting pass from `p` on, with `n` tokens counted: brackets are not matched. */
  function Counting(js: string, p: nat, n: nat): Outcome
    decreases |js| - p
  {
    match Lex(js, p)
    case Done => Ok(n)
    case Fault(e) => Err(e)
    case Open(_, q) => Counting(js, q, n + 1)
    case Leaf(_, q) => Counting(js, q, n + 1)
    case Space(q) => Counting(js, q, n)
    case Colon(q) => Counting(js, q, n)
    case Comma(q) => Counting(js, q, n)
    case Close(_, q) => Counting(js, q, n)
  }

  datatype Progress = Onward(next: nat, count: nat, stack: seq<Kind>) | Stop(outcome: Outcome)

  /** One lexeme of the filling pass, with a stack of the open brackets in place of the tokens. */
  function Take(x: Lexeme, n: nat, stack: seq<Kind>, capacity: nat): (r: Progress)
    ensures r.Onward? ==> !x.Done? && !x.Fault? && r.next == x.next
  {
    match x
    case Done => Stop(if stack == [] then Ok(n) else Err(Partial))
    case Fault(e) => Stop(Err(e))
    case Open(k, q) =>
      if n >= capacity then Stop(Err(NoMemory)) else Onward(q, n + 1, stack + [k])
    case Leaf(_, q) =>
      if n >= capacity then Stop(Err(NoMemory)) else Onward(q, n + 1, stack)
    case Close(k, q) =>
      if stack == [] || stack[|stack| - 1] != k then Stop(Err(Invalid))
      else Onward(q, n, stack[..|stack| - 1])
    case Space(q) => Onward(q, n, stack)
    case Colon(q) => Onward(q, n, stack)
    case Comma(q) => Onward(q, n, stack)
  }

  /** The filling pass from `p` on, with `n` tokens made and the brackets on `stack` open. */
  function Filling(js: string, p: nat, n: nat, stack: seq<Kind>, capacity: nat): Outcome
    decreases |js| - p
  {
    match Take(Lex(js, p), n, stack, capacity)
    case Stop(o) => o
    case Onward(q, m, s) => Filling(js, q, m, s, capacity)
  }

  /** From `p` on every bracket closes the innermost open one of its own kind, and none stays open. */
  predicate Matched(js: string, p: nat, stack: seq<Kind>)
    decreases |js| - p
  {
    match Lex(js, p)
    case Done => stack == []
    case Fault(_) => false
    case Open(k, q) => Matched(js, q, stack + [k])
    case Close(k, q) => stack != [] && stack[|stack| - 1] == k && Matched(js, q, stack[..|stack| - 1])
    case Leaf(_, q) => Matched(js, q, stack)
    case Space(q) => Matched(js, q, stack)
    case Colon(q) => Matched(js, q, stack)
    case Comma(q) => Matched(js, q, stack)
  }

  lemma {:induction false} CountingGrows(js: string, p: nat, n: nat)
    ensures Counting(js, p, n).Ok? ==> Counting(js, p, n).count >= n
    decreases |js| - p
  {
    match Lex(js, p)
    case Done =>
    case Fault(_) =>
    case Open(_, q) => CountingGrows(js, q, n + 1);
    case Leaf(_, q) => CountingGrows(js, q, n + 1);
    case Space(q) => CountingGrows(js, q, n);
    case Colon(q) => CountingGrows(js, q, n);
    case Comma(q) => CountingGrows(js, q, n);
    case Close(_, q) => CountingGrows(js, q, n);
  }

  /**
    The filling pass succeeds exactly when the counting pass does, the tokens
    suffice and the brackets match; it then returns the same number.
   */
  lemma {:induction false} FillingSucceedsIff(js: string, p: nat, n: nat, stack: seq<Kind>, capacity: nat)
    ensures forall m: nat :: Filling(js, p, n, stack, capacity) == Ok(m) <==>
                        Counting(js, p, n) == Ok(m) && (m <= capacity || m == n) && Matched(js, p, stack)
    decreases |js| - p
  {
    CountingGrows(js, p, n);
    match Lex(js, p)
    case Done =>
    case Fault(_) =>
    case Open(k, q) =>
      CountingGrows(js, q, n + 1);
      FillingSucceedsIff(js, q, n + 1, stack + [k], capacity);
    case Leaf(_, q) =>
      CountingGrows(js, q, n + 1);
      FillingSucceedsIff(js, q, n + 1, stack, capacity);
    case Close(k, q) =>
      if stack != [] && stack[|stack| - 1] == k {
        FillingSucceedsIff(js, q, n, stack[..|stack| - 1], capacity);
      }
    case Space(q) => FillingSucceedsIff(js, q, n, stack, capacity);
    case Colon(q) => FillingSucceedsIff(js, q, n, stack, capacity);
    case Comma(q) => FillingSucceedsIff(js, q, n, stack, capacity);
  }

  /** With as many tokens as the counting pass found, the filling pass does not run out of them. */
  lemma {:induction false} CountedIsEnough(js: string, p: nat, n: nat, stack: seq<Kind>, capacity: nat)
    requires Counting(js, p, n).Ok? && Counting(js, p, n).count <= capacity
    ensures Filling(js, p, n, stack, capacity) != Err(NoMemory)
    decreases |js| - p
  {
    match Lex(js, p)
    case Done =>
    case Open(k, q) =>
      CountingGrows(js, q, n + 1);
      CountedIsEnough(js, q, n + 1, stack + [k], capacity);
    case Leaf(_, q) =>
      CountingGrows(js, q, n + 1);
      CountedIsEnough(js, q, n + 1, stack, capacity);
    case Close(k, q) =>
      if stack != [] && stack[|stack| - 1] == k {
        CountedIsEnough(js, q, n, stack[..|stack| - 1], capacity);
      }
    case Space(q) => CountedIsEnough(js, q, n, stack, capacity);
    case Colon(q) => CountedIsEnough(js, q, n, stack, capacity);
    case Comma(q) => CountedIsEnough(js, q, n, stack, capacity);
  }
}
