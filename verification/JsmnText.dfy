/**
  What the tokens mean in the text, character by character: where primitives and
  strings begin and end, that nothing is passed over, and which character makes the
  tokenizer stop.  The conditions here are written out and use none of the functions
  that the tokenizer is made of.
 */
module JsmnText {
  import opened Jsmn
  import opened JsmnTokens

  // ---------------------------------------------------------------------
  // Primitives
  // ---------------------------------------------------------------------

  /** The eight characters that end a primitive. */
  predicate Delimits(c: char) {
    c == '\t' || c == '\r' || c == '\n' || c == ' ' || c == ':' || c == ',' || c == ']' || c == '}'
  }

  /** A printable ASCII character other than those. */
  predicate Printable(c: char) {
    32 as char <= c < 127 as char && !Delimits(c)
  }

  predicate AllPrintable(js: string, p: nat, q: nat) {
    q <= |js| && forall k :: p <= k < q ==> Printable(js[k])
  }

  /** The end of the text: its last character has been read, or a NUL is met. */
  predicate TextEnds(js: string, p: nat) {
    p >= |js| || js[p] == 0 as char
  }

  /** A character that neither belongs into a primitive nor ends one. */
  predicate Stray(js: string, p: nat) {
    p < |js| && js[p] != 0 as char && !Delimits(js[p]) && !Printable(js[p])
  }

  lemma {:induction false} ScanPrimitiveMeans(js: string, p: nat, q: nat)
    requires p <= |js| && p <= q
    ensures ScanPrimitive(js, p) == Found(q) <==>
              AllPrintable(js, p, q) && (TextEnds(js, q) || Delimits(js[q]))
    ensures AllPrintable(js, p, q) && Stray(js, q) ==> ScanPrimitive(js, p) == Failed(Invalid)
    decreases q - p
  {
    if p < q && !(AtEnd(js, p) || EndsPrimitive(js[p]) || Unprintable(js[p])) {
      ScanPrimitiveMeans(js, p + 1, q);
    }
  }

  lemma {:induction false} ScanPrimitiveFails(js: string, p: nat) returns (q: nat)
    requires p <= |js| && ScanPrimitive(js, p).Failed?
    ensures p <= q && AllPrintable(js, p, q) && Stray(js, q) && ScanPrimitive(js, p) == Failed(Invalid)
    decreases |js| - p
  {
    if Unprintable(js[p]) {
      q := p;
    } else {
      q := ScanPrimitiveFails(js, p + 1);
    }
  }

  // ---------------------------------------------------------------------
  // Strings
  // ---------------------------------------------------------------------

  predicate Hexadecimal(c: char) {
    ('0' <= c && c <= '9') || ('A' <= c && c <= 'F') || ('a' <= c && c <= 'f')
  }

  /** The eight letters that may follow a backslash by themselves. */
  predicate Escaped(c: char) {
    c == '\"' || c == '/' || c == '\\' || c == 'b' || c == 'f' || c == 'r' || c == 'n' || c == 't'
  }

  /** `n` hexadecimal digits from `p` on. */
  predicate Digits(js: string, p: nat, n: nat) {
    p + n <= |js| && forall k :: p <= k < p + n ==> Hexadecimal(js[k])
  }

  /** A character that stands for itself. */
  predicate Plain(js: string, p: nat) {
    p < |js| && js[p] != 0 as char && js[p] != '\"' && js[p] != '\\'
  }

  predicate Escape(js: string, p: nat) {
    p + 1 < |js| && js[p] == '\\' && Escaped(js[p + 1])
  }

  predicate Unicode(js: string, p: nat) {
    p + 1 < |js| && js[p] == '\\' && js[p + 1] == 'u' && Digits(js, p + 2, 4)
  }

  /** From `p` to `q` there are whole characters and escape sequences, and no quote but inside these. */
  predicate StringBody(js: string, p: nat, q: nat)
    decreases q - p
  {
    || p == q
    || (p < q && Plain(js, p) && StringBody(js, p + 1, q))
    || (p + 2 <= q && Escape(js, p) && StringBody(js, p + 2, q))
    || (p + 6 <= q && Unicode(js, p) && StringBody(js, p + 6, q))
  }

  /** After a backslash and a u at `p`, the digit numbered `n` is the first that is none, and the text goes on. */
  predicate WrongDigit(js: string, p: nat, n: nat) {
    n < 4 && Digits(js, p + 2, n) && !TextEnds(js, p + 2 + n) && !Hexadecimal(js[p + 2 + n])
  }

  /** There the text ends after `n` digits. */
  predicate MissingDigit(js: string, p: nat, n: nat) {
    n < 4 && Digits(js, p + 2, n) && TextEnds(js, p + 2 + n)
  }

  /** A backslash followed by something that it cannot escape. */
  predicate BadEscape(js: string, p: nat) {
    && p + 1 < |js| && js[p] == '\\' && !Escaped(js[p + 1])
    && (js[p + 1] == 'u' ==> exists n: nat :: n < 4 && WrongDigit(js, p, n))
  }

  /** The text ends in the middle of a string. */
  predicate BreaksOff(js: string, p: nat) {
    || TextEnds(js, p)
    || (p + 1 == |js| && js[p] == '\\')
    || (p + 1 < |js| && js[p] == '\\' && js[p + 1] == 'u' && exists n: nat :: n < 4 && MissingDigit(js, p, n))
  }

  /** Among up to `n` digits from `p` on the one numbered `m` is the first that is none. */
  predicate StopsAtDigit(js: string, p: nat, n: nat, m: nat) {
    m < n && Digits(js, p, m) && !TextEnds(js, p + m) && !Hexadecimal(js[p + m])
  }

  lemma {:induction false} ScanHexMeans(js: string, p: nat, n: nat)
    requires p <= |js|
    ensures match ScanHex(js, p, n)
            case Found(q) => p <= q <= p + n && Digits(js, p, q - p) && (q == p + n || TextEnds(js, q))
            case Failed(e) => e == Invalid && exists m: nat :: m < n && StopsAtDigit(js, p, n, m)
    decreases n
  {
    if n > 0 && !AtEnd(js, p) {
      if HexDigit(js[p]) {
        ScanHexMeans(js, p + 1, n - 1);
        match ScanHex(js, p + 1, n - 1)
        case Found(q) =>
        case Failed(_) =>
          var m: nat :| m < n - 1 && StopsAtDigit(js, p + 1, n - 1, m);
          assert p + (m + 1) == p + 1 + m;
          assert StopsAtDigit(js, p, n, m + 1);
      } else {
        assert StopsAtDigit(js, p, n, 0);
      }
    }
  }

  /** How the string that goes on at `p` ends: at a quote, at a bad escape, or not at all. */
  lemma {:induction false} ScanStringEnds(js: string, p: nat) returns (q: nat)
    requires p <= |js|
    ensures p <= q && StringBody(js, p, q)
    ensures match ScanString(js, p)
            case Found(end) => q == end && q < |js| && js[q] == '\"'
            case Failed(Invalid) => BadEscape(js, q)
            case Failed(Partial) => BreaksOff(js, q)
            case Failed(_) => false
    decreases |js| - p
  {
    q := p;
    if !AtEnd(js, p) && js[p] != '\"' {
      if js[p] == '\\' && p + 1 < |js| {
        if Escapable(js[p + 1]) {
          q := ScanStringEnds(js, p + 2);
        } else if js[p + 1] == 'u' {
          ScanHexMeans(js, p + 2, 4);
          match ScanHex(js, p + 2, 4)
          case Failed(_) =>
            var n: nat :| n < 4 && StopsAtDigit(js, p + 2, 4, n);
            assert WrongDigit(js, p, n);
          case Found(r) =>
            if r == p + 6 {
              q := ScanStringEnds(js, r);
            } else {
              assert MissingDigit(js, p, r - (p + 2));
              assert ScanString(js, r) == Failed(Partial);
            }
        }
      } else if js[p] != '\\' {
        q := ScanStringEnds(js, p + 1);
      } else {
        assert p + 1 == |js| && ScanString(js, p + 1) == Failed(Partial);
      }
    }
  }

  /** A position where a string must end: a quote, a bad escape or the end of the text. */
  predicate StringStops(js: string, q: nat) {
    (q < |js| && js[q] == '\"') || BadEscape(js, q) || BreaksOff(js, q)
  }

  lemma NoStopAtUnicode(js: string, q: nat)
    requires Unicode(js, q)
    ensures !BadEscape(js, q) && !BreaksOff(js, q)
  {
    forall n: nat | n < 4
      ensures !WrongDigit(js, q, n) && !MissingDigit(js, q, n)
    {
      assert Hexadecimal(js[q + 2 + n]);
    }
  }

  lemma StopsAreNoItems(js: string, q: nat)
    requires StringStops(js, q)
    ensures !Plain(js, q) && !Escape(js, q) && !Unicode(js, q)
  {
    if (q < |js| && js[q] == '\\') && Unicode(js, q) {
      NoStopAtUnicode(js, q);
    }
  }

  /** A string has one end: the reading in whole characters and escapes is unique. */
  lemma {:induction false} StringEndIsUnique(js: string, p: nat, q: nat, r: nat)
    requires p <= q && p <= r && StringBody(js, p, q) && StringBody(js, p, r)
    requires StringStops(js, q) && StringStops(js, r)
    ensures q == r
    decreases q - p
  {
    if p == q {
      StopsAreNoItems(js, q);
    } else if p == r {
      StopsAreNoItems(js, r);
    } else {
      if Plain(js, p) {
        StringEndIsUnique(js, p + 1, q, r);
      } else if Escape(js, p) {
        StringEndIsUnique(js, p + 2, q, r);
      } else {
        StringEndIsUnique(js, p + 6, q, r);
      }
    }
  }

  /** A string token ends at the first quote that no escape sequence covers, and at no other. */
  lemma ScanStringMeans(js: string, p: nat, q: nat)
    requires p <= |js| && p <= q
    ensures ScanString(js, p) == Found(q) <==> q < |js| && js[q] == '\"' && StringBody(js, p, q)
    ensures StringBody(js, p, q) && BadEscape(js, q) ==> ScanString(js, p) == Failed(Invalid)
    ensures StringBody(js, p, q) && BreaksOff(js, q) ==> ScanString(js, p) == Failed(Partial)
  {
    var r := ScanStringEnds(js, p);
    if StringBody(js, p, q) && StringStops(js, q) {
      StringEndIsUnique(js, p, q, r);
      StopsExclude(js, q);
    }
  }

  lemma DigitsExclude(js: string, q: nat, m: nat, n: nat)
    ensures !(WrongDigit(js, q, m) && MissingDigit(js, q, n))
  {
    if n < 4 && m < n && Digits(js, q + 2, n) {
      assert Hexadecimal(js[q + 2 + m]);
    }
    if m < 4 && n < m && Digits(js, q + 2, m) {
      assert Hexadecimal(js[q + 2 + n]);
    }
  }

  lemma StopsExclude(js: string, q: nat)
    ensures !(q < |js| && js[q] == '\"' && (BadEscape(js, q) || BreaksOff(js, q)))
    ensures !(BadEscape(js, q) && BreaksOff(js, q))
  {
    forall m: nat, n: nat | m < 4 && n < 4
      ensures !(WrongDigit(js, q, m) && MissingDigit(js, q, n))
    {
      DigitsExclude(js, q, m, n);
    }
  }
}
