/** What the string operations mean, stated on the text alone. */
module TextMeaning {
  import opened Prelude
  import opened Text

  ghost predicate AllSpace(s: string) {
    forall i :: 0 <= i < |s| ==> IsWhitespace(s[i])
  }

  /** No white space at either end. */
  ghost predicate Trimmed(s: string) {
    s == "" || (!IsWhitespace(s[0]) && !IsWhitespace(s[|s| - 1]))
  }

  lemma {:induction false} TrimStartOf(left: string, rest: string)
    requires AllSpace(left) && (rest == "" || !IsWhitespace(rest[0]))
    ensures TrimStart(left + rest) == rest
  {
    if left == "" {
      assert left + rest == rest;
    } else {
      assert (left + rest)[1..] == left[1..] + rest;
      TrimStartOf(left[1..], rest);
    }
  }

  lemma {:induction false} TrimEndOf(rest: string, right: string)
    requires AllSpace(right) && (rest == "" || !IsWhitespace(rest[|rest| - 1]))
    ensures TrimEnd(rest + right) == rest
    decreases |right|
  {
    if right == "" {
      assert rest + right == rest;
    } else {
      var s := rest + right;
      assert s[..|s| - 1] == rest + right[..|right| - 1];
      TrimEndOf(rest, right[..|right| - 1]);
    }
  }

  /** Padding is what trimming removes. */
  lemma TrimOf(left: string, s: string, right: string)
    requires AllSpace(left) && Trimmed(s) && AllSpace(right)
    ensures Trim(left + s + right) == s
  {
    if s == "" {
      assert left + s + right == (left + right) + "";
      TrimStartOf(left + right, "");
    } else {
      assert left + s + right == left + (s + right);
      TrimStartOf(left, s + right);
      TrimEndOf(s, right);
    }
  }

  lemma {:induction false} TrimStartSplits(s: string) returns (left: string)
    ensures s == left + TrimStart(s) && AllSpace(left)
    ensures TrimStart(s) == "" || !IsWhitespace(TrimStart(s)[0])
  {
    left := "";
    if s != "" && IsWhitespace(s[0]) {
      left := TrimStartSplits(s[1..]);
      left := [s[0]] + left;
    }
  }

  lemma {:induction false} TrimEndSplits(s: string) returns (right: string)
    ensures s == TrimEnd(s) + right && AllSpace(right)
    ensures TrimEnd(s) == "" || !IsWhitespace(TrimEnd(s)[|TrimEnd(s)| - 1])
  {
    right := "";
    if s != "" && IsWhitespace(s[|s| - 1]) {
      right := TrimEndSplits(s[..|s| - 1]);
      right := right + [s[|s| - 1]];
    }
  }

  /** Every text is its trimmed form between white space. */
  lemma TrimSplits(s: string) returns (left: string, right: string)
    ensures s == left + Trim(s) + right && AllSpace(left) && AllSpace(right) && Trimmed(Trim(s))
  {
    left := TrimStartSplits(s);
    right := TrimEndSplits(TrimStart(s));
    if Trim(s) != "" {
      assert Trim(s)[0] == TrimStart(s)[0];
    }
  }

  /** Splitting undoes joining, for pieces that do not contain the separator. */
  lemma {:induction false} SplitOfJoin(pieces: seq<string>, c: char)
    requires pieces != [] && forall i :: 0 <= i < |pieces| ==> c !in pieces[i]
    ensures SplitOn(Join(pieces, [c]), c) == pieces
  {
    if |pieces| == 1 {
      SplitOnePiece(pieces[0], c);
    } else {
      SplitOfJoin(pieces[1..], c);
      SplitFirst(pieces[0], Join(pieces[1..], [c]), c);
      assert pieces == [pieces[0]] + pieces[1..];
    }
  }

  lemma {:induction false} SplitFirst(piece: string, rest: string, c: char)
    requires c !in piece
    ensures SplitOn(piece + [c] + rest, c) == [piece] + SplitOn(rest, c)
  {
    var s := piece + [c] + rest;
    if piece == "" {
      assert s[1..] == rest;
    } else {
      assert s[0] == piece[0] && piece[0] in piece;
      assert s[1..] == piece[1..] + [c] + rest;
      SplitFirst(piece[1..], rest, c);
      assert piece == [piece[0]] + piece[1..];
    }
  }

  /** And joining undoes splitting. */
  lemma {:induction false} JoinOfSplit(s: string, c: char)
    ensures Join(SplitOn(s, c), [c]) == s
    ensures forall i :: 0 <= i < |SplitOn(s, c)| ==> c !in SplitOn(s, c)[i]
  {
    if s != "" {
      JoinOfSplit(s[1..], c);
      var rest := SplitOn(s[1..], c);
      assert s == [s[0]] + s[1..];
      if s[0] == c {
        assert ([""] + rest)[1..] == rest;
      } else {
        var parts := [[s[0]] + rest[0]] + rest[1..];
        assert parts[1..] == rest[1..];
      }
    }
  }

  lemma {:induction false} SplitOnceOf(a: string, b: string, c: char)
    requires c !in a
    ensures SplitOnce(a + [c] + b, c) == Some((a, b))
  {
    var s := a + [c] + b;
    if a == "" {
      assert s[1..] == b;
    } else {
      assert s[0] == a[0] && a[0] in a;
      assert s[1..] == a[1..] + [c] + b;
      SplitOnceOf(a[1..], b, c);
      assert a == [a[0]] + a[1..];
    }
  }

  // --- Numbers ---

  /** A decimal numeral with an optional sign, of a value that fits in 16 bits. */
  ghost predicate Decimal(text: string, n: nat) {
    exists digits ::
      && (text == digits || text == "+" + digits)
      && digits != "" && AllDigits(digits) && DigitsValue(digits) == n <= 65535
  }

  lemma DecimalParses(text: string, n: nat)
    ensures ParseU16(text) == Some(n) <==> Decimal(text, n)
  {
    if ParseU16(text) == Some(n) {
      var digits := if text[0] == '+' then text[1..] else text;
      assert text == digits || text == "+" + digits;
    }
    if Decimal(text, n) {
      var digits :|
        && (text == digits || text == "+" + digits)
        && digits != "" && AllDigits(digits) && DigitsValue(digits) == n <= 65535;
      if text == digits {
        assert text[0] in digits;
      } else {
        assert text[1..] == digits;
      }
    }
  }

  lemma DecimalChars(text: string, n: nat)
    requires Decimal(text, n)
    ensures Trimmed(text) && text != "" && '-' !in text
  {
    DecimalParses(text, n);
    ParsedChars(text);
    assert text[0] in text && text[|text| - 1] in text;
  }

  /** A numeral between white space. */
  ghost predicate Numeral(text: string, n: nat) {
    exists left, s, right :: text == left + s + right && AllSpace(left) && Decimal(s, n) && AllSpace(right)
  }

  lemma NumeralParses(text: string, n: nat)
    ensures ParseU16(Trim(text)) == Some(n) <==> Numeral(text, n)
  {
    DecimalParses(Trim(text), n);
    if ParseU16(Trim(text)) == Some(n) {
      var left, right := TrimSplits(text);
      assert text == left + Trim(text) + right && AllSpace(left) && Decimal(Trim(text), n) && AllSpace(right);
    }
    if Numeral(text, n) {
      var left, s, right :| text == left + s + right && AllSpace(left) && Decimal(s, n) && AllSpace(right);
      DecimalChars(s, n);
      TrimOf(left, s, right);
    }
  }
}
