/** The text forms inside a configuration: white-space separated words, `a->b` pairs, host names. */
module ConfigText {
  import opened Prelude
  import opened Text
  import opened TextMeaning

  // --- `split_whitespace` and `join(" ")` ---

  /** The first word starts at the front of `s`: everything up to the first white space. */
  function WordLength(s: string): (n: nat)
    ensures n <= |s|
    ensures forall i :: 0 <= i < n ==> !IsWhitespace(s[i])
    ensures n < |s| ==> IsWhitespace(s[n])
  {
    if s == "" || IsWhitespace(s[0]) then 0 else 1 + WordLength(s[1..])
  }

  /** Rust's `split_whitespace`. */
  function Words(s: string): (ws: seq<string>)
    decreases |s|
  {
    if s == "" then []
    else if IsWhitespace(s[0]) then Words(s[1..])
    else [s[..WordLength(s)]] + Words(s[WordLength(s)..])
  }

  ghost predicate IsWord(w: string) {
    w != "" && forall i :: 0 <= i < |w| ==> !IsWhitespace(w[i])
  }

  lemma {:induction false} WordsAreWords(s: string)
    ensures forall w :: w in Words(s) ==> IsWord(w)
    decreases |s|
  {
    if s != "" {
      if IsWhitespace(s[0]) {
        WordsAreWords(s[1..]);
      } else {
        WordsAreWords(s[WordLength(s)..]);
        assert IsWord(s[..WordLength(s)]);
      }
    }
  }

  lemma {:induction false} WordLengthOf(w: string, rest: string)
    requires forall i :: 0 <= i < |w| ==> !IsWhitespace(w[i])
    requires rest == "" || IsWhitespace(rest[0])
    ensures WordLength(w + rest) == |w|
  {
    if w == "" {
      assert w + rest == rest;
    } else {
      assert (w + rest)[1..] == w[1..] + rest;
      WordLengthOf(w[1..], rest);
    }
  }

  /** Joining words with single spaces and splitting again gives the words back. */
  lemma {:induction false} WordsOfJoined(ws: seq<string>)
    requires forall w :: w in ws ==> IsWord(w)
    ensures Words(Join(ws, " ")) == ws
  {
    if |ws| == 1 {
      assert ws[0] in ws && ws[0] + "" == ws[0];
      WordLengthOf(ws[0], "");
      assert ws[0][..|ws[0]|] == ws[0] && ws[0][|ws[0]|..] == "";
    } else if |ws| > 1 {
      assert ws[0] in ws;
      var rest := " " + Join(ws[1..], " ");
      var s := Join(ws, " ");
      assert s == ws[0] + rest;
      WordLengthOf(ws[0], rest);
      assert s[..|ws[0]|] == ws[0] && s[|ws[0]|..] == rest && rest[1..] == Join(ws[1..], " ");
      WordsOfJoined(ws[1..]);
    }
  }

  lemma {:induction false} LeadingSpace(space: string, rest: string)
    requires AllSpace(space)
    ensures Words(space + rest) == Words(rest)
  {
    if space == "" {
      assert space + rest == rest;
    } else {
      assert (space + rest)[1..] == space[1..] + rest;
      LeadingSpace(space[1..], rest);
    }
  }

  /** A word, any white space behind it, and the rest: however a text is spaced, its words are read in order. */
  lemma WordsRead(before: string, word: string, space: string, rest: string)
    requires AllSpace(before) && IsWord(word) && AllSpace(space) && (space != "" || rest == "")
    ensures Words(before + word + space + rest) == [word] + Words(rest)
  {
    var tail := space + rest;
    var s := word + tail;
    assert before + word + space + rest == before + s;
    LeadingSpace(before, s);
    WordLengthOf(word, tail);
    assert s[..|word|] == word && s[|word|..] == tail;
    LeadingSpace(space, rest);
  }

  /** So splitting and joining normalises once and for all. */
  lemma SpacingIdempotent(s: string)
    ensures Join(Words(Join(Words(s), " ")), " ") == Join(Words(s), " ")
  {
    WordsAreWords(s);
    WordsOfJoined(Words(s));
  }

  // --- `split("->")` ---

  function SplitArrow(s: string): (parts: seq<string>)
    ensures |parts| >= 1
    decreases |s|
  {
    if |s| < 2 then [s]
    else if s[0] == '-' && s[1] == '>' then [""] + SplitArrow(s[2..])
    else
      var rest := SplitArrow(s[1..]);
      [[s[0]] + rest[0]] + rest[1..]
  }

  lemma {:induction false} SplitNoArrow(s: string)
    requires '-' !in s
    ensures SplitArrow(s) == [s]
  {
    if |s| >= 2 {
      assert s == [s[0]] + s[1..];
      SplitNoArrow(s[1..]);
    }
  }

  lemma {:induction false} SplitOneArrow(a: string, b: string)
    requires '-' !in a && '-' !in b
    ensures SplitArrow(a + "->" + b) == [a, b]
  {
    var s := a + "->" + b;
    if a == "" {
      assert s[2..] == b;
      SplitNoArrow(b);
    } else {
      assert a == [a[0]] + a[1..];
      assert s[0] == a[0] && s[1..] == a[1..] + "->" + b;
      SplitOneArrow(a[1..], b);
    }
  }

  ghost predicate NoArrow(s: string) {
    forall i :: 0 <= i < |s| - 1 ==> !(s[i] == '-' && s[i + 1] == '>')
  }

  lemma {:induction false} ArrowlessIsWhole(s: string)
    requires NoArrow(s)
    ensures SplitArrow(s) == [s]
  {
    if |s| >= 2 {
      assert NoArrow(s[1..]);
      ArrowlessIsWhole(s[1..]);
      assert s == [s[0]] + s[1..];
    }
  }

  lemma {:induction false} SplitFirstArrow(a: string, b: string)
    requires NoArrow(a)
    ensures SplitArrow(a + "->" + b) == [a] + SplitArrow(b)
  {
    var s := a + "->" + b;
    if a == "" {
      assert s[2..] == b;
    } else {
      assert NoArrow(a[1..]);
      assert s[0] == a[0] && s[1..] == a[1..] + "->" + b;
      if s[0] == '-' { assert s[1] != '>'; }
      SplitFirstArrow(a[1..], b);
      assert a == [a[0]] + a[1..];
    }
  }

  /** Every text is its pieces with arrows between them. */
  lemma {:induction false} JoinArrows(s: string)
    ensures Join(SplitArrow(s), "->") == s
    decreases |s|
  {
    if |s| >= 2 {
      if s[0] == '-' && s[1] == '>' {
        JoinArrows(s[2..]);
        assert s == "->" + s[2..];
        assert ([""] + SplitArrow(s[2..]))[1..] == SplitArrow(s[2..]);
      } else {
        JoinArrows(s[1..]);
        var rest := SplitArrow(s[1..]);
        assert ([[s[0]] + rest[0]] + rest[1..])[1..] == rest[1..];
        assert s == [s[0]] + s[1..];
      }
    }
  }

  /** The first piece begins as the text does. */
  lemma FirstPiece(s: string)
    ensures SplitArrow(s)[0] != "" ==> s != "" && SplitArrow(s)[0][0] == s[0]
  {
  }

  lemma Lengthen(c: char, piece: string)
    requires NoArrow(piece) && !(c == '-' && piece != "" && piece[0] == '>')
    ensures NoArrow([c] + piece)
  {
    var longer := [c] + piece;
    forall i | 0 <= i < |longer| - 1 ensures !(longer[i] == '-' && longer[i + 1] == '>') {
      assert longer[i + 1] == piece[i];
      if i > 0 { assert longer[i] == piece[i - 1]; }
    }
  }

  /** No piece holds an arrow. */
  lemma {:induction false} PiecesArrowless(s: string)
    ensures forall i :: 0 <= i < |SplitArrow(s)| ==> NoArrow(SplitArrow(s)[i])
    decreases |s|
  {
    if |s| >= 2 {
      if s[0] == '-' && s[1] == '>' {
        PiecesArrowless(s[2..]);
      } else {
        PiecesArrowless(s[1..]);
        FirstPiece(s[1..]);
        Lengthen(s[0], SplitArrow(s[1..])[0]);
      }
    }
  }

  // --- Host names ---

  predicate IsControl(c: char) {
    var n := c as int;
    n < 0x20 || 0x7f <= n <= 0x9f
  }

  predicate IsPrintable(c: char) {
    !IsControl(c)
  }

  function Take<T>(xs: seq<T>, n: nat): seq<T> {
    if |xs| <= n then xs else xs[..n]
  }

  /** At most 32 characters, none of them a control character. */
  function CleanHostname(h: string): string {
    Take(Filter(h, IsPrintable), 32)
  }

  lemma {:induction false} FilterAll<T(!new)>(xs: seq<T>, keep: T -> bool)
    requires forall x :: x in xs ==> keep(x)
    ensures Filter(xs, keep) == xs
  {
    if xs != [] {
      FilterAll(xs[1..], keep);
      assert xs == [xs[0]] + xs[1..];
    }
  }

  lemma CleanHostnameIdempotent(h: string)
    ensures CleanHostname(CleanHostname(h)) == CleanHostname(h)
  {
    FilterElements(h, IsPrintable);
    FilterAll(CleanHostname(h), IsPrintable);
  }

  lemma CleanHostnameFixed(h: string)
    ensures CleanHostname(h) == h <==> |h| <= 32 && forall c :: c in h ==> IsPrintable(c)
  {
    FilterElements(h, IsPrintable);
    assert forall c :: c in CleanHostname(h) ==> IsPrintable(c);
    if |h| <= 32 && forall c :: c in h ==> IsPrintable(c) {
      FilterAll(h, IsPrintable);
    }
  }

  lemma {:induction false} FilterConcat<T(!new)>(xs: seq<T>, ys: seq<T>, keep: T -> bool)
    ensures Filter(xs + ys, keep) == Filter(xs, keep) + Filter(ys, keep)
  {
    if xs == [] {
      assert xs + ys == ys;
    } else {
      assert (xs + ys)[1..] == xs[1..] + ys;
      FilterConcat(xs[1..], ys, keep);
    }
  }

  /** A control character anywhere is as if it were not there, and of the rest the first 32 are kept. */
  lemma CleanHostnameMeaning(front: string, c: char, back: string, plain: string)
    ensures IsControl(c) ==> CleanHostname(front + [c] + back) == CleanHostname(front + back)
    ensures (forall x :: x in plain ==> !IsControl(x)) ==>
              |plain| >= 32 ==> CleanHostname(plain) == plain[..32]
    ensures (forall x :: x in plain ==> !IsControl(x)) ==>
              |plain| <= 32 ==> CleanHostname(plain) == plain
  {
    FilterConcat(front + [c], back, IsPrintable);
    FilterConcat(front, [c], IsPrintable);
    FilterConcat(front, back, IsPrintable);
    if IsControl(c) {
      assert [c][1..] == [];
      assert Filter([c], IsPrintable) == [];
    }
    if forall x :: x in plain ==> !IsControl(x) {
      FilterAll(plain, IsPrintable);
    }
  }
}
