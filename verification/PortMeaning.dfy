/** What a port text denotes, stated on the numbers typed. */
module PortMeaning {
  import opened Prelude
  import opened Text
  import opened TextMeaning
  import opened Ports

  /** What the ACL compiler reads: one numeral, or two around the first dash, each between white space. */
  ghost predicate ReadsAs(text: string, low: nat, high: nat) {
    || ('-' !in text && low == high && Numeral(text, low))
    || exists a, b :: text == a + "-" + b && '-' !in a && Numeral(a, low) && Numeral(b, high)
  }

  lemma RangeReads(text: string, low: nat, high: nat)
    ensures ParsePortRange(text) == Some(PortRange(low, high)) <==> ReadsAs(text, low, high)
  {
    if '-' !in text {
      NumeralParses(text, low);
      NumeralParses(text, high);
    } else {
      var (a, b) := SplitOnce(text, '-').value;
      NumeralParses(a, low);
      NumeralParses(b, high);
      assert text == a + "-" + b;
      forall x, y | text == x + "-" + y && '-' !in x ensures x == a && y == b {
        SplitOnceOf(x, y, '-');
        assert text == x + ['-'] + y;
      }
    }
  }

  /** What both list parsers read: the same without white space, in order. */
  ghost predicate SpecReads(spec: string, low: nat, high: nat) {
    && low <= high
    && (|| (low == high && Decimal(spec, low))
        || exists a, b :: spec == a + "-" + b && Decimal(a, low) && Decimal(b, high))
  }

  ghost predicate Backwards(spec: string) {
    exists a, b, low: nat, high: nat :: spec == a + "-" + b && Decimal(a, low) && Decimal(b, high) && low > high
  }

  /** Two pieces mean one dash. */
  lemma OneDash(spec: string)
    requires |SplitOn(spec, '-')| == 2
    ensures var parts := SplitOn(spec, '-'); spec == parts[0] + "-" + parts[1] && '-' !in parts[0] && '-' !in parts[1]
  {
    var parts := SplitOn(spec, '-');
    JoinOfSplit(spec, '-');
    assert parts == [parts[0], parts[1]];
    assert Join(parts[1..], "-") == parts[1];
  }

  lemma DashedParts(spec: string, a: string, b: string, low: nat, high: nat)
    requires spec == a + "-" + b && Decimal(a, low) && Decimal(b, high)
    ensures '-' in spec && SplitOn(spec, '-') == [a, b]
    ensures ParseU16(a) == Some(low) && ParseU16(b) == Some(high)
  {
    DecimalChars(a, low);
    DecimalChars(b, high);
    DecimalParses(a, low);
    DecimalParses(b, high);
    SplitTwoPieces(a, b, '-');
    assert spec == a + ['-'] + b && spec[|a|] == '-';
  }

  /** A specification is accepted as a range exactly if it is typed as its numbers, in order. */
  lemma SpecMeaning(spec: string, low: nat, high: nat)
    ensures SpecBounds(spec) == Ok(PortRange(low, high)) <==> SpecReads(spec, low, high)
  {
    if SpecBounds(spec) == Ok(PortRange(low, high)) {
      if '-' in spec {
        var parts := SplitOn(spec, '-');
        OneDash(spec);
        DecimalParses(parts[0], low);
        DecimalParses(parts[1], high);
      } else {
        DecimalParses(spec, low);
      }
    }
    if SpecReads(spec, low, high) {
      if low == high && Decimal(spec, low) {
        DecimalChars(spec, low);
        DecimalParses(spec, low);
      } else {
        var a, b :| spec == a + "-" + b && Decimal(a, low) && Decimal(b, high);
        DashedParts(spec, a, b, low, high);
      }
    }
  }

  /** Which complaint a refused specification draws. */
  lemma SpecComplaints(spec: string)
    ensures SpecBounds(spec) == Err(StartAfterEnd) <==> Backwards(spec)
    ensures SpecBounds(spec) == Err(BadRangeFormat) <==> |SplitOn(spec, '-')| > 2
  {
    if SpecBounds(spec) == Err(StartAfterEnd) {
      var parts := SplitOn(spec, '-');
      OneDash(spec);
      var low, high := ParseU16(parts[0]).value, ParseU16(parts[1]).value;
      DecimalParses(parts[0], low);
      DecimalParses(parts[1], high);
    }
    if Backwards(spec) {
      var a, b, low: nat, high: nat :| spec == a + "-" + b && Decimal(a, low) && Decimal(b, high) && low > high;
      DashedParts(spec, a, b, low, high);
    }
    if '-' in spec { SplitManyPieces(spec, '-'); } else { SplitOnePiece(spec, '-'); }
  }

  /** A list typed with commas and white space reads as its specifications. */
  lemma TypedListReads(specs: seq<string>, padded: seq<string>)
    requires specs != [] && |padded| == |specs|
    requires forall i :: 0 <= i < |specs| ==> Trimmed(specs[i]) && ',' !in padded[i] && Padded(specs[i], padded[i])
    ensures CliSpecs(Join(padded, ",")) == specs
  {
    SplitOfJoin(padded, ',');
    forall i | 0 <= i < |specs| ensures Trim(padded[i]) == specs[i] {
      var left, right :| padded[i] == left + specs[i] + right && AllSpace(left) && AllSpace(right);
      TrimOf(left, specs[i], right);
    }
  }

  ghost predicate Padded(s: string, padded: string) {
    exists left, right :: padded == left + s + right && AllSpace(left) && AllSpace(right)
  }
}
