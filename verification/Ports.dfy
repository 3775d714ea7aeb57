/**
 * The three port parsers: the CLI's (`pactmesh.rs`), the whitelist builder's and the ACL
 * compiler's (`acl_processor.rs`).
 */
module Ports {
  import opened Prelude
  import opened Text

  datatype PortRange = PortRange(low: nat, high: nat) {
    predicate Contains(port: nat) {
      low <= port <= high
    }
  }

  datatype PortError = BadRangeFormat | BadPort | StartAfterEnd

  /** `parse_port_range` of the ACL compiler: trims the bounds and does not compare them. */
  function ParsePortRange(s: string): (r: Option<PortRange>) {
    match SplitOnce(s, '-')
    case Some((start, end)) =>
      (match (ParseU16(Trim(start)), ParseU16(Trim(end)))
       case (Some(lo), Some(hi)) => Some(PortRange(lo, hi))
       case _ => None)
    case None =>
      match ParseU16(Trim(s))
      case Some(port) => Some(PortRange(port, port))
      case None => None
  }

  /** What one port specification denotes to both list parsers: exact syntax, no trimming. */
  function SpecBounds(spec: string): (r: Result<PortRange, PortError>)
    ensures r.Ok? ==> r.value.low <= r.value.high <= 65535
  {
    if '-' in spec then
      var parts := SplitOn(spec, '-');
      if |parts| != 2 then Err(BadRangeFormat)
      else
        match (ParseU16(parts[0]), ParseU16(parts[1]))
        case (Some(lo), Some(hi)) => if lo > hi then Err(StartAfterEnd) else Ok(PortRange(lo, hi))
        case _ => Err(BadPort)
    else
      match ParseU16(spec)
      case Some(port) => Ok(PortRange(port, port))
      case None => Err(BadPort)
  }

  /** The text the whitelist builder stores for an accepted specification. */
  function BuilderText(spec: string): (s: string)
    requires SpecBounds(spec).Ok?
  {
    if '-' in spec then spec else PrintNat(SpecBounds(spec).value.low)
  }

  /** The text the CLI stores for an accepted specification. */
  function CliText(spec: string): (s: string)
    requires SpecBounds(spec).Ok?
  {
    var b := SpecBounds(spec).value;
    if '-' in spec then PrintNat(b.low) + "-" + PrintNat(b.high) else PrintNat(b.low)
  }

  ghost predicate AllAccepted(specs: seq<string>) {
    forall i :: 0 <= i < |specs| ==> SpecBounds(specs[i]).Ok?
  }

  /** `e` is the complaint about the first specification that is not accepted. */
  ghost predicate FirstComplaint(specs: seq<string>, e: PortError) {
    exists i :: 0 <= i < |specs| && SpecBounds(specs[i]) == Err(e) && AllAccepted(specs[..i])
  }

  /** The checks both list parsers make on one specification, in their order. */
  method CheckSpec(spec: string) returns (r: Result<PortRange, PortError>)
    ensures r == SpecBounds(spec)
  {
    if '-' in spec {
      var parts := SplitOn(spec, '-');
      if |parts| != 2 {
        return Err(BadRangeFormat);
      }
      var start, end := ParseU16(parts[0]), ParseU16(parts[1]);
      if start.None? || end.None? {
        return Err(BadPort);
      }
      if start.value > end.value {
        return Err(StartAfterEnd);
      }
      return Ok(PortRange(start.value, end.value));
    }
    var port := ParseU16(spec);
    if port.None? {
      return Err(BadPort);
    }
    return Ok(PortRange(port.value, port.value));
  }

  lemma Complain(specs: seq<string>, i: nat, e: PortError)
    requires i < |specs| && AllAccepted(specs[..i]) && SpecBounds(specs[i]) == Err(e)
    ensures FirstComplaint(specs, e) && !AllAccepted(specs)
  {
  }

  method BuilderPrintSpec(spec: string) returns (r: Result<string, PortError>)
    ensures r.Ok? <==> SpecBounds(spec).Ok?
    ensures r.Ok? ==> r.value == BuilderText(spec)
    ensures r.Err? ==> SpecBounds(spec) == Err(r.error)
  {
    var checked := CheckSpec(spec);
    if checked.Err? {
      return Err(checked.error);
    }
    return Ok(if '-' in spec then spec else PrintNat(checked.value.low));
  }

  /** `AclRuleBuilder::parse_port_list`. */
  method BuilderParsePortList(specs: seq<string>) returns (r: Result<seq<string>, PortError>)
    ensures r.Ok? <==> AllAccepted(specs)
    ensures r.Ok? ==> r.value == BuilderTexts(specs)
    ensures r.Err? ==> FirstComplaint(specs, r.error)
  {
    var ports := [];
    for i := 0 to |specs|
      invariant AllAccepted(specs[..i])
      invariant ports == BuilderTexts(specs[..i])
    {
      var printed := BuilderPrintSpec(specs[i]);
      if printed.Err? {
        Complain(specs, i, printed.error);
        return Err(printed.error);
      }
      BuilderTextsExtend(specs, i);
      ports := ports + [printed.value];
    }
    assert specs[..|specs|] == specs;
    r := Ok(ports);
  }

  ghost function BuilderTexts(specs: seq<string>): (ports: seq<string>)
    requires AllAccepted(specs)
    ensures |ports| == |specs|
  {
    seq(|specs|, j requires 0 <= j < |specs| => BuilderText(specs[j]))
  }

  lemma BuilderTextsExtend(specs: seq<string>, i: nat)
    requires i < |specs| && AllAccepted(specs[..i]) && SpecBounds(specs[i]).Ok?
    ensures AllAccepted(specs[..i + 1])
    ensures BuilderTexts(specs[..i + 1]) == BuilderTexts(specs[..i]) + [BuilderText(specs[i])]
  {
    AcceptedExtend(specs, i);
  }

  lemma BuilderTextsHead(specs: seq<string>)
    requires AllAccepted(specs) && specs != []
    ensures AllAccepted(specs[1..])
    ensures BuilderTexts(specs) == [BuilderText(specs[0])] + BuilderTexts(specs[1..])
  {
  }

  lemma AcceptedExtend(specs: seq<string>, i: nat)
    requires i < |specs| && AllAccepted(specs[..i]) && SpecBounds(specs[i]).Ok?
    ensures AllAccepted(specs[..i + 1])
  {
    assert specs[..i + 1] == specs[..i] + [specs[i]];
  }

  /** The specifications in a CLI port list: comma separated, each trimmed. */
  function CliSpecs(portsStr: string): (specs: seq<string>) {
    var pieces := SplitOn(portsStr, ',');
    seq(|pieces|, i requires 0 <= i < |pieces| => Trim(pieces[i]))
  }

  method CliPrintSpec(spec: string) returns (r: Result<string, PortError>)
    ensures r == if SpecBounds(spec).Ok? then Ok(CliText(spec)) else Err(SpecBounds(spec).error)
  {
    var checked := CheckSpec(spec);
    if checked.Err? {
      return Err(checked.error);
    }
    if '-' in spec {
      return Ok(PrintNat(checked.value.low) + "-" + PrintNat(checked.value.high));
    }
    return Ok(PrintNat(checked.value.low));
  }

  method CliPrintSpecs(specs: seq<string>) returns (r: Result<seq<string>, PortError>)
    ensures r.Ok? <==> AllAccepted(specs)
    ensures r.Ok? ==> r.value == CliTexts(specs)
    ensures r.Err? ==> FirstComplaint(specs, r.error)
  {
    var ports := [];
    for i := 0 to |specs|
      invariant AllAccepted(specs[..i])
      invariant ports == CliTexts(specs[..i])
    {
      var printed := CliPrintSpec(specs[i]);
      if printed.Err? {
        Complain(specs, i, printed.error);
        return Err(printed.error);
      }
      CliTextsExtend(specs, i);
      ports := ports + [printed.value];
    }
    assert specs[..|specs|] == specs;
    r := Ok(ports);
  }

  /** `CommandHandler::parse_port_list`. */
  method CliParsePortList(portsStr: string) returns (r: Result<seq<string>, PortError>)
    ensures r.Ok? <==> AllAccepted(CliSpecs(portsStr))
    ensures r.Ok? ==> r.value == CliTexts(CliSpecs(portsStr))
    ensures r.Err? ==> FirstComplaint(CliSpecs(portsStr), r.error)
  {
    r := CliPrintSpecs(CliSpecs(portsStr));
  }

  ghost function CliTexts(specs: seq<string>): (ports: seq<string>)
    requires AllAccepted(specs)
    ensures |ports| == |specs|
  {
    seq(|specs|, j requires 0 <= j < |specs| => CliText(specs[j]))
  }

  lemma CliTextsExtend(specs: seq<string>, i: nat)
    requires i < |specs| && AllAccepted(specs[..i]) && SpecBounds(specs[i]).Ok?
    ensures AllAccepted(specs[..i + 1])
    ensures CliTexts(specs[..i + 1]) == CliTexts(specs[..i]) + [CliText(specs[i])]
  {
    AcceptedExtend(specs, i);
  }

  /** Every list the CLI accepts, the builder accepts, range by range the same. */
  lemma CliListAccepted(specs: seq<string>)
    requires AllAccepted(specs)
    ensures AllAccepted(CliTexts(specs))
    ensures forall i :: 0 <= i < |specs| ==> SpecBounds(CliTexts(specs)[i]) == SpecBounds(specs[i])
  {
    forall i | 0 <= i < |specs| ensures SpecBounds(CliTexts(specs)[i]) == SpecBounds(specs[i]) {
      CliTextAccepted(specs[i]);
    }
  }

  /** What the CLI prints, the whitelist builder reads back with the same bounds. */
  lemma CliTextAccepted(spec: string)
    requires SpecBounds(spec).Ok?
    ensures SpecBounds(CliText(spec)) == SpecBounds(spec)
  {
    var b := SpecBounds(spec).value;
    ParsePrinted(b.low);
    ParsePrinted(b.high);
    if '-' in spec {
      assert PrintNat(b.low) + "-" + PrintNat(b.high) == PrintNat(b.low) + ['-'] + PrintNat(b.high);
      SplitTwoPieces(PrintNat(b.low), PrintNat(b.high), '-');
      assert CliText(spec)[|PrintNat(b.low)|] == '-';
    }
  }

  lemma TrimParsed(s: string)
    requires ParseU16(s).Some?
    ensures Trim(s) == s
  {
    ParsedChars(s);
    TrimNoWhitespace(s);
  }

  /** What the builder stores, the ACL compiler keeps, with the same bounds. */
  lemma BuilderTextKept(spec: string)
    requires SpecBounds(spec).Ok?
    ensures ParsePortRange(BuilderText(spec)) == Some(SpecBounds(spec).value)
  {
    if '-' in spec {
      SplitOnceOfTwo(spec, '-');
      var parts := SplitOn(spec, '-');
      TrimParsed(parts[0]);
      TrimParsed(parts[1]);
    } else {
      var port := SpecBounds(spec).value.low;
      ParsePrinted(port);
      TrimParsed(PrintNat(port));
    }
  }

  /**
   * End to end: every specification the CLI accepts reaches the ACL compiler as the range the
   * operator typed, however it was spaced, zero-padded or signed.
   */
  lemma PortsSurviveThePipeline(spec: string)
    requires SpecBounds(spec).Ok?
    ensures SpecBounds(CliText(spec)).Ok?
    ensures ParsePortRange(BuilderText(CliText(spec))) == Some(SpecBounds(spec).value)
  {
    CliTextAccepted(spec);
    BuilderTextKept(CliText(spec));
  }
}
