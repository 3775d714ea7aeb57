/**
 * `sh_quote`, and the scripts built with it, read back by the POSIX.1-2017 Shell Command Language:
 * escapes and quotes (sections 2.2.1 to 2.2.3) and the recognition of tokens (section 2.3).
 */
module ShellQuote {
  import opened Prelude
  import opened Text

  const QUOTE: char := '\''
  const DOUBLE_QUOTE: char := '"'
  const BACKSLASH: char := '\\'
  const BACKQUOTE: char := 96 as char

  /** Every quote becomes: close, an escaped quote, open again. */
  function EscapeQuotes(s: string): string {
    if s == "" then ""
    else (if s[0] == QUOTE then [QUOTE, BACKSLASH, QUOTE, QUOTE] else [s[0]]) + EscapeQuotes(s[1..])
  }

  function ShQuote(s: string): string {
    [QUOTE] + EscapeQuotes(s) + [QUOTE]
  }

  // --- The reader: one character at a time ---

  /** A character of a word: plain, or one that a later expansion or assignment acts on. */
  datatype Cell = Char(c: char) | Active(c: char)

  datatype Token = Word(cells: seq<Cell>) | Op(c: char)

  datatype Mode =
    | Between
    | Bare(word: seq<Cell>)
    | Escaped(before: Option<seq<Cell>>)
    | Quoted(word: seq<Cell>)
    | Double(word: seq<Cell>)
    | DoubleEscaped(word: seq<Cell>)

  predicate IsBlank(c: char) {
    c == ' ' || c == '\t'
  }

  predicate IsOperator(c: char) {
    c == '\n' || c == '&' || c == '|' || c == ';' || c == '<' || c == '>' || c == '(' || c == ')'
  }

  /** Unquoted characters with a meaning inside a word. */
  predicate IsActive(c: char) {
    c == '$' || c == '*' || c == '?' || c == '[' || c == '~' || c == '=' || c == '%' || c == '!' || c == '{' || c == '}'
  }

  function OpenWord(m: Mode): seq<Cell> {
    if m.Bare? then m.word else []
  }

  function Close(m: Mode): seq<Token> {
    if m.Bare? then [Word(m.word)] else []
  }

  /** The tokens a character completes and the mode after it; `None` for comments and command substitution. */
  function Step(m: Mode, c: char): Option<(seq<Token>, Mode)> {
    match m
    case Quoted(w) => Some(([], if c == QUOTE then Bare(w) else Quoted(w + [Char(c)])))
    case Double(w) =>
      if c == BACKQUOTE then None
      else Some(([], if c == DOUBLE_QUOTE then Bare(w) else if c == BACKSLASH then DoubleEscaped(w)
                     else Double(w + [if c == '$' then Active(c) else Char(c)])))
    case DoubleEscaped(w) =>
      Some(([], if c == '\n' then Double(w)
                else if c == '$' || c == BACKQUOTE || c == DOUBLE_QUOTE || c == BACKSLASH then Double(w + [Char(c)])
                else Double(w + [Char(BACKSLASH), Char(c)])))
    case Escaped(before) =>
      if c == '\n' then Some(([], if before.Some? then Bare(before.value) else Between))
      else Some(([], Bare((if before.Some? then before.value else []) + [Char(c)])))
    case _ =>
      if c == QUOTE then Some(([], Quoted(OpenWord(m))))
      else if c == DOUBLE_QUOTE then Some(([], Double(OpenWord(m))))
      else if c == BACKSLASH then Some(([], Escaped(if m.Bare? then Some(m.word) else None)))
      else if IsBlank(c) then Some((Close(m), Between))
      else if IsOperator(c) then Some((Close(m) + [Op(c)], Between))
      else if c == BACKQUOTE || (c == '#' && m.Between?) then None
      else Some(([], Bare(OpenWord(m) + [if IsActive(c) then Active(c) else Char(c)])))
  }

  function Advance(s: string, m: Mode): Option<(seq<Token>, Mode)> {
    if s == "" then Some(([], m))
    else
      match Step(m, s[0])
      case None => None
      case Some((first, next)) =>
        match Advance(s[1..], next)
        case None => None
        case Some((rest, last)) => Some((first + rest, last))
  }

  /** The tokens of a whole script, or `None` if it is incomplete or uses more of the language. */
  function ReadFrom(s: string, m: Mode): Option<seq<Token>> {
    match Advance(s, m)
    case Some((tokens, Between)) => Some(tokens)
    case Some((tokens, Bare(w))) => Some(tokens + [Word(w)])
    case _ => None
  }

  function Tokens(s: string): Option<seq<Token>> {
    ReadFrom(s, Between)
  }

  lemma {:induction false} AdvanceSplit(a: string, b: string, m: Mode)
    ensures Advance(a + b, m) ==
            match Advance(a, m)
            case None => None
            case Some((first, next)) =>
              match Advance(b, next)
              case None => None
              case Some((rest, last)) => Some((first + rest, last))
  {
    if a == "" {
      assert a + b == b;
      if Advance(b, m).Some? { assert [] + Advance(b, m).value.0 == Advance(b, m).value.0; }
    } else {
      assert (a + b)[1..] == a[1..] + b;
      var step := Step(m, a[0]);
      if step.Some? {
        AdvanceSplit(a[1..], b, step.value.1);
        var tail := Advance(a[1..], step.value.1);
        if tail.Some? && Advance(b, tail.value.1).Some? {
          var x, y, z := step.value.0, tail.value.0, Advance(b, tail.value.1).value.0;
          assert x + (y + z) == (x + y) + z;
        }
      }
    }
  }

  /** Reading on after a part of the script. */
  lemma ReadOn(a: string, b: string, m: Mode, tokens: seq<Token>, next: Mode)
    requires Advance(a, m) == Some((tokens, next))
    ensures ReadFrom(a + b, m) == match ReadFrom(b, next) case None => None case Some(rest) => Some(tokens + rest)
  {
    AdvanceSplit(a, b, m);
    var tail := Advance(b, next);
    if tail.Some? && tail.value.1.Bare? {
      assert (tokens + tail.value.0) + [Word(tail.value.1.word)] == tokens + (tail.value.0 + [Word(tail.value.1.word)]);
    }
  }

  // --- Quoting ---

  function Chars(s: string): seq<Cell> {
    Map(s, c => Char(c))
  }

  lemma AdvanceOne(c: char, m: Mode)
    ensures Advance([c], m) == Step(m, c)
  {
    var step := Step(m, c);
    assert [c][1..] == "";
    if step.Some? { assert step.value.0 + [] == step.value.0; }
  }

  /** Close, escaped quote, reopen: inside quotes it reads as one quote. */
  lemma AdvanceEscapedQuote(w: seq<Cell>)
    ensures Advance([QUOTE, BACKSLASH, QUOTE, QUOTE], Quoted(w)) == Some(([], Quoted(w + [Char(QUOTE)])))
  {
    AdvanceOne(QUOTE, Bare(w + [Char(QUOTE)]));
    assert [QUOTE, QUOTE][1..] == [QUOTE];
    assert Advance([QUOTE, QUOTE], Escaped(Some(w))) == Some(([], Quoted(w + [Char(QUOTE)])));
    assert [BACKSLASH, QUOTE, QUOTE][1..] == [QUOTE, QUOTE];
    assert Advance([BACKSLASH, QUOTE, QUOTE], Bare(w)) == Some(([], Quoted(w + [Char(QUOTE)])));
    assert [QUOTE, BACKSLASH, QUOTE, QUOTE][1..] == [BACKSLASH, QUOTE, QUOTE];
  }

  lemma {:induction false} AdvanceEscaped(s: string, w: seq<Cell>)
    ensures Advance(EscapeQuotes(s), Quoted(w)) == Some(([], Quoted(w + Chars(s))))
    decreases |s|
  {
    if s == "" {
      assert w + Chars(s) == w;
    } else {
      var head := if s[0] == QUOTE then [QUOTE, BACKSLASH, QUOTE, QUOTE] else [s[0]];
      AdvanceSplit(head, EscapeQuotes(s[1..]), Quoted(w));
      AdvanceEscapedQuote(w);
      AdvanceOne(s[0], Quoted(w));
      AdvanceEscaped(s[1..], w + [Char(s[0])]);
      assert (w + [Char(s[0])]) + Chars(s[1..]) == w + Chars(s);
    }
  }

  /** A quoted string extends the current word by exactly its characters, none of them active. */
  lemma AdvanceQuoted(s: string, m: Mode)
    requires m.Between? || m.Bare?
    ensures Advance(ShQuote(s), m) == Some(([], Bare(OpenWord(m) + Chars(s))))
  {
    var w := OpenWord(m);
    AdvanceOne(QUOTE, m);
    AdvanceEscaped(s, w);
    AdvanceOne(QUOTE, Quoted(w + Chars(s)));
    AdvanceSplit([QUOTE], EscapeQuotes(s), m);
    AdvanceSplit([QUOTE] + EscapeQuotes(s), [QUOTE], m);
  }

  /** Quoting any string gives one word, equal to it. */
  lemma QuoteRoundTrip(s: string)
    ensures Tokens(ShQuote(s)) == Some([Word(Chars(s))])
  {
    AdvanceQuoted(s, Between);
    assert [] + Chars(s) == Chars(s);
    assert [] + [Word(Chars(s))] == [Word(Chars(s))];
  }

  // --- Scripts ---

  /** Letters, digits, and `- . / _`: nothing the shell gives a meaning to. */
  predicate IsPlain(c: char) {
    'a' <= c <= 'z' || 'A' <= c <= 'Z' || '-' <= c <= '9' || c == '_'
  }

  predicate PlainText(w: string) {
    w != "" && forall c :: c in w ==> IsPlain(c)
  }

  type Literal = w: string | PlainText(w) witness "a"
  type Operator = c: char | IsOperator(c) witness ';'
  type Marker = c: char | IsActive(c) witness '='

  /** What the scripts are made of: literal text by kind, and quoted values. */
  datatype Item =
    | Plain(text: Literal)
    | Quote(value: string)
    | Blank
    | Oper(c: Operator)
    | Mark(m: Marker)    // an active character, as in an assignment
    | ExitStatus         // "$?"

  function ItemText(item: Item): string {
    match item
    case Plain(text) => text
    case Quote(value) => ShQuote(value)
    case Blank => " "
    case Oper(c) => [c]
    case Mark(m) => [m]
    case ExitStatus => [DOUBLE_QUOTE, '$', '?', DOUBLE_QUOTE]
  }

  function ScriptText(items: seq<Item>): string {
    if items == [] then "" else ItemText(items[0]) + ScriptText(items[1..])
  }

  /** What an item adds to the word it is part of. */
  function ItemCells(item: Item): seq<Cell> {
    match item
    case Plain(text) => Chars(text)
    case Quote(value) => Chars(value)
    case Mark(m) => [Active(m)]
    case ExitStatus => [Active('$'), Char('?')]
    case _ => []
  }

  /** The tokens meant: blanks and operators end a word, and everything else is part of one. */
  function Meant(items: seq<Item>, open: Option<seq<Cell>>): seq<Token> {
    var word := if open.Some? then [Word(open.value)] else [];
    if items == [] then word
    else if items[0].Blank? then word + Meant(items[1..], None)
    else if items[0].Oper? then word + [Op(items[0].c)] + Meant(items[1..], None)
    else Meant(items[1..], Some((if open.Some? then open.value else []) + ItemCells(items[0])))
  }

  function ModeOf(open: Option<seq<Cell>>): Mode {
    if open.Some? then Bare(open.value) else Between
  }

  lemma {:induction false} AdvancePlain(w: string, m: Mode)
    requires (m.Between? || m.Bare?) && PlainText(w)
    ensures Advance(w, m) == Some(([], Bare(OpenWord(m) + Chars(w))))
    decreases |w|
  {
    var next := Bare(OpenWord(m) + [Char(w[0])]);
    assert w[0] in w;
    assert Step(m, w[0]) == Some(([], next));
    if |w| == 1 {
      AdvanceOne(w[0], m);
      assert w == [w[0]] && Chars(w) == [Char(w[0])];
    } else {
      AdvancePlain(w[1..], next);
      assert next.word + Chars(w[1..]) == OpenWord(m) + Chars(w);
    }
  }

  lemma AdvanceExitStatus(w: seq<Cell>, m: Mode)
    requires (m.Between? || m.Bare?) && w == OpenWord(m)
    ensures Advance([DOUBLE_QUOTE, '$', '?', DOUBLE_QUOTE], m) == Some(([], Bare(w + [Active('$'), Char('?')])))
  {
    var w1, w2 := w + [Active('$')], w + [Active('$')] + [Char('?')];
    AdvanceOne(DOUBLE_QUOTE, Double(w2));
    assert ['?', DOUBLE_QUOTE][1..] == [DOUBLE_QUOTE];
    assert Advance(['?', DOUBLE_QUOTE], Double(w1)) == Some(([], Bare(w2)));
    assert ['$', '?', DOUBLE_QUOTE][1..] == ['?', DOUBLE_QUOTE];
    assert Advance(['$', '?', DOUBLE_QUOTE], Double(w)) == Some(([], Bare(w2)));
    assert [DOUBLE_QUOTE, '$', '?', DOUBLE_QUOTE][1..] == ['$', '?', DOUBLE_QUOTE];
    assert w2 == w + [Active('$'), Char('?')];
  }

  lemma AdvanceItem(item: Item, open: Option<seq<Cell>>)
    ensures Advance(ItemText(item), ModeOf(open)) ==
            if item.Blank? then Some((Close(ModeOf(open)), Between))
            else if item.Oper? then Some((Close(ModeOf(open)) + [Op(item.c)], Between))
            else Some(([], Bare(OpenWord(ModeOf(open)) + ItemCells(item))))
  {
    var m := ModeOf(open);
    match item {
      case Plain(text) => AdvancePlain(text, m);
      case Quote(value) => AdvanceQuoted(value, m);
      case Blank => AdvanceOne(' ', m);
      case Oper(c) => AdvanceOne(c, m);
      case Mark(c) => AdvanceOne(c, m);
      case ExitStatus => AdvanceExitStatus(OpenWord(m), m);
    }
  }

  /** Every script made of such items reads as exactly the tokens meant, whatever the quoted values are. */
  lemma {:induction false} ScriptReads(items: seq<Item>, open: Option<seq<Cell>>)
    ensures ReadFrom(ScriptText(items), ModeOf(open)) == Some(Meant(items, open))
    decreases |items|
  {
    if items == [] {
      assert [] + Meant(items, open) == Meant(items, open);
    } else {
      var item, rest := items[0], items[1..];
      var after := if item.Blank? || item.Oper? then None else Some(OpenWord(ModeOf(open)) + ItemCells(item));
      AdvanceItem(item, open);
      ScriptReads(rest, after);
      ReadOn(ItemText(item), ScriptText(rest), ModeOf(open), Advance(ItemText(item), ModeOf(open)).value.0,
             ModeOf(after));
      assert [] + Meant(rest, after) == Meant(rest, after);
    }
  }

  /** A quoted value between blanks or operators is a word by itself. */
  lemma {:induction false} QuotedValueIsWord(front: seq<Item>, value: string, back: seq<Item>, open: Option<seq<Cell>>)
    requires front == [] ==> open.None?
    requires front != [] ==> front[|front| - 1].Blank? || front[|front| - 1].Oper?
    requires back == [] || back[0].Blank? || back[0].Oper?
    ensures Word(Chars(value)) in Meant(front + [Quote(value)] + back, open)
    decreases |front|
  {
    var items := front + [Quote(value)] + back;
    if front == [] {
      assert items[1..] == back && [] + Chars(value) == Chars(value);
      assert Meant(items, open) == Meant(back, Some(Chars(value)));
    } else {
      assert items[1..] == front[1..] + [Quote(value)] + back;
      var after := if front[0].Blank? || front[0].Oper? then None
          else Some((if open.Some? then open.value else []) + ItemCells(front[0]));
      QuotedValueIsWord(front[1..], value, back, after);
    }
  }

  /** A command line of quoted words separated by blanks reads back as those words. */
  function QuotedWords(words: seq<string>): seq<Item> {
    if words == [] then [] else if |words| == 1 then [Quote(words[0])]
      else [Quote(words[0]), Blank] + QuotedWords(words[1..])
  }

  lemma {:induction false} QuotedWordsMeant(words: seq<string>)
    ensures Meant(QuotedWords(words), None) == Map(words, w => Word(Chars(w)))
  {
    if words != [] {
      var items := QuotedWords(words);
      assert [] + Chars(words[0]) == Chars(words[0]);
      if |words| == 1 {
        assert items[1..] == [];
        assert Meant(items, None) == Meant([], Some(Chars(words[0])));
      } else {
        QuotedWordsMeant(words[1..]);
        assert items[1..] == [Blank] + QuotedWords(words[1..]);
        assert ([Blank] + QuotedWords(words[1..]))[1..] == QuotedWords(words[1..]);
        assert Meant(items, None) == [Word(Chars(words[0]))] + Meant(QuotedWords(words[1..]), None);
      }
    }
  }

  lemma CommandLineRoundTrip(words: seq<string>)
    ensures Tokens(ScriptText(QuotedWords(words))) == Some(Map(words, w => Word(Chars(w))))
  {
    QuotedWordsMeant(words);
    ScriptReads(QuotedWords(words), None);
  }

  // --- The join script and its wrapper ---

  datatype Join = Join(logDir: string, xdg: string, log: string, code: string, bin: string, invite: string, wait: nat,
                       poll: nat)

  function Number(n: nat): Item {
    var s := PrintNat(n);
    assert forall c :: c in s ==> IsDigit(c);
    Plain(s)
  }

  function MakeDirs(j: Join): seq<Item> {
    [Plain("mkdir"), Blank, Plain("-p"), Blank, Quote(j.logDir), Blank, Quote(j.xdg), Oper('\n'),
     Plain("rm"), Blank, Plain("-f"), Blank, Quote(j.log), Blank, Quote(j.code), Oper('\n')]
  }

  function Enter(j: Join): seq<Item> {
    [Plain("export"), Blank, Plain("XDG_CONFIG_HOME"), Mark('='), Quote(j.xdg), Oper('\n'),
     Plain("cd"), Blank, Quote(j.bin), Oper('\n')]
  }

  function Accept(j: Join): seq<Item> {
    INVITED + [Quote(j.invite)] + AcceptOptions(j)
  }

  const INVITED: seq<Item> := [Plain("./pactmesh"), Blank, Plain("trust"), Blank, Plain("accept-invite"), Blank]

  function AcceptOptions(j: Join): seq<Item> {
    [Blank, Plain("--device-label"), Blank, Plain("node-b"), Blank, Plain("--online"), Blank,
     Plain("--wait-secs"), Blank, Number(j.wait), Blank, Plain("--poll-secs"), Blank, Number(j.poll), Blank,
     Oper('>'), Blank, Quote(j.log), Blank, Plain("2"), Oper('>'), Oper('&'), Plain("1"), Oper('\n')]
  }

  function Report(j: Join): seq<Item> {
    [Plain("printf"), Blank, Quote("%s\\n"), Blank, ExitStatus, Blank, Oper('>'), Blank, Quote(j.code), Oper('\n')]
  }

  function Job(j: Join): seq<Item> {
    MakeDirs(j) + Enter(j) + Accept(j) + Report(j)
  }

  /** `nohup sh -c '...' >/dev/null 2>&1 < /dev/null &`. */
  function Wrapper(job: string): seq<Item> {
    NOHUP + [Quote(job)] + DETACHED
  }

  const NOHUP: seq<Item> := [Plain("nohup"), Blank, Plain("sh"), Blank, Plain("-c"), Blank]
  const DETACHED: seq<Item> := [
    Blank, Oper('>'), Plain("/dev/null"), Blank, Plain("2"), Oper('>'), Oper('&'), Plain("1"), Blank,
    Oper('<'), Blank, Plain("/dev/null"), Blank, Oper('&'), Oper('\n')]

  lemma WrapperReads(job: string)
    ensures Tokens(ScriptText(Wrapper(job))) == Some(Meant(Wrapper(job), None))
    ensures Word(Chars(job)) in Meant(Wrapper(job), None)
  {
    ScriptReads(Wrapper(job), None);
    QuotedValueIsWord(NOHUP, job, DETACHED, None);
  }

  lemma JobReads(j: Join)
    ensures Tokens(ScriptText(Job(j))) == Some(Meant(Job(j), None))
  {
    ScriptReads(Job(j), None);
  }

  lemma Regroup(a: seq<Item>, b: seq<Item>, c: seq<Item>, d: seq<Item>, e: seq<Item>)
    ensures (a + b) + c + (d + e) == a + (b + c + d) + e
  {
  }

  lemma InvitationIsWord(j: Join)
    ensures Word(Chars(j.invite)) in Meant(Job(j), None)
  {
    var front, back := MakeDirs(j) + Enter(j) + INVITED, AcceptOptions(j) + Report(j);
    QuotedValueIsWord(front, j.invite, back, None);
    Regroup(MakeDirs(j) + Enter(j), INVITED, [Quote(j.invite)], AcceptOptions(j), Report(j));
  }

  /** A quoted value that stands between blanks or operators is one word of the script. */
  lemma QuotedAt(items: seq<Item>, i: nat, value: string)
    requires 0 < i < |items| - 1 && items[i] == Quote(value)
    requires (items[i - 1].Blank? || items[i - 1].Oper?) && (items[i + 1].Blank? || items[i + 1].Oper?)
    ensures Word(Chars(value)) in Meant(items, None)
  {
    QuotedValueIsWord(items[..i], value, items[i + 1..], None);
    assert items[..i] + [Quote(value)] + items[i + 1..] == items;
  }

  lemma PathsAreWords(j: Join)
    ensures forall path :: path in {j.logDir, j.xdg, j.log, j.code, j.bin} ==> Word(Chars(path)) in Meant(Job(j), None)
  {
    DirsAreWords(j);
    LogsAreWords(j);
    ProgramIsWord(j);
  }

  lemma PartAt(front: seq<Item>, part: seq<Item>, back: seq<Item>, i: nat)
    requires i < |part|
    ensures (front + part + back)[|front| + i] == part[i]
  {
  }

  /** A value quoted inside one part of a script, away from its ends. */
  lemma QuotedInPart(front: seq<Item>, part: seq<Item>, back: seq<Item>, i: nat, value: string)
    requires 0 < i < |part| - 1 && part[i] == Quote(value)
    requires (part[i - 1].Blank? || part[i - 1].Oper?) && (part[i + 1].Blank? || part[i + 1].Oper?)
    ensures Word(Chars(value)) in Meant(front + part + back, None)
  {
    PartAt(front, part, back, i - 1);
    PartAt(front, part, back, i);
    PartAt(front, part, back, i + 1);
    QuotedAt(front + part + back, |front| + i, value);
  }

  lemma DirsAreWords(j: Join)
    ensures Word(Chars(j.logDir)) in Meant(Job(j), None) && Word(Chars(j.xdg)) in Meant(Job(j), None)
  {
    DirIsWord(j, 4, j.logDir);
    DirIsWord(j, 6, j.xdg);
  }

  lemma LogsAreWords(j: Join)
    ensures Word(Chars(j.log)) in Meant(Job(j), None) && Word(Chars(j.code)) in Meant(Job(j), None)
  {
    DirIsWord(j, 12, j.log);
    DirIsWord(j, 14, j.code);
  }

  lemma DirIsWord(j: Join, i: nat, value: string)
    requires i in {4, 6, 12, 14} && MakeDirs(j)[i] == Quote(value)
    ensures Word(Chars(value)) in Meant(Job(j), None)
  {
    var back := Enter(j) + Accept(j) + Report(j);
    QuotedInPart([], MakeDirs(j), back, i, value);
    Leading(MakeDirs(j), Enter(j), Accept(j), Report(j));
  }

  lemma Leading(a: seq<Item>, b: seq<Item>, c: seq<Item>, d: seq<Item>)
    ensures [] + a + (b + c + d) == a + b + c + d
    ensures a + b + (c + d) == a + b + c + d
  {
  }

  lemma ProgramIsWord(j: Join)
    ensures Word(Chars(j.bin)) in Meant(Job(j), None)
  {
    var back := Accept(j) + Report(j);
    Leading(MakeDirs(j), Enter(j), Accept(j), Report(j));
    QuotedInPart(MakeDirs(j), Enter(j), back, 8, j.bin);
  }

  /**
   * For every path and invitation: the outer shell reads the wrapper as meant, with the whole job as
   * one word, and the inner shell reads the job as meant, with each value as one word.
   */
  lemma NestedRoundTrip(j: Join)
    ensures var job := ScriptText(Job(j));
            && Tokens(ScriptText(Wrapper(job))) == Some(Meant(Wrapper(job), None))
            && Word(Chars(job)) in Meant(Wrapper(job), None)
            && Tokens(job) == Some(Meant(Job(j), None))
            && forall value :: value in {j.logDir, j.xdg, j.log, j.code, j.bin, j.invite} ==>
                 Word(Chars(value)) in Meant(Job(j), None)
  {
    PathsAreWords(j);
    WrapperReads(ScriptText(Job(j)));
    JobReads(j);
    InvitationIsWord(j);
  }
}
