/** The CSS parser: rules of the form `sel, sel { prop: value; ... }` read
    with a character cursor. Identifiers are runs of ASCII letters, digits
    and '-'; a malformed declaration is an error.

    The functions `DeclarationAt`, `DeclarationsFrom`, `SelectorsFrom`,
    `RuleAt` and `RulesFrom` say what each routine computes from a cursor
    position: the value read and the cursor after it, or the error it
    raises. Where the routine's loop would repeat a pass without moving
    the cursor, and so never end, the result is `Err(NoProgress)`. The
    class `CssParser` is the cursor-driven parser, each method proved to
    agree with its function. */
module Css {
  import opened Common

  datatype Selector = Selector(tagName: string)

  /** A `property: value` pair. */
  type Declaration = (string, string)

  datatype CssRule = CssRule(selectors: seq<Selector>, declarations: seq<Declaration>)

  datatype Stylesheet = Stylesheet(rules: seq<CssRule>)

  /** The exceptions the parser raises, and the loop that never ends. */
  datatype CssError = ExpectedOpenBrace | ExpectedCloseBrace | ExpectedColon | ExpectedSemicolon | NoProgress

  /** The value of a cursor-producing result, without the cursor. */
  function Value<T>(r: Result<(T, nat), CssError>): Result<T, CssError> {
    match r
    case Ok((v, _)) => Ok(v)
    case Err(e) => Err(e)
  }

  /** `parseDeclaration` from cursor `p`: an identifier, ':', an identifier
      and ';', with white space allowed around each. Reading past the end
      yields '\0', which fails the ':' or ';' test. */
  function DeclarationAt(s: string, p: nat): (r: Result<(Declaration, nat), CssError>)
    requires p <= |s|
    ensures r.Ok? ==> p < r.value.1 <= |s|
  {
    var (property, p1) := Span(s, p, Ident);
    var p2 := Span(s, p1, Space).1;
    if CharAt(s, p2) != ':' then Err(ExpectedColon)
    else
      var p3 := Span(s, p2 + 1, Space).1;
      var (value, p4) := Span(s, p3, Ident);
      var p5 := Span(s, p4, Space).1;
      if CharAt(s, p5) != ';' then Err(ExpectedSemicolon)
      else Ok(((property, value), p5 + 1))
  }

  /** `parseDeclarations` from cursor `p`, with `acc` the declarations read
      so far: declarations up to a '}', which is not consumed. */
  function DeclarationsFrom(s: string, p: nat, acc: seq<Declaration>): (r: Result<(seq<Declaration>, nat), CssError>)
    requires p <= |s|
    ensures r.Ok? ==> p <= r.value.1 < |s| && s[r.value.1] == '}'
    ensures r.Err? ==> r.error == ExpectedColon || r.error == ExpectedSemicolon
    decreases |s| - p
  {
    if CharAt(s, p) == '}' then Ok((acc, p))
    else
      match DeclarationAt(s, p)
      case Err(e) => Err(e)
      case Ok((d, q)) => DeclarationsFrom(s, Span(s, q, Space).1, acc + [d])
  }

  /** `parseSelectors` from cursor `p`, with `acc` the selectors read so
      far: selectors, each followed by optional white space and an
      optional comma, up to a '{', which is not consumed. A pass that
      reads nothing would be repeated forever. */
  function SelectorsFrom(s: string, p: nat, acc: seq<Selector>): (r: Result<(seq<Selector>, nat), CssError>)
    requires p <= |s|
    ensures r.Ok? ==> p <= r.value.1 < |s| && s[r.value.1] == '{'
    ensures r.Err? ==> r.error == NoProgress
    decreases |s| - p
  {
    if CharAt(s, p) == '{' then Ok((acc, p))
    else
      var (name, p1) := Span(s, p, Ident);
      var p2 := Span(s, p1, Space).1;
      var p3 := if CharAt(s, p2) == ',' then Span(s, p2 + 1, Space).1 else p2;
      if p3 == p then Err(NoProgress)
      else SelectorsFrom(s, p3, acc + [Selector(name)])
  }

  /** `parseRule` from cursor `p`: selectors, '{', declarations, '}'. */
  function RuleAt(s: string, p: nat): (r: Result<(CssRule, nat), CssError>)
    requires p <= |s|
    ensures r.Ok? ==> p < r.value.1 <= |s|
  {
    match SelectorsFrom(s, p, [])
    case Err(e) => Err(e)
    case Ok((selectors, p1)) =>
      var p2 := Span(s, p1, Space).1;
      if CharAt(s, p2) != '{' then Err(ExpectedOpenBrace)
      else
        match DeclarationsFrom(s, Span(s, p2 + 1, Space).1, [])
        case Err(e) => Err(e)
        case Ok((declarations, p4)) =>
          var p5 := Span(s, p4, Space).1;
          if CharAt(s, p5) != '}' then Err(ExpectedCloseBrace)
          else Ok((CssRule(selectors, declarations), p5 + 1))
  }

  /** The rule loop of `parse` from cursor `p`, with `acc` the rules read
      so far: white space, then a rule, until the end of the source. */
  function RulesFrom(s: string, p: nat, acc: seq<CssRule>): (r: Result<seq<CssRule>, CssError>)
    requires p <= |s|
    decreases |s| - p
  {
    if p >= |s| then Ok(acc)
    else
      var p1 := Span(s, p, Space).1;
      if p1 >= |s| then Ok(acc)
      else
        match RuleAt(s, p1)
        case Err(e) => Err(e)
        case Ok((rule, q)) => RulesFrom(s, q, acc + [rule])
  }

  /** `parse` on a fresh parser. */
  function Parse(s: string): Result<Stylesheet, CssError> {
    match RulesFrom(s, 0, [])
    case Ok(rules) => Ok(Stylesheet(rules))
    case Err(e) => Err(e)
  }

  /** The CSS parser: the source and its cursor. */
  class CssParser {
    const source: string
    var pos: nat

    constructor (src: string)
      ensures source == src && pos == 0
    {
      source := src;
      pos := 0;
    }

    predicate Eof()
      reads this
    {
      pos >= |source|
    }

    function PeekChar(): (c: char)
      reads this
      ensures c == CharAt(source, pos)
    {
      if pos < |source| then source[pos] else '\0'
    }

    method ConsumeChar() returns (c: char)
      requires pos <= |source|
      modifies this
      ensures pos == old(pos) + 1 && c == CharAt(source, old(pos))
    {
      c := CharAt(source, pos);
      pos := pos + 1;
    }

    method ConsumeWhitespace()
      requires pos <= |source|
      modifies this
      ensures pos == Span(source, old(pos), Space).1
    {
      while !Eof() && IsSpace(PeekChar())
        invariant old(pos) <= pos <= |source|
        invariant Span(source, pos, Space).1 == Span(source, old(pos), Space).1
        decreases |source| - pos
      {
        var _ := ConsumeChar();
      }
    }

    /** The longest run of identifier characters at the cursor, which is
        moved past it. */
    method ParseIdentifier() returns (result: string)
      requires pos <= |source|
      modifies this
      ensures (result, pos) == Span(source, old(pos), Ident)
    {
      result := "";
      while !Eof() && (IsAlnum(PeekChar()) || PeekChar() == '-')
        invariant old(pos) <= pos <= |source|
        invariant Span(source, pos, Ident).1 == Span(source, old(pos), Ident).1
        invariant result == source[old(pos)..pos]
        decreases |source| - pos
      {
        var c := ConsumeChar();
        result := result + [c];
      }
      SpanRun(source, old(pos), Ident);
    }

    method ParseSelector() returns (selector: Selector)
      requires pos <= |source|
      modifies this
      ensures selector == Selector(Span(source, old(pos), Ident).0)
      ensures pos == Span(source, old(pos), Ident).1
    {
      var name := ParseIdentifier();
      selector := Selector(name);
    }

    method ParseSelectors() returns (r: Result<seq<Selector>, CssError>)
      requires pos <= |source|
      modifies this
      ensures r == Value(SelectorsFrom(source, old(pos), []))
      ensures r.Ok? ==> pos == SelectorsFrom(source, old(pos), []).value.1
    {
      var selectors: seq<Selector> := [];
      while PeekChar() != '{'
        invariant old(pos) <= pos <= |source|
        invariant SelectorsFrom(source, old(pos), []) == SelectorsFrom(source, pos, selectors)
        decreases |source| - pos
      {
        var start := pos;
        var selector := ParseSelector();
        selectors := selectors + [selector];
        ConsumeWhitespace();
        if PeekChar() == ',' {
          var _ := ConsumeChar();
          ConsumeWhitespace();
        }
        if pos == start {
          // Nothing was read: the source repeats this pass forever.
          return Err(NoProgress);
        }
      }
      r := Ok(selectors);
    }

    method ParseDeclaration() returns (r: Result<Declaration, CssError>)
      requires pos <= |source|
      modifies this
      ensures r == Value(DeclarationAt(source, old(pos)))
      ensures r.Ok? ==> pos == DeclarationAt(source, old(pos)).value.1
    {
      var property := ParseIdentifier();
      ConsumeWhitespace();
      var c := ConsumeChar();
      if c != ':' {
        return Err(ExpectedColon);
      }
      ConsumeWhitespace();
      var value := ParseIdentifier();
      ConsumeWhitespace();
      c := ConsumeChar();
      if c != ';' {
        return Err(ExpectedSemicolon);
      }
      r := Ok((property, value));
    }

    method ParseDeclarations() returns (r: Result<seq<Declaration>, CssError>)
      requires pos <= |source|
      modifies this
      ensures r == Value(DeclarationsFrom(source, old(pos), []))
      ensures r.Ok? ==> pos == DeclarationsFrom(source, old(pos), []).value.1
    {
      var declarations: seq<Declaration> := [];
      while PeekChar() != '}'
        invariant old(pos) <= pos <= |source|
        invariant DeclarationsFrom(source, old(pos), []) == DeclarationsFrom(source, pos, declarations)
        decreases |source| - pos
      {
        var d := ParseDeclaration();
        if d.Err? {
          return Err(d.error);
        }
        declarations := declarations + [d.value];
        ConsumeWhitespace();
      }
      r := Ok(declarations);
    }

    method ParseRule() returns (r: Result<CssRule, CssError>)
      requires pos <= |source|
      modifies this
      ensures r == Value(RuleAt(source, old(pos)))
      ensures r.Ok? ==> pos == RuleAt(source, old(pos)).value.1
    {
      var selectors := ParseSelectors();
      if selectors.Err? {
        return Err(selectors.error);
      }
      ConsumeWhitespace();
      var c := ConsumeChar();
      if c != '{' {
        return Err(ExpectedOpenBrace);
      }
      ConsumeWhitespace();
      var declarations := ParseDeclarations();
      if declarations.Err? {
        return Err(declarations.error);
      }
      ConsumeWhitespace();
      c := ConsumeChar();
      if c != '}' {
        return Err(ExpectedCloseBrace);
      }
      r := Ok(CssRule(selectors.value, declarations.value));
    }

    method Parse() returns (r: Result<Stylesheet, CssError>)
      requires pos <= |source|
      modifies this
      ensures r == (match RulesFrom(source, old(pos), [])
                    case Ok(rules) => Ok(Stylesheet(rules))
                    case Err(e) => Err(e))
    {
      var rules: seq<CssRule> := [];
      while !Eof()
        invariant old(pos) <= pos <= |source|
        invariant RulesFrom(source, old(pos), []) == RulesFrom(source, pos, rules)
        decreases |source| - pos
      {
        ConsumeWhitespace();
        if Eof() {
          break;
        }
        var rule := ParseRule();
        if rule.Err? {
          return Err(rule.error);
        }
        rules := rules + [rule.value];
      }
      r := Ok(Stylesheet(rules));
    }
  }

  // ---------------------------------------------------------------------
  // Properties of the parse.

  /** The rule loop only ever adds rules. */
  lemma {:induction false} RulesFromGrows(s: string, p: nat, acc: seq<CssRule>)
    requires p <= |s|
    ensures RulesFrom(s, p, acc).Ok? ==> |acc| <= |RulesFrom(s, p, acc).value|
    decreases |s| - p
  {
    if p < |s| {
      var p1 := Span(s, p, Space).1;
      if p1 < |s| && RuleAt(s, p1).Ok? {
        RulesFromGrows(s, RuleAt(s, p1).value.1, acc + [RuleAt(s, p1).value.0]);
      }
    }
  }

  /** A source parses to a stylesheet with no rules exactly when it is
      empty or all white space. */
  lemma BlankSourceHasNoRules(s: string)
    ensures Parse(s) == Ok(Stylesheet([])) <==> AllSatisfy(s, Space)
  {
    if |s| > 0 {
      var p1 := Span(s, 0, Space).1;
      if AllSatisfy(s, Space) {
        SpanUnique(s, 0, |s|, Space);
      } else {
        SpanRun(s, 0, Space);
        match RuleAt(s, p1)
        case Err(e) =>
        case Ok((rule, q)) =>
          assert [] + [rule] == [rule];
          assert RulesFrom(s, 0, []) == RulesFrom(s, q, [rule]);
          RulesFromGrows(s, q, [rule]);
      }
    }
  }

  /** The '{' and '}' tests of `parseRule` never fail: the selector loop
      only ends on a '{' and the declaration loop only on a '}', and white
      space skipping stops on either. */
  lemma BracesNeverMissing(s: string, p: nat)
    requires p <= |s|
    ensures RuleAt(s, p) != Err(ExpectedOpenBrace)
    ensures RuleAt(s, p) != Err(ExpectedCloseBrace)
  {
  }

  /** A selector list that is not closed by '{' makes the selector loop
      spin: `h1` alone never ends. */
  lemma UnterminatedSelectorSpins()
    ensures Parse("h1") == Err(NoProgress)
  {
  }

  // ---------------------------------------------------------------------
  // Printing a stylesheet, and reading it back.

  /** Selectors as an author writes them: separated by ", ", the last one
      followed by a space. */
  function SelectorsText(ss: seq<Selector>): string {
    if ss == [] then ""
    else ss[0].tagName + ((if |ss| == 1 then " " else ", ") + SelectorsText(ss[1..]))
  }

  function DeclarationText(d: Declaration): string {
    d.0 + (": " + (d.1 + ";"))
  }

  /** Declarations, each followed by a space. */
  function DeclarationsText(ds: seq<Declaration>): string {
    if ds == [] then "" else DeclarationText(ds[0]) + (" " + DeclarationsText(ds[1..]))
  }

  function RuleText(r: CssRule): string {
    SelectorsText(r.selectors) + ("{ " + (DeclarationsText(r.declarations) + "}"))
  }

  /** Rules, each on a line of its own. */
  function SheetText(rules: seq<CssRule>): string {
    if rules == [] then "" else RuleText(rules[0]) + "\n" + SheetText(rules[1..])
  }

  /** What the parser can read back: selectors are non-empty identifiers,
      properties and values are identifiers (possibly empty). */
  predicate PrintableSelectors(ss: seq<Selector>) {
    forall i :: 0 <= i < |ss| ==> ss[i].tagName != "" && AllSatisfy(ss[i].tagName, Ident)
  }

  predicate PrintableDeclarations(ds: seq<Declaration>) {
    forall i :: 0 <= i < |ds| ==> AllSatisfy(ds[i].0, Ident) && AllSatisfy(ds[i].1, Ident)
  }

  predicate PrintableRule(r: CssRule) {
    PrintableSelectors(r.selectors) && PrintableDeclarations(r.declarations)
  }

  predicate Printable(sheet: Stylesheet) {
    forall i :: 0 <= i < |sheet.rules| ==> PrintableRule(sheet.rules[i])
  }

  lemma DeclarationAtText(s: string, p: nat, d: Declaration, q: nat)
    requires AllSatisfy(d.0, Ident) && AllSatisfy(d.1, Ident)
    requires At(s, p, DeclarationText(d)) && q == p + |DeclarationText(d)|
    ensures DeclarationAt(s, p) == Ok((d, q))
  {
    AtAppend(s, p, d.0, ": " + (d.1 + ";"));
    var p1 := p + |d.0|;
    AtAppend(s, p1, ": ", d.1 + ";");
    var p3 := p1 + 2;
    AtAppend(s, p3, d.1, ";");
    AtIndex(s, p1, ": ", 0);
    AtIndex(s, p1, ": ", 1);
    AtIndex(s, p3 + |d.1|, ";", 0);
    if d.1 != "" {
      AtIndex(s, p3, d.1, 0);
      assert In(Ident, d.1[0]);
    }
    SpanOver(s, p, d.0, Ident);
    SpanOver(s, p1 + 1, " ", Space);
    SpanOver(s, p3, d.1, Ident);
  }

  /** The first character of a declaration list is not white space and not
      '}'. */
  lemma DeclarationsTextStart(ds: seq<Declaration>)
    requires ds != [] && AllSatisfy(ds[0].0, Ident)
    ensures |DeclarationsText(ds)| > 0
    ensures !IsSpace(DeclarationsText(ds)[0]) && DeclarationsText(ds)[0] != '}'
  {
    var d := ds[0];
    assert DeclarationsText(ds) == d.0 + ((": " + (d.1 + ";")) + (" " + DeclarationsText(ds[1..])));
    if d.0 != "" {
      assert In(Ident, d.0[0]);
    }
  }

  /** Where the first declaration of a printed list, and the space after
      it, leave the cursor. */
  lemma DeclarationsTextCons(s: string, p: nat, ds: seq<Declaration>, e: nat) returns (q: nat, q': nat)
    requires ds != [] && PrintableDeclarations(ds)
    requires At(s, p, DeclarationsText(ds)) && e == p + |DeclarationsText(ds)| && e < |s| && s[e] == '}'
    ensures p <= |s| && CharAt(s, p) != '}'
    ensures AllSatisfy(ds[0].0, Ident) && AllSatisfy(ds[0].1, Ident) && PrintableDeclarations(ds[1..])
    ensures At(s, p, DeclarationText(ds[0])) && q == p + |DeclarationText(ds[0])|
    ensures Span(s, q, Space).1 == q' && q' <= |s|
    ensures At(s, q', DeclarationsText(ds[1..])) && e == q' + |DeclarationsText(ds[1..])|
  {
    var d := ds[0];
    var rest := DeclarationsText(ds[1..]);
    AtAppend(s, p, DeclarationText(d), " " + rest);
    q := p + |DeclarationText(d)|;
    AtAppend(s, q, " ", rest);
    q' := q + 1;
    DeclarationsTextStart(ds);
    AtIndex(s, p, DeclarationsText(ds), 0);
    if ds[1..] != [] {
      assert ds[1..][0] == ds[1];
      DeclarationsTextStart(ds[1..]);
      AtIndex(s, q', rest, 0);
    }
    SpanOver(s, q, " ", Space);
    assert PrintableDeclarations(ds[1..]) by {
      forall i | 0 <= i < |ds[1..]| ensures AllSatisfy(ds[1..][i].0, Ident) && AllSatisfy(ds[1..][i].1, Ident) {
        assert ds[1..][i] == ds[i + 1];
      }
    }
  }

  /** One turn of the declaration loop. */
  lemma DeclarationsFromStep(s: string, p: nat, acc: seq<Declaration>, d: Declaration, q: nat, q': nat, acc': seq<Declaration>)
    requires p <= |s| && CharAt(s, p) != '}'
    requires DeclarationAt(s, p) == Ok((d, q))
    requires Span(s, q, Space).1 == q' && q' <= |s| && acc' == acc + [d]
    ensures DeclarationsFrom(s, p, acc) == DeclarationsFrom(s, q', acc')
  {
  }

  /** Printed declarations followed by '}' are read back, in their order,
      up to that '}'. */
  lemma {:induction false} DeclarationsFromText(s: string, p: nat, acc: seq<Declaration>, ds: seq<Declaration>, e: nat)
    requires PrintableDeclarations(ds)
    requires At(s, p, DeclarationsText(ds)) && e == p + |DeclarationsText(ds)| && e < |s| && s[e] == '}'
    ensures DeclarationsFrom(s, p, acc) == Ok((acc + ds, e))
    decreases |ds|
  {
    if ds == [] {
      AppendNil(acc, ds);
    } else {
      var q, q' := DeclarationsTextCons(s, p, ds, e);
      DeclarationAtText(s, p, ds[0], q);
      var acc' := acc + [ds[0]];
      DeclarationsFromStep(s, p, acc, ds[0], q, q', acc');
      DeclarationsFromText(s, q', acc', ds[1..], e);
      MoveHead(acc, ds, acc');
    }
  }

  /** Where the first selector of a printed list, and the separator after
      it, leave the cursor. */
  lemma SelectorsTextCons(s: string, p: nat, ss: seq<Selector>, e: nat) returns (p1: nat, p2: nat, p3: nat)
    requires ss != [] && PrintableSelectors(ss)
    requires At(s, p, SelectorsText(ss)) && e == p + |SelectorsText(ss)| && e < |s| && s[e] == '{'
    ensures p <= |s| && CharAt(s, p) != '{'
    ensures Span(s, p, Ident) == (ss[0].tagName, p1)
    ensures Span(s, p1, Space).1 == p2
    ensures p3 == (if CharAt(s, p2) == ',' then Span(s, p2 + 1, Space).1 else p2)
    ensures p3 != p && p3 <= |s| && PrintableSelectors(ss[1..])
    ensures At(s, p3, SelectorsText(ss[1..])) && e == p3 + |SelectorsText(ss[1..])|
  {
    var name := ss[0].tagName;
    var sep := if |ss| == 1 then " " else ", ";
    var rest := SelectorsText(ss[1..]);
    AtAppend(s, p, name, sep + rest);
    p1 := p + |name|;
    AtAppend(s, p1, sep, rest);
    AtIndex(s, p, name, 0);
    assert In(Ident, name[0]);
    AtIndex(s, p1, sep, 0);
    SpanOver(s, p, name, Ident);
    p3 := p1 + |sep|;
    if |ss| == 1 {
      SpanOver(s, p1, " ", Space);
      p2 := p1 + 1;
      assert ss[1..] == [];
    } else {
      assert ss[1].tagName != "" && In(Ident, ss[1].tagName[0]);
      assert rest == ss[1].tagName + ((if |ss[1..]| == 1 then " " else ", ") + SelectorsText(ss[2..]));
      AtIndex(s, p1 + 1, " " + rest, 1);
      assert Span(s, p1, Space).1 == p1;
      p2 := p1;
      SpanOver(s, p1 + 1, " ", Space);
    }
    assert PrintableSelectors(ss[1..]) by {
      forall i | 0 <= i < |ss[1..]| ensures ss[1..][i].tagName != "" && AllSatisfy(ss[1..][i].tagName, Ident) {
        assert ss[1..][i] == ss[i + 1];
      }
    }
  }

  /** One turn of the selector loop. */
  lemma SelectorsFromStep(s: string, p: nat, acc: seq<Selector>, name: string, p1: nat, p2: nat, p3: nat, acc': seq<Selector>)
    requires p <= |s| && CharAt(s, p) != '{'
    requires Span(s, p, Ident) == (name, p1) && Span(s, p1, Space).1 == p2
    requires p3 == (if CharAt(s, p2) == ',' then Span(s, p2 + 1, Space).1 else p2)
    requires p3 != p && p3 <= |s| && acc' == acc + [Selector(name)]
    ensures SelectorsFrom(s, p, acc) == SelectorsFrom(s, p3, acc')
  {
  }

  /** Printed selectors followed by '{' are read back, in their order, up
      to that '{'. */
  lemma {:induction false} SelectorsFromText(s: string, p: nat, acc: seq<Selector>, ss: seq<Selector>, e: nat)
    requires PrintableSelectors(ss)
    requires At(s, p, SelectorsText(ss)) && e == p + |SelectorsText(ss)| && e < |s| && s[e] == '{'
    ensures SelectorsFrom(s, p, acc) == Ok((acc + ss, e))
    decreases |ss|
  {
    if ss == [] {
      AppendNil(acc, ss);
    } else {
      var p1, p2, p3 := SelectorsTextCons(s, p, ss, e);
      var acc' := acc + [ss[0]];
      SelectorsFromStep(s, p, acc, ss[0].tagName, p1, p2, p3, acc');
      SelectorsFromText(s, p3, acc', ss[1..], e);
      MoveHead(acc, ss, acc');
    }
  }

  /** Where the parts of a printed rule lie. */
  lemma RuleTextParts(s: string, p: nat, r: CssRule, e: nat) returns (p1: nat, p4: nat)
    requires PrintableRule(r)
    requires At(s, p, RuleText(r)) && e == p + |RuleText(r)|
    ensures PrintableSelectors(r.selectors) && PrintableDeclarations(r.declarations)
    ensures At(s, p, SelectorsText(r.selectors)) && p1 == p + |SelectorsText(r.selectors)|
    ensures p1 + 2 <= |s| && s[p1] == '{' && Span(s, p1 + 1, Space).1 == p1 + 2
    ensures At(s, p1 + 2, DeclarationsText(r.declarations))
    ensures p4 == p1 + 2 + |DeclarationsText(r.declarations)| && p4 < |s| && s[p4] == '}'
    ensures e == p4 + 1
  {
    var sels := SelectorsText(r.selectors);
    var decls := DeclarationsText(r.declarations);
    AtAppend(s, p, sels, "{ " + (decls + "}"));
    p1 := p + |sels|;
    AtAppend(s, p1, "{ ", decls + "}");
    AtAppend(s, p1 + 2, decls, "}");
    p4 := p1 + 2 + |decls|;
    AtIndex(s, p1, "{ ", 0);
    AtIndex(s, p1, "{ ", 1);
    AtIndex(s, p4, "}", 0);
    if r.declarations != [] {
      DeclarationsTextStart(r.declarations);
      AtIndex(s, p1 + 2, decls, 0);
    }
    SpanOver(s, p1 + 1, " ", Space);
  }

  /** `parseRule` from its parts: the selectors end on '{', one space
      follows, and the declarations start right after it. */
  lemma RuleAtParts(s: string, p: nat, selectors: seq<Selector>, p1: nat, declarations: seq<Declaration>, p4: nat, e: nat)
    requires p <= |s|
    requires SelectorsFrom(s, p, []) == Ok((selectors, p1))
    requires p1 + 2 <= |s| && Span(s, p1 + 1, Space).1 == p1 + 2
    requires DeclarationsFrom(s, p1 + 2, []) == Ok((declarations, p4))
    requires e == p4 + 1
    ensures RuleAt(s, p) == Ok((CssRule(selectors, declarations), e))
  {
    assert Span(s, p1, Space).1 == p1;
    assert Span(s, p4, Space).1 == p4;
  }

  /** A printed rule is read back whole. */
  lemma RuleAtText(s: string, p: nat, r: CssRule, e: nat)
    requires PrintableRule(r)
    requires At(s, p, RuleText(r)) && e == p + |RuleText(r)|
    ensures RuleAt(s, p) == Ok((r, e))
  {
    var p1, p4 := RuleTextParts(s, p, r, e);
    SelectorsFromText(s, p, [], r.selectors, p1);
    DeclarationsFromText(s, p1 + 2, [], r.declarations, p4);
    RuleAtParts(s, p, [] + r.selectors, p1, [] + r.declarations, p4, e);
    AppendNil(r.selectors, []);
    AppendNil(r.declarations, []);
  }

  /** The first character of a rule is not white space. */
  lemma RuleTextStart(r: CssRule)
    requires PrintableRule(r)
    ensures |RuleText(r)| > 0 && !IsSpace(RuleText(r)[0])
  {
    if r.selectors != [] {
      var name := r.selectors[0].tagName;
      assert In(Ident, name[0]);
      assert SelectorsText(r.selectors) == name + ((if |r.selectors| == 1 then " " else ", ") + SelectorsText(r.selectors[1..]));
      assert RuleText(r)[0] == name[0];
    }
  }

  /** White space before a rule is skipped one character at a time. */
  lemma RulesFromSkip(s: string, q: nat, acc: seq<CssRule>, next: nat)
    requires q < |s| && IsSpace(s[q]) && next == q + 1
    ensures RulesFrom(s, q, acc) == RulesFrom(s, next, acc)
  {
    assert Span(s, q, Space).1 == Span(s, q + 1, Space).1;
  }

  /** One turn of the rule loop over a printed rule. */
  lemma RulesFromRule(s: string, p: nat, acc: seq<CssRule>, rule: CssRule, next: nat, acc': seq<CssRule>)
    requires PrintableRule(rule)
    requires At(s, p, RuleText(rule))
    requires next == p + |RuleText(rule)| && acc' == acc + [rule]
    ensures RulesFrom(s, p, acc) == RulesFrom(s, next, acc')
  {
    RuleTextStart(rule);
    AtIndex(s, p, RuleText(rule), 0);
    RuleAtText(s, p, rule, next);
    assert Span(s, p, Space).1 == p;
  }

  /** A printed rule and its newline: one turn of the rule loop, then the
      newline skipped as white space. */
  lemma RulesFromLine(s: string, p: nat, acc: seq<CssRule>, rule: CssRule, next: nat, acc': seq<CssRule>)
    requires PrintableRule(rule)
    requires Sub(s, p, RuleText(rule) + "\n")
    requires next == p + |RuleText(rule) + "\n"| && acc' == acc + [rule]
    ensures RulesFrom(s, p, acc) == RulesFrom(s, next, acc')
  {
    var q := p + |RuleText(rule)|;
    SubAt(s, p, RuleText(rule) + "\n");
    AtAppend(s, p, RuleText(rule), "\n");
    AtIndex(s, q, "\n", 0);
    RulesFromRule(s, p, acc, rule, q, acc');
    RulesFromSkip(s, q, acc', next);
  }

  /** How a printed stylesheet splits into its first line and the rest. */
  lemma SheetTextCons(s: string, p: nat, rules: seq<CssRule>, q: nat)
    requires rules != []
    requires Sub(s, p, SheetText(rules)) && p + |SheetText(rules)| == |s|
    requires q == p + |RuleText(rules[0]) + "\n"|
    ensures Sub(s, p, RuleText(rules[0]) + "\n")
    ensures Sub(s, q, SheetText(rules[1..])) && q + |SheetText(rules[1..])| == |s|
  {
    SubAppend(s, p, RuleText(rules[0]) + "\n", SheetText(rules[1..]));
  }

  lemma PrintableTail(rules: seq<CssRule>)
    requires rules != [] && Printable(Stylesheet(rules))
    ensures PrintableRule(rules[0]) && Printable(Stylesheet(rules[1..]))
  {
    forall i | 0 <= i < |rules[1..]| ensures PrintableRule(rules[1..][i]) {
      assert rules[1..][i] == rules[i + 1];
    }
  }

  lemma {:induction false} RulesFromText(s: string, p: nat, acc: seq<CssRule>, rules: seq<CssRule>)
    requires Printable(Stylesheet(rules))
    requires Sub(s, p, SheetText(rules)) && p + |SheetText(rules)| == |s|
    ensures RulesFrom(s, p, acc) == Ok(acc + rules)
    decreases |rules|
  {
    if rules == [] {
      assert acc + rules == acc;
    } else {
      var q := p + |RuleText(rules[0]) + "\n"|;
      var acc' := acc + [rules[0]];
      SheetTextCons(s, p, rules, q);
      PrintableTail(rules);
      RulesFromLine(s, p, acc, rules[0], q, acc');
      RulesFromText(s, q, acc', rules[1..]);
      MoveHead(acc, rules, acc');
    }
  }

  /** A printable stylesheet is read back from its text: rules, selectors
      and declarations in their order. */
  lemma ParseSheetText(sheet: Stylesheet)
    requires Printable(sheet)
    ensures Parse(SheetText(sheet.rules)) == Ok(sheet)
  {
    var s := SheetText(sheet.rules);
    assert s[0..|s|] == s;
    RulesFromText(s, 0, [], sheet.rules);
    assert [] + sheet.rules == sheet.rules;
  }
}
