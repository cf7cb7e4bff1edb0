/** The HTML tokenizer (src/parser/HtmlTokenizer.cpp): a cursor over the
    source text that emits open tags (with quoted attributes), close tags
    and text runs, then a final END_OF_FILE token.

    The first half gives, for every scanning routine, a function of the
    source and the cursor position it starts at that says where the
    routine leaves the cursor and what it returns. The class `Tokenizer`
    at the end is the scanner itself, one method per routine, each proved
    to do what its function says.

    `parseAttributes` never returns on some inputs (end of input before
    '>', or a character that is neither alphanumeric, '=' nor white space
    where an attribute name should start): one pass of its loop then leaves
    the cursor where it was and, since the loop's state is just that
    cursor, every later pass does the same. The model detects such a pass
    and reports `None` ("does not terminate") instead of looping. */
module HtmlTokenizer {
  import opened Common
  import opened Dom

  /** What a well-formed token of each kind looks like; every token the
      tokenizer emits is one. */
  predicate WellFormedToken(t: Token) {
    match t.kind
    case Text =>
      |t.value| > 0 && !IsSpace(t.value[0]) && AllSatisfy(t.value, NotLt) && t.attributes == map[]
    case CloseTag =>
      AllSatisfy(t.value, NotGt) && t.attributes == map[]
    case OpenTag =>
      AllSatisfy(t.value, TagName) &&
      forall k :: k in t.attributes ==> AllSatisfy(k, Alnum) && AllSatisfy(t.attributes[k], NotQuote)
    case EndOfFile =>
      t == EofToken()
    case Comment =>
      false
  }

  // ---------------------------------------------------------------------
  // Specification of each routine, as a function of (source, cursor)
  // ---------------------------------------------------------------------

  /** `parseAttributeValue`: skip white space; a value is the text between
      a pair of double quotes, and without an opening quote it is empty and
      nothing more is consumed. The closing quote is consumed even when the
      input ends first, which leaves the cursor one past the end. */
  function AttrValueAt(s: string, p: nat): (r: (string, nat))
    requires p <= |s| + 1
    ensures p <= r.1 <= |s| + 1
  {
    var p1 := Span(s, p, Space).1;
    if CharAt(s, p1) == '"' then
      var (v, q) := Span(s, p1 + 1, NotQuote);
      (v, q + 1)
    else
      ("", p1)
  }

  /** One pass of the `parseAttributes` loop: white space, an alphanumeric
      name, white space, and, when '=' follows, the '=' and a value. A name
      not followed by '=' is read and dropped. */
  function AttrStepAt(s: string, p: nat): (r: (Option<(string, string)>, nat))
    requires p <= |s| + 1
    ensures p <= r.1 <= |s| + 1
    ensures r.0.Some? ==> p < r.1
  {
    var p1 := Span(s, p, Space).1;
    var (name, n) := Span(s, p1, Alnum);
    var p2 := Span(s, n, Space).1;
    if CharAt(s, p2) == '=' then
      var (v, p3) := AttrValueAt(s, p2 + 1);
      (Some((name, v)), p3)
    else
      (None, p2)
  }

  /** `parseAttributes` from cursor `p`, with the assignments `acc` already
      made: all assignments in source order and the position of the '>'
      that ends them, or `None` when the loop would spin forever. */
  function AttrsFrom(s: string, p: nat, acc: seq<(string, string)>): (r: Option<(seq<(string, string)>, nat)>)
    requires p <= |s| + 1
    ensures r.Some? ==> p <= r.value.1 < |s| && s[r.value.1] == '>'
    decreases |s| + 2 - p
  {
    if CharAt(s, p) == '>' then
      Some((acc, p))
    else
      var step := AttrStepAt(s, p);
      if step.1 == p then None
      else AttrsFrom(s, step.1, if step.0.Some? then acc + [step.0.value] else acc)
  }

  /** One turn of the attribute loop that moves the cursor. */
  lemma AttrsFromStep(s: string, p: nat, acc: seq<(string, string)>, step: (Option<(string, string)>, nat), acc': seq<(string, string)>)
    requires p <= |s| + 1 && CharAt(s, p) != '>'
    requires step == AttrStepAt(s, p) && step.1 != p
    requires acc' == if step.0.Some? then acc + [step.0.value] else acc
    ensures AttrsFrom(s, p, acc) == AttrsFrom(s, step.1, acc')
  {
  }

  function AttrsAt(s: string, p: nat): Option<(seq<(string, string)>, nat)>
    requires p <= |s| + 1
  {
    AttrsFrom(s, p, [])
  }

  /** `nextToken`, entered before the end of input: skip white space, then
      read a close tag, an open tag with its attributes, or a text run.
      Only white space left gives an END_OF_FILE token. */
  function TokenAt(s: string, p: nat): (r: Option<(Token, nat)>)
    requires p < |s|
    ensures r.Some? ==> p < r.value.1 <= |s| + 1
  {
    var p1 := Span(s, p, Space).1;
    if p1 >= |s| then
      Some((EofToken(), p1))
    else if s[p1] == '<' then
      if CharAt(s, p1 + 1) == '/' then
        var (name, q) := Span(s, p1 + 2, NotGt);
        Some((Token(CloseTag, name, map[]), q + 1))
      else
        var (name, n) := Span(s, p1 + 1, TagName);
        match AttrsAt(s, n)
        case None => None
        case Some((ps, e)) =>
          Some((Token(OpenTag, name, AssignAll(map[], ps)), e + 1))
    else
      var (text, q) := Span(s, p1, NotLt);
      Some((Token(Text, text, map[]), q))
  }

  /** `tokenize` from cursor `p`, with the tokens `acc` already collected:
      tokens until the end of input, then one END_OF_FILE token; `None`
      when some open tag's attributes never end. */
  function TokensFrom(s: string, p: nat, acc: seq<Token>): (r: Option<seq<Token>>)
    requires p <= |s| + 1
    decreases |s| + 1 - p
  {
    if p >= |s| then
      Some(acc + [EofToken()])
    else
      match TokenAt(s, p)
      case None => None
      case Some((t, p')) => TokensFrom(s, p', acc + [t])
  }

  function Tokenize(s: string): Option<seq<Token>> {
    TokensFrom(s, 0, [])
  }

  // ---------------------------------------------------------------------
  // What the tokenizer emits
  // ---------------------------------------------------------------------

  /** An attribute as the scanner reads it: an alphanumeric name and a value
      without double quotes. */
  predicate WellFormedPair(pr: (string, string)) {
    AllSatisfy(pr.0, Alnum) && AllSatisfy(pr.1, NotQuote)
  }

  /** After white space, a value is the text between a pair of double
      quotes, both consumed (the closing one may be the end of input);
      without an opening quote it is empty and the cursor stays after the
      white space. */
  lemma AttrValueAtShape(s: string, p: nat)
    requires p <= |s| + 1
    ensures var p1 := Span(s, p, Space).1;
      CharAt(s, p1) != '"' ==> AttrValueAt(s, p) == ("", p1)
    ensures var p1 := Span(s, p, Space).1;
      var (v, q) := AttrValueAt(s, p);
      CharAt(s, p1) == '"' ==>
        p1 + 2 <= q && v == s[p1 + 1..q - 1] && AllSatisfy(v, NotQuote) && (q - 1 == |s| || s[q - 1] == '"')
  {
    var p1 := Span(s, p, Space).1;
    if CharAt(s, p1) == '"' {
      SpanRun(s, p1 + 1, NotQuote);
    }
  }

  /** A value never holds a double quote. */
  lemma AttrValueAtQuoteFree(s: string, p: nat)
    requires p <= |s| + 1
    ensures AllSatisfy(AttrValueAt(s, p).0, NotQuote)
  {
    var p1 := Span(s, p, Space).1;
    if CharAt(s, p1) == '"' {
      SpanRun(s, p1 + 1, NotQuote);
    }
  }

  /** A pass that assigns, assigns a well-formed pair. */
  lemma AttrStepAtWellFormed(s: string, p: nat)
    requires p <= |s| + 1
    ensures AttrStepAt(s, p).0.Some? ==> WellFormedPair(AttrStepAt(s, p).0.value)
  {
    var p1 := Span(s, p, Space).1;
    if p1 <= |s| {
      SpanRun(s, p1, Alnum);
    }
    var p2 := Span(s, Span(s, p1, Alnum).1, Space).1;
    if CharAt(s, p2) == '=' {
      AttrValueAtQuoteFree(s, p2 + 1);
    }
  }

  /** `parseAttributes` only ever assigns well-formed pairs. */
  lemma {:induction false} AttrsFromWellFormed(s: string, p: nat, acc: seq<(string, string)>)
    requires p <= |s| + 1
    requires forall i :: 0 <= i < |acc| ==> WellFormedPair(acc[i])
    ensures AttrsFrom(s, p, acc).Some? ==>
              forall i :: 0 <= i < |AttrsFrom(s, p, acc).value.0| ==> WellFormedPair(AttrsFrom(s, p, acc).value.0[i])
    decreases |s| + 2 - p
  {
    if CharAt(s, p) != '>' {
      var step := AttrStepAt(s, p);
      if step.1 != p {
        AttrStepAtWellFormed(s, p);
        AttrsFromWellFormed(s, step.1, if step.0.Some? then acc + [step.0.value] else acc);
      }
    }
  }

  /** Every token `nextToken` returns is well-formed. */
  lemma TokenAtWellFormed(s: string, p: nat)
    requires p < |s|
    ensures TokenAt(s, p).Some? ==> WellFormedToken(TokenAt(s, p).value.0)
  {
    var p1 := Span(s, p, Space).1;
    if p1 < |s| {
      if s[p1] == '<' {
        if CharAt(s, p1 + 1) == '/' {
          SpanRun(s, p1 + 2, NotGt);
        } else {
          SpanRun(s, p1 + 1, TagName);
          var n := Span(s, p1 + 1, TagName).1;
          AttrsFromWellFormed(s, n, []);
          if AttrsAt(s, n).Some? {
            AssignAllDomain(map[], AttrsAt(s, n).value.0);
          }
        }
      } else {
        SpanRun(s, p1, NotLt);
      }
    }
  }

  /** Everything `tokenize` emits after the tokens `acc` is well-formed and
      the list ends with END_OF_FILE. An END_OF_FILE token stands only in
      the last two places: `nextToken` returns one when nothing but white
      space is left, and `tokenize` then appends its own. */
  lemma {:induction false} TokensFromWellFormed(s: string, p: nat, acc: seq<Token>)
    requires p <= |s| + 1
    requires forall i :: 0 <= i < |acc| ==> WellFormedToken(acc[i]) && acc[i].kind != EndOfFile
    ensures TokensFrom(s, p, acc).Some? ==>
              var ts := TokensFrom(s, p, acc).value;
              |ts| > |acc| && ts[|ts| - 1] == EofToken() &&
              (forall i :: 0 <= i < |ts| ==> WellFormedToken(ts[i])) &&
              (forall i :: 0 <= i < |ts| - 2 ==> ts[i].kind != EndOfFile)
    decreases |s| + 1 - p
  {
    if p < |s| {
      TokenAtWellFormed(s, p);
      match TokenAt(s, p)
      case None =>
      case Some((t, p')) =>
        if t.kind == EndOfFile {
          assert TokensFrom(s, p', acc + [t]) == Some(acc + [t] + [EofToken()]);
        } else {
          TokensFromWellFormed(s, p', acc + [t]);
        }
    }
  }

  /** The whole token list: well-formed tokens, END_OF_FILE last, and no
      END_OF_FILE before the last two places. */
  lemma TokenizeWellFormed(s: string)
    ensures Tokenize(s).Some? ==>
              var ts := Tokenize(s).value;
              |ts| > 0 && ts[|ts| - 1] == EofToken() &&
              (forall i :: 0 <= i < |ts| ==> WellFormedToken(ts[i])) &&
              (forall i :: 0 <= i < |ts| - 2 ==> ts[i].kind != EndOfFile)
  {
    TokensFromWellFormed(s, 0, []);
  }

  /** An open tag whose attributes never reach '>' makes the source loop
      forever. */
  lemma UnclosedTagDiverges()
    ensures Tokenize("<p") == None
  {
  }

  /** White space after the last tag yields an END_OF_FILE token from
      `nextToken` and then the final one. */
  lemma TrailingSpaceGivesTwoEofTokens()
    ensures Tokenize("<b> ") == Some([Token(OpenTag, "b", map[]), EofToken(), EofToken()])
  {
    var s := "<b> ";
    assert Span(s, 2, TagName) == ("", 2);
    assert [s[1]] + "" == "b";
    assert Span(s, 1, TagName) == ("b", 2);
    assert AttrsAt(s, 2) == Some(([], 2));
    assert TokenAt(s, 0) == Some((Token(OpenTag, "b", map[]), 3));
    assert Span(s, 3, Space).1 == 4;
    assert TokenAt(s, 3) == Some((EofToken(), 4));
    var t := Token(OpenTag, "b", map[]);
    assert |s| == 4;
    assert [t, EofToken()] + [EofToken()] == [t, EofToken(), EofToken()];
    assert TokensFrom(s, 4, [t, EofToken()]) == Some([t, EofToken(), EofToken()]);
    assert [t] + [EofToken()] == [t, EofToken()];
    assert TokensFrom(s, 3, [t]) == TokensFrom(s, 4, [t, EofToken()]);
    assert [] + [t] == [t];
  }

  // ---------------------------------------------------------------------
  // The scanner
  // ---------------------------------------------------------------------

  class Tokenizer {
    const source: string
    var pos: nat

    constructor (src: string)
      ensures source == src && pos == 0
    {
      source := src;
      pos := 0;
    }

    function Eof(): bool
      reads this
    {
      pos >= |source|
    }

    function PeekChar(): (c: char)
      reads this
      ensures c == CharAt(source, pos)
    {
      if Eof() then '\0' else source[pos]
    }

    method ConsumeChar() returns (c: char)
      requires pos <= |source|
      modifies this
      ensures pos == old(pos) + 1 && c == CharAt(source, old(pos))
    {
      c := CharAt(source, pos);
      pos := pos + 1;
    }

    method ConsumeWhitespace()
      requires pos <= |source| + 1
      modifies this
      ensures pos <= |source| + 1 && pos == Span(source, old(pos), Space).1
    {
      while !Eof() && IsSpace(PeekChar())
        invariant pos <= |source| + 1 && old(pos) <= pos
        invariant Span(source, pos, Space).1 == Span(source, old(pos), Space).1
        decreases |source| - pos
      {
        var _ := ConsumeChar();
      }
    }

    /** The longest run of `pred` characters at the cursor, which is moved
        past it. */
    method ConsumeWhile(pred: CharClass) returns (r: string)
      requires pos <= |source| + 1
      modifies this
      ensures pos <= |source| + 1 && (r, pos) == Span(source, old(pos), pred)
    {
      r := "";
      while !Eof() && In(pred, PeekChar())
        invariant pos <= |source| + 1 && old(pos) <= pos
        invariant Span(source, pos, pred).1 == Span(source, old(pos), pred).1
        invariant old(pos) <= |source| ==> pos <= |source| && r == source[old(pos)..pos]
        invariant old(pos) > |source| ==> pos == old(pos) && r == ""
        decreases |source| - pos
      {
        var c := ConsumeChar();
        r := r + [c];
      }
      if old(pos) <= |source| {
        SpanRun(source, old(pos), pred);
      }
    }

    method ParseAttributeValue() returns (value: string)
      requires pos <= |source| + 1
      modifies this
      ensures pos <= |source| + 1 && (value, pos) == AttrValueAt(source, old(pos))
    {
      ConsumeWhitespace();
      value := "";
      if PeekChar() == '"' {
        var _ := ConsumeChar();
        value := ConsumeWhile(NotQuote);
        var _ := ConsumeChar();
      }
    }

    /** The attribute map of an open tag, the cursor left on its '>';
        `None` when the source would loop forever. */
    method ParseAttributes() returns (r: Option<map<string, string>>)
      requires pos <= |source| + 1
      modifies this
      ensures pos <= |source| + 1
      ensures r.None? <==> AttrsAt(source, old(pos)).None?
      ensures r.Some? ==>
                r.value == AssignAll(map[], AttrsAt(source, old(pos)).value.0) &&
                pos == AttrsAt(source, old(pos)).value.1
    {
      var attributes: map<string, string> := map[];
      ghost var pairs: seq<(string, string)> := [];
      while PeekChar() != '>'
        invariant pos <= |source| + 1 && old(pos) <= pos
        invariant attributes == AssignAll(map[], pairs)
        invariant AttrsAt(source, old(pos)) == AttrsFrom(source, pos, pairs)
        decreases |source| + 2 - pos
      {
        var start := pos;
        ghost var step := AttrStepAt(source, start);
        ghost var before := pairs;
        ConsumeWhitespace();
        var name := ConsumeWhile(Alnum);
        ConsumeWhitespace();
        ghost var p2 := pos;
        if PeekChar() == '=' {
          var _ := ConsumeChar();
          var value := ParseAttributeValue();
          assert (value, pos) == AttrValueAt(source, p2 + 1);
          assert step == (Some((name, value)), pos);
          AssignAllSnoc(map[], pairs, name, value);
          attributes := attributes[name := value];
          pairs := pairs + [(name, value)];
        } else {
          assert step == (None, pos);
        }
        if pos == start {
          // No character was consumed: the source repeats this pass forever.
          return None;
        }
        AttrsFromStep(source, start, before, step, pairs);
      }
      r := Some(attributes);
    }

    /** One token, entered before the end of input as `tokenize` does. */
    method NextToken() returns (r: Option<Token>)
      requires pos < |source|
      modifies this
      ensures pos <= |source| + 1
      ensures r.None? <==> TokenAt(source, old(pos)).None?
      ensures r.Some? ==> (r.value, pos) == TokenAt(source, old(pos)).value
    {
      ConsumeWhitespace();
      ghost var p1 := pos;
      if Eof() {
        return Some(EofToken());
      }
      if PeekChar() == '<' {
        var _ := ConsumeChar();
        if PeekChar() == '/' {
          var _ := ConsumeChar();
          var tagName := ConsumeWhile(NotGt);
          var _ := ConsumeChar();
          r := Some(Token(CloseTag, tagName, map[]));
        } else {
          var tagName := ConsumeWhile(TagName);
          var attributes := ParseAttributes();
          if attributes.None? {
            return None;
          }
          var _ := ConsumeChar();
          r := Some(Token(OpenTag, tagName, attributes.value));
        }
      } else {
        var text := ConsumeWhile(NotLt);
        r := Some(Token(Text, text, map[]));
      }
    }

    /** The whole token list; `None` when the source would loop forever. */
    method Tokenize() returns (r: Option<seq<Token>>)
      requires pos <= |source| + 1
      modifies this
      ensures r == TokensFrom(source, old(pos), [])
    {
      var tokens: seq<Token> := [];
      while !Eof()
        invariant pos <= |source| + 1 && old(pos) <= pos
        invariant TokensFrom(source, old(pos), []) == TokensFrom(source, pos, tokens)
        decreases |source| + 1 - pos
      {
        var t := NextToken();
        if t.None? {
          return None;
        }
        tokens := tokens + [t.value];
      }
      r := Some(tokens + [EofToken()]);
    }
  }
}
