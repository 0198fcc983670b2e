/**
  An independent reading of the masker: Rust text as a list of lexical elements.

  Rendering any well-formed list and masking it blanks exactly its comments and
  literals, whatever they contain: nested comments, escapes, quotes, braces.
*/
module MaskGrammar {
  import opened Prelude
  import opened MaskRust

  /** A piece of a block comment: one character, or a comment nested in it. */
  datatype Part = Ch(c: char) | Nest(parts: seq<Part>)

  /** A piece of a quoted literal: a plain character, or a backslash and the character it escapes. */
  datatype Unit = Plain(c: char) | Escape(c: char)

  datatype Element =
    | Code(c: char)
    | LineComment(body: string)
    | BlockComment(parts: seq<Part>)
    | Text(units: seq<Unit>)
    | RawText(prefix: string, hashes: nat, body: string)
    | Character(units: seq<Unit>)

  // ---------------------------------------------------------------- rendering

  function RenderPart(p: Part): string
    decreases p, 0
  {
    match p
    case Ch(c) => [c]
    case Nest(parts) => "/*" + RenderParts(parts) + "*/"
  }

  function RenderParts(ps: seq<Part>): string
    decreases ps, 1
  {
    if ps == [] then [] else RenderPart(ps[0]) + RenderParts(ps[1..])
  }

  function RenderUnits(us: seq<Unit>): string {
    if us == [] then []
    else (match us[0] case Plain(c) => [c] case Escape(c) => ['\\', c]) + RenderUnits(us[1..])
  }

  function HashRun(h: nat): string {
    if h == 0 then [] else HashRun(h - 1) + "#"
  }

  function Render(e: Element): string {
    match e
    case Code(c) => [c]
    case LineComment(body) => "//" + body
    case BlockComment(parts) => "/*" + RenderParts(parts) + "*/"
    case Text(units) => ['"'] + RenderUnits(units) + ['"']
    case RawText(prefix, h, body) => prefix + HashRun(h) + ['"'] + body + Closing(h)
    case Character(units) => ['\''] + RenderUnits(units) + ['\'']
  }

  function RenderAll(es: seq<Element>): string {
    if es == [] then [] else Render(es[0]) + RenderAll(es[1..])
  }

  /** The same list with its comments and literals blanked. */
  function Blanked(es: seq<Element>): string {
    if es == [] then []
    else (if es[0].Code? then Render(es[0]) else Blank(Render(es[0]))) + Blanked(es[1..])
  }

  // ---------------------------------------------------------------- well-formedness

  /** No accidental comment bracket: every character is read as itself before what follows it. */
  ghost predicate PartsOk(ps: seq<Part>, next: string)
    decreases ps
  {
    ps == [] ||
    (PartsOk(ps[1..], next) &&
     var after := RenderParts(ps[1..]) + next;
     match ps[0]
     case Ch(c) => !Starts([c] + after, '/', '*') && !Starts([c] + after, '*', '/')
     case Nest(parts) => PartsOk(parts, "*/" + after))
  }

  ghost predicate UnitsOk(us: seq<Unit>, quote: char) {
    forall k :: 0 <= k < |us| && us[k].Plain? ==> us[k].c != quote && us[k].c != '\\'
  }

  ghost predicate ElementOk(e: Element, rest: string) {
    match e
    case Code(c) => NothingOpens([c] + rest) && RawOpen([c] + rest).None?
    case LineComment(body) => '\n' !in body && (rest == [] || rest[0] == '\n')
    case BlockComment(parts) => PartsOk(parts, "*/" + rest)
    case Text(units) => UnitsOk(units, '"')
    case RawText(prefix, h, body) =>
      prefix in {"r", "br", "cr"} && h <= 255
      && forall k :: 0 <= k < |body| ==> !(Closing(h) <= (body + Closing(h))[k..])
    case Character(units) => UnitsOk(units, '\'') && CharLit(Render(e))
  }

  ghost predicate WellFormed(es: seq<Element>) {
    es == [] || (ElementOk(es[0], RenderAll(es[1..])) && WellFormed(es[1..]))
  }

  // ---------------------------------------------------------------- one element, one token

  /** A well-formed run of comment pieces is read through, whatever the depth. */
  lemma {:induction false} BlockReadsParts(ps: seq<Part>, next: string, depth: nat)
    requires PartsOk(ps, next) && depth >= 1
    ensures BlockLen(RenderParts(ps) + next, depth) == |RenderParts(ps)| + BlockLen(next, depth)
    decreases ps
  {
    if ps == [] {
      assert RenderParts(ps) + next == next;
    } else {
      var after := RenderParts(ps[1..]) + next;
      PartsCons(ps, next);
      BlockReadsParts(ps[1..], next, depth);
      match ps[0]
      case Ch(c) => PlainInComment(c, after, depth);
      case Nest(parts) =>
        BlockReadsParts(parts, "*/" + after, depth + 1);
        NestedComment(RenderPart(ps[0]) + after, RenderParts(parts), after, depth);
    }
  }

  lemma PartsCons(ps: seq<Part>, next: string)
    requires ps != []
    ensures RenderParts(ps) + next == RenderPart(ps[0]) + (RenderParts(ps[1..]) + next)
    ensures |RenderParts(ps)| == |RenderPart(ps[0])| + |RenderParts(ps[1..])|
  {
  }

  lemma PlainInComment(c: char, after: string, depth: nat)
    requires depth >= 1 && !Starts([c] + after, '/', '*') && !Starts([c] + after, '*', '/')
    ensures BlockLen([c] + after, depth) == 1 + BlockLen(after, depth)
  {
    assert ([c] + after)[1..] == after;
  }

  lemma NestedComment(s: string, inner: string, after: string, depth: nat)
    requires depth >= 1 && s == "/*" + inner + "*/" + after
    requires BlockLen(inner + ("*/" + after), depth + 1) == |inner| + BlockLen("*/" + after, depth + 1)
    ensures BlockLen(s, depth) == |inner| + 4 + BlockLen(after, depth)
  {
    assert Starts(s, '/', '*') && s[2..] == inner + ("*/" + after);
    var close := "*/" + after;
    assert Starts(close, '*', '/') && !Starts(close, '/', '*') && close[2..] == after;
  }

  lemma {:induction false} QuoteReadsUnits(us: seq<Unit>, quote: char, rest: string)
    requires UnitsOk(us, quote) && quote != '\\'
    ensures QuoteLen(RenderUnits(us) + [quote] + rest, quote) == |RenderUnits(us)| + 1
  {
    var s := RenderUnits(us) + [quote] + rest;
    if us == [] {
      assert s[0] == quote;
    } else {
      QuoteReadsUnits(us[1..], quote, rest);
      var tail := RenderUnits(us[1..]) + [quote] + rest;
      match us[0]
      case Plain(c) => assert s[0] == c && s[1..] == tail;
      case Escape(c) => assert s[0] == '\\' && s[2..] == tail;
    }
  }

  lemma {:induction false} FindReadsBody(body: string, pattern: string, rest: string)
    requires pattern != []
    requires forall k :: 0 <= k < |body| ==> !(pattern <= (body + pattern)[k..])
    ensures FindLen(body + pattern + rest, pattern) == |body| + |pattern|
    decreases |body|
  {
    var s := body + pattern + rest;
    if body == [] {
      assert pattern <= s;
    } else {
      assert (body + pattern)[0..] == body + pattern;
      assert s[..|pattern|] == (body + pattern)[..|pattern|];
      assert !(pattern <= s);
      forall k | 0 <= k < |body[1..]| ensures !(pattern <= (body[1..] + pattern)[k..]) {
        assert (body[1..] + pattern)[k..] == (body + pattern)[k + 1..];
      }
      FindReadsBody(body[1..], pattern, rest);
      assert s[1..] == body[1..] + pattern + rest;
    }
  }

  lemma {:induction false} HashesOfRun(h: nat)
    ensures |HashRun(h)| == h && forall k :: 0 <= k < h ==> HashRun(h)[k] == '#'
  {
    if h > 0 { HashesOfRun(h - 1); }
  }

  lemma {:induction false} HashesIs(s: string, h: nat)
    requires h < |s| && s[h] != '#' && forall k :: 0 <= k < h ==> s[k] == '#'
    ensures Hashes(s) == h
  {
    if h > 0 { HashesIs(s[1..], h - 1); }
  }

  lemma LineIsToken(body: string, rest: string)
    requires '\n' !in body && (rest == [] || rest[0] == '\n')
    ensures TokenLen("//" + body + rest) == Some(|body| + 2)
  {
    var s := "//" + body + rest;
    forall k | 0 <= k < |body| + 2 ensures s[k] != '\n' {
      if k >= 2 { assert s[k] == body[k - 2]; }
    }
    assert rest != [] ==> s[|body| + 2] == rest[0];
  }

  lemma BlockIsToken(parts: seq<Part>, rest: string)
    requires PartsOk(parts, "*/" + rest)
    ensures TokenLen(Render(BlockComment(parts)) + rest) == Some(|RenderParts(parts)| + 4)
  {
    var inner := RenderParts(parts);
    BlockReadsParts(parts, "*/" + rest, 1);
    ClosesBlock(rest);
    CommentLexeme(inner, rest);
    BlockTokenLen("/*" + inner + "*/" + rest, inner + ("*/" + rest));
  }

  lemma CommentLexeme(inner: string, rest: string)
    ensures var s := "/*" + inner + "*/" + rest; Starts(s, '/', '*') && s[2..] == inner + ("*/" + rest)
  {
  }

  lemma BlockTokenLen(s: string, tail: string)
    requires Starts(s, '/', '*') && s[2..] == tail
    ensures TokenLen(s) == Some(2 + BlockLen(tail, 1))
  {
  }

  lemma CodeTokenLen(s: string)
    requires s != [] && NothingOpens(s) && RawOpen(s).None?
    ensures TokenLen(s).None?
  {
  }

  lemma ClosesBlock(rest: string)
    ensures BlockLen("*/" + rest, 1) == 2
  {
    var close := "*/" + rest;
    assert Starts(close, '*', '/') && !Starts(close, '/', '*') && close[2..] == rest;
  }

  /** A quote that opens here is read by QuoteLen. */
  lemma QuoteTokenLen(s: string, tail: string)
    requires s != [] && (s[0] == '"' || (s[0] == '\'' && CharLit(s))) && s[1..] == tail
    ensures TokenLen(s) == Some(1 + QuoteLen(tail, s[0]))
  {
  }

  lemma QuoteLexeme(quote: char, inner: string, rest: string)
    ensures var s := [quote] + inner + [quote] + rest; s[0] == quote && s[1..] == inner + [quote] + rest
  {
    var s, tail := [quote] + inner + [quote] + rest, inner + [quote] + rest;
    assert s == [quote] + tail;
  }

  lemma QuoteIsToken(units: seq<Unit>, quote: char, rest: string)
    requires UnitsOk(units, quote) && (quote == '"' || (quote == '\'' && CharLit([quote] + RenderUnits(units) + [quote])))
    ensures TokenLen([quote] + RenderUnits(units) + [quote] + rest) == Some(|RenderUnits(units)| + 2)
  {
    var inner := RenderUnits(units);
    if quote == '\'' { LiteralExtends([quote] + inner + [quote], rest); }
    QuoteLexeme(quote, inner, rest);
    QuoteReadsUnits(units, quote, rest);
    QuoteTokenLen([quote] + inner + [quote] + rest, inner + [quote] + rest);
  }

  lemma LiteralExtends(s: string, rest: string)
    requires CharLit(s)
    ensures CharLit(s + rest)
  {
    if n :| 0 <= n < |s| && UnicodeEscape(s, n) {
      assert UnicodeEscape(s + rest, n);
    }
  }

  lemma RawPrefixOf(prefix: string, t: string)
    requires prefix in {"r", "br", "cr"}
    ensures RawPrefix(prefix + t) == |prefix| && (prefix + t)[0] != '/'
  {
    var s := prefix + t;
    assert s[0] == prefix[0];
    if |prefix| == 2 { assert s[1] == prefix[1]; }
  }

  lemma HashesThenQuote(h: nat, after: string)
    ensures var t := HashRun(h) + ['"'] + after;
            |HashRun(h)| == h && Hashes(t) == h && t[h] == '"' && t[h + 1..] == after
  {
    HashesOfRun(h);
    HashesIs(HashRun(h) + ['"'] + after, h);
  }

  lemma RawOpensHere(s: string, prefix: string, t: string, h: nat, after: string)
    requires prefix in {"r", "br", "cr"} && h <= 255 && s == prefix + t
    requires h < |t| && Hashes(t) == h && t[h] == '"' && t[h + 1..] == after
    ensures RawPrefix(s) == |prefix| && RawOpen(s) == Some(h) && s[|prefix| + h + 1..] == after && s[0] != '/'
  {
    RawPrefixOf(prefix, t);
    assert s[|prefix|..] == t && s[|prefix| + h] == t[h];
  }

  lemma RawTokenLen(s: string, p: nat, h: nat, after: string)
    requires s != [] && s[0] != '/' && RawPrefix(s) == p && RawOpen(s) == Some(h) && s[p + h + 1..] == after
    ensures TokenLen(s) == Some(p + h + 1 + FindLen(after, Closing(h)))
  {
  }

  lemma RawLexeme(prefix: string, hashes: string, body: string, closing: string, rest: string)
    ensures prefix + hashes + ['"'] + body + closing + rest == prefix + (hashes + ['"'] + (body + closing + rest))
  {
  }

  lemma RawReads(h: nat, body: string, rest: string)
    requires forall k :: 0 <= k < |body| ==> !(Closing(h) <= (body + Closing(h))[k..])
    ensures FindLen(body + Closing(h) + rest, Closing(h)) == |body| + h + 1
  {
    FindReadsBody(body, Closing(h), rest);
  }

  lemma RawLength(prefix: string, h: nat, body: string)
    ensures |prefix + HashRun(h) + ['"'] + body + Closing(h)| == |prefix| + h + 1 + |body| + h + 1
  {
    HashesOfRun(h);
  }

  /** The text after the prefix, and the text after the opening quote. */
  lemma RawSplit(lex: string, prefix: string, h: nat, body: string, rest: string) returns (t: string, after: string)
    requires lex == prefix + HashRun(h) + ['"'] + body + Closing(h)
    requires forall k :: 0 <= k < |body| ==> !(Closing(h) <= (body + Closing(h))[k..])
    ensures lex + rest == prefix + t && h < |t| && Hashes(t) == h && t[h] == '"' && t[h + 1..] == after
    ensures |lex| == |prefix| + h + 1 + FindLen(after, Closing(h))
  {
    RawReads(h, body, rest);
    RawLength(prefix, h, body);
    RawLexeme(prefix, HashRun(h), body, Closing(h), rest);
    after := body + Closing(h) + rest;
    HashesThenQuote(h, after);
    t := HashRun(h) + ['"'] + after;
  }

  lemma RawIsToken(lex: string, prefix: string, h: nat, body: string, rest: string)
    requires prefix in {"r", "br", "cr"} && h <= 255
    requires forall k :: 0 <= k < |body| ==> !(Closing(h) <= (body + Closing(h))[k..])
    requires lex == prefix + HashRun(h) + ['"'] + body + Closing(h)
    ensures TokenLen(lex + rest) == Some(|lex|)
  {
    var t, after := RawSplit(lex, prefix, h, body, rest);
    RawTextIsToken(lex + rest, prefix, t, h, after);
  }

  lemma RawTextIsToken(s: string, prefix: string, t: string, h: nat, after: string)
    requires prefix in {"r", "br", "cr"} && h <= 255 && s == prefix + t
    requires h < |t| && Hashes(t) == h && t[h] == '"' && t[h + 1..] == after
    ensures TokenLen(s) == Some(|prefix| + h + 1 + FindLen(after, Closing(h)))
  {
    RawOpensHere(s, prefix, t, h, after);
    RawTokenLen(s, |prefix|, h, after);
  }

  lemma CodeElement(c: char, rest: string)
    requires ElementOk(Code(c), rest)
    ensures TokenLen(Render(Code(c)) + rest).None?
  {
    CodeTokenLen([c] + rest);
  }

  lemma LineElement(body: string, rest: string)
    requires ElementOk(LineComment(body), rest)
    ensures TokenLen(Render(LineComment(body)) + rest) == Some(|Render(LineComment(body))|)
  {
    LineIsToken(body, rest);
  }

  lemma BlockElement(parts: seq<Part>, rest: string)
    requires ElementOk(BlockComment(parts), rest)
    ensures TokenLen(Render(BlockComment(parts)) + rest) == Some(|Render(BlockComment(parts))|)
  {
    BlockIsToken(parts, rest);
  }

  lemma TextElement(units: seq<Unit>, rest: string)
    requires ElementOk(Text(units), rest)
    ensures TokenLen(Render(Text(units)) + rest) == Some(|Render(Text(units))|)
  {
    QuoteIsToken(units, '"', rest);
  }

  lemma CharacterElement(units: seq<Unit>, rest: string)
    requires ElementOk(Character(units), rest)
    ensures TokenLen(Render(Character(units)) + rest) == Some(|Render(Character(units))|)
  {
    QuoteIsToken(units, '\'', rest);
  }

  /** Every element but code is exactly one token. */
  lemma ElementIsToken(e: Element, rest: string)
    requires ElementOk(e, rest)
    ensures TokenLen(Render(e) + rest) == if e.Code? then None else Some(|Render(e)|)
  {
    match e
    case Code(c) => CodeElement(c, rest);
    case LineComment(body) => LineElement(body, rest);
    case BlockComment(parts) => BlockElement(parts, rest);
    case Text(units) => TextElement(units, rest);
    case RawText(prefix, h, body) => RawIsToken(Render(e), prefix, h, body, rest);
    case Character(units) => CharacterElement(units, rest);
  }

  /** Masking a rendered text blanks its comments and literals, and nothing but them. */
  lemma {:induction false} MaskOfRendering(es: seq<Element>)
    requires WellFormed(es)
    ensures Mask(RenderAll(es)) == Blanked(es)
  {
    if es != [] {
      var lex, rest := Render(es[0]), RenderAll(es[1..]);
      MaskOfRendering(es[1..]);
      ElementIsToken(es[0], rest);
      MaskUnfolds(lex + rest, TokenLen(lex + rest));
      assert (lex + rest)[..|lex|] == lex && (lex + rest)[|lex|..] == rest;
    }
  }

  // ---------------------------------------------------------------- character literals

  /** What stands between the quotes: one character, one escape, two hexadecimal digits, or a code point in braces. */
  datatype CharBody = One(c: char) | Escaped(c: char) | HexByte(a: char, b: char) | CodePoint(digits: string)

  function RenderBody(b: CharBody): string {
    match b
    case One(c) => [c]
    case Escaped(c) => ['\\', c]
    case HexByte(a, b) => ['\\', 'x', a, b]
    case CodePoint(digits) => ['\\', 'u', '{'] + digits + ['}']
  }

  predicate BodyOk(b: CharBody) {
    match b
    case One(c) => c != '\'' && c != '\\' && c != '\n'
    case Escaped(c) => c != '\n'
    case HexByte(a, b) => Hex(a) && Hex(b)
    case CodePoint(digits) => digits != [] && forall k :: 0 <= k < |digits| ==> Hex(digits[k])
  }

  function RenderCharacter(b: CharBody): string {
    ['\''] + RenderBody(b) + ['\'']
  }

  lemma PlainBody(s: string)
    requires CharLit(s) && s[1] != '\\'
    ensures BodyOk(One(s[1])) && RenderCharacter(One(s[1])) <= s
  {
    assert RenderCharacter(One(s[1])) == s[..3];
  }

  lemma EscapedBody(s: string)
    requires |s| >= 4 && s[0] == '\'' && s[1] == '\\' && s[2] != '\n' && s[3] == '\''
    ensures BodyOk(Escaped(s[2])) && RenderCharacter(Escaped(s[2])) <= s
  {
    assert RenderCharacter(Escaped(s[2])) == s[..4];
  }

  lemma HexBody(s: string)
    requires |s| >= 6 && s[0] == '\'' && s[1] == '\\' && s[2] == 'x' && Hex(s[3]) && Hex(s[4]) && s[5] == '\''
    ensures BodyOk(HexByte(s[3], s[4])) && RenderCharacter(HexByte(s[3], s[4])) <= s
  {
    assert RenderCharacter(HexByte(s[3], s[4])) == s[..6];
  }

  lemma CodePointBody(s: string, n: nat)
    requires |s| >= 3 && s[0] == '\'' && s[1] == '\\' && UnicodeEscape(s, n)
    ensures BodyOk(CodePoint(s[4..4 + n])) && RenderCharacter(CodePoint(s[4..4 + n])) <= s
  {
    assert RenderCharacter(CodePoint(s[4..4 + n])) == s[..n + 6];
  }

  lemma LiteralBody(s: string) returns (b: CharBody)
    requires CharLit(s)
    ensures BodyOk(b) && RenderCharacter(b) <= s
  {
    if s[1] != '\\' {
      PlainBody(s);
      return One(s[1]);
    }
    if |s| >= 4 && s[2] != '\n' && s[3] == '\'' {
      EscapedBody(s);
      return Escaped(s[2]);
    }
    if |s| >= 6 && s[2] == 'x' && Hex(s[3]) && Hex(s[4]) && s[5] == '\'' {
      HexBody(s);
      return HexByte(s[3], s[4]);
    }
    var n :| 0 <= n < |s| && UnicodeEscape(s, n);
    CodePointBody(s, n);
    b := CodePoint(s[4..4 + n]);
  }

  lemma BodyIsLiteral(b: CharBody, s: string)
    requires BodyOk(b) && RenderCharacter(b) <= s
    ensures CharLit(s)
  {
    var r := RenderCharacter(b);
    assert forall k :: 0 <= k < |r| ==> s[k] == r[k];
    match b
    case One(c) => assert r[1] == c && r[2] == '\'';
    case Escaped(c) => assert r[1] == '\\' && r[2] == c && r[3] == '\'';
    case HexByte(x, y) => assert r[1] == '\\' && r[2] == 'x' && r[3] == x && r[4] == y && r[5] == '\'';
    case CodePoint(digits) =>
      var n := |digits|;
      assert r[1] == '\\' && r[2] == 'u' && r[3] == '{' && r[4 + n] == '}' && r[5 + n] == '\'';
      assert forall k :: 4 <= k < 4 + n ==> r[k] == digits[k - 4];
      assert UnicodeEscape(s, n);
  }

  /** A character literal opens exactly where one of these renderings stands. */
  lemma CharLitIs(s: string)
    ensures CharLit(s) <==> exists b :: BodyOk(b) && RenderCharacter(b) <= s
  {
    if CharLit(s) {
      var b := LiteralBody(s);
    }
    if b :| BodyOk(b) && RenderCharacter(b) <= s { BodyIsLiteral(b, s); }
  }
}
