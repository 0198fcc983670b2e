/**
  The test ledger's Rust masker: comments, strings, raw strings and character literals
  become blanks, everything else stays, and no character moves.

  All scanners look at the text from the current position on.
*/
module MaskRust {
  import opened Prelude

  predicate Starts(s: string, a: char, b: char) {
    |s| >= 2 && s[0] == a && s[1] == b
  }

  // ---------------------------------------------------------------- how far a token reaches

  /** Up to the next newline. */
  function LineLen(s: string): (n: nat)
    ensures n <= |s| && (n < |s| ==> s[n] == '\n') && forall k :: 0 <= k < n ==> s[k] != '\n'
  {
    if s == [] || s[0] == '\n' then 0 else 1 + LineLen(s[1..])
  }

  /** The rest of a block comment that is open `depth` times. */
  function BlockLen(s: string, depth: nat): (n: nat)
    ensures n <= |s|
    decreases |s|
  {
    if s == [] || depth == 0 then 0
    else if Starts(s, '/', '*') then 2 + BlockLen(s[2..], depth + 1)
    else if Starts(s, '*', '/') then 2 + BlockLen(s[2..], depth - 1)
    else 1 + BlockLen(s[1..], depth)
  }

  /** The rest of a quoted literal; a backslash takes the next character with it, even past the end. */
  function QuoteLen(s: string, quote: char): (n: nat)
    ensures n <= |s| + 1
    decreases |s|
  {
    if s == [] then 0
    else if s[0] == '\\' then 2 + QuoteLen(if |s| >= 2 then s[2..] else [], quote)
    else if s[0] == quote then 1
    else 1 + QuoteLen(s[1..], quote)
  }

  function Hashes(s: string): (n: nat)
    ensures n <= |s| && (n < |s| ==> s[n] != '#') && forall k :: 0 <= k < n ==> s[k] == '#'
  {
    if s == [] || s[0] != '#' then 0 else 1 + Hashes(s[1..])
  }

  /** Length of `r`, `br` or `cr` at the start, or nothing. */
  function RawPrefix(s: string): (n: nat)
    ensures n <= |s|
  {
    if s != [] && s[0] == 'r' then 1
    else if Starts(s, 'b', 'r') || Starts(s, 'c', 'r') then 2
    else 0
  }

  /** The number of hashes of a raw string opening here. */
  function RawOpen(s: string): (h: Option<nat>)
    ensures h.Some? ==> RawPrefix(s) + h.value < |s|
  {
    var p := RawPrefix(s);
    if p == 0 then None
    else
      var h := Hashes(s[p..]);
      if h <= 255 && p + h < |s| && s[p + h] == '"' then Some(h) else None
  }

  function Closing(h: nat): (c: string)
    ensures |c| == h + 1 && c[0] == '"' && forall k :: 1 <= k <= h ==> c[k] == '#'
  {
    if h == 0 then "\"" else Closing(h - 1) + "#"
  }

  /** Up to and including the first occurrence of `pattern`, or to the end. */
  function FindLen(s: string, pattern: string): (n: nat)
    ensures n <= |s|
    decreases |s|
  {
    if pattern <= s then |pattern|
    else if s == [] then 0
    else 1 + FindLen(s[1..], pattern)
  }

  predicate Hex(c: char) {
    '0' <= c <= '9' || 'a' <= c <= 'f' || 'A' <= c <= 'F'
  }

  /** `'` h+ `'` in braces: n hexadecimal digits, then the closing brace and quote. */
  predicate UnicodeEscape(s: string, n: nat) {
    && n >= 1 && n + 6 <= |s| && s[2] == 'u' && s[3] == '{'
    && (forall k :: 4 <= k < 4 + n ==> Hex(s[k])) && s[4 + n] == '}' && s[5 + n] == '\''
  }

  /** A character literal opens here: the regular expression of the source. */
  predicate CharLit(s: string) {
    && |s| >= 3 && s[0] == '\''
    && (if s[1] == '\\' then
          || (|s| >= 4 && s[2] != '\n' && s[3] == '\'')
          || (|s| >= 6 && s[2] == 'x' && Hex(s[3]) && Hex(s[4]) && s[5] == '\'')
          || (exists n :: 0 <= n < |s| && UnicodeEscape(s, n))
        else s[1] != '\'' && s[1] != '\n' && s[2] == '\'')
  }

  /** Length of the token to blank at the start of s, if one starts there. */
  function TokenLen(s: string): (n: Option<nat>)
    requires s != []
    ensures n.Some? ==> n.value >= 1 && (n.value >= 2 || n.value >= |s|)
  {
    if Starts(s, '/', '/') then Some(LineLen(s))
    else if Starts(s, '/', '*') then Some(2 + BlockLen(s[2..], 1))
    else
      match RawOpen(s)
      case Some(h) =>
        var open := RawPrefix(s) + h + 1;
        Some(open + FindLen(s[open..], Closing(h)))
      case None =>
        if s[0] == '"' || CharLit(s) then Some(1 + QuoteLen(s[1..], s[0])) else None
  }

  function BlankChar(c: char): char {
    if c == '\n' then '\n' else ' '
  }

  function Blank(s: string): (r: string)
    ensures |r| == |s|
  {
    seq(|s|, k requires 0 <= k < |s| => BlankChar(s[k]))
  }

  function Clip(n: nat, s: string): nat {
    if n <= |s| then n else |s|
  }

  function Mask(s: string): (m: string)
    ensures |m| == |s|
    decreases |s|
  {
    if s == [] then []
    else
      match TokenLen(s)
      case None => [s[0]] + Mask(s[1..])
      case Some(n) => Blank(s[..Clip(n, s)]) + Mask(s[Clip(n, s)..])
  }

  // ---------------------------------------------------------------- the scanner

  method BlockEnd(text: string, start: nat) returns (end: nat)
    requires start <= |text|
    ensures end == start + BlockLen(text[start..], 1)
  {
    end := start;
    var depth: nat := 1;
    while end < |text| && depth > 0
      invariant start <= end <= |text|
      invariant start + BlockLen(text[start..], 1) == end + BlockLen(text[end..], depth)
      decreases |text| - end
    {
      ghost var s := text[end..];
      if Starts(text[end..], '/', '*') {
        assert s[2..] == text[end + 2..];
        depth, end := depth + 1, end + 2;
      } else if Starts(text[end..], '*', '/') {
        assert s[2..] == text[end + 2..];
        depth, end := depth - 1, end + 2;
      } else {
        assert s[1..] == text[end + 1..];
        end := end + 1;
      }
    }
  }

  method QuoteEnd(text: string, start: nat, quote: char) returns (end: nat)
    requires start <= |text|
    ensures end == start + QuoteLen(text[start..], quote)
  {
    end := start;
    while end < |text|
      invariant start <= end <= |text| + 1
      invariant start + QuoteLen(text[start..], quote) == end + QuoteLen(if end <= |text| then text[end..] else [], quote)
    {
      ghost var s := text[end..];
      if text[end] == '\\' {
        assert end + 2 <= |text| ==> s[2..] == text[end + 2..];
        end := end + 2;
      } else if text[end] == quote {
        return end + 1;
      } else {
        assert s[1..] == text[end + 1..];
        end := end + 1;
      }
    }
  }

  /** One token of the source loop: where it ends, if one starts at i. */
  method TokenEnd(text: string, i: nat) returns (end: Option<nat>)
    requires i < |text|
    ensures end == match TokenLen(text[i..]) case Some(n) => Some(i + n) case None => None
  {
    var s := text[i..];
    if Starts(s, '/', '/') {
      end := Some(i + LineLen(s));
    } else if Starts(s, '/', '*') {
      assert s[2..] == text[i + 2..];
      var e := BlockEnd(text, i + 2);
      end := Some(e);
    } else {
      var raw := RawOpen(s);
      if raw.Some? {
        var open := RawPrefix(s) + raw.value + 1;
        end := Some(i + open + FindLen(s[open..], Closing(raw.value)));
      } else if s[0] == '"' || CharLit(s) {
        assert s[1..] == text[i + 1..];
        var e := QuoteEnd(text, i + 1, s[0]);
        end := Some(e);
      } else {
        end := None;
      }
    }
  }

  /** out[i..stop] becomes blanks, newlines apart. */
  method BlankRange(text: string, out: array<char>, i: nat, stop: nat)
    requires i <= stop <= |text| == out.Length && out[i..] == text[i..]
    modifies out
    ensures out[..stop] == old(out[..i]) + Blank(text[i..stop]) && out[stop..] == text[stop..]
  {
    var k := i;
    while k < stop
      invariant i <= k <= stop
      invariant forall j :: 0 <= j < |text| ==>
                  out[j] == if j < i then old(out[j]) else if j < k then BlankChar(text[j]) else text[j]
    {
      assert out[i..][k - i] == out[k];
      out[k] := if text[k] == '\n' then '\n' else ' ';
      k := k + 1;
    }
  }

  lemma MaskUnfolds(s: string, token: Option<nat>)
    requires s != [] && token == TokenLen(s)
    ensures token.Some? ==> 0 < Clip(token.value, s) && Mask(s) == Blank(s[..Clip(token.value, s)]) + Mask(s[Clip(token.value, s)..])
    ensures token.None? ==> Mask(s) == [s[0]] + Mask(s[1..])
  {
  }

  lemma MaskStep(text: string, i: nat, token: Option<nat>, stop: nat)
    requires i < |text| && token == TokenLen(text[i..])
    requires stop == if token.Some? then i + Clip(token.value, text[i..]) else i + 1
    ensures i < stop <= |text|
    ensures Mask(text[i..]) == (if token.Some? then Blank(text[i..stop]) else [text[i]]) + Mask(text[stop..])
  {
    var s := text[i..];
    MaskUnfolds(s, token);
    assert s[..stop - i] == text[i..stop] && s[stop - i..] == text[stop..];
  }

  lemma Regroup(a: string, b: string, c: string)
    ensures (a + b) + c == a + (b + c)
  {
  }

  /** Overwrites the tokens in place, left to right. */
  method MaskText(text: string) returns (masked: string)
    ensures masked == Mask(text)
  {
    var out := new char[|text|](k requires 0 <= k < |text| => text[k]);
    var i := 0;
    while i < |text|
      invariant i <= |text| && out[i..] == text[i..]
      invariant out[..i] + Mask(text[i..]) == Mask(text)
    {
      var end := TokenEnd(text, i);
      ghost var before := out[..i];
      var stop := if end.None? then i + 1 else if end.value <= |text| then end.value else |text|;
      MaskStep(text, i, TokenLen(text[i..]), stop);
      if end.Some? {
        BlankRange(text, out, i, stop);
        Regroup(before, Blank(text[i..stop]), Mask(text[stop..]));
      } else {
        assert out[i] == out[i..][0];
        assert out[..stop] == before + [text[i]];
        Regroup(before, [text[i]], Mask(text[stop..]));
        assert out[stop..] == out[i..][1..];
      }
      i := stop;
    }
    masked := out[..];
    assert masked == out[..i];
  }

  // ---------------------------------------------------------------- offsets and newlines

  /** Every position keeps its character or becomes a space; newlines stay where they are, and only there. */
  lemma {:induction false} MaskKeepsOffsets(s: string, k: nat)
    requires k < |s|
    ensures Mask(s)[k] == s[k] || (Mask(s)[k] == ' ' && s[k] != '\n')
    ensures Mask(s)[k] == '\n' <==> s[k] == '\n'
    decreases |s|
  {
    MaskUnfolds(s, TokenLen(s));
    match TokenLen(s)
    case None => if k > 0 { MaskKeepsOffsets(s[1..], k - 1); }
    case Some(n) =>
      var c := Clip(n, s);
      if k >= c { MaskKeepsOffsets(s[c..], k - c); }
  }

  // ---------------------------------------------------------------- nothing left to mask

  /** Neither a double quote, nor a comment, nor a character literal opens here. */
  predicate NothingOpens(s: string)
    requires s != []
  {
    s[0] != '"' && !Starts(s, '/', '/') && !Starts(s, '/', '*') && !CharLit(s)
  }

  ghost predicate Clean(m: string) {
    forall k :: 0 <= k < |m| ==> NothingOpens(m[k..])
  }

  predicate IsBlank(c: char) {
    c == ' ' || c == '\n'
  }

  /** A blanked token never fits between two quotes: it has two characters or ends the text. */
  lemma MaskHead(s: string)
    requires s != [] && TokenLen(s).Some?
    ensures IsBlank(Mask(s)[0]) && (|s| >= 2 ==> IsBlank(Mask(s)[1]))
  {
  }

  /** A character of the mask that is not blank is the character of the text. */
  lemma NotBlankSame(s: string, k: nat)
    requires k < |s| && !IsBlank(Mask(s)[k])
    ensures Mask(s)[k] == s[k]
  {
    MaskKeepsOffsets(s, k);
  }

  /** A token followed at distance one by something visible is not a token. */
  lemma KeptBeforeVisible(s: string)
    requires |s| >= 2 && !IsBlank(Mask(s)[1])
    ensures Mask(s) == [s[0]] + Mask(s[1..])
  {
    if TokenLen(s).Some? { MaskHead(s); }
  }

  /** What reads as a literal once its tail is masked was one already. */
  lemma LiteralInherited(s: string, m: string)
    requires |m| == |s| >= 3 && m[0] == s[0] && m[1..] == Mask(s[1..]) && CharLit(m)
    ensures CharLit(s)
  {
    forall k | 1 <= k < |s| && !IsBlank(m[k]) ensures m[k] == s[k] {
      assert m[k] == m[1..][k - 1];
      NotBlankSame(s[1..], k - 1);
    }
    if m[1] == '\\' {
      EscapeInherited(s, m);
    } else {
      assert m[1..][1] == m[2];
      KeptBeforeVisible(s[1..]);
      assert m[1..][0] == m[1];
    }
  }

  lemma EscapeInherited(s: string, m: string)
    requires |m| == |s| >= 3 && m[0] == s[0] && m[1..] == Mask(s[1..]) && CharLit(m) && m[1] == '\\'
    requires forall k :: 1 <= k < |s| && !IsBlank(m[k]) ==> m[k] == s[k]
    ensures CharLit(s)
  {
    if |m| >= 4 && m[2] != '\n' && m[3] == '\'' {
      var s1 := s[1..];
      assert Mask(s1)[0] == m[1] && TokenLen(s1).None? by { if TokenLen(s1).Some? { MaskHead(s1); } }
      var s2 := s1[1..];
      assert Mask(s2) == m[1..][1..] == m[2..];
      KeptBeforeVisible(s2);
      assert m[2] == Mask(s2)[0] == s[2];
    } else if |m| >= 6 && m[2] == 'x' && Hex(m[3]) && Hex(m[4]) && m[5] == '\'' {
    } else {
      var n :| 0 <= n < |m| && UnicodeEscape(m, n);
      assert UnicodeEscape(s, n);
    }
  }

  lemma CleanPrepend(head: string, tail: string)
    requires Clean(tail)
    requires forall k :: 0 <= k < |head| ==> NothingOpens((head + tail)[k..])
    ensures Clean(head + tail)
  {
    var m := head + tail;
    forall k | 0 <= k < |m| ensures NothingOpens(m[k..]) {
      if k >= |head| { assert m[k..] == tail[k - |head|..]; }
    }
  }

  /** The mask holds no double quote, comment opener or character literal. */
  lemma {:induction false} MaskIsClean(s: string)
    ensures Clean(Mask(s))
    decreases |s|
  {
    if s != [] {
      match TokenLen(s)
      case None =>
        var tail := Mask(s[1..]);
        MaskIsClean(s[1..]);
        HeadIsClean(s);
        assert ([s[0]] + tail)[0..] == Mask(s);
        CleanPrepend([s[0]], tail);
      case Some(n) =>
        var c := Clip(n, s);
        var head, tail := Blank(s[..c]), Mask(s[c..]);
        MaskIsClean(s[c..]);
        forall k | 0 <= k < c ensures NothingOpens((head + tail)[k..]) {
          assert IsBlank((head + tail)[k..][0]);
        }
        CleanPrepend(head, tail);
    }
  }

  lemma HeadIsClean(s: string)
    requires s != [] && TokenLen(s).None?
    ensures NothingOpens(Mask(s))
  {
    var m := Mask(s);
    assert m[1..] == Mask(s[1..]);
    if |s| >= 2 && !IsBlank(m[1]) {
      assert m[1] == m[1..][0];
      NotBlankSame(s[1..], 0);
    }
    if CharLit(m) { LiteralInherited(s, m); }
  }

  lemma {:induction false} CleanIsFixed(m: string)
    requires Clean(m)
    ensures Mask(m) == m
    decreases |m|
  {
    if m != [] {
      assert m[0..] == m;
      forall k | 0 <= k < |m| ensures m[k] != '"' {
        assert NothingOpens(m[k..]);
      }
      NoRawOpen(m);
      forall k | 0 <= k < |m[1..]| ensures NothingOpens(m[1..][k..]) {
        assert m[1..][k..] == m[k + 1..];
      }
      CleanIsFixed(m[1..]);
    }
  }

  lemma NoRawOpen(m: string)
    requires forall k :: 0 <= k < |m| ==> m[k] != '"'
    ensures RawOpen(m).None?
  {
  }

  /** Masking is idempotent: the mask is a text with nothing to mask. */
  lemma MaskTwice(s: string)
    ensures Mask(Mask(s)) == Mask(s)
  {
    MaskIsClean(s);
    CleanIsFixed(Mask(s));
  }
}
