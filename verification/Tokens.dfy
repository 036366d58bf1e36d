/** The script editor's colouring: what each kind of token is, and the scan that
    finds them. */
module Tokens {
  import opened Utf8

  datatype TokenKind = Comment | Keyword | Builtin | String | Number | Identifier | Punctuation | Whitespace

  datatype Token = Token(kind: TokenKind, start: nat, end: nat)

  const KEYWORDS: seq<string> := ["param", "let", "for", "in", "f64", "true", "false"]

  const BUILTINS: seq<string> := [
    "box", "cylinder", "sketch", "line", "circle", "arc", "rect", "extrude", "revolve", "drill",
    "push_pull", "fillet", "chamfer", "mirror", "pattern", "union", "difference", "intersection",
    "surface_extrude", "surface_revolve", "patch", "stitch", "thicken", "trim", "faces", "edges",
    "nearest", "sqrt", "abs", "floor", "ceil", "round", "sin", "cos", "tan", "asin", "acos",
    "atan", "atan2", "pow", "hypot", "min", "max", "clamp", "pi"
  ]

  const NEWLINE: Byte := 10
  const QUOTE: Byte := 34
  const SLASH: Byte := 47
  const BACKSLASH: Byte := 92
  const UNDERSCORE: Byte := 95

  predicate Digit(b: Byte) {
    48 <= b <= 57
  }

  predicate Alphabetic(b: Byte) {
    65 <= b <= 90 || 97 <= b <= 122
  }

  predicate StartsWord(b: Byte) {
    Alphabetic(b) || b == UNDERSCORE
  }

  predicate InWord(b: Byte) {
    StartsWord(b) || Digit(b)
  }

  predicate InNumber(b: Byte) {
    Digit(b) || b == 46
  }

  predicate Blank(b: Byte) {
    b == 32 || b == 9 || b == 10 || b == 12 || b == 13
  }

  predicate StartsComment(s: seq<Byte>, i: nat) {
    i + 1 < |s| && s[i] == SLASH && s[i + 1] == SLASH
  }

  function Text(word: seq<Byte>): string {
    seq(|word|, i requires 0 <= i < |word| => word[i] as char)
  }

  function WordKind(word: seq<Byte>): TokenKind {
    if Text(word) in KEYWORDS then Keyword else if Text(word) in BUILTINS then Builtin else Identifier
  }

  // -- what a token is -------------------------------------------------------

  /** The bytes of a class from `start` up to the first outside it. */
  predicate Longest(s: seq<Byte>, start: nat, end: nat, inside: Byte -> bool) {
    && start < end <= |s|
    && (forall i :: start <= i < end ==> inside(s[i]))
    && (end < |s| ==> !inside(s[end]))
  }

  /** How many backslashes stand right before `i`, counting back to `from`. */
  function Backslashes(s: seq<Byte>, from: nat, i: nat): nat
    requires from <= i <= |s|
  {
    if i > from && s[i - 1] == BACKSLASH then 1 + Backslashes(s, from, i - 1) else 0
  }

  /** A quotation mark that no backslash after the opening mark escapes. */
  predicate Closes(s: seq<Byte>, open: nat, i: nat)
    requires open < i < |s|
  {
    s[i] == QUOTE && Backslashes(s, open + 1, i) % 2 == 0
  }

  /** From its opening mark to the first that closes it, or to the end. */
  predicate Quoted(s: seq<Byte>, start: nat, end: nat) {
    && start < end <= |s|
    && s[start] == QUOTE
    && (forall i :: start < i < end - 1 ==> !Closes(s, start, i))
    && (if start < end - 1 && Closes(s, start, end - 1) then true else end == |s|)
  }

  predicate IsToken(s: seq<Byte>, t: Token) {
    && t.start < t.end <= |s|
    && var b := s[t.start];
       match t.kind
       case Comment => StartsComment(s, t.start) && Longest(s, t.start, t.end, x => x != NEWLINE)
       case String => Quoted(s, t.start, t.end)
       case Number => Digit(b) && Longest(s, t.start, t.end, InNumber)
       case Whitespace => Blank(b) && Longest(s, t.start, t.end, Blank)
       case Punctuation =>
         && !StartsComment(s, t.start) && b != QUOTE && !Digit(b) && !StartsWord(b) && !Blank(b)
         && t.end == t.start + CharWidth(b)
       case _ =>
         StartsWord(b) && Longest(s, t.start, t.end, InWord) && t.kind == WordKind(s[t.start..t.end])
  }

  /** The tokens lie end to end from the start up to `end`. */
  predicate Tiles(s: seq<Byte>, tokens: seq<Token>, end: nat)
    decreases |tokens|
  {
    if tokens == [] then end == 0
    else
      var last := tokens[|tokens| - 1];
      IsToken(s, last) && last.end == end && Tiles(s, tokens[..|tokens| - 1], last.start)
  }

  // -- the scan --------------------------------------------------------------

  /** Where a string's scan stops when it stands at `i`. */
  function StringEnd(s: seq<Byte>, i: nat): nat
    decreases |s| - i
  {
    if i >= |s| then |s|
    else if s[i] == QUOTE then i + 1
    else if s[i] == BACKSLASH then StringEnd(s, i + 2)
    else StringEnd(s, i + 1)
  }

  lemma {:induction false} ScanFindsClose(s: seq<Byte>, open: nat, i: nat)
    requires open < i <= |s| && Backslashes(s, open + 1, i) % 2 == 0
    ensures i <= StringEnd(s, i) <= |s| && (i < |s| ==> i < StringEnd(s, i))
    ensures forall k :: i <= k < StringEnd(s, i) - 1 ==> !Closes(s, open, k)
    ensures StringEnd(s, i) > i ==> Closes(s, open, StringEnd(s, i) - 1) || StringEnd(s, i) == |s|
    decreases |s| - i
  {
    if i < |s| && s[i] != QUOTE {
      if s[i] == BACKSLASH {
        if i + 1 < |s| {
          assert Backslashes(s, open + 1, i + 1) % 2 == 1;
          ScanFindsClose(s, open, i + 2);
        }
      } else {
        ScanFindsClose(s, open, i + 1);
      }
    }
  }

  lemma ScanIsQuoted(s: seq<Byte>, start: nat)
    requires start < |s| && s[start] == QUOTE
    ensures Quoted(s, start, StringEnd(s, start + 1))
  {
    ScanFindsClose(s, start, start + 1);
  }

  method ScanWhile(s: seq<Byte>, start: nat, inside: Byte -> bool) returns (end: nat)
    requires start < |s| && inside(s[start])
    ensures Longest(s, start, end, inside)
  {
    end := start;
    while end < |s| && inside(s[end])
      invariant start <= end <= |s|
      invariant forall i :: start <= i < end ==> inside(s[i])
    {
      end := end + 1;
    }
  }

  method ScanString(s: seq<Byte>, start: nat) returns (end: nat)
    requires start < |s| && s[start] == QUOTE
    ensures Quoted(s, start, end)
  {
    var index := start + 1;
    while index < |s| && s[index] != QUOTE
      invariant start < index <= |s| + 1
      invariant StringEnd(s, index) == StringEnd(s, start + 1)
    {
      if s[index] == BACKSLASH {
        index := index + 1;
      }
      index := index + 1;
    }
    end := if index + 1 <= |s| then index + 1 else |s|;
    ScanIsQuoted(s, start);
  }

  method NextToken(s: seq<Byte>, start: nat) returns (token: Token)
    requires WellFormed(s) && Boundary(s, start) && start < |s|
    ensures token.start == start && IsToken(s, token)
  {
    var byte := s[start];
    var kind: TokenKind;
    var index: nat;
    if StartsComment(s, start) {
      index := ScanWhile(s, start, x => x != NEWLINE);
      kind := Comment;
    } else if byte == QUOTE {
      index := ScanString(s, start);
      kind := String;
    } else if Digit(byte) {
      index := ScanWhile(s, start, InNumber);
      kind := Number;
    } else if StartsWord(byte) {
      index := ScanWhile(s, start, InWord);
      kind := WordKind(s[start..index]);
    } else if Blank(byte) {
      index := ScanWhile(s, start, Blank);
      kind := Whitespace;
    } else {
      NextBoundary(s, start);
      index := start + CharWidth(byte);
      kind := Punctuation;
    }
    token := Token(kind, start, index);
  }

  /** The tokens cover the source end to end and cut no character. */
  method HighlightTokens(s: seq<Byte>) returns (tokens: seq<Token>)
    requires WellFormed(s)
    ensures Tiles(s, tokens, |s|)
  {
    var index := 0;
    tokens := [];
    while index < |s|
      invariant Boundary(s, index)
      invariant Tiles(s, tokens, index)
    {
      var token := NextToken(s, index);
      TokenEndsAtBoundary(s, token);
      tokens := tokens + [token];
      index := token.end;
    }
  }

  lemma CommentEndsAtNewline(s: seq<Byte>, t: Token)
    requires IsToken(s, t) && t.kind == Comment && t.end < |s|
    ensures s[t.end] == NEWLINE
  {
  }

  lemma LastIsAscii(s: seq<Byte>, t: Token)
    requires IsToken(s, t) && !t.kind.Comment? && !t.kind.Punctuation? && t.end < |s|
    ensures s[t.end - 1] < 0x80
  {
  }

  /** A punctuation token is as wide as its leading byte says. */
  lemma PunctuationWidth(s: seq<Byte>, t: Token)
    requires IsToken(s, t) && t.kind == Punctuation
    ensures t.start < |s| && t.end == t.start + CharWidth(s[t.start])
  {
  }

  lemma TokenEndsAtBoundary(s: seq<Byte>, t: Token)
    requires WellFormed(s) && IsToken(s, t) && Boundary(s, t.start)
    ensures Boundary(s, t.end)
  {
    if t.kind == Punctuation {
      PunctuationWidth(s, t);
      NextBoundary(s, t.start);
    } else if t.end < |s| {
      if t.kind == Comment {
        CommentEndsAtNewline(s, t);
      } else {
        LastIsAscii(s, t);
        AfterAscii(s, t.end - 1);
      }
    }
  }

  // -- what the tiling means -------------------------------------------------

  /** No other reading of the source is possible: what stands at a place fixes
      the token there. */
  lemma TokenIsFixed(s: seq<Byte>, t: Token, u: Token)
    requires IsToken(s, t) && IsToken(s, u) && t.start == u.start
    ensures t == u
  {
    var b := s[t.start];
    if t.kind == Comment || u.kind == Comment || b == QUOTE {
      if b == QUOTE {
        QuotedEndIsFixed(s, t.start, t.end, u.end);
      }
    } else if Digit(b) {
      LongestEndIsFixed(s, t.start, t.end, u.end, InNumber);
    } else if StartsWord(b) {
      LongestEndIsFixed(s, t.start, t.end, u.end, InWord);
    } else if Blank(b) {
      LongestEndIsFixed(s, t.start, t.end, u.end, Blank);
    }
  }

  lemma LongestEndIsFixed(s: seq<Byte>, start: nat, end: nat, other: nat, inside: Byte -> bool)
    requires Longest(s, start, end, inside) && Longest(s, start, other, inside)
    ensures end == other
  {
  }

  lemma QuotedEndIsFixed(s: seq<Byte>, start: nat, end: nat, other: nat)
    requires Quoted(s, start, end) && Quoted(s, start, other)
    ensures end == other
  {
  }

  ghost predicate EndToEnd(s: seq<Byte>, tokens: seq<Token>, end: nat) {
    && (forall i :: 0 <= i < |tokens| ==> IsToken(s, tokens[i]))
    && (forall i :: 0 <= i < |tokens| - 1 ==> tokens[i].end == tokens[i + 1].start)
    && (if tokens == [] then end == 0 else tokens[0].start == 0 && tokens[|tokens| - 1].end == end)
  }

  lemma EndToEndNext(s: seq<Byte>, init: seq<Token>, last: Token)
    requires EndToEnd(s, init, last.start) && IsToken(s, last)
    ensures EndToEnd(s, init + [last], last.end)
  {
  }

  lemma {:induction false} TilesEndToEnd(s: seq<Byte>, tokens: seq<Token>, end: nat)
    requires Tiles(s, tokens, end)
    ensures EndToEnd(s, tokens, end)
  {
    if tokens != [] {
      var init, last := tokens[..|tokens| - 1], tokens[|tokens| - 1];
      TilesEndToEnd(s, init, last.start);
      EndToEndNext(s, init, last);
      assert init + [last] == tokens;
    }
  }

  lemma NextStart(s: seq<Byte>, tokens: seq<Token>, i: nat)
    requires EndToEnd(s, tokens, |s|) && i < |tokens|
    ensures IsToken(s, tokens[i])
    ensures i == 0 ==> tokens[i].start == 0
    ensures i > 0 ==> tokens[i].start == tokens[i - 1].end
    ensures i + 1 < |tokens| <==> tokens[i].end < |s|
  {
    if i + 1 < |tokens| {
      assert IsToken(s, tokens[i + 1]);
    }
  }

  lemma StartsTogether(s: seq<Byte>, left: seq<Token>, right: seq<Token>, i: nat)
    requires EndToEnd(s, left, |s|) && EndToEnd(s, right, |s|)
    requires i < |left| && i < |right| && left[i].start == right[i].start
    ensures left[i] == right[i]
    ensures i + 1 < |left| <==> i + 1 < |right|
  {
    NextStart(s, left, i);
    NextStart(s, right, i);
    TokenIsFixed(s, left[i], right[i]);
  }

  lemma {:induction false} SameAt(s: seq<Byte>, left: seq<Token>, right: seq<Token>, i: nat)
    requires EndToEnd(s, left, |s|) && EndToEnd(s, right, |s|) && i < |left|
    ensures i < |right| && left[i] == right[i] && (i + 1 < |left| <==> i + 1 < |right|)
  {
    if i == 0 {
      NextStart(s, left, 0);
      assert right != [];
      NextStart(s, right, 0);
    } else {
      SameAt(s, left, right, i - 1);
      NextStart(s, left, i);
      NextStart(s, right, i);
    }
    StartsTogether(s, left, right, i);
  }

  /** A source has one tiling. */
  lemma TilingIsUnique(s: seq<Byte>, left: seq<Token>, right: seq<Token>)
    requires Tiles(s, left, |s|) && Tiles(s, right, |s|)
    ensures left == right
  {
    TilesEndToEnd(s, left, |s|);
    TilesEndToEnd(s, right, |s|);
    if left != [] {
      SameAt(s, left, right, |left| - 1);
    }
    if right != [] {
      SameAt(s, right, left, |right| - 1);
    }
    forall i | 0 <= i < |left| ensures i < |right| && left[i] == right[i] {
      SameAt(s, left, right, i);
    }
  }

  /** The source text of the tokens, joined. */
  function Joined(s: seq<Byte>, tokens: seq<Token>): seq<Byte>
    requires forall i :: 0 <= i < |tokens| ==> IsToken(s, tokens[i])
  {
    if tokens == [] then []
    else
      var last := tokens[|tokens| - 1];
      assert IsToken(s, last);
      Joined(s, tokens[..|tokens| - 1]) + s[last.start..last.end]
  }

  lemma {:induction false} TilesAtBoundaries(s: seq<Byte>, tokens: seq<Token>, end: nat)
    requires WellFormed(s) && Tiles(s, tokens, end)
    ensures EndToEnd(s, tokens, end) && Boundary(s, end)
    ensures forall i :: 0 <= i < |tokens| ==> Boundary(s, tokens[i].start) && Boundary(s, tokens[i].end)
    decreases |tokens|
  {
    TilesEndToEnd(s, tokens, end);
    if tokens == [] {
      BoundarySplits(s, 0);
    } else {
      var last, before := tokens[|tokens| - 1], tokens[..|tokens| - 1];
      TilesAtBoundaries(s, before, last.start);
      TokenEndsAtBoundary(s, last);
      forall i | 0 <= i < |before| ensures tokens[i] == before[i] {
      }
    }
  }

  lemma {:induction false} TilesRebuild(s: seq<Byte>, tokens: seq<Token>, end: nat)
    requires Tiles(s, tokens, end)
    ensures EndToEnd(s, tokens, end) && end <= |s|
    ensures Joined(s, tokens) == s[..end]
    decreases |tokens|
  {
    TilesEndToEnd(s, tokens, end);
    if tokens != [] {
      var last, before := tokens[|tokens| - 1], tokens[..|tokens| - 1];
      TilesRebuild(s, before, last.start);
      assert IsToken(s, last);
      assert s[..last.start] + s[last.start..end] == s[..end];
    }
  }

  lemma BoundaryInRest(s: seq<Byte>, i: nat, j: nat)
    requires Boundary(s, i) && Boundary(s, j) && i <= j
    ensures Boundary(s[i..], j - i)
  {
    if j < |s| {
      assert s[i..][j - i] == s[j];
    }
  }

  lemma FirstPart(s: seq<Byte>, i: nat)
    requires WellFormed(s) && Boundary(s, i)
    ensures WellFormed(s[..i])
  {
    BoundarySplits(s, i);
  }

  lemma Between(s: seq<Byte>, i: nat, j: nat)
    requires WellFormed(s) && Boundary(s, i) && Boundary(s, j) && i <= j
    ensures WellFormed(s[i..j])
  {
    BoundarySplits(s, i);
    BoundaryInRest(s, i, j);
    FirstPart(s[i..], j - i);
    assert s[i..][..j - i] == s[i..j];
  }

  /** The tokens joined are the source, and each is a string of whole
      characters. */
  lemma TokensRebuildTheSource(s: seq<Byte>, tokens: seq<Token>)
    requires WellFormed(s) && Tiles(s, tokens, |s|)
    ensures EndToEnd(s, tokens, |s|)
    ensures Joined(s, tokens) == s
    ensures forall i :: 0 <= i < |tokens| ==> WellFormed(s[tokens[i].start..tokens[i].end])
  {
    TilesRebuild(s, tokens, |s|);
    TilesAtBoundaries(s, tokens, |s|);
    assert s[..|s|] == s;
    forall i | 0 <= i < |tokens| ensures WellFormed(s[tokens[i].start..tokens[i].end]) {
      Between(s, tokens[i].start, tokens[i].end);
    }
  }

  /** The token's bytes spell one of the words. */
  ghost predicate Spells(s: seq<Byte>, t: Token, words: seq<string>)
    requires t.start <= t.end <= |s|
  {
    exists k :: 0 <= k < |words| && IsSpelled(s, t, words[k])
  }

  predicate IsSpelled(s: seq<Byte>, t: Token, word: string)
    requires t.start <= t.end <= |s|
  {
    |word| == t.end - t.start && forall j :: 0 <= j < |word| ==> s[t.start + j] as char == word[j]
  }

  lemma TextIsSpelled(s: seq<Byte>, t: Token, word: string)
    requires t.start <= t.end <= |s|
    ensures Text(s[t.start..t.end]) == word <==> IsSpelled(s, t, word)
  {
    var text := Text(s[t.start..t.end]);
    if IsSpelled(s, t, word) {
      assert text == word;
    }
  }

  lemma InWords(s: seq<Byte>, t: Token, words: seq<string>)
    requires t.start <= t.end <= |s|
    ensures Text(s[t.start..t.end]) in words <==> Spells(s, t, words)
  {
    forall k | 0 <= k < |words| ensures Text(s[t.start..t.end]) == words[k] <==> IsSpelled(s, t, words[k]) {
      TextIsSpelled(s, t, words[k]);
    }
  }

  /** A token is a word exactly when it starts as one; a word is a keyword
      exactly when it spells one, a builtin when it spells a builtin and no
      keyword, and an identifier otherwise. */
  lemma WordsByTheirSpelling(s: seq<Byte>, tokens: seq<Token>, i: nat)
    requires WellFormed(s) && Tiles(s, tokens, |s|) && i < |tokens|
    ensures var t := tokens[i];
            && t.start < t.end <= |s|
            && (t.kind.Keyword? || t.kind.Builtin? || t.kind.Identifier? <==> StartsWord(s[t.start]))
            && (StartsWord(s[t.start]) ==>
                  && (t.kind.Keyword? <==> Spells(s, t, KEYWORDS))
                  && (t.kind.Builtin? <==> Spells(s, t, BUILTINS) && !Spells(s, t, KEYWORDS)))
  {
    TilesEndToEnd(s, tokens, |s|);
    var t := tokens[i];
    InWords(s, t, KEYWORDS);
    InWords(s, t, BUILTINS);
    WordStarts(s, t);
  }

  lemma WordStarts(s: seq<Byte>, t: Token)
    requires IsToken(s, t)
    ensures t.kind.Keyword? || t.kind.Builtin? || t.kind.Identifier? <==> StartsWord(s[t.start])
    ensures StartsWord(s[t.start]) ==> t.kind == WordKind(s[t.start..t.end])
  {
  }

  predicate IsDigit(c: char) {
    '0' <= c <= '9'
  }

  predicate IsLetter(c: char) {
    'a' <= c <= 'z' || 'A' <= c <= 'Z'
  }

  predicate IsSpace(c: char) {
    c == ' ' || c == '\t' || c == '\n' || c == '\r' || c == '\U{0c}'
  }

  /** The class of characters a token of this kind runs through. */
  predicate RunsThrough(kind: TokenKind, c: char) {
    match kind
    case Comment => c != '\n'
    case Number => IsDigit(c) || c == '.'
    case Whitespace => IsSpace(c)
    case _ => IsLetter(c) || c == '_' || IsDigit(c)
  }

  lemma ClassesAreCharacters(b: Byte)
    ensures var c := b as char;
            && (Digit(b) <==> IsDigit(c)) && (Blank(b) <==> IsSpace(c)) && (StartsWord(b) <==> IsLetter(c) || c == '_')
            && (b == NEWLINE <==> c == '\n') && (b == QUOTE <==> c == '"') && (b == SLASH <==> c == '/')
            && (b == 46 <==> c == '.')
  {
  }

  lemma BytesRunThrough(b: Byte)
    ensures b != NEWLINE <==> RunsThrough(Comment, b as char)
    ensures InNumber(b) <==> RunsThrough(Number, b as char)
    ensures Blank(b) <==> RunsThrough(Whitespace, b as char)
    ensures InWord(b) <==> RunsThrough(Identifier, b as char)
    ensures InWord(b) <==> RunsThrough(Keyword, b as char)
    ensures InWord(b) <==> RunsThrough(Builtin, b as char)
  {
    ClassesAreCharacters(b);
  }

  /** Two slashes start the text at this place. */
  predicate SlashSlash(s: seq<Byte>, i: nat) {
    i + 1 < |s| && s[i] as char == '/' && s[i + 1] as char == '/'
  }

  lemma KindByStart(s: seq<Byte>, t: Token)
    requires IsToken(s, t)
    ensures var c := s[t.start] as char;
            && (t.kind.Comment? <==> SlashSlash(s, t.start))
            && (t.kind.String? <==> c == '"')
            && (t.kind.Number? <==> IsDigit(c))
            && (t.kind.Whitespace? <==> IsSpace(c))
            && (t.kind.Keyword? || t.kind.Builtin? || t.kind.Identifier? <==> IsLetter(c) || c == '_')
  {
    ClassesAreCharacters(s[t.start]);
    if t.start + 1 < |s| {
      ClassesAreCharacters(s[t.start + 1]);
    }
  }

  /** The token is the longest run of its characters from its start. */
  ghost predicate LongestRun(s: seq<Byte>, t: Token) {
    && t.start < t.end <= |s|
    && (forall j :: t.start <= j < t.end ==> RunsThrough(t.kind, s[j] as char))
    && (t.end < |s| ==> !RunsThrough(t.kind, s[t.end] as char))
  }

  lemma RunIsLongest(s: seq<Byte>, t: Token)
    requires IsToken(s, t) && !t.kind.String? && !t.kind.Punctuation?
    ensures LongestRun(s, t)
  {
    forall j | t.start <= j < t.end ensures RunsThrough(t.kind, s[j] as char) {
      BytesRunThrough(s[j]);
    }
    if t.end < |s| {
      BytesRunThrough(s[t.end]);
    }
  }

  /** The kind of every token can be told from the text where it starts; a
      string ends by `ScanFindsClose`, punctuation is one character, and any
      other token is the longest run of the characters of its kind. */
  lemma KindsByTheirText(s: seq<Byte>, tokens: seq<Token>, i: nat)
    requires WellFormed(s) && Tiles(s, tokens, |s|) && i < |tokens|
    ensures var t := tokens[i];
            && t.start < t.end <= |s|
            && var c := s[t.start] as char;
               && (t.kind.Comment? <==> SlashSlash(s, t.start))
               && (t.kind.String? <==> c == '"')
               && (t.kind.Number? <==> IsDigit(c))
               && (t.kind.Whitespace? <==> IsSpace(c))
               && (t.kind.Keyword? || t.kind.Builtin? || t.kind.Identifier? <==> IsLetter(c) || c == '_')
               && (t.kind.String? || t.kind.Punctuation? || LongestRun(s, t))
  {
    TilesEndToEnd(s, tokens, |s|);
    KindByStart(s, tokens[i]);
    if !tokens[i].kind.String? && !tokens[i].kind.Punctuation? {
      RunIsLongest(s, tokens[i]);
    }
  }

  /** A token of punctuation is a single character. */
  lemma PunctuationIsOneCharacter(s: seq<Byte>, tokens: seq<Token>, i: nat)
    requires WellFormed(s) && Tiles(s, tokens, |s|) && i < |tokens| && tokens[i].kind == Punctuation
    ensures forall j: nat :: tokens[i].start < j < tokens[i].end ==> !Boundary(s, j)
  {
    var t := tokens[i];
    TilesAtBoundaries(s, tokens, |s|);
    PunctuationWidth(s, t);
    forall j: nat | t.start < j < t.end ensures !Boundary(s, j) {
      NoBoundaryWithin(s, t.start, j);
    }
  }
}
