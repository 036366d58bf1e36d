/** Well-formed UTF-8, by the byte ranges of section 4 of RFC 3629. */
module Utf8 {

  newtype Byte = x: int | 0 <= x < 256

  /** A byte that continues a character. */
  predicate Tail(b: Byte) {
    0x80 <= b < 0xC0
  }

  /** How many bytes the first character takes, or none if it is malformed. */
  function FirstWidth(s: seq<Byte>): (n: nat)
    ensures n <= 4 && n <= |s|
  {
    if |s| >= 1 && s[0] < 0x80 then 1
    else if |s| >= 2 && 0xC2 <= s[0] < 0xE0 && Tail(s[1]) then 2
    else if |s| >= 3 && SecondOfThree(s[0], s[1]) && Tail(s[2]) then 3
    else if |s| >= 4 && SecondOfFour(s[0], s[1]) && Tail(s[2]) && Tail(s[3]) then 4
    else 0
  }

  predicate SecondOfThree(lead: Byte, b: Byte) {
    && 0xE0 <= lead < 0xF0 && Tail(b)
    && (lead == 0xE0 ==> b >= 0xA0)
    && (lead == 0xED ==> b < 0xA0)
  }

  predicate SecondOfFour(lead: Byte, b: Byte) {
    && 0xF0 <= lead < 0xF5 && Tail(b)
    && (lead == 0xF0 ==> b >= 0x90)
    && (lead == 0xF4 ==> b < 0x90)
  }

  predicate WellFormed(s: seq<Byte>)
    decreases |s|
  {
    s == [] || (FirstWidth(s) > 0 && WellFormed(s[FirstWidth(s)..]))
  }

  /** Where a string may be cut. */
  predicate Boundary(s: seq<Byte>, i: int) {
    0 <= i <= |s| && (i < |s| ==> !Tail(s[i]))
  }

  /** The width a leading byte announces. */
  function CharWidth(b: Byte): nat {
    if b < 0x80 then 1 else if b < 0xE0 then 2 else if b < 0xF0 then 3 else 4
  }

  lemma TailStartsNone(s: seq<Byte>)
    requires s != [] && Tail(s[0])
    ensures FirstWidth(s) == 0
  {
  }

  lemma RestAreTails(s: seq<Byte>, i: nat)
    requires 0 < i < FirstWidth(s)
    ensures Tail(s[i])
  {
  }

  lemma InsideFirst(s: seq<Byte>, i: nat)
    requires 0 < i < FirstWidth(s)
    ensures Tail(s[i]) && !WellFormed(s[i..])
  {
    RestAreTails(s, i);
    TailStartsNone(s[i..]);
  }

  lemma StartIsBoundary(s: seq<Byte>)
    requires WellFormed(s)
    ensures Boundary(s, 0) && WellFormed(s[..0]) && WellFormed(s[0..])
  {
    assert s[0..] == s;
    if s != [] && Tail(s[0]) {
      TailStartsNone(s);
    }
  }

  lemma PrefixWidth(s: seq<Byte>, i: nat)
    requires 0 < FirstWidth(s) <= i <= |s|
    ensures FirstWidth(s[..i]) == FirstWidth(s)
  {
  }

  lemma PastFirst(s: seq<Byte>, i: nat)
    requires 0 < FirstWidth(s) <= i <= |s|
    ensures var w := FirstWidth(s);
            && s[w..][i - w..] == s[i..]
            && (WellFormed(s[w..][..i - w]) <==> WellFormed(s[..i]))
  {
    var w := FirstWidth(s);
    PrefixWidth(s, i);
    assert s[w..][..i - w] == s[..i][w..];
  }

  lemma SplitPastFirst(s: seq<Byte>, w: nat, i: nat)
    requires w == FirstWidth(s) && 0 < w <= i <= |s|
    requires Boundary(s[w..], i - w) <==> WellFormed(s[w..][..i - w]) && WellFormed(s[w..][i - w..])
    ensures Boundary(s, i) <==> WellFormed(s[..i]) && WellFormed(s[i..])
  {
    PastFirst(s, i);
    assert i < |s| ==> s[w..][i - w] == s[i];
  }

  /** Cutting a well-formed string leaves two well-formed strings exactly at
      the bytes that do not continue a character. */
  lemma {:induction false} BoundarySplits(s: seq<Byte>, i: nat)
    requires WellFormed(s) && i <= |s|
    ensures Boundary(s, i) <==> WellFormed(s[..i]) && WellFormed(s[i..])
    decreases |s|
  {
    var w := FirstWidth(s);
    if i == 0 {
      StartIsBoundary(s);
    } else if i < w {
      InsideFirst(s, i);
    } else {
      BoundarySplits(s[w..], i - w);
      SplitPastFirst(s, w, i);
    }
  }

  lemma WidthIsAnnounced(s: seq<Byte>)
    requires WellFormed(s) && s != []
    ensures FirstWidth(s) == CharWidth(s[0])
  {
  }

  /** From one place to cut, the leading byte tells the next. */
  lemma NextBoundary(s: seq<Byte>, i: nat)
    requires WellFormed(s) && Boundary(s, i) && i < |s|
    ensures Boundary(s, i + CharWidth(s[i]))
  {
    BoundarySplits(s, i);
    var rest, w := s[i..], FirstWidth(s[i..]);
    WidthIsAnnounced(rest);
    assert rest[w..] == s[i + w..];
    if i + w < |s| {
      StartIsBoundary(s[i + w..]);
    }
  }

  lemma AfterAscii(s: seq<Byte>, i: nat)
    requires WellFormed(s) && i < |s| && s[i] < 0x80
    ensures Boundary(s, i + 1)
  {
    NextBoundary(s, i);
  }

  /** A character lies wholly between its boundaries. */
  lemma NoBoundaryWithin(s: seq<Byte>, i: nat, j: nat)
    requires WellFormed(s) && Boundary(s, i) && i < |s| && i < j < i + CharWidth(s[i])
    ensures !Boundary(s, j)
  {
    BoundarySplits(s, i);
    WidthIsAnnounced(s[i..]);
    RestAreTails(s[i..], j - i);
  }

  // -- by the characters -----------------------------------------------------

  /** A character's number: not a surrogate, and at most 10FFFF. */
  predicate Scalar(n: nat) {
    n < 0xD800 || 0xE000 <= n < 0x110000
  }

  /** The bytes of a character, by section 3 of RFC 3629. */
  function Encoded(n: nat): (bytes: seq<Byte>)
    requires Scalar(n)
  {
    if n < 0x80 then [n as Byte]
    else if n < 0x800 then [(0xC0 + n / 0x40) as Byte, (0x80 + n % 0x40) as Byte]
    else if n < 0x10000 then
      [(0xE0 + n / 0x1000) as Byte, (0x80 + n / 0x40 % 0x40) as Byte, (0x80 + n % 0x40) as Byte]
    else
      [(0xF0 + n / 0x40000) as Byte, (0x80 + n / 0x1000 % 0x40) as Byte, (0x80 + n / 0x40 % 0x40) as Byte,
       (0x80 + n % 0x40) as Byte]
  }

  ghost predicate AllScalar(characters: seq<nat>) {
    forall k :: 0 <= k < |characters| ==> Scalar(characters[k])
  }

  function EncodedAll(characters: seq<nat>): seq<Byte>
    requires AllScalar(characters)
  {
    if characters == [] then [] else Encoded(characters[0]) + EncodedAll(characters[1..])
  }

  /** The number behind the first character of these bytes. */
  function FirstCharacter(s: seq<Byte>): nat
    requires FirstWidth(s) > 0
  {
    var a := s[0] as nat;
    match FirstWidth(s)
    case 1 => a
    case 2 => (a - 0xC0) * 0x40 + (s[1] as nat - 0x80)
    case 3 => (a - 0xE0) * 0x1000 + (s[1] as nat - 0x80) * 0x40 + (s[2] as nat - 0x80)
    case _ =>
      (a - 0xF0) * 0x40000 + (s[1] as nat - 0x80) * 0x1000 + (s[2] as nat - 0x80) * 0x40 + (s[3] as nat - 0x80)
  }

  lemma TwoParts(h: nat, l: nat, n: nat)
    requires l < 0x40 && n == h * 0x40 + l
    ensures n / 0x40 == h && n % 0x40 == l
  {
  }

  lemma ThreeParts(h: nat, m: nat, l: nat, n: nat)
    requires m < 0x40 && l < 0x40 && n == h * 0x1000 + m * 0x40 + l
    ensures n / 0x1000 == h && n / 0x40 % 0x40 == m && n % 0x40 == l
  {
    TwoParts(h * 0x40 + m, l, n);
    TwoParts(h, m, n / 0x40);
  }

  lemma FourParts(h: nat, k: nat, m: nat, l: nat, n: nat)
    requires k < 0x40 && m < 0x40 && l < 0x40 && n == h * 0x40000 + k * 0x1000 + m * 0x40 + l
    ensures n / 0x40000 == h && n / 0x1000 % 0x40 == k && n / 0x40 % 0x40 == m && n % 0x40 == l
  {
    TwoParts(h * 0x1000 + k * 0x40 + m, l, n);
    ThreeParts(h, k, m, n / 0x40);
  }

  lemma FirstOfTwo(s: seq<Byte>, n: nat)
    requires FirstWidth(s) == 2 && n == FirstCharacter(s)
    ensures 0x80 <= n < 0x800 && Encoded(n) == s[..2]
  {
    TwoParts(s[0] as nat - 0xC0, s[1] as nat - 0x80, n);
  }

  lemma FirstOfThree(s: seq<Byte>, n: nat)
    requires FirstWidth(s) == 3 && n == FirstCharacter(s)
    ensures 0x800 <= n < 0x10000 && Scalar(n) && Encoded(n) == s[..3]
  {
    ThreeParts(s[0] as nat - 0xE0, s[1] as nat - 0x80, s[2] as nat - 0x80, n);
  }

  lemma FirstOfFour(s: seq<Byte>, n: nat)
    requires FirstWidth(s) == 4 && n == FirstCharacter(s)
    ensures 0x10000 <= n < 0x110000 && Encoded(n) == s[..4]
  {
    FourParts(s[0] as nat - 0xF0, s[1] as nat - 0x80, s[2] as nat - 0x80, s[3] as nat - 0x80, n);
  }

  lemma FirstIsEncoded(s: seq<Byte>)
    requires FirstWidth(s) > 0
    ensures Scalar(FirstCharacter(s)) && Encoded(FirstCharacter(s)) == s[..FirstWidth(s)]
  {
    match FirstWidth(s)
    case 1 => assert s[..1] == [s[0]];
    case 2 => FirstOfTwo(s, FirstCharacter(s));
    case 3 => FirstOfThree(s, FirstCharacter(s));
    case _ => FirstOfFour(s, FirstCharacter(s));
  }

  lemma EncodedTwo(n: nat, s: seq<Byte>)
    requires 0x80 <= n < 0x800 && Encoded(n) <= s
    ensures FirstWidth(s) == 2 && FirstCharacter(s) == n
  {
    assert s[0] == Encoded(n)[0] && s[1] == Encoded(n)[1];
  }

  lemma EncodedThree(n: nat, s: seq<Byte>)
    requires 0x800 <= n < 0x10000 && Scalar(n) && Encoded(n) <= s
    ensures FirstWidth(s) == 3 && FirstCharacter(s) == n
  {
    assert s[0] == Encoded(n)[0] && s[1] == Encoded(n)[1] && s[2] == Encoded(n)[2];
  }

  lemma FourDigits(n: nat)
    ensures n == n / 0x40000 * 0x40000 + n / 0x1000 % 0x40 * 0x1000 + n / 0x40 % 0x40 * 0x40 + n % 0x40
  {
    assert n / 0x40 / 0x40 == n / 0x1000 && n / 0x1000 / 0x40 == n / 0x40000;
  }

  lemma FourRead(h: nat, k: nat, m: nat, l: nat, n: nat, s: seq<Byte>)
    requires k < 0x40 && m < 0x40 && l < 0x40 && n == h * 0x40000 + k * 0x1000 + m * 0x40 + l
    requires 0x10000 <= n < 0x110000 && |s| >= 4
    requires s[0] as nat == 0xF0 + h && s[1] as nat == 0x80 + k && s[2] as nat == 0x80 + m && s[3] as nat == 0x80 + l
    ensures FirstWidth(s) == 4 && FirstCharacter(s) == n
  {
    assert SecondOfFour(s[0], s[1]);
  }

  lemma EncodedFour(n: nat, s: seq<Byte>)
    requires 0x10000 <= n < 0x110000 && Encoded(n) <= s
    ensures FirstWidth(s) == 4 && FirstCharacter(s) == n
  {
    assert s[0] == Encoded(n)[0] && s[1] == Encoded(n)[1] && s[2] == Encoded(n)[2] && s[3] == Encoded(n)[3];
    FourDigits(n);
    FourRead(n / 0x40000, n / 0x1000 % 0x40, n / 0x40 % 0x40, n % 0x40, n, s);
  }

  lemma EncodedIsFirst(n: nat, rest: seq<Byte>)
    requires Scalar(n)
    ensures FirstWidth(Encoded(n) + rest) == |Encoded(n)| > 0 && FirstCharacter(Encoded(n) + rest) == n
  {
    var s := Encoded(n) + rest;
    if n < 0x80 {
      assert s[0] == n as Byte;
    } else if n < 0x800 {
      EncodedTwo(n, s);
    } else if n < 0x10000 {
      EncodedThree(n, s);
    } else {
      EncodedFour(n, s);
    }
  }

  lemma {:induction false} EncodedIsWellFormed(characters: seq<nat>)
    requires AllScalar(characters)
    ensures WellFormed(EncodedAll(characters))
  {
    if characters != [] {
      var rest := EncodedAll(characters[1..]);
      EncodedIsWellFormed(characters[1..]);
      EncodedIsFirst(characters[0], rest);
      var s := Encoded(characters[0]) + rest;
      assert s[FirstWidth(s)..] == rest;
    }
  }

  lemma EncodedAfter(first: nat, rest: seq<nat>)
    requires Scalar(first) && AllScalar(rest)
    ensures AllScalar([first] + rest) && EncodedAll([first] + rest) == Encoded(first) + EncodedAll(rest)
  {
    assert ([first] + rest)[1..] == rest;
  }

  lemma {:induction false} WellFormedIsEncoded(s: seq<Byte>) returns (characters: seq<nat>)
    requires WellFormed(s)
    ensures AllScalar(characters) && EncodedAll(characters) == s
    decreases |s|
  {
    characters := [];
    if s != [] {
      var w := FirstWidth(s);
      FirstIsEncoded(s);
      var rest := WellFormedIsEncoded(s[w..]);
      EncodedAfter(FirstCharacter(s), rest);
      characters := [FirstCharacter(s)] + rest;
      assert s == s[..w] + s[w..];
    }
  }

  /** A string is well formed exactly when it is some characters' bytes. */
  lemma WellFormedExactly(s: seq<Byte>)
    ensures WellFormed(s) <==> exists characters :: AllScalar(characters) && EncodedAll(characters) == s
  {
    if WellFormed(s) {
      var characters := WellFormedIsEncoded(s);
    }
    if characters :| AllScalar(characters) && EncodedAll(characters) == s {
      EncodedIsWellFormed(characters);
    }
  }
}
