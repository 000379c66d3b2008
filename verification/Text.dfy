/** Runes, their UTF-8 widths, and Go's whitespace trimming, for valid UTF-8 content. */
module Text {

  const BLANK: string := "\n\n"

  /** unicode.IsSpace */
  predicate IsSpace(r: char) {
    var p := r as int;
    0x09 <= p <= 0x0D || p == 0x20 || p == 0x85 || p == 0xA0 || p == 0x1680
    || 0x2000 <= p <= 0x200A || p == 0x2028 || p == 0x2029 || p == 0x202F || p == 0x205F || p == 0x3000
  }

  /** Bytes of a rune in UTF-8. */
  function Width(r: char): (w: nat)
    ensures 1 <= w <= 4
  {
    var p := r as int;
    if p < 0x80 then 1 else if p < 0x800 then 2 else if p < 0x1_0000 then 3 else 4
  }

  /** Go's len of a string: its bytes. */
  function ByteLen(s: string): nat {
    if s == "" then 0 else Width(s[0]) + ByteLen(s[1..])
  }

  /** The bytes of a rune, as section 3 of RFC 3629 lays them out. */
  function Encoded(r: char): (bytes: seq<int>)
    ensures forall i :: 0 <= i < |bytes| ==> 0 <= bytes[i] < 0x100
  {
    var p := r as int;
    if p < 0x80 then [p]
    else if p < 0x800 then [0xC0 + p / 64, 0x80 + p % 64]
    else if p < 0x1_0000 then [0xE0 + p / 64 / 64, 0x80 + p / 64 % 64, 0x80 + p % 64]
    else [0xF0 + p / 64 / 64 / 64, 0x80 + p / 64 / 64 % 64, 0x80 + p / 64 % 64, 0x80 + p % 64]
  }

  /** What the first rune's bytes at the front of `bytes` denote; the lead byte tells how many they are. */
  function Decoded(bytes: seq<int>): int {
    if |bytes| >= 1 && bytes[0] < 0x80 then bytes[0]
    else if |bytes| >= 2 && bytes[0] < 0xE0 then (bytes[0] - 0xC0) * 64 + bytes[1] - 0x80
    else if |bytes| >= 3 && bytes[0] < 0xF0 then
      ((bytes[0] - 0xE0) * 64 + bytes[1] - 0x80) * 64 + bytes[2] - 0x80
    else if |bytes| >= 4 then
      (((bytes[0] - 0xF0) * 64 + bytes[1] - 0x80) * 64 + bytes[2] - 0x80) * 64 + bytes[3] - 0x80
    else -1
  }

  /** A rune's width is the length of its encoding, from which the rune can be read back whatever follows it. */
  lemma WidthIsEncoded(r: char, rest: seq<int>)
    ensures |Encoded(r)| == Width(r)
    ensures Decoded(Encoded(r) + rest) == r as int
  {
  }

  function AllEncoded(s: string): seq<int> {
    if s == "" then [] else Encoded(s[0]) + AllEncoded(s[1..])
  }

  /** Go's len is the number of bytes of the encoded text. */
  lemma {:induction false} ByteLenIsEncoded(s: string)
    ensures ByteLen(s) == |AllEncoded(s)|
  {
    if s == "" {
    } else {
      ByteLenIsEncoded(s[1..]);
      WidthIsEncoded(s[0], []);
    }
  }

  lemma {:induction false} ByteLenConcat(a: string, b: string)
    ensures ByteLen(a + b) == ByteLen(a) + ByteLen(b)
  {
    if a == "" {
      assert a + b == b;
    } else {
      assert (a + b)[1..] == a[1..] + b;
      ByteLenConcat(a[1..], b);
    }
  }

  lemma ByteLenBlank()
    ensures ByteLen(BLANK) == 2
  {
  }

  function TrimLeft(s: string): string {
    if s != "" && IsSpace(s[0]) then TrimLeft(s[1..]) else s
  }

  function TrimRight(s: string): string {
    if s != "" && IsSpace(s[|s| - 1]) then TrimRight(s[..|s| - 1]) else s
  }

  function TrimSpace(s: string): string {
    TrimRight(TrimLeft(s))
  }

  /** What splitting on blank lines, trimming and dropping empties delivers. */
  predicate Trimmed(p: string) {
    p != "" && !IsSpace(p[0]) && !IsSpace(p[|p| - 1])
  }

  lemma Associates(a: string, b: string, c: string, d: string)
    ensures a + b + c + d == a + (b + c + d)
    ensures a + (b + c + d) == (a + b + c) + d
  {
  }

  /** Trimming at the left stops inside a text that ends in something visible. */
  lemma {:induction false} TrimLeftStops(a: string, b: string)
    requires a != "" && !IsSpace(a[|a| - 1])
    ensures TrimLeft(a + b) == TrimLeft(a) + b
    ensures TrimLeft(a) != "" && TrimLeft(a)[|TrimLeft(a)| - 1] == a[|a| - 1]
  {
    assert (a + b)[0] == a[0];
    if !IsSpace(a[0]) {
    } else {
      assert (a + b)[1..] == a[1..] + b;
      TrimLeftStops(a[1..], b);
    }
  }

  lemma TrimRightBlank(a: string)
    requires a != "" && !IsSpace(a[|a| - 1])
    ensures TrimRight(a + BLANK) == a && TrimRight(a) == a
  {
    var s := a + BLANK;
    assert s[..|s| - 1] == a + "\n";
    assert (a + "\n")[..|a|] == a;
    assert TrimRight(s) == TrimRight(a + "\n") == TrimRight(a);
  }

  lemma {:induction false} TrimLeftIsSuffix(s: string)
    ensures |TrimLeft(s)| <= |s| && TrimLeft(s) == s[|s| - |TrimLeft(s)|..]
    ensures TrimLeft(s) != "" ==> !IsSpace(TrimLeft(s)[0])
    ensures ByteLen(TrimLeft(s)) <= ByteLen(s)
  {
    if s == "" || !IsSpace(s[0]) {
    } else {
      TrimLeftIsSuffix(s[1..]);
    }
  }

  lemma {:induction false} TrimRightIsPrefix(s: string)
    ensures TrimRight(s) <= s
    ensures TrimRight(s) != "" ==> !IsSpace(TrimRight(s)[|TrimRight(s)| - 1])
  {
    if s == "" || !IsSpace(s[|s| - 1]) {
    } else {
      TrimRightIsPrefix(s[..|s| - 1]);
    }
  }

  /** Nothing blank is left at either end. */
  lemma TrimSpaceTrims(s: string)
    ensures TrimSpace(s) == "" || Trimmed(TrimSpace(s))
  {
    TrimLeftIsSuffix(s);
    TrimRightIsPrefix(TrimLeft(s));
    if TrimSpace(s) != "" {
      assert TrimSpace(s)[0] == TrimLeft(s)[0];
    }
  }

  predicate AllSpace(s: string) {
    forall i :: 0 <= i < |s| ==> IsSpace(s[i])
  }

  lemma {:induction false} TrimLeftSkips(l: string, t: string)
    requires AllSpace(l) && (t != "" ==> !IsSpace(t[0]))
    ensures TrimLeft(l + t) == t
  {
    if l == "" {
      assert l + t == t;
    } else {
      assert (l + t)[1..] == l[1..] + t;
      TrimLeftSkips(l[1..], t);
    }
  }

  lemma {:induction false} TrimRightSkips(t: string, r: string)
    requires AllSpace(r) && (t != "" ==> !IsSpace(t[|t| - 1]))
    ensures TrimRight(t + r) == t
  {
    if r == "" {
      assert t + r == t;
    } else {
      assert (t + r)[..|t + r| - 1] == t + r[..|r| - 1];
      TrimRightSkips(t, r[..|r| - 1]);
    }
  }

  /** Trimming takes off the white space at both ends and nothing else. */
  lemma TrimSpaceIs(l: string, t: string, r: string)
    requires AllSpace(l) && AllSpace(r) && (t == "" || Trimmed(t))
    ensures TrimSpace(l + t + r) == t
  {
    if t == "" {
      TrimLeftSkips(l + r, "");
      assert l + t + r == l + r + "";
    } else {
      assert l + t + r == l + (t + r);
      TrimLeftSkips(l, t + r);
      TrimRightSkips(t, r);
    }
  }

  lemma TrimmedStays(s: string)
    requires Trimmed(s)
    ensures TrimSpace(s) == s
  {
  }

  // ---- Paragraphs joined by blank lines ------------------------------------------------------

  function Join(ps: seq<string>): string {
    if ps == [] then "" else if |ps| == 1 then ps[0] else Join(ps[..|ps| - 1]) + BLANK + ps[|ps| - 1]
  }

  ghost predicate AllTrimmed(ps: seq<string>) {
    forall i :: 0 <= i < |ps| ==> Trimmed(ps[i])
  }

  lemma {:induction false} JoinTrimmed(ps: seq<string>)
    requires ps != [] && AllTrimmed(ps)
    ensures Trimmed(Join(ps))
  {
    assert Trimmed(ps[|ps| - 1]);
    if |ps| == 1 {
    } else {
      JoinTrimmed(ps[..|ps| - 1]);
    }
  }

  lemma JoinAppend(ps: seq<string>, p: string)
    requires ps != []
    ensures Join(ps + [p]) == Join(ps) + "\n\n" + p
    ensures ByteLen(Join(ps + [p])) == ByteLen(Join(ps)) + 2 + ByteLen(p)
  {
    assert (ps + [p])[..|ps|] == ps;
    ByteLenConcat(Join(ps) + BLANK, p);
    ByteLenConcat(Join(ps), BLANK);
    ByteLenBlank();
  }

  function Flatten(blocks: seq<seq<string>>): seq<string> {
    if blocks == [] then [] else Flatten(blocks[..|blocks| - 1]) + blocks[|blocks| - 1]
  }

  lemma FlattenAppend(blocks: seq<seq<string>>, b: seq<string>)
    ensures Flatten(blocks + [b]) == Flatten(blocks) + b
  {
  }

  lemma {:induction false} FlattenHolds(blocks: seq<seq<string>>, i: nat, j: nat)
    requires i < |blocks| && j < |blocks[i]|
    ensures blocks[i][j] in Flatten(blocks)
  {
    if i == |blocks| - 1 {
    } else {
      FlattenHolds(blocks[..|blocks| - 1], i, j);
    }
  }
}
