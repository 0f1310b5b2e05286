/** The string operations the handlers use: `startsWith`, `split(" ")`, `toLowerCase`,
    `includes`, and the hex encoding of `Buffer.toString("hex")`. */
module Strings {
  import opened Common

  predicate StartsWith(s: string, prefix: string) {
    |prefix| <= |s| && s[..|prefix|] == prefix
  }

  /** JavaScript's `s.split(sep)` for a one-character separator: the runs between
      separators, empty runs included, so there is always at least one field. */
  function Split(s: string, sep: char): (parts: seq<string>)
    ensures |parts| >= 1
    ensures forall i :: 0 <= i < |parts| ==> sep !in parts[i]
  {
    if s == [] then [""]
    else
      var rest := Split(s[1..], sep);
      if s[0] == sep then [""] + rest
      else [[s[0]] + rest[0]] + rest[1..]
  }

  /** JavaScript's `parts.join(sep)`. */
  function Join(parts: seq<string>, sep: char): string
    requires |parts| >= 1
  {
    if |parts| == 1 then parts[0] else parts[0] + [sep] + Join(parts[1..], sep)
  }

  lemma JoinExtendFirst(w: string, parts: seq<string>, sep: char)
    requires |parts| >= 1
    ensures Join([w + parts[0]] + parts[1..], sep) == w + Join(parts, sep)
  {
    var ext := [w + parts[0]] + parts[1..];
    assert ext[1..] == parts[1..];
  }

  /** Splitting loses nothing: joining the fields back gives the original string. */
  lemma {:induction false} JoinSplit(s: string, sep: char)
    ensures Join(Split(s, sep), sep) == s
  {
    if s != [] {
      JoinSplit(s[1..], sep);
      var rest := Split(s[1..], sep);
      if s[0] == sep {
        assert ([""] + rest)[1..] == rest;
        assert s == [sep] + s[1..];
      } else {
        JoinExtendFirst([s[0]], rest, sep);
        assert s == [s[0]] + s[1..];
      }
    }
  }

  /** A word without the separator is a single field. */
  lemma {:induction false} SplitWord(w: string, sep: char)
    requires sep !in w
    ensures Split(w, sep) == [w]
  {
    if w != [] {
      SplitWord(w[1..], sep);
      assert [w[0]] + w[1..] == w;
    }
  }

  /** A word without the separator, followed by the separator, becomes the first field. */
  lemma {:induction false} SplitAfterWord(w: string, t: string, sep: char)
    requires sep !in w
    ensures Split(w + [sep] + t, sep) == [w] + Split(t, sep)
  {
    var s := w + [sep] + t;
    if w == [] {
      assert s == [sep] + t;
      assert s[1..] == t;
    } else {
      SplitAfterWord(w[1..], t, sep);
      assert s[0] == w[0];
      assert s[1..] == w[1..] + [sep] + t;
      assert [w[0]] + w[1..] == w;
    }
  }

  /** The other direction of the round trip: fields without the separator come back
      unchanged from a join followed by a split. */
  lemma {:induction false} SplitJoin(parts: seq<string>, sep: char)
    requires |parts| >= 1
    requires forall i :: 0 <= i < |parts| ==> sep !in parts[i]
    ensures Split(Join(parts, sep), sep) == parts
  {
    if |parts| == 1 {
      SplitWord(parts[0], sep);
    } else {
      SplitJoin(parts[1..], sep);
      SplitAfterWord(parts[0], Join(parts[1..], sep), sep);
      assert [parts[0]] + parts[1..] == parts;
    }
  }

  /** The first field is the longest separator-free prefix: it is a prefix, and it ends
      at the end of the string or at a separator. */
  lemma {:induction false} FirstField(s: string, sep: char)
    ensures StartsWith(s, Split(s, sep)[0])
    ensures |Split(s, sep)[0]| == |s| || s[|Split(s, sep)[0]|] == sep
  {
    if s != [] && s[0] != sep {
      FirstField(s[1..], sep);
      var f := Split(s[1..], sep)[0];
      assert Split(s, sep)[0] == [s[0]] + f;
      assert s == [s[0]] + s[1..];
    }
  }

  /** `toLowerCase` on the ASCII letters; every other character is kept. */
  function LowerChar(c: char): char {
    if 'A' <= c <= 'Z' then (c as int + 32) as char else c
  }

  function Lower(s: string): string {
    seq(|s|, i requires 0 <= i < |s| => LowerChar(s[i]))
  }

  predicate OccursAt(s: string, sub: string, i: nat) {
    i + |sub| <= |s| && s[i..i + |sub|] == sub
  }

  /** JavaScript's `s.includes(sub)`; the empty string occurs everywhere. */
  predicate Includes(s: string, sub: string) {
    exists i: nat | i <= |s| :: OccursAt(s, sub, i)
  }

  predicate IsHexDigit(c: char) {
    '0' <= c <= '9' || 'a' <= c <= 'f'
  }

  function HexDigit(n: int): (c: char)
    requires 0 <= n < 16
    ensures IsHexDigit(c)
  {
    if n < 10 then ('0' as int + n) as char else ('a' as int + n - 10) as char
  }

  function DigitValue(c: char): (n: int)
    requires IsHexDigit(c)
    ensures 0 <= n < 16
  {
    if c <= '9' then c as int - '0' as int else c as int - 'a' as int + 10
  }

  /** `Buffer.from(bytes).toString("hex")`: two lower-case hex digits per byte, high nibble first. */
  function Hex(bytes: seq<byte>): (r: string)
    ensures |r| == 2 * |bytes|
    ensures forall i :: 0 <= i < |r| ==> IsHexDigit(r[i])
  {
    if bytes == [] then []
    else [HexDigit(bytes[0] / 16), HexDigit(bytes[0] % 16)] + Hex(bytes[1..])
  }

  /** The decoder that `Hex` is checked against. */
  function Unhex(s: string): seq<byte>
    requires |s| % 2 == 0
    requires forall i :: 0 <= i < |s| ==> IsHexDigit(s[i])
  {
    if s == [] then []
    else [DigitValue(s[0]) * 16 + DigitValue(s[1])] + Unhex(s[2..])
  }

  /** The hex encoding is lossless. */
  lemma {:induction false} UnhexHex(bytes: seq<byte>)
    ensures Unhex(Hex(bytes)) == bytes
  {
    if bytes != [] {
      UnhexHex(bytes[1..]);
      var h := Hex(bytes);
      assert h[2..] == Hex(bytes[1..]);
      var b := bytes[0];
      assert DigitValue(HexDigit(b / 16)) == b / 16;
      assert DigitValue(HexDigit(b % 16)) == b % 16;
      assert [bytes[0]] + bytes[1..] == bytes;
    }
  }
}
