/** The base 64 encoding of section 4 of RFC 4648 (standard alphabet, '=' padding),
    as used by Convert.ToBase64String and Convert.FromBase64String for queue messages. */
module Base64 {
  import opened Wrappers

  type byte = x: int | 0 <= x < 256
  type sextet = x: int | 0 <= x < 64

  const Pad: char := '='

  /** The character that table 1 of RFC 4648 assigns to a six-bit value:
      'A'..'Z' for 0..25, 'a'..'z' for 26..51, '0'..'9' for 52..61, '+' for 62 and '/' for 63. */
  function CharOf(v: sextet): (c: char)
    ensures c != Pad
    ensures ValueOf(c) == Some(v)
  {
    if v < 26 then ('A' as int + v) as char
    else if v < 52 then ('a' as int + (v - 26)) as char
    else if v < 62 then ('0' as int + (v - 52)) as char
    else if v == 62 then '+'
    else '/'
  }

  /** The six-bit value of an alphabet character; None for any other character. */
  function ValueOf(c: char): (r: Option<sextet>)
    ensures r.Some? ==> 'A' <= c <= 'Z' || 'a' <= c <= 'z' || '0' <= c <= '9' || c == '+' || c == '/'
    ensures c == Pad ==> r.None?
  {
    if 'A' <= c <= 'Z' then Some(c as int - 'A' as int)
    else if 'a' <= c <= 'z' then Some(c as int - 'a' as int + 26)
    else if '0' <= c <= '9' then Some(c as int - '0' as int + 52)
    else if c == '+' then Some(62)
    else if c == '/' then Some(63)
    else None
  }

  /** ValueOf inverts CharOf: every alphabet character is CharOf of its value. */
  lemma ValueOfInvertsCharOf(c: char)
    requires ValueOf(c).Some?
    ensures CharOf(ValueOf(c).value) == c
  {
  }

  /** Three bytes (24 bits) as four alphabet characters, most significant bits first. */
  function EncodeTriple(b0: byte, b1: byte, b2: byte): seq<char>
  {
    [CharOf(b0 / 4), CharOf((b0 % 4) * 16 + b1 / 16), CharOf((b1 % 16) * 4 + b2 / 64), CharOf(b2 % 64)]
  }

  /** Convert.ToBase64String: full groups of three bytes, then a final padded group of one or two. */
  function Encode(s: seq<byte>): (r: seq<char>)
    ensures |r| == (|s| + 2) / 3 * 4
    decreases |s|
  {
    if |s| == 0 then []
    else if |s| == 1 then [CharOf(s[0] / 4), CharOf((s[0] % 4) * 16), Pad, Pad]
    else if |s| == 2 then [CharOf(s[0] / 4), CharOf((s[0] % 4) * 16 + s[1] / 16), CharOf((s[1] % 16) * 4), Pad]
    else EncodeTriple(s[0], s[1], s[2]) + Encode(s[3..])
  }

  /** Every character of an encoding is an alphabet character or the pad, and pads only end it. */
  lemma {:induction false} EncodeIsWellFormed(s: seq<byte>)
    ensures forall i :: 0 <= i < |Encode(s)| ==> ValueOf(Encode(s)[i]).Some? || Encode(s)[i] == Pad
    ensures forall i :: 0 <= i < |Encode(s)| && Encode(s)[i] == Pad ==> |Encode(s)| - 2 <= i
    decreases |s|
  {
    if |s| > 2 {
      EncodeIsWellFormed(s[3..]);
      var r := Encode(s);
      assert r == EncodeTriple(s[0], s[1], s[2]) + Encode(s[3..]);
      forall i | 0 <= i < |r|
        ensures ValueOf(r[i]).Some? || r[i] == Pad
        ensures r[i] == Pad ==> |r| - 2 <= i
      {
        if i >= 4 {
          assert r[i] == Encode(s[3..])[i - 4];
        }
      }
    }
  }

  /** The bytes packed into four six-bit values, most significant bits first. */
  function Unpack(v0: int, v1: int, v2: int, v3: int): seq<int>
  {
    [v0 * 4 + v1 / 16, (v1 % 16) * 16 + v2 / 4, (v2 % 4) * 64 + v3]
  }

  /** One group of four characters. Only the last group of a message may carry padding. */
  function DecodeQuad(c0: char, c1: char, c2: char, c3: char, last: bool): (r: Option<seq<byte>>)
    ensures r.Some? ==> 1 <= |r.value| <= 3
    ensures r.Some? && !last ==> |r.value| == 3
  {
    match (ValueOf(c0), ValueOf(c1), ValueOf(c2), ValueOf(c3))
    case (Some(v0), Some(v1), Some(v2), Some(v3)) =>
      Some(Unpack(v0, v1, v2, v3))
    case (Some(v0), Some(v1), Some(v2), None) =>
      if last && c3 == Pad then Some(Unpack(v0, v1, v2, 0)[..2]) else None
    case (Some(v0), Some(v1), None, None) =>
      if last && c2 == Pad && c3 == Pad then Some(Unpack(v0, v1, 0, 0)[..1]) else None
    case _ => None
  }

  /** The strict part of Convert.FromBase64String, on text without skipped characters: None
      stands for the FormatException thrown on a length that is not a multiple of four, a
      character outside the alphabet, or misplaced padding. The output has three bytes per group
      of four characters, less one per pad. */
  function DecodeGroups(t: seq<char>): Option<seq<byte>>
    decreases |t|
  {
    if |t| == 0 then Some([])
    else if |t| < 4 then None
    else
      match DecodeQuad(t[0], t[1], t[2], t[3], |t| == 4)
      case None => None
      case Some(head) =>
        match DecodeGroups(t[4..])
        case None => None
        case Some(tail) => Some(head + tail)
  }

  /** Three bytes per group of four characters, less one per pad. */
  lemma {:induction false} DecodeGroupsLength(t: seq<char>)
    ensures var r := DecodeGroups(t);
            r.Some? ==> |t| % 4 == 0 && 4 * |r.value| <= 3 * |t| <= 4 * |r.value| + 8
    decreases |t|
  {
    var r := DecodeGroups(t);
    if |t| >= 4 && r.Some? {
      var rest := t[4..];
      DecodeGroupsLength(rest);
      var head := DecodeQuad(t[0], t[1], t[2], t[3], |t| == 4);
      var tail := DecodeGroups(rest);
      assert head.Some? && tail.Some? && r.value == head.value + tail.value;
      GroupLength(|t|, |rest|, |head.value|, |tail.value|, |r.value|);
    }
  }

  /** The arithmetic of one more group: n characters, four of them in the first group. */
  lemma GroupLength(n: nat, m: nat, h: nat, k: nat, total: nat)
    requires n == m + 4 && total == h + k && 1 <= h <= 3 && (m > 0 ==> h == 3)
    requires m % 4 == 0 && 4 * k <= 3 * m <= 4 * k + 8 && (m == 0 ==> k == 0)
    ensures n % 4 == 0 && 4 * total <= 3 * n <= 4 * total + 8
  {
  }

  /** The characters Convert.FromBase64String skips wherever they occur: space, tab, CR and LF. */
  predicate IsSkipped(c: char)
  {
    c == ' ' || c == '\t' || c == '\r' || c == '\n'
  }

  /** The text with every skipped character removed, the others kept in order. */
  function StripSkipped(t: seq<char>): (r: seq<char>)
    ensures |r| <= |t|
    ensures forall i :: 0 <= i < |r| ==> !IsSkipped(r[i])
  {
    if t == [] then []
    else (if IsSkipped(t[0]) then [] else [t[0]]) + StripSkipped(t[1..])
  }

  /** Convert.FromBase64String: skipped characters are ignored, the rest must be a well-formed
      sequence of groups. */
  function Decode(t: seq<char>): (r: Option<seq<byte>>)
    ensures r.Some? ==> |StripSkipped(t)| % 4 == 0 && 4 * |r.value| <= 3 * |StripSkipped(t)| <= 4 * |r.value| + 8
  {
    DecodeGroupsLength(StripSkipped(t));
    DecodeGroups(StripSkipped(t))
  }

  /** Text holding a character outside the alphabet, the pad and the skipped ones is refused
      wherever that character sits. */
  lemma DecodeRejectsForeign(t: seq<char>)
    ensures (exists i :: 0 <= i < |t| && IsForeign(t[i])) ==> Decode(t).None?
  {
    StripKeepsForeign(t);
    DecodeGroupsRejectsForeign(StripSkipped(t));
  }

  /** A character that is neither in the alphabet, nor the pad, nor skipped. */
  predicate IsForeign(c: char)
  {
    ValueOf(c).None? && c != Pad && !IsSkipped(c)
  }

  /** A group holding a foreign character is refused. */
  lemma QuadRejectsForeign(c0: char, c1: char, c2: char, c3: char, last: bool)
    requires IsForeign(c0) || IsForeign(c1) || IsForeign(c2) || IsForeign(c3)
    ensures DecodeQuad(c0, c1, c2, c3, last).None?
  {
  }

  /** Text holding a foreign character anywhere is refused. */
  lemma {:induction false} DecodeGroupsRejectsForeign(t: seq<char>)
    ensures (exists i :: 0 <= i < |t| && IsForeign(t[i])) ==> DecodeGroups(t).None?
    decreases |t|
  {
    if |t| >= 4 && exists i :: 0 <= i < |t| && IsForeign(t[i]) {
      var i :| 0 <= i < |t| && IsForeign(t[i]);
      if i < 4 {
        QuadRejectsForeign(t[0], t[1], t[2], t[3], |t| == 4);
      } else {
        assert t[4..][i - 4] == t[i];
        DecodeGroupsRejectsForeign(t[4..]);
      }
    }
  }

  /** Stripping keeps every foreign character. */
  lemma StripKeepsForeign(t: seq<char>)
    ensures (exists i :: 0 <= i < |t| && IsForeign(t[i])) ==>
              exists j :: 0 <= j < |StripSkipped(t)| && IsForeign(StripSkipped(t)[j])
  {
    if exists i :: 0 <= i < |t| && IsForeign(t[i]) {
      var i :| 0 <= i < |t| && IsForeign(t[i]);
      var a, b := t[..i], t[i + 1..];
      assert t == a + [t[i]] + b;
      StripConcat(a + [t[i]], b);
      StripConcat(a, [t[i]]);
      assert [t[i]][1..] == [];
      assert StripSkipped([t[i]]) == [t[i]];
      var j := |StripSkipped(a)|;
      assert StripSkipped(t)[j] == t[i];
    }
  }

  lemma {:induction false} StripConcat(a: seq<char>, b: seq<char>)
    ensures StripSkipped(a + b) == StripSkipped(a) + StripSkipped(b)
  {
    if a == [] {
      assert a + b == b;
    } else {
      assert (a + b)[0] == a[0] && (a + b)[1..] == a[1..] + b;
      StripConcat(a[1..], b);
    }
  }

  /** Text with no skipped character is left as it is. */
  lemma {:induction false} StripCanonical(t: seq<char>)
    requires forall i :: 0 <= i < |t| ==> !IsSkipped(t[i])
    ensures StripSkipped(t) == t
  {
    if t != [] {
      StripCanonical(t[1..]);
      assert t == [t[0]] + t[1..];
    }
  }

  /** A space, tab, CR or LF anywhere in the text does not change what it decodes to. */
  lemma DecodeIgnoresSkipped(a: seq<char>, c: char, b: seq<char>)
    requires IsSkipped(c)
    ensures Decode(a + [c] + b) == Decode(a + b)
  {
    StripConcat(a + [c], b);
    StripConcat(a, [c]);
    StripConcat(a, b);
    assert [c][1..] == [];
    assert StripSkipped([c]) == [];
    assert StripSkipped(a) + [] == StripSkipped(a);
  }

  /** A message ending in a line break decodes like the bare encoding: "QQ==" followed by LF is
      the single byte 0x41. */
  lemma DecodeTrailingNewline()
    ensures Decode("QQ==\n") == Some([0x41])
  {
    var s: seq<byte> := [0x41];
    var e := Encode(s);
    assert CharOf(16) == 'Q';
    assert e == "QQ==";
    DecodeEncode(s);
    assert "QQ==\n" == e + ['\n'] + [];
    DecodeIgnoresSkipped(e, '\n', []);
    assert e + [] == e;
  }

  lemma TripleRoundTrip(b0: byte, b1: byte, b2: byte, last: bool)
    ensures var q := EncodeTriple(b0, b1, b2); DecodeQuad(q[0], q[1], q[2], q[3], last) == Some([b0, b1, b2])
  {
    var v1 := (b0 % 4) * 16 + b1 / 16;
    var v2 := (b1 % 16) * 4 + b2 / 64;
    SplitSextet(b0 % 4, b1 / 16, 16);
    SplitSextet(b1 % 16, b2 / 64, 4);
    var u := Unpack(b0 / 4, v1, v2, b2 % 64);
    assert u[0] == b0 && u[1] == b1 && u[2] == b2;
  }

  /** A six-bit value made of a high part and a low part below `k` splits back into them. */
  lemma SplitSextet(hi: int, lo: int, k: int)
    requires k == 4 || k == 16
    requires 0 <= hi && 0 <= lo < k
    ensures (hi * k + lo) / k == hi && (hi * k + lo) % k == lo
  {
  }

  lemma SingleRoundTrip(b0: byte)
    ensures DecodeGroups(Encode([b0])) == Some([b0])
  {
    var t := Encode([b0]);
    var v1 := (b0 % 4) * 16;
    assert v1 / 16 == b0 % 4;
    var u := Unpack(b0 / 4, v1, 0, 0);
    assert u[0] == b0;
    assert u[..1] == [b0];
    assert DecodeQuad(t[0], t[1], t[2], t[3], true) == Some([b0]);
    assert t[4..] == [] && DecodeGroups(t[4..]) == Some([]);
    assert [b0] + [] == [b0];
  }

  lemma PairRoundTrip(b0: byte, b1: byte)
    ensures DecodeGroups(Encode([b0, b1])) == Some([b0, b1])
  {
    var t := Encode([b0, b1]);
    var v1 := (b0 % 4) * 16 + b1 / 16;
    var v2 := (b1 % 16) * 4;
    assert v1 / 16 == b0 % 4 && v1 % 16 == b1 / 16;
    assert v2 / 4 == b1 % 16;
    assert t == [CharOf(b0 / 4), CharOf(v1), CharOf(v2), Pad];
    var u := Unpack(b0 / 4, v1, v2, 0);
    assert u[0] == b0 && u[1] == b1;
    assert u[..2] == [b0, b1];
    assert DecodeQuad(t[0], t[1], t[2], t[3], true) == Some([b0, b1]);
    assert t[4..] == [] && DecodeGroups(t[4..]) == Some([]);
    assert [b0, b1] + [] == [b0, b1];
  }

  lemma TripleStep(s: seq<byte>)
    requires |s| > 2 && DecodeGroups(Encode(s[3..])) == Some(s[3..])
    ensures DecodeGroups(Encode(s)) == Some(s)
  {
    var t := Encode(s);
    var q := EncodeTriple(s[0], s[1], s[2]);
    var rest := Encode(s[3..]);
    assert t == q + rest;
    assert t[0] == q[0] && t[1] == q[1] && t[2] == q[2] && t[3] == q[3];
    assert t[4..] == rest;
    TripleRoundTrip(s[0], s[1], s[2], |t| == 4);
    DecodeStep(t, [s[0], s[1], s[2]], s[3..]);
    SplitThree(s);
  }

  /** DecodeGroups consumes one group and then decodes the rest. */
  lemma DecodeStep(t: seq<char>, head: seq<byte>, tail: seq<byte>)
    requires |t| >= 4
    requires DecodeQuad(t[0], t[1], t[2], t[3], |t| == 4) == Some(head)
    requires DecodeGroups(t[4..]) == Some(tail)
    ensures DecodeGroups(t) == Some(head + tail)
  {
  }

  lemma SplitThree(s: seq<byte>)
    requires |s| > 2
    ensures [s[0], s[1], s[2]] + s[3..] == s
  {
  }

  /** The strict decoder inverts encoding. */
  lemma {:induction false} DecodeGroupsEncode(s: seq<byte>)
    ensures DecodeGroups(Encode(s)) == Some(s)
    decreases |s|
  {
    if |s| == 1 {
      assert s == [s[0]];
      SingleRoundTrip(s[0]);
    } else if |s| == 2 {
      assert s == [s[0], s[1]];
      PairRoundTrip(s[0], s[1]);
    } else if |s| > 2 {
      DecodeGroupsEncode(s[3..]);
      TripleStep(s);
    }
  }

  /** Decoding inverts encoding: the round trip every queue message relies on. An encoding holds
      no skipped character, so nothing is stripped from it. */
  lemma DecodeEncode(s: seq<byte>)
    ensures Decode(Encode(s)) == Some(s)
  {
    EncodeIsWellFormed(s);
    StripCanonical(Encode(s));
    DecodeGroupsEncode(s);
  }
}
