/** The variable-length numbers of the wire formats (unsigned LEB128). */
module Leb128 {
  import opened Common

  /** Seven bits per byte, lowest first; all bytes but the last have the top bit set. */
  function Encode(x: nat): seq<Byte> {
    if x < 0x80 then [x] else [x % 0x80 + 0x80] + Encode(x / 0x80)
  }

  /** Reads a number at position `i` with at most `groups` bytes: its value and the position after it. */
  function Decode(s: seq<Byte>, i: nat, groups: nat): Option<(nat, nat)>
    requires i <= |s|
    decreases |s| - i
  {
    if groups == 0 || i == |s| then None
    else if s[i] < 0x80 then Some((s[i], i + 1))
    else
      match Decode(s, i + 1, groups - 1)
      case None => None
      case Some((value, next)) => Some((s[i] - 0x80 + 0x80 * value, next))
  }

  /** A 64-bit number takes up to ten bytes; bits beyond the 64th are lost. */
  const GROUPS: nat := 10

  function Read(s: seq<Byte>, i: nat): Option<(U64, nat)>
    requires i <= |s|
  {
    match Decode(s, i, GROUPS)
    case None => None
    case Some((value, next)) => Some((value % U64_LIMIT, next))
  }

  lemma {:induction false} DecodeAdvances(s: seq<Byte>, i: nat, groups: nat)
    requires i <= |s| && Decode(s, i, groups).Some?
    ensures i < Decode(s, i, groups).value.1 <= |s|
    decreases groups
  {
    if s[i] >= 0x80 {
      DecodeAdvances(s, i + 1, groups - 1);
    }
  }

  function Power(n: nat): nat {
    if n == 0 then 1 else 0x80 * Power(n - 1)
  }

  lemma {:induction false} EncodedLength(x: nat, groups: nat)
    requires x < Power(groups) && groups > 0
    ensures 1 <= |Encode(x)| <= groups
    decreases groups
  {
    if x >= 0x80 {
      assert groups > 1 by {
        assert Power(1) == 0x80 * Power(0);
      }
      EncodedLength(x / 0x80, groups - 1);
    }
  }

  /** What was encoded is read back, whatever follows. */
  lemma {:induction false} RoundTrip(s: seq<Byte>, i: nat, x: nat, groups: nat)
    requires i + |Encode(x)| <= |s| && s[i..i + |Encode(x)|] == Encode(x) && |Encode(x)| <= groups
    ensures Decode(s, i, groups) == Some((x, i + |Encode(x)|))
    decreases groups
  {
    var code := Encode(x);
    assert s[i] == s[i..i + |code|][0];
    if x >= 0x80 {
      var rest := Encode(x / 0x80);
      assert s[i + 1..i + 1 + |rest|] == s[i..i + |code|][1..] == rest;
      RoundTrip(s, i + 1, x / 0x80, groups - 1);
      assert x % 0x80 + 0x80 * (x / 0x80) == x;
    }
  }

  lemma PowerOfTen()
    ensures U64_LIMIT <= Power(GROUPS)
  {
    assert Power(1) == 0x80 && Power(2) == 0x4000 && Power(3) == 0x20_0000 && Power(4) == 0x1000_0000;
    assert Power(5) == 0x8_0000_0000 && Power(6) == 0x400_0000_0000 && Power(7) == 0x2_0000_0000_0000;
    assert Power(8) == 0x100_0000_0000_0000 && Power(9) == 0x8000_0000_0000_0000;
  }

  lemma ReadsBack(s: seq<Byte>, i: nat, x: U64)
    requires i + |Encode(x)| <= |s| && s[i..i + |Encode(x)|] == Encode(x)
    ensures Read(s, i) == Some((x, i + |Encode(x)|))
  {
    PowerOfTen();
    EncodedLength(x, GROUPS);
    RoundTrip(s, i, x, GROUPS);
  }

  // ----- Which bytes are a number

  /** The lowest seven bits of each byte as digits, lowest first. */
  ghost function Value(code: seq<Byte>): nat {
    if code == [] then 0 else code[0] % 0x80 + 0x80 * Value(code[1..])
  }

  /** Exactly the last byte has its top bit clear. */
  ghost predicate IsCode(code: seq<Byte>) {
    code != [] && forall k :: 0 <= k < |code| ==> (code[k] < 0x80 <==> k == |code| - 1)
  }

  lemma CodeTail(code: seq<Byte>)
    requires code != []
    ensures IsCode(code) <==> if code[0] < 0x80 then |code| == 1 else IsCode(code[1..])
  {
    if code[0] >= 0x80 && IsCode(code[1..]) {
      assert forall k :: 0 < k < |code| ==> code[k] == code[1..][k - 1];
    }
  }

  /** Decoding accepts exactly the codes of at most `groups` bytes, and gives the value of their digits. */
  lemma {:induction false} DecodesExactly(s: seq<Byte>, i: nat, groups: nat, value: nat, next: nat)
    requires i <= |s|
    ensures Decode(s, i, groups) == Some((value, next)) <==>
            i < next <= |s| && next - i <= groups && IsCode(s[i..next]) && value == Value(s[i..next])
    decreases groups
  {
    if groups > 0 && i < |s| {
      if i < next <= |s| {
        CodeTail(s[i..next]);
        assert s[i..next][1..] == s[i + 1..next];
      }
      if s[i] >= 0x80 {
        DecodesTail(s, i, groups, value, next);
      }
    }
  }

  /** A number of two or more bytes is that of the bytes after the first, times 128, plus a digit. */
  lemma DecodesTail(s: seq<Byte>, i: nat, groups: nat, value: nat, next: nat)
    requires i < |s| && groups > 0 && s[i] >= 0x80
    ensures Decode(s, i, groups) == Some((value, next)) <==>
            && i + 1 < next <= |s| && next - i <= groups && IsCode(s[i + 1..next])
            && value == s[i] - 0x80 + 0x80 * Value(s[i + 1..next])
    decreases groups, 0
  {
    if Decode(s, i + 1, groups - 1).Some? {
      var (value', next') := Decode(s, i + 1, groups - 1).value;
      DecodesExactly(s, i + 1, groups - 1, value', next');
    }
    if i + 1 < next <= |s| {
      DecodesExactly(s, i + 1, groups - 1, Value(s[i + 1..next]), next);
    }
  }

  /** What is encoded is a code for the number, and none is shorter. */
  lemma {:induction false} EncodesShortest(x: nat, code: seq<Byte>)
    ensures IsCode(Encode(x)) && Value(Encode(x)) == x
    ensures IsCode(code) && Value(code) == x ==> |Encode(x)| <= |code|
    decreases x
  {
    CodeTail(Encode(x));
    if x < 0x80 {
      assert Encode(x)[1..] == [];
    } else {
      assert Encode(x)[1..] == Encode(x / 0x80);
      EncodesShortest(x / 0x80, if code == [] then [] else code[1..]);
      if IsCode(code) && Value(code) == x {
        CodeTail(code);
        assert |code| == 1 ==> code[1..] == [];
      }
    }
  }
}
