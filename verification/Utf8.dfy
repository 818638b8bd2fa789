/** UTF-8, as `str.encode` writes it and the strict `bytes.decode` reads it (RFC 3629). */
module Utf8 {
  import opened Wrappers
  import opened Bytes

  function Tail(n: nat): byte {
    (0x80 + n % 64)
  }

  function EncodeChar(c: char): Data {
    var n := c as int;
    if n < 0x80 then [n]
    else if n < 0x800 then [(0xC0 + n / 64), Tail(n)]
    else if n < 0x1_0000 then [(0xE0 + n / 64 / 64), Tail(n / 64), Tail(n)]
    else [(0xF0 + n / 64 / 64 / 64), Tail(n / 64 / 64), Tail(n / 64), Tail(n)]
  }

  function Encode(s: string): Data {
    if s == "" then [] else EncodeChar(s[0]) + Encode(s[1..])
  }

  predicate IsTail(b: byte) {
    0x80 <= b < 0xC0
  }

  /** How many bytes the first one announces. */
  function Announced(b: byte): nat {
    if b < 0x80 then 1 else if b < 0xC0 then 0 else if b < 0xE0 then 2
    else if b < 0xF0 then 3 else if b < 0xF8 then 4 else 0
  }

  /** The number the first k bytes spell. */
  function Spelled(d: Data, k: nat): int
    requires 1 <= k <= 4 && k <= |d|
  {
    match k
    case 1 => d[0]
    case 2 => (d[0] as int - 0xC0) * 64 + (d[1] as int - 0x80)
    case 3 => ((d[0] as int - 0xE0) * 64 + (d[1] as int - 0x80)) * 64 + (d[2] as int - 0x80)
    case _ =>
      (((d[0] as int - 0xF0) * 64 + (d[1] as int - 0x80)) * 64 + (d[2] as int - 0x80)) * 64 + (d[3] as int - 0x80)
  }

  /** The least number that needs k bytes. */
  function Least(k: nat): int {
    if k == 1 then 0 else if k == 2 then 0x80 else if k == 3 then 0x800 else 0x1_0000
  }

  predicate IsScalar(n: int) {
    0 <= n < 0xD800 || 0xE000 <= n < 0x11_0000
  }

  /** The next character and its length: no stray or missing tail, no overlong form, no
      surrogate. */
  function DecodeChar(d: Data): (r: Option<(char, nat)>)
    ensures r.Some? ==> 1 <= r.value.1 <= |d|
  {
    if d == [] then None
    else
      var k := Announced(d[0]);
      if k == 0 || |d| < k || (exists i :: 1 <= i < k && !IsTail(d[i])) then None
      else
        var n := Spelled(d, k);
        if n < Least(k) || !IsScalar(n) then None else Some((n as char, k))
  }

  function Decode(d: Data): Option<string> {
    if d == [] then Some("")
    else
      var head := DecodeChar(d);
      if head.None? then None
      else
        var rest := Decode(d[head.value.1..]);
        if rest.None? then None else Some([head.value.0] + rest.value)
  }

  lemma CharReadsBack(c: char, rest: Data)
    ensures DecodeChar(EncodeChar(c) + rest) == Some((c, |EncodeChar(c)|))
  {
    var n, d := c as int, EncodeChar(c) + rest;
    if n < 0x80 {
      assert d[0] == n;
    } else if n < 0x800 {
      assert d[0] == (0xC0 + n / 64) && d[1] == Tail(n);
    } else if n < 0x1_0000 {
      assert d[0] == (0xE0 + n / 64 / 64) && d[1] == Tail(n / 64) && d[2] == Tail(n);
    } else {
      assert d[0] == (0xF0 + n / 64 / 64 / 64) && d[1] == Tail(n / 64 / 64) && d[2] == Tail(n / 64) && d[3] == Tail(n);
    }
  }

  lemma {:induction false} DecodeInvertsEncode(s: string)
    ensures Decode(Encode(s)) == Some(s)
  {
    if s != "" {
      CharReadsBack(s[0], Encode(s[1..]));
      DecodeInvertsEncode(s[1..]);
      assert Encode(s)[|EncodeChar(s[0])|..] == Encode(s[1..]);
      assert s == [s[0]] + s[1..];
    }
  }

  lemma Divided(q: int, r: int)
    requires 0 <= r < 64
    ensures (q * 64 + r) / 64 == q && (q * 64 + r) % 64 == r
  {
  }

  lemma TwoWriteBack(d: Data)
    requires |d| >= 2 && 0xC0 <= d[0] < 0xE0 && IsTail(d[1]) && Spelled(d, 2) >= Least(2)
    ensures EncodeChar(Spelled(d, 2) as char) == d[..2]
  {
    Divided(d[0] as int - 0xC0, d[1] as int - 0x80);
  }

  lemma ThreeWriteBack(d: Data)
    requires |d| >= 3 && 0xE0 <= d[0] < 0xF0 && IsTail(d[1]) && IsTail(d[2])
    requires Spelled(d, 3) >= Least(3) && IsScalar(Spelled(d, 3))
    ensures EncodeChar(Spelled(d, 3) as char) == d[..3]
  {
    Divided(d[0] as int - 0xE0, d[1] as int - 0x80);
    Divided((d[0] as int - 0xE0) * 64 + (d[1] as int - 0x80), d[2] as int - 0x80);
  }

  lemma FourWriteBack(d: Data)
    requires |d| >= 4 && 0xF0 <= d[0] < 0xF8 && IsTail(d[1]) && IsTail(d[2]) && IsTail(d[3])
    requires Spelled(d, 4) >= Least(4) && IsScalar(Spelled(d, 4))
    ensures EncodeChar(Spelled(d, 4) as char) == d[..4]
  {
    Divided(d[0] as int - 0xF0, d[1] as int - 0x80);
    Divided((d[0] as int - 0xF0) * 64 + (d[1] as int - 0x80), d[2] as int - 0x80);
    Divided(((d[0] as int - 0xF0) * 64 + (d[1] as int - 0x80)) * 64 + (d[2] as int - 0x80), d[3] as int - 0x80);
  }

  lemma CharWritesBack(d: Data)
    requires DecodeChar(d).Some?
    ensures EncodeChar(DecodeChar(d).value.0) == d[..DecodeChar(d).value.1]
  {
    var (c, k) := DecodeChar(d).value;
    assert forall i :: 1 <= i < k ==> IsTail(d[i]);
    if k == 2 {
      TwoWriteBack(d);
    } else if k == 3 {
      ThreeWriteBack(d);
    } else if k == 4 {
      FourWriteBack(d);
    }
  }

  lemma DecodeRest(d: Data, c: char, k: nat)
    requires d != [] && Decode(d).Some? && DecodeChar(d) == Some((c, k))
    ensures 1 <= k <= |d| && Decode(d[k..]).Some? && Decode(d).value == [c] + Decode(d[k..]).value
  {
  }

  /** Only what the encoder writes is read. */
  lemma {:induction false} EncodeInvertsDecode(d: Data)
    requires Decode(d).Some?
    ensures Encode(Decode(d).value) == d
    decreases |d|
  {
    if d != [] {
      var (c, k) := DecodeChar(d).value;
      DecodeRest(d, c, k);
      EncodeInvertsDecode(d[k..]);
      OneCharMore(d, c, k, Decode(d[k..]).value);
    }
  }

  lemma OneCharMore(d: Data, c: char, k: nat, rest: string)
    requires DecodeChar(d) == Some((c, k)) && Encode(rest) == d[k..]
    ensures Encode([c] + rest) == d
  {
    CharWritesBack(d);
    assert d == d[..k] + d[k..];
  }
}
