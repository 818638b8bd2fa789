/** Base64url without padding (RFC 4648, sections 5 and 3.2), and the lenient decoder behind
    `base64.urlsafe_b64decode`. */
module Base64 {
  import opened Wrappers
  import opened Bytes

  type Six = v: int | 0 <= v < 64

  // ---------------------------------------------------------------- bytes and sextets

  /** The sextets of three bytes. */
  function S0(x: byte): Six {
    x / 4
  }

  function S1(x: byte, y: byte): Six {
    x % 4 * 16 + y / 16
  }

  function S2(y: byte, z: byte): Six {
    y % 16 * 4 + z / 64
  }

  function S3(z: byte): Six {
    z % 64
  }

  /** The bytes of four sextets. */
  function B0(a: Six, b: Six): byte {
    a * 4 + b / 16
  }

  function B1(b: Six, c: Six): byte {
    b % 16 * 16 + c / 4
  }

  function B2(c: Six, e: Six): byte {
    c % 4 * 64 + e
  }

  lemma BytesReadBack(x: byte, y: byte, z: byte)
    ensures B0(S0(x), S1(x, y)) == x && B1(S1(x, y), S2(y, z)) == y && B2(S2(y, z), S3(z)) == z
  {
  }

  lemma SextetsReadBack(a: Six, b: Six, c: Six, e: Six)
    ensures S0(B0(a, b)) == a && S1(B0(a, b), B1(b, c)) == b && S2(B1(b, c), B2(c, e)) == c && S3(B2(c, e)) == e
  {
  }

  lemma ShortIsClean(x: byte)
    ensures S1(x, 0) % 16 == 0 && S2(x, 0) % 4 == 0
  {
  }

  lemma PairReadsBack(a: Six, b: Six)
    requires b % 16 == 0
    ensures S0(B0(a, b)) == a && S1(B0(a, b), 0) == b
  {
  }

  lemma TripleReadsBack(a: Six, b: Six, c: Six)
    requires c % 4 == 0
    ensures S0(B0(a, b)) == a && S1(B0(a, b), B1(b, c)) == b && S2(B1(b, c), 0) == c
  {
  }

  /** The sextets of a byte string; the missing bytes at its end count as zero. */
  function Sextets(d: Data): seq<Six>
    decreases |d|
  {
    if d == [] then []
    else if |d| == 1 then [S0(d[0]), S1(d[0], 0)]
    else if |d| == 2 then [S0(d[0]), S1(d[0], d[1]), S2(d[1], 0)]
    else [S0(d[0]), S1(d[0], d[1]), S2(d[1], d[2]), S3(d[2])] + Sextets(d[3..])
  }

  /** A number of sextets that can be, and no bits left over that no byte takes. */
  predicate Clean(vs: seq<Six>) {
    if |vs| % 4 == 0 then true
    else if |vs| % 4 == 1 then false
    else if |vs| % 4 == 2 then vs[|vs| - 1] % 16 == 0
    else vs[|vs| - 1] % 4 == 0
  }

  lemma {:induction false} SextetsAreClean(d: Data)
    ensures Clean(Sextets(d)) && (Sextets(d) == [] <==> d == [])
    decreases |d|
  {
    if |d| >= 3 {
      SextetsAreClean(d[3..]);
    } else if |d| == 2 {
      ShortIsClean(d[1]);
    } else if |d| == 1 {
      ShortIsClean(d[0]);
    }
  }

  /** The bytes that clean sextets hold. */
  function Bits(vs: seq<Six>): Data
    requires Clean(vs)
    decreases |vs|
  {
    if vs == [] then []
    else if |vs| == 2 then [B0(vs[0], vs[1])]
    else if |vs| == 3 then [B0(vs[0], vs[1]), B1(vs[1], vs[2])]
    else
      CleanAfterQuad(vs);
      [B0(vs[0], vs[1]), B1(vs[1], vs[2]), B2(vs[2], vs[3])] + Bits(vs[4..])
  }

  lemma CleanAfterQuad(vs: seq<Six>)
    requires Clean(vs) && |vs| >= 4
    ensures Clean(vs[4..])
  {
    assert vs == vs[..4] + vs[4..];
  }

  lemma SextetsOfThree(x: byte, y: byte, z: byte, d: Data)
    ensures Sextets([x, y, z] + d) == [S0(x), S1(x, y), S2(y, z), S3(z)] + Sextets(d)
  {
    assert ([x, y, z] + d)[3..] == d;
  }

  /** Clean sextets are those of the bytes they hold. */
  lemma {:induction false} SextetsOfBits(vs: seq<Six>)
    requires Clean(vs)
    ensures Sextets(Bits(vs)) == vs
    decreases |vs|
  {
    if |vs| == 2 {
      PairReadsBack(vs[0], vs[1]);
    } else if |vs| == 3 {
      TripleReadsBack(vs[0], vs[1], vs[2]);
    } else if |vs| >= 4 {
      CleanAfterQuad(vs);
      SextetsOfBits(vs[4..]);
      SextetsReadBack(vs[0], vs[1], vs[2], vs[3]);
      SextetsOfThree(B0(vs[0], vs[1]), B1(vs[1], vs[2]), B2(vs[2], vs[3]), Bits(vs[4..]));
      assert vs == [vs[0], vs[1], vs[2], vs[3]] + vs[4..];
    }
  }

  // ---------------------------------------------------------------- the decoder

  /** What the decoder makes of a character: a sextet, padding, or something to skip. */
  datatype Token = Value(v: Six) | Pad | Junk

  /** `pos` sextets of four read, `last` the latest, whose low bits are not yet written, `pads`
      the padding seen since. Enough padding ends the text. */
  function Run(ts: seq<Token>, pos: nat, last: Six, pads: nat): Option<Data>
    requires pos < 4
  {
    if ts == [] then (if pos == 0 then Some([]) else None)
    else
      match ts[0]
      case Junk => Run(ts[1..], pos, last, pads)
      case Pad =>
        if pos >= 2 && pos + pads + 1 >= 4 then Some([])
        else Run(ts[1..], pos, last, if pos >= 2 then pads + 1 else pads)
      case Value(v) =>
        var rest := Run(ts[1..], if pos == 3 then 0 else pos + 1, v, 0);
        if pos == 0 then rest else Emit(Completed(pos, last, v), rest)
  }

  /** The byte that a sextet completes. */
  function Completed(pos: nat, last: Six, v: Six): byte {
    if pos == 1 then B0(last, v) else if pos == 2 then B1(last, v) else B2(last, v)
  }

  function Emit(x: byte, rest: Option<Data>): Option<Data> {
    if rest.None? then None else Some([x] + rest.value)
  }

  function Values(vs: seq<Six>): seq<Token> {
    if vs == [] then [] else [Value(vs[0])] + Values(vs[1..])
  }

  function Pads(n: nat): seq<Token> {
    if n == 0 then [] else [Pad] + Pads(n - 1)
  }

  /** One equals sign ends three sextets, two end two. */
  lemma RunPads(last: Six)
    ensures Run(Pads(1), 3, last, 0) == Some([]) && Run(Pads(2), 2, last, 0) == Some([])
  {
    assert Pads(2)[1..] == Pads(1);
  }

  lemma RunPair(a: Six, b: Six, ts: seq<Token>)
    ensures Run([Value(a)] + ([Value(b)] + ts), 0, 0, 0) == Emit(B0(a, b), Run(ts, 2, b, 0))
  {
    assert ([Value(a)] + ([Value(b)] + ts))[1..] == [Value(b)] + ts && ([Value(b)] + ts)[1..] == ts;
  }

  lemma RunTriple(a: Six, b: Six, c: Six, ts: seq<Token>)
    ensures Run([Value(a)] + ([Value(b)] + ([Value(c)] + ts)), 0, 0, 0) ==
            Emit(B0(a, b), Emit(B1(b, c), Run(ts, 3, c, 0)))
  {
    RunPair(a, b, [Value(c)] + ts);
    assert ([Value(c)] + ts)[1..] == ts;
  }

  /** Between quads the latest sextet no longer matters. */
  lemma {:induction false} AtTheStart(ts: seq<Token>, last: Six)
    ensures Run(ts, 0, last, 0) == Run(ts, 0, 0, 0)
  {
    if ts != [] && !ts[0].Value? {
      AtTheStart(ts[1..], last);
    }
  }

  lemma RunQuad(a: Six, b: Six, c: Six, e: Six, ts: seq<Token>)
    ensures Run([Value(a)] + ([Value(b)] + ([Value(c)] + ([Value(e)] + ts))), 0, 0, 0) ==
            Emit(B0(a, b), Emit(B1(b, c), Emit(B2(c, e), Run(ts, 0, 0, 0))))
  {
    RunTriple(a, b, c, [Value(e)] + ts);
    assert ([Value(e)] + ts)[1..] == ts;
    AtTheStart(ts, e);
  }

  lemma ValuesCons(a: Six, vs: seq<Six>, ts: seq<Token>)
    ensures Values([a] + vs) + ts == [Value(a)] + (Values(vs) + ts)
  {
    assert ([a] + vs)[1..] == vs;
  }

  lemma QuadTokens(a: Six, b: Six, c: Six, e: Six, vs: seq<Six>, ts: seq<Token>)
    ensures Values([a, b, c, e] + vs) + ts ==
            [Value(a)] + ([Value(b)] + ([Value(c)] + ([Value(e)] + (Values(vs) + ts))))
  {
    ValuesCons(a, [b, c, e] + vs, ts);
    ValuesCons(b, [c, e] + vs, ts);
    ValuesCons(c, [e] + vs, ts);
    ValuesCons(e, vs, ts);
    assert [a, b, c, e] + vs == [a] + ([b, c, e] + vs) && [b, c, e] + vs == [b] + ([c, e] + vs)
           && [c, e] + vs == [c] + ([e] + vs);
  }

  lemma TripleTokens(a: Six, b: Six, c: Six, ts: seq<Token>)
    ensures Values([a, b, c]) + ts == [Value(a)] + ([Value(b)] + ([Value(c)] + ts))
  {
    ValuesCons(a, [b, c], ts);
    ValuesCons(b, [c], ts);
    ValuesCons(c, [], ts);
    assert Values([]) + ts == ts;
    assert [a, b, c] == [a] + [b, c] && [b, c] == [b] + [c] && [c] == [c] + [];
  }

  lemma PairTokens(a: Six, b: Six, ts: seq<Token>)
    ensures Values([a, b]) + ts == [Value(a)] + ([Value(b)] + ts)
  {
    ValuesCons(a, [b], ts);
    ValuesCons(b, [], ts);
    assert Values([]) + ts == ts;
    assert [a, b] == [a] + [b] && [b] == [b] + [];
  }

  /** How many equals signs fill a text up to a multiple of four. */
  function Missing(n: nat): nat {
    if n % 4 == 0 then 0 else 4 - n % 4
  }

  /** Sextets with the padding they need. */
  function Full(vs: seq<Six>): seq<Token> {
    Values(vs) + Pads(Missing(|vs|))
  }

  lemma RunShortPair(a: Six, b: Six)
    ensures Run(Full([a, b]), 0, 0, 0) == Some([B0(a, b)])
  {
    PairTokens(a, b, Pads(2));
    RunPair(a, b, Pads(2));
    RunPads(b);
    assert [B0(a, b)] + [] == [B0(a, b)];
  }

  lemma RunShortTriple(a: Six, b: Six, c: Six)
    ensures Run(Full([a, b, c]), 0, 0, 0) == Some([B0(a, b), B1(b, c)])
  {
    TripleTokens(a, b, c, Pads(1));
    RunTriple(a, b, c, Pads(1));
    RunPads(c);
    assert [B0(a, b)] + ([B1(b, c)] + []) == [B0(a, b), B1(b, c)];
  }

  lemma RunFullQuad(a: Six, b: Six, c: Six, e: Six, vs: seq<Six>)
    ensures Run(Full([a, b, c, e] + vs), 0, 0, 0) ==
            Emit(B0(a, b), Emit(B1(b, c), Emit(B2(c, e), Run(Full(vs), 0, 0, 0))))
  {
    var ts := Pads(Missing(|vs|));
    assert Missing(|vs| + 4) == Missing(|vs|);
    QuadTokens(a, b, c, e, vs, ts);
    RunQuad(a, b, c, e, Values(vs) + ts);
  }

  lemma RunInvertsOne(x: byte)
    ensures Run(Full(Sextets([x])), 0, 0, 0) == Some([x])
  {
    BytesReadBack(x, 0, 0);
    RunShortPair(S0(x), S1(x, 0));
  }

  lemma RunInvertsTwo(x: byte, y: byte)
    ensures Run(Full(Sextets([x, y])), 0, 0, 0) == Some([x, y])
  {
    BytesReadBack(x, y, 0);
    RunShortTriple(S0(x), S1(x, y), S2(y, 0));
  }

  lemma RunInvertsThree(x: byte, y: byte, z: byte, d: Data)
    requires Run(Full(Sextets(d)), 0, 0, 0) == Some(d)
    ensures Run(Full(Sextets([x, y, z] + d)), 0, 0, 0) == Some([x, y, z] + d)
  {
    BytesReadBack(x, y, z);
    SextetsOfThree(x, y, z, d);
    RunFullQuad(S0(x), S1(x, y), S2(y, z), S3(z), Sextets(d));
    assert [x, y, z] + d == [x] + ([y] + ([z] + d));
  }

  lemma {:induction false} RunInvertsSextets(d: Data)
    ensures Run(Full(Sextets(d)), 0, 0, 0) == Some(d)
    decreases |d|
  {
    if d == [] {
      assert Full([]) == [];
    } else if |d| == 1 {
      RunInvertsOne(d[0]);
      assert d == [d[0]];
    } else if |d| == 2 {
      RunInvertsTwo(d[0], d[1]);
      assert d == [d[0], d[1]];
    } else {
      RunInvertsSextets(d[3..]);
      RunInvertsThree(d[0], d[1], d[2], d[3..]);
      assert d == [d[0], d[1], d[2]] + d[3..];
    }
  }

  // ---------------------------------------------------------------- letters

  function Letter(v: Six): char {
    if v < 26 then 'A' + v as char
    else if v < 52 then 'a' + (v - 26) as char
    else if v < 62 then '0' + (v - 52) as char
    else if v == 62 then '-' else '_'
  }

  /** The url-safe letters are translated first, but the ordinary ones are read as well. */
  function Read(c: char): Token {
    if 'A' <= c <= 'Z' then Value((c - 'A') as int)
    else if 'a' <= c <= 'z' then Value((c - 'a') as int + 26)
    else if '0' <= c <= '9' then Value((c - '0') as int + 52)
    else if c == '-' || c == '+' then Value(62)
    else if c == '_' || c == '/' then Value(63)
    else if c == '=' then Pad
    else Junk
  }

  predicate IsLetter(c: char) {
    'A' <= c <= 'Z' || 'a' <= c <= 'z' || '0' <= c <= '9' || c == '-' || c == '_'
  }

  predicate AllLetters(s: string) {
    forall i :: 0 <= i < |s| ==> IsLetter(s[i])
  }

  lemma ReadWritesBack(c: char)
    requires IsLetter(c)
    ensures Read(c).Value? && Letter(Read(c).v) == c
  {
  }

  function Spell(vs: seq<Six>): string {
    if vs == [] then "" else [Letter(vs[0])] + Spell(vs[1..])
  }

  function ReadAll(s: string): seq<Token> {
    if s == "" then [] else [Read(s[0])] + ReadAll(s[1..])
  }

  function Equals(n: nat): string {
    if n == 0 then "" else ['='] + Equals(n - 1)
  }

  lemma {:induction false} SpellReadsBack(vs: seq<Six>, n: nat)
    ensures ReadAll(Spell(vs) + Equals(n)) == Values(vs) + Pads(n)
    ensures AllLetters(Spell(vs)) && |Spell(vs)| == |vs|
    decreases |vs| + n
  {
    if vs != [] {
      SpellReadsBack(vs[1..], n);
      assert (Spell(vs) + Equals(n))[1..] == Spell(vs[1..]) + Equals(n);
    } else if n > 0 {
      SpellReadsBack([], n - 1);
      assert Spell([]) + Equals(n) == Equals(n) && Spell([]) + Equals(n - 1) == Equals(n - 1);
    }
  }

  /** The sextets of letters. */
  function Sixes(s: string): (vs: seq<Six>)
    requires AllLetters(s)
    ensures |vs| == |s| && forall i :: 0 <= i < |s| ==> Read(s[i]) == Value(vs[i])
  {
    if s == "" then []
    else
      ReadWritesBack(s[0]);
      [Read(s[0]).v] + Sixes(s[1..])
  }

  lemma {:induction false} SpellSixes(s: string)
    requires AllLetters(s)
    ensures Spell(Sixes(s)) == s
  {
    if s != "" {
      ReadWritesBack(s[0]);
      SpellSixes(s[1..]);
      assert s == [s[0]] + s[1..];
    }
  }

  lemma {:induction false} SixesOfSpell(vs: seq<Six>)
    ensures AllLetters(Spell(vs)) && Sixes(Spell(vs)) == vs
  {
    SpellReadsBack(vs, 0);
    if vs != [] {
      SixesOfSpell(vs[1..]);
      assert Spell(vs)[1..] == Spell(vs[1..]);
    }
  }

  // ---------------------------------------------------------------- text

  /** With padding. */
  function Padded(d: Data): string {
    Spell(Sextets(d)) + Equals(Missing(|Sextets(d)|))
  }

  /** `rstrip("=")`. */
  function Unpad(s: string): string {
    if s != "" && s[|s| - 1] == '=' then Unpad(s[..|s| - 1]) else s
  }

  function Encode(d: Data): string {
    Unpad(Padded(d))
  }

  predicate IsAscii(s: string) {
    forall i :: 0 <= i < |s| ==> s[i] as int < 128
  }

  /** `urlsafe_b64decode(s + padding)`: text beyond ASCII is an error. */
  function Decode(s: string): Option<Data> {
    if IsAscii(s) then Run(ReadAll(s + Equals(Missing(|s|))), 0, 0, 0) else None
  }

  lemma {:induction false} UnpadEquals(s: string, n: nat)
    requires s != "" ==> s[|s| - 1] != '='
    ensures Unpad(s + Equals(n)) == s
  {
    if n == 0 {
      assert s + Equals(0) == s;
    } else {
      UnpadEquals(s, n - 1);
      EqualsBack(n - 1);
      assert s + Equals(n) == (s + Equals(n - 1)) + ['='];
    }
  }

  lemma {:induction false} EqualsBack(n: nat)
    ensures Equals(n) + ['='] == ['='] + Equals(n)
  {
    if n > 0 {
      EqualsBack(n - 1);
      assert Equals(n) + ['='] == ['='] + (Equals(n - 1) + ['=']);
    }
  }

  lemma EncodeSpells(d: Data)
    ensures Encode(d) == Spell(Sextets(d)) && AllLetters(Encode(d)) && |Encode(d)| == |Sextets(d)|
  {
    var s := Spell(Sextets(d));
    SpellReadsBack(Sextets(d), 0);
    assert s != "" ==> IsLetter(s[|s| - 1]);
    UnpadEquals(s, Missing(|Sextets(d)|));
  }

  /** Decoding undoes encoding, for every byte string. */
  lemma DecodeInvertsEncode(d: Data)
    ensures Decode(Encode(d)) == Some(d)
    ensures AllLetters(Encode(d)) && (Encode(d) == "" <==> d == [])
  {
    EncodeSpells(d);
    SextetsAreClean(d);
    SpellReadsBack(Sextets(d), Missing(|Sextets(d)|));
    RunInvertsSextets(d);
    assert forall i :: 0 <= i < |Encode(d)| ==> IsLetter(Encode(d)[i]);
  }

  // ---------------------------------------------------------------- what only the encoder writes

  /** Url-safe letters alone, in a number that can be, with no loose bits. */
  predicate Canonical(s: string) {
    AllLetters(s) && Clean(Sixes(s))
  }

  /** Text is an encoding exactly when it is canonical; so what decodes is its own decoding
      encoded again exactly then. */
  lemma EncodedExactly(s: string)
    ensures (exists d :: s == Encode(d)) <==> Canonical(s)
    ensures Decode(s).Some? ==> (Encode(Decode(s).value) == s <==> Canonical(s))
  {
    if Canonical(s) {
      var d := Bits(Sixes(s));
      SextetsOfBits(Sixes(s));
      SpellSixes(s);
      EncodeSpells(d);
      DecodeInvertsEncode(d);
    }
    forall d | s == Encode(d) ensures Canonical(s) {
      EncodeSpells(d);
      SixesOfSpell(Sextets(d));
      SextetsAreClean(d);
    }
  }

  // ---------------------------------------------------------------- leniency

  /** What stands outside the alphabet is skipped, wherever it stands. */
  lemma {:induction false} SkipsJunk(vs: seq<Six>, ts: seq<Token>, pos: nat, last: Six, pads: nat)
    requires pos < 4
    ensures Run(Values(vs) + ([Junk] + ts), pos, last, pads) == Run(Values(vs) + ts, pos, last, pads)
    decreases |vs|
  {
    if vs == [] {
      assert Values(vs) + ([Junk] + ts) == [Junk] + ts && Values(vs) + ts == ts;
      RunJunk(ts, pos, last, pads);
    } else {
      var v, rest := vs[0], vs[1..];
      assert vs == [v] + rest;
      ValuesCons(v, rest, [Junk] + ts);
      ValuesCons(v, rest, ts);
      SkipsJunk(rest, ts, if pos == 3 then 0 else pos + 1, v, 0);
      SameAfter(v, Values(rest) + ([Junk] + ts), Values(rest) + ts, pos, last, pads);
    }
  }

  lemma RunJunk(ts: seq<Token>, pos: nat, last: Six, pads: nat)
    requires pos < 4
    ensures Run([Junk] + ts, pos, last, pads) == Run(ts, pos, last, pads)
  {
    assert ([Junk] + ts)[1..] == ts;
  }

  lemma SameAfter(v: Six, ts: seq<Token>, us: seq<Token>, pos: nat, last: Six, pads: nat)
    requires pos < 4
    requires Run(ts, if pos == 3 then 0 else pos + 1, v, 0) == Run(us, if pos == 3 then 0 else pos + 1, v, 0)
    ensures Run([Value(v)] + ts, pos, last, pads) == Run([Value(v)] + us, pos, last, pads)
  {
  }

  lemma {:induction false} ReadAllAppends(s: string, t: string)
    ensures ReadAll(s + t) == ReadAll(s) + ReadAll(t)
  {
    if s == "" {
      assert s + t == t;
    } else {
      ReadAllAppends(s[1..], t);
      assert (s + t)[1..] == s[1..] + t && (s + t)[0] == s[0];
      var head, a, b := [Read(s[0])], ReadAll(s[1..]), ReadAll(t);
      assert head + (a + b) == (head + a) + b;
    }
  }

  lemma SkipsFour(vs: seq<Six>, ts: seq<Token>)
    ensures Run(Values(vs) + [Junk, Junk, Junk, Junk] + ts, 0, 0, 0) == Run(Values(vs) + ts, 0, 0, 0)
  {
    var j1 := [Junk] + ts;
    var j2 := [Junk] + j1;
    var j3 := [Junk] + j2;
    assert Values(vs) + [Junk, Junk, Junk, Junk] + ts == Values(vs) + ([Junk] + j3);
    SkipsJunk(vs, j3, 0, 0, 0);
    SkipsJunk(vs, j2, 0, 0, 0);
    SkipsJunk(vs, j1, 0, 0, 0);
    SkipsJunk(vs, ts, 0, 0, 0);
  }

  lemma JunkIsSkipped(s: string)
    requires AllLetters(s)
    ensures Decode(s + "!!!!") == Decode(s)
  {
    var e := Equals(Missing(|s|));
    assert Missing(|s| + 4) == Missing(|s|);
    LettersAreValues(s);
    ReadAllAppends(s, e);
    ReadAllWithJunk(s, e);
    SkipsFour(Sixes(s), ReadAll(e));
  }

  lemma LettersAreValues(s: string)
    requires AllLetters(s)
    ensures ReadAll(s) == Values(Sixes(s))
  {
    SpellSixes(s);
    SpellReadsBack(Sixes(s), 0);
    assert s + Equals(0) == s && Values(Sixes(s)) + Pads(0) == Values(Sixes(s));
  }

  lemma ReadAllWithJunk(s: string, e: string)
    ensures ReadAll(s + "!!!!" + e) == ReadAll(s) + [Junk, Junk, Junk, Junk] + ReadAll(e)
  {
    ReadAllAppends(s + "!!!!", e);
    ReadAllAppends(s, "!!!!");
  }
}
