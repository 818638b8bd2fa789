/** Signed media grants and object signatures. The keyed hash and the JSON encoding stay
    uninterpreted. */
module Grants {
  import opened Wrappers
  import opened Bytes
  import opened Texts
  import Utf8
  import Base64

  const VERSION: string := "v1"

  /** What a payload says, each field as far as it is there. */
  datatype Claims = Claims(u: Option<string>, m: Option<string>, p: Option<string>, e: Option<int>, a: Option<string>)

  datatype Grant = Grant(user: string, media: string, purpose: string, expires: int, attempt: Option<string>)

  /** Crash stands for an exception other than Forbidden. */
  datatype Refusal = Malformed | Unsupported | BadSignature | WrongUser | WrongMedia | Expired | Crash

  /** The keyed hash and the JSON of a payload, and its reading. */
  datatype Scheme = Scheme(mac: Data -> Data, dumps: Claims -> Data, loads: Data -> Option<Claims>)

  /** JSON reads back what it wrote. */
  ghost predicate ReadsBack(s: Scheme) {
    forall c :: s.loads(s.dumps(c)) == Some(c)
  }

  predicate Ascii(s: string) {
    forall i :: 0 <= i < |s| ==> s[i] as int < 128
  }

  /** `hmac.compare_digest` of two texts, which raises unless both are ASCII. */
  function Agree(a: string, b: string): Option<bool> {
    if Ascii(a) && Ascii(b) then Some(a == b) else None
  }

  /** `int` of a real: towards zero. */
  function Trunc(x: real): int {
    if x >= 0.0 then x.Floor else -((-x).Floor)
  }

  // ---------------------------------------------------------------- grants

  function Sign(s: Scheme, packed: string): string {
    Base64.Encode(s.mac(Utf8.Encode(packed)))
  }

  function EncodeToken(s: Scheme, claims: Claims): string {
    var packed := Base64.Encode(s.dumps(claims));
    Token(s, packed)
  }

  function Token(s: Scheme, packed: string): string {
    Join([VERSION, packed, Sign(s, packed)], '.')
  }

  /** `issue`: an empty attempt is left out. */
  function ClaimsOf(user: string, media: string, purpose: string, attempt: Option<string>, ttl: int,
                    now: real): Claims {
    Claims(Some(user), Some(media), Some(purpose), Some(Trunc(now + ttl as real)),
           if attempt == Some("") then None else attempt)
  }

  function Issue(s: Scheme, user: string, media: string, purpose: string, attempt: Option<string>, ttl: int,
                 now: real): string {
    EncodeToken(s, ClaimsOf(user, media, purpose, attempt, ttl, now))
  }

  function DecodeToken(s: Scheme, token: string): Result<Claims, Refusal> {
    var pieces := Split(token, '.');
    if |pieces| != 3 then Err(Malformed)
    else if pieces[0] != VERSION then Err(Unsupported)
    else
      var same := Agree(Sign(s, pieces[1]), pieces[2]);
      if same.None? then Err(Crash)
      else if !same.value then Err(BadSignature)
      else
        var body := Base64.Decode(pieces[1]);
        if body.None? then Err(Crash)
        else
          var claims := s.loads(body.value);
          if claims.None? then Err(Crash) else Ok(claims.value)
  }

  function Or(x: Option<string>, y: string): string {
    if x.Some? then x.value else y
  }

  function Verify(s: Scheme, token: string, user: string, media: string, now: real): Result<Grant, Refusal> {
    var decoded := DecodeToken(s, token);
    if decoded.Err? then Err(decoded.error) else VerifyClaims(decoded.value, user, media, now)
  }

  function VerifyClaims(c: Claims, user: string, media: string, now: real): Result<Grant, Refusal> {
    var sameUser, sameMedia := Agree(Or(c.u, ""), user), Agree(Or(c.m, ""), media);
    if sameUser.None? then Err(Crash)
    else if !sameUser.value then Err(WrongUser)
    else if sameMedia.None? then Err(Crash)
    else if !sameMedia.value then Err(WrongMedia)
    else if c.e.None? then Err(Crash)
    else if c.e.value as real < now then Err(Expired)
    else if c.u.None? || c.m.None? then Err(Crash)
    else Ok(Grant(c.u.value, c.m.value, Or(c.p, "exam"), c.e.value, c.a))
  }

  /** A token splits into the three pieces it was joined from. */
  lemma ThreePieces(s: Scheme, d: Data)
    ensures Ascii(Sign(s, Base64.Encode(d)))
    ensures Split(Token(s, Base64.Encode(d)), '.') == [VERSION, Base64.Encode(d), Sign(s, Base64.Encode(d))]
  {
    var packed := Base64.Encode(d);
    Base64.DecodeInvertsEncode(d);
    Base64.DecodeInvertsEncode(s.mac(Utf8.Encode(packed)));
    SplitInvertsJoin([VERSION, packed, Sign(s, packed)], '.');
  }

  lemma TokenRoundTrip(s: Scheme, claims: Claims)
    requires ReadsBack(s)
    ensures DecodeToken(s, EncodeToken(s, claims)) == Ok(claims)
  {
    ThreePieces(s, s.dumps(claims));
    Base64.DecodeInvertsEncode(s.dumps(claims));
  }

  /** An issued grant gives back its fields to the user and for the media it was issued for,
      until the second its time to live ends in; to anyone else it says what is wrong. Names
      must be ASCII to be compared at all. */
  lemma IssuedIsVerified(s: Scheme, user: string, media: string, purpose: string, attempt: Option<string>, ttl: int,
                         issued: real, who: string, what: string, now: real)
    requires ReadsBack(s)
    ensures var e := Trunc(issued + ttl as real);
      Verify(s, Issue(s, user, media, purpose, attempt, ttl, issued), who, what, now) ==
        if !Ascii(user) || !Ascii(who) then Err(Crash)
        else if who != user then Err(WrongUser)
        else if !Ascii(media) || !Ascii(what) then Err(Crash)
        else if what != media then Err(WrongMedia)
        else if e as real < now then Err(Expired)
        else Ok(Grant(user, media, purpose, e, if attempt == Some("") then None else attempt))
  {
    TokenRoundTrip(s, ClaimsOf(user, media, purpose, attempt, ttl, issued));
  }

  /** After the epoch, that second is the floor. */
  lemma EndsAtTheFloor(issued: real, ttl: int, now: real)
    requires issued + ttl as real >= 0.0
    ensures Trunc(issued + ttl as real) as real >= now <==> (issued + ttl as real).Floor as real >= now
    ensures Trunc(issued + ttl as real) as real <= issued + ttl as real < Trunc(issued + ttl as real) as real + 1.0
  {
  }

  /** Whatever verifies carries the signature of its own body, names the user and the media
      asked for, and has not expired. */
  lemma VerifiedIsSigned(s: Scheme, token: string, user: string, media: string, now: real)
    requires Verify(s, token, user, media, now).Ok?
    ensures var g := Verify(s, token, user, media, now).value;
      g.user == user && g.media == media && now <= g.expires as real
    ensures exists packed :: token == Token(s, packed)
  {
    DecodedIsSigned(s, token);
  }

  lemma DecodedIsSigned(s: Scheme, token: string)
    requires DecodeToken(s, token).Ok?
    ensures exists packed :: token == Token(s, packed)
  {
    var pieces := Split(token, '.');
    JoinInvertsSplit(token, '.');
    assert pieces == [VERSION, pieces[1], Sign(s, pieces[1])];
    assert token == Token(s, pieces[1]);
  }

  /** What a signed payload that lacks a field is worth: without a user or a medium it is nobody's,
      without an expiry it is useless, and without a purpose it is for an exam. */
  lemma MissingFields(s: Scheme, token: string, c: Claims, user: string, media: string, now: real)
    requires DecodeToken(s, token) == Ok(c) && user != "" && media != ""
    requires Ascii(user) && Ascii(media)
    ensures c.u.None? ==> Verify(s, token, user, media, now) == Err(WrongUser)
    ensures c.u == Some(user) && c.m.None? ==> Verify(s, token, user, media, now) == Err(WrongMedia)
    ensures c.u == Some(user) && c.m == Some(media) && c.e.None? ==> Verify(s, token, user, media, now) == Err(Crash)
    ensures c.u == Some(user) && c.m == Some(media) && c.e.Some? && c.e.value as real >= now ==>
              Verify(s, token, user, media, now)
              == Ok(Grant(user, media, if c.p.Some? then c.p.value else "exam", c.e.value, c.a))
  {
  }

  /** A signature put on another body is refused, if the hash tells the two bodies apart. */
  lemma OtherBodyIsRefused(s: Scheme, packed: string, other: string)
    requires s.mac(Utf8.Encode(packed)) == s.mac(Utf8.Encode(other)) ==> packed == other
    requires packed != other
    ensures DecodeToken(s, Join([VERSION, other, Sign(s, packed)], '.'))
            == Err(if Free(other, '.') then BadSignature else Malformed)
  {
    var signature := Sign(s, packed);
    Base64.DecodeInvertsEncode(s.mac(Utf8.Encode(packed)));
    Base64.DecodeInvertsEncode(s.mac(Utf8.Encode(other)));
    var parts := [VERSION, other, signature];
    PartsComeBack(parts, '.');
    if Free(other, '.') {
      SplitInvertsJoin(parts, '.');
    } else {
      assert !Free(parts[1], '.');
    }
  }

  // ---------------------------------------------------------------- object signatures

  /** The first characters of the text of a hash. */
  function Short(s: Scheme, text: string): (r: string)
    ensures |r| <= 32 && r <= Base64.Encode(s.mac(Utf8.Encode(text)))
  {
    var mac := Base64.Encode(s.mac(Utf8.Encode(text)));
    if |mac| <= 32 then mac else mac[..32]
  }

  function ObjectMac(s: Scheme, key: string, expires: int): string {
    Short(s, key + ([':'] + IntText(expires)))
  }

  function SignObject(s: Scheme, key: string, ttl: int, now: real): string {
    Signature(s, key, Trunc(now + ttl as real))
  }

  function Signature(s: Scheme, key: string, expires: int): string {
    Join([IntText(expires), ObjectMac(s, key, expires)], '.')
  }

  function VerifyObject(s: Scheme, key: string, signature: string, now: real): Result<(), Refusal> {
    var pieces := Split(signature, '.');
    if |pieces| != 2 then Err(Malformed)
    else
      var expires := Int(pieces[0]);
      if expires.None? then Err(Malformed)
      else if Agree(ObjectMac(s, key, expires.value), pieces[1]).None? then Err(Crash)
      else if ObjectMac(s, key, expires.value) != pieces[1] then Err(BadSignature)
      else if expires.value as real < now then Err(Expired)
      else Ok(())
  }

  lemma TwoPieces(s: Scheme, key: string, expires: int)
    ensures Ascii(ObjectMac(s, key, expires))
    ensures Split(Signature(s, key, expires), '.') == [IntText(expires), ObjectMac(s, key, expires)]
  {
    var d := s.mac(Utf8.Encode(key + ([':'] + IntText(expires))));
    Base64.DecodeInvertsEncode(d);
    IntTextIsPlain(expires, '.');
    SplitInvertsJoin([IntText(expires), ObjectMac(s, key, expires)], '.');
  }

  /** A signature opens its own key until it expires, and another key exactly when the two
      hashes agree. */
  lemma ObjectRoundTrip(s: Scheme, key: string, ttl: int, issued: real, other: string, now: real)
    ensures var e := Trunc(issued + ttl as real);
      VerifyObject(s, other, SignObject(s, key, ttl, issued), now) ==
        if ObjectMac(s, other, e) != ObjectMac(s, key, e) then Err(BadSignature)
        else if e as real < now then Err(Expired)
        else Ok(())
  {
    var e := Trunc(issued + ttl as real);
    TwoPieces(s, key, e);
    TwoPieces(s, other, e);
    IntInvertsText(e);
  }

  /** A signature with its expiry rewritten, or shown for another key, is refused, if the hash tells
      the two texts apart. */
  lemma ChangedObjectIsRefused(s: Scheme, key: string, e: int, other: string, f: int, now: real)
    requires var x, y := key + ([':'] + IntText(e)), other + ([':'] + IntText(f));
      Short(s, x) == Short(s, y) ==> x == y
    requires key != other || e != f
    ensures VerifyObject(s, other, Join([IntText(f), ObjectMac(s, key, e)], '.'), now) == Err(BadSignature)
  {
    TwoPieces(s, key, e);
    TwoPieces(s, other, f);
    IntTextIsPlain(f, '.');
    IntTextIsPlain(e, ':');
    IntTextIsPlain(f, ':');
    IntInvertsText(e);
    IntInvertsText(f);
    MacIsPlain(s, key, e);
    SplitInvertsJoin([IntText(f), ObjectMac(s, key, e)], '.');
    if ObjectMac(s, other, f) == ObjectMac(s, key, e) {
      LastSeparator(key, IntText(e), other, IntText(f), ':');
    }
  }

  lemma MacIsPlain(s: Scheme, key: string, expires: int)
    ensures Free(ObjectMac(s, key, expires), '.')
  {
    Base64.DecodeInvertsEncode(s.mac(Utf8.Encode(key + ([':'] + IntText(expires)))));
  }

  /** Signatures with text that is not ASCII raise before they are compared. */
  lemma ForeignTextRaises(s: Scheme, token: string, key: string, signature: string, now: real)
    ensures var pieces := Split(token, '.');
      |pieces| == 3 && pieces[0] == "v1" && !Ascii(pieces[2]) ==> DecodeToken(s, token) == Err(Crash)
    ensures var pieces := Split(signature, '.');
      |pieces| == 2 && Int(pieces[0]).Some? && !Ascii(pieces[1]) ==> VerifyObject(s, key, signature, now) == Err(Crash)
  {
  }
}
