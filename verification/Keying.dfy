/** The key agreement of a session: Diffie-Hellman numbers, nonces, the two keying chunks and the keys. */
module Keying {
  import opened Arithmetic
  import opened ByteBuffers
  import opened Vlus

  import Packets

  const DH1024P: Bytes :=
    [0xFF, 0xFF, 0xFF, 0xFF, 0xFF, 0xFF, 0xFF, 0xFF, 0xC9, 0x0F, 0xDA, 0xA2, 0x21, 0x68, 0xC2, 0x34] +
    [0xC4, 0xC6, 0x62, 0x8B, 0x80, 0xDC, 0x1C, 0xD1, 0x29, 0x02, 0x4E, 0x08, 0x8A, 0x67, 0xCC, 0x74] +
    [0x02, 0x0B, 0xBE, 0xA6, 0x3B, 0x13, 0x9B, 0x22, 0x51, 0x4A, 0x08, 0x79, 0x8E, 0x34, 0x04, 0xDD] +
    [0xEF, 0x95, 0x19, 0xB3, 0xCD, 0x3A, 0x43, 0x1B, 0x30, 0x2B, 0x0A, 0x6D, 0xF2, 0x5F, 0x14, 0x37] +
    [0x4F, 0xE1, 0x35, 0x6D, 0x6D, 0x51, 0xC2, 0x45, 0xE4, 0x85, 0xB5, 0x76, 0x62, 0x5E, 0x7E, 0xC6] +
    [0xF4, 0x4C, 0x42, 0xE9, 0xA6, 0x37, 0xED, 0x6B, 0x0B, 0xFF, 0x5C, 0xB6, 0xF4, 0x06, 0xB7, 0xED] +
    [0xEE, 0x38, 0x6B, 0xFB, 0x5A, 0x89, 0x9F, 0xA5, 0xAE, 0x9F, 0x24, 0x11, 0x7C, 0x4B, 0x1F, 0xE6] +
    [0x49, 0x28, 0x66, 0x51, 0xEC, 0xE6, 0x53, 0x81, 0xFF, 0xFF, 0xFF, 0xFF, 0xFF, 0xFF, 0xFF, 0xFF]
  const DH_GENERATOR := 2
  const DH_SIZE := 128

  const OPTION_NONCE_KEY: byte := 0x0D
  const OPTION_CERT_KEY: byte := 0x1D
  const NONCE_HEAD: Bytes := [0x03, 0x1A, 0x00, 0x00, 0x02, 0x1E, 0x00, 0x81, 0x02, 0x0D, 0x02]
  const CERT_HEAD: Bytes := [0x81, 0x02, 0x1D, 0x02]

  // -------------------------------------------------- numbers as byte strings

  function BigEndian(b: Bytes): nat {
    if b == [] then 0 else BigEndian(b[..|b| - 1]) * 256 + b[|b| - 1]
  }

  /** The shortest big-endian form; nothing at all for zero. */
  function MinBytes(v: nat): Bytes {
    if v == 0 then [] else MinBytes(v / 256) + [v % 256]
  }

  function Pow(b: nat, e: nat): nat {
    if e == 0 then 1 else b * Pow(b, e - 1)
  }

  lemma {:induction false} MinBytesValue(v: nat)
    ensures BigEndian(MinBytes(v)) == v
  {
    if v != 0 {
      MinBytesValue(v / 256);
      assert MinBytes(v)[..|MinBytes(v)| - 1] == MinBytes(v / 256);
    }
  }

  lemma {:induction false} MinBytesLength(v: nat, n: nat)
    requires v < Pow(256, n)
    ensures |MinBytes(v)| <= n
  {
    if v != 0 {
      MinBytesLength(v / 256, n - 1);
    }
  }

  lemma {:induction false} BigEndianBound(b: Bytes)
    ensures BigEndian(b) < Pow(256, |b|)
  {
    if b != [] {
      BigEndianBound(b[..|b| - 1]);
    }
  }

  lemma {:induction false} LeadingZeros(n: nat, b: Bytes)
    ensures BigEndian(Repeat(0, n) + b) == BigEndian(b)
  {
    var z := Repeat(0, n) + b;
    if b != [] {
      LeadingZeros(n, b[..|b| - 1]);
      assert z[..|z| - 1] == Repeat(0, n) + b[..|b| - 1];
    } else if n > 0 {
      LeadingZeros(n - 1, []);
      assert z[..|z| - 1] == Repeat(0, n - 1) + [];
    }
  }

  lemma {:induction false} PositiveLead(b: Bytes)
    requires b != [] && b[0] > 0
    ensures BigEndian(b) > 0
  {
    if |b| > 1 {
      PositiveLead(b[..|b| - 1]);
    }
  }

  // ---------------------------------------------------------- modular powers

  function ModExp(g: nat, e: nat, p: nat): nat
    requires p > 0
  {
    Pow(g, e) % p
  }

  lemma {:induction false} PowOfMod(b: nat, e: nat, p: nat)
    requires p > 0
    ensures Pow(b % p, e) % p == Pow(b, e) % p
  {
    if e > 0 {
      hide Pow;
      var reduced, full := Pow(b % p, e - 1), Pow(b, e - 1);
      PowOfMod(b, e - 1, p);
      PowStep(b, e);
      PowStep(b % p, e);
      ModMul(b, reduced, p);
      ModMul(reduced, b, p);
      ModMul(full, b, p);
    }
  }

  lemma PowStep(b: nat, e: nat)
    requires e > 0
    ensures Pow(b, e) == b * Pow(b, e - 1)
  {
  }

  lemma {:induction false} PowSum(b: nat, d: nat, e: nat)
    ensures Pow(b, d + e) == Pow(b, d) * Pow(b, e)
  {
    if d > 0 {
      PowSum(b, d - 1, e);
      assert b * (Pow(b, d - 1) * Pow(b, e)) == b * Pow(b, d - 1) * Pow(b, e);
    } else {
      assert Pow(b, 0) * Pow(b, e) == Pow(b, e);
    }
  }

  lemma {:induction false} PowOfPow(b: nat, d: nat, e: nat)
    ensures Pow(Pow(b, d), e) == Pow(b, d * e)
  {
    if e > 0 {
      PowOfPow(b, d, e - 1);
      assert d + d * (e - 1) == d * e;
      PowSum(b, d, d * (e - 1));
    } else {
      assert d * 0 == 0;
    }
  }

  /** A power of a power is the power of the product, wherever the modulus is taken. */
  lemma ModExpOfModExp(g: nat, x: nat, y: nat, p: nat)
    requires p > 0
    ensures ModExp(ModExp(g, x, p), y, p) == Pow(g, x * y) % p
  {
    hide Pow;
    PowOfMod(Pow(g, x), y, p);
    PowOfPow(g, x, y);
  }

  /** Both sides of a Diffie-Hellman exchange compute the same number. */
  lemma ModExpCommutes(g: nat, x: nat, y: nat, p: nat)
    requires p > 0
    ensures ModExp(ModExp(g, x, p), y, p) == ModExp(ModExp(g, y, p), x, p)
  {
    hide Pow, ModExp;
    ModExpOfModExp(g, x, y, p);
    ModExpOfModExp(g, y, x, p);
    assert x * y == y * x;
  }

  // ------------------------------------------------------- public numbers

  function Prime(): nat {
    BigEndian(DH1024P)
  }

  lemma PrimeShape()
    ensures |DH1024P| == DH_SIZE && 0 < Prime() < Pow(256, DH_SIZE)
  {
    hide BigEndian, Pow;
    PositiveLead(DH1024P);
    BigEndianBound(DH1024P);
  }

  /** A public number in the fixed width of the certificate and of the nonce. */
  function FixedWidth(v: nat): Bytes
    requires |MinBytes(v)| <= DH_SIZE
  {
    Repeat(0, DH_SIZE - |MinBytes(v)|) + MinBytes(v)
  }

  lemma FixedWidthValue(v: nat)
    requires |MinBytes(v)| <= DH_SIZE
    ensures |FixedWidth(v)| == DH_SIZE && BigEndian(FixedWidth(v)) == v
  {
    hide BigEndian, MinBytes;
    LeadingZeros(DH_SIZE - |MinBytes(v)|, MinBytes(v));
    MinBytesValue(v);
  }

  function PublicNumber(private: nat): (v: nat)
    ensures |MinBytes(v)| <= DH_SIZE
  {
    PrimeShape();
    var v := ModExp(DH_GENERATOR, private, Prime());
    MinBytesLength(v, DH_SIZE);
    v
  }

  // ----------------------------------------------------------------- parties

  datatype Mode = Startup | Initiator | Responder

  /** The fields of a session that keying reads and writes. */
  datatype Party = Party(sid: nat, private: nat, otherPublic: Option<Bytes>, mode: Mode, otherSid: nat,
                         dkey: Option<Bytes>, ekey: Option<Bytes>)

  function NewParty(sid: nat, private: nat, otherPublic: Option<Bytes>): Party {
    Party(sid, private, otherPublic, Startup, 0, None, None)
  }

  function NonceOf(private: nat): Bytes {
    NONCE_HEAD + FixedWidth(PublicNumber(private))
  }

  function CertOf(private: nat): Bytes {
    CERT_HEAD + FixedWidth(PublicNumber(private))
  }

  type Hmac = (Bytes, Bytes) -> Bytes

  ghost predicate HmacOk(hmac: Hmac) {
    forall key: Bytes, text: Bytes :: |hmac(key, text)| >= 16
  }

  function CryptoKey(hmac: Hmac, secret: nat, first: Bytes, second: Bytes): Bytes
    requires HmacOk(hmac)
  {
    hmac(MinBytes(secret), hmac(first, second))[..16]
  }

  function SharedSecret(private: nat, otherPublic: Bytes): nat {
    PrimeShape();
    ModExp(BigEndian(otherPublic), private, Prime())
  }

  function Keyed(hmac: Hmac, s: Party, otherPublic: Bytes, otherNonce: Bytes): Party
    requires HmacOk(hmac)
  {
    var secret := SharedSecret(s.private, otherPublic);
    s.(dkey := Some(CryptoKey(hmac, secret, NonceOf(s.private), otherNonce)),
       ekey := Some(CryptoKey(hmac, secret, otherNonce, NonceOf(s.private))))
  }

  /** None is the slice panic on a certificate without the key option. */
  function AfterIIKeying(hmac: Hmac, s: Party, initSid: nat, initCert: Bytes, initNonce: Bytes): Option<Party>
    requires HmacOk(hmac)
  {
    var option := FindOption(initCert, OPTION_CERT_KEY);
    if !option.Found? || option.data == [] then None
    else Some(Keyed(hmac, s, option.data[1..], initNonce).(mode := Responder, otherSid := initSid))
  }

  /**
   * None is the panic on a broken option, and also the case of an unknown public number of the responder,
   * where the source computes with an undefined one.
   */
  function AfterRIKeying(hmac: Hmac, s: Party, respSid: nat, respNonce: Bytes): Option<Party>
    requires HmacOk(hmac)
  {
    if s.ekey.Some? then Some(s)
    else
      var option := FindOption(respNonce, OPTION_NONCE_KEY);
      var other := if s.otherPublic.None? && option.Found? && |option.data| > 1 then Some(option.data[1..])
                   else s.otherPublic;
      if option.OutOfRange? || other.None? then None
      else Some(Keyed(hmac, s.(otherPublic := other), other.value, respNonce).(mode := Initiator, otherSid := respSid))
  }

  /** A side that knows the other's public number keeps to it, whatever number the nonce holds. */
  lemma KnownNumberKept(hmac: Hmac, s: Party, respSid: nat, respNonce: Bytes)
    requires HmacOk(hmac) && s.ekey.None? && s.otherPublic.Some? && FindOption(respNonce, 0x0D) != OutOfRange
    ensures AfterRIKeying(hmac, s, respSid, respNonce)
      == Some(Keyed(hmac, s, s.otherPublic.value, respNonce).(mode := Initiator, otherSid := respSid))
  {
    hide FindOption, CryptoKey, SharedSecret, NonceOf;
  }

  /** One that does not takes it from the option in the nonce, behind its first byte, if it is there. */
  lemma UnknownNumberTaken(hmac: Hmac, s: Party, respSid: nat, respNonce: Bytes)
    requires HmacOk(hmac) && s.ekey.None? && s.otherPublic.None?
    ensures var option := FindOption(respNonce, 0x0D);
      var t := AfterRIKeying(hmac, s, respSid, respNonce);
      && (t.Some? <==> option.Found? && |option.data| >= 2)
      && (t.Some? ==> t.value == Keyed(hmac, s, option.data[1..], respNonce)
            .(otherPublic := Some(option.data[1..]), mode := Initiator, otherSid := respSid))
  {
    hide FindOption, CryptoKey, SharedSecret, NonceOf;
  }

  // ------------------------------------------------------------ keying chunks

  function Prefixed(b: Bytes): Bytes {
    Vlu(|b|) + b
  }

  function TakePrefixed(b: Bytes): Option<Parsed<Bytes>> {
    var length := TakeVlu(b);
    if |length.rest| < length.value then None
    else Some(Parsed(length.rest[..length.value], length.rest[length.value..]))
  }

  datatype IIKeying = IIKeying(sid: nat, cookie: Bytes, cert: Bytes, nonce: Bytes)
  datatype RIKeying = RIKeying(sid: nat, nonce: Bytes)

  const SIGNATURE_BYTE: byte := 0x58

  function IIKeyingBytes(m: IIKeying): Bytes
    requires m.sid < U32_LIMIT
  {
    U32(m.sid) + (Prefixed(m.cookie) + (Prefixed(m.cert) + (Prefixed(m.nonce) + [SIGNATURE_BYTE])))
  }

  function RIKeyingBytes(m: RIKeying): Bytes
    requires m.sid < U32_LIMIT
  {
    U32(m.sid) + (Prefixed(m.nonce) + [SIGNATURE_BYTE])
  }

  function TakeIIKeying(b: Bytes): Option<IIKeying> {
    var sid := TakeU32(b);
    var cookie := TakePrefixed(sid.rest);
    if cookie.None? then None
    else
      var cert := TakePrefixed(cookie.value.rest);
      if cert.None? then None
      else
        var nonce := TakePrefixed(cert.value.rest);
        if nonce.None? then None
        else Some(IIKeying(sid.value, cookie.value.value, cert.value.value, nonce.value.value))
  }

  function TakeRIKeying(b: Bytes): Option<RIKeying> {
    var sid := TakeU32(b);
    var nonce := TakePrefixed(sid.rest);
    if nonce.None? then None else Some(RIKeying(sid.value, nonce.value.value))
  }

  lemma PrefixedRoundTrip(b: Bytes, rest: Bytes)
    ensures TakePrefixed(Prefixed(b) + rest) == Some(Parsed(b, rest))
  {
    hide Vlu, TakeVlu;
    assert Prefixed(b) + rest == Vlu(|b|) + (b + rest);
    VluRoundTrip(|b|, b + rest);
    assert (b + rest)[..|b|] == b && (b + rest)[|b|..] == rest;
  }

  /** Both keying chunks are read back as they were written. */
  lemma KeyingRoundTrip(i: IIKeying, r: RIKeying)
    requires i.sid < U32_LIMIT && r.sid < U32_LIMIT
    ensures TakeIIKeying(IIKeyingBytes(i)) == Some(i) && TakeRIKeying(RIKeyingBytes(r)) == Some(r)
  {
    hide Prefixed, TakePrefixed, TakeU32, U32;
    var signature := [SIGNATURE_BYTE];
    U32RoundTrip(i.sid, Prefixed(i.cookie) + (Prefixed(i.cert) + (Prefixed(i.nonce) + signature)));
    PrefixedRoundTrip(i.cookie, Prefixed(i.cert) + (Prefixed(i.nonce) + signature));
    PrefixedRoundTrip(i.cert, Prefixed(i.nonce) + signature);
    PrefixedRoundTrip(i.nonce, signature);
    U32RoundTrip(r.sid, Prefixed(r.nonce) + signature);
    PrefixedRoundTrip(r.nonce, signature);
  }

  // --------------------------------------------------- finding public numbers

  lemma SmallVlus()
    ensures Vlu(2) == [0x02] && Vlu(3) == [0x03] && Vlu(130) == [0x81, 0x02]
  {
    assert Digits(1, true) == [0x81] && Digits(2, false) == [0x02];
  }

  /** The certificate and the nonce both yield the public number, behind a byte of two. */
  lemma PublicNumberFound(private: nat)
    ensures FindOption(CertOf(private), OPTION_CERT_KEY) == Found([0x02] + FixedWidth(PublicNumber(private)))
    ensures FindOption(NonceOf(private), OPTION_NONCE_KEY) == Found([0x02] + FixedWidth(PublicNumber(private)))
  {
    hide Vlu, FindOption, PublicNumber, FixedWidth;
    var key := FixedWidth(PublicNumber(private));
    FixedWidthValue(PublicNumber(private));
    SmallVlus();
    var cert := [OPTION_CERT_KEY, 0x02] + key;
    assert CertOf(private) == Vlu(130) + (cert + []);
    FindHere(cert, []);
    assert cert[1..] == [0x02] + key;
    var option := [OPTION_NONCE_KEY, 0x02] + key;
    var second: Bytes := [0x1E, 0x00];
    var first: Bytes := [0x1A, 0x00, 0x00];
    assert NonceOf(private) == Vlu(3) + (first + (Vlu(2) + (second + (Vlu(130) + (option + [])))));
    FindBehind(first, Vlu(2) + (second + (Vlu(130) + (option + []))), OPTION_NONCE_KEY);
    FindBehind(second, Vlu(130) + (option + []), OPTION_NONCE_KEY);
    FindHere(option, []);
    assert option[1..] == [0x02] + key;
  }

  // ---------------------------------------------------------------- agreement

  /** Both sides get the same secret: two to the product of their private numbers, modulo the prime. */
  lemma SecretsAgree(x: nat, y: nat)
    ensures Prime() > 0
    ensures SharedSecret(x, FixedWidth(PublicNumber(y))) == Pow(2, x * y) % Prime()
    ensures SharedSecret(y, FixedWidth(PublicNumber(x))) == Pow(2, x * y) % Prime()
  {
    hide FixedWidth, BigEndian, Pow, Prime;
    PrimeShape();
    FixedWidthValue(PublicNumber(x));
    FixedWidthValue(PublicNumber(y));
    ModExpOfModExp(2, y, x, Prime());
    ModExpOfModExp(2, x, y, Prime());
    assert y * x == x * y;
  }

  predicate KeysMatch(a: Party, b: Party) {
    && a.dkey.Some? && a.ekey.Some?
    && a.dkey == b.ekey && a.ekey == b.dkey
  }

  /** The initiator has not been told the responder's number, or has been told the right one. */
  predicate KnowsNumber(otherPublic: Option<Bytes>, private: nat) {
    otherPublic.Some? ==> BigEndian(otherPublic.value) == PublicNumber(private)
  }

  /** The chunk an initiator sends. */
  function ToResponder(a: Party, cookie: Bytes): Bytes
    requires a.sid < U32_LIMIT
  {
    IIKeyingBytes(IIKeying(a.sid, cookie, CertOf(a.private), NonceOf(a.private)))
  }

  /** The chunk a responder answers with. */
  function ToInitiator(b: Party): Bytes
    requires b.sid < U32_LIMIT
  {
    RIKeyingBytes(RIKeying(b.sid, NonceOf(b.private)))
  }

  /** A chunk is decoded and handled; None where the decoder or the handler panics. */
  function Responded(hmac: Hmac, b: Party, chunk: Bytes): Option<Party>
    requires HmacOk(hmac)
  {
    var m := TakeIIKeying(chunk);
    if m.None? then None else AfterIIKeying(hmac, b, m.value.sid, m.value.cert, m.value.nonce)
  }

  function Confirmed(hmac: Hmac, a: Party, chunk: Bytes): Option<Party>
    requires HmacOk(hmac)
  {
    var m := TakeRIKeying(chunk);
    if m.None? then None else AfterRIKeying(hmac, a, m.value.sid, m.value.nonce)
  }

  /** What each side holds once the other's chunk has arrived. */
  lemma KeyingOutcome(hmac: Hmac, a: Party, b: Party, cookie: Bytes)
    requires HmacOk(hmac) && KnowsNumber(a.otherPublic, b.private) && a.sid < U32_LIMIT && b.sid < U32_LIMIT
    ensures Responded(hmac, b, ToResponder(a, cookie)) ==
      Some(Keyed(hmac, b, FixedWidth(PublicNumber(a.private)), NonceOf(a.private))
             .(mode := Responder, otherSid := a.sid))
    ensures a.ekey.None? ==>
      var t := Confirmed(hmac, a, ToInitiator(b));
      && t.Some? && t.value.otherPublic.Some?
      && t.value == Keyed(hmac, a, FixedWidth(PublicNumber(b.private)), NonceOf(b.private))
                      .(mode := Initiator, otherSid := b.sid, otherPublic := t.value.otherPublic)
  {
    hide FixedWidth, PublicNumber, NonceOf, CertOf, FindOption, CryptoKey, IIKeyingBytes, RIKeyingBytes, TakeIIKeying,
         TakeRIKeying;
    KeyingRoundTrip(IIKeying(a.sid, cookie, CertOf(a.private), NonceOf(a.private)),
                    RIKeying(b.sid, NonceOf(b.private)));
    PublicNumberFound(a.private);
    PublicNumberFound(b.private);
    FixedWidthValue(PublicNumber(a.private));
    FixedWidthValue(PublicNumber(b.private));
    var pa, pb := FixedWidth(PublicNumber(a.private)), FixedWidth(PublicNumber(b.private));
    assert ([0x02] + pa)[1..] == pa && ([0x02] + pb)[1..] == pb;
    if a.otherPublic.Some? {
      assert SharedSecret(a.private, a.otherPublic.value) == SharedSecret(a.private, pb);
    }
  }

  lemma KeyedMatch(hmac: Hmac, a: Party, b: Party)
    requires HmacOk(hmac)
    ensures KeysMatch(Keyed(hmac, a, FixedWidth(PublicNumber(b.private)), NonceOf(b.private)),
                      Keyed(hmac, b, FixedWidth(PublicNumber(a.private)), NonceOf(a.private)))
  {
    hide FixedWidth, PublicNumber, NonceOf, SharedSecret, MinBytes;
    SecretsAgree(a.private, b.private);
  }

  // ------------------------------------------- any delivery of the two chunks

  datatype KeyingEvent =
    | IIKeyingArrives(cookie: Bytes)  // one of the retries, with the cookie of its time
    | RIKeyingArrives                 // an answer of a responder that has seen an IIKeying

  /** The source stops where a chunk cannot be used; in the runs below it always can. */
  function KeyingStep(hmac: Hmac, a: Party, b: Party, e: KeyingEvent): (ends: (Party, Party))
    requires HmacOk(hmac) && a.sid < U32_LIMIT && b.sid < U32_LIMIT
    ensures ends.0.sid == a.sid && ends.1.sid == b.sid
  {
    match e
    case IIKeyingArrives(cookie) =>
      var t := Responded(hmac, b, ToResponder(a, cookie));
      (a, if t.Some? then t.value else b)
    case RIKeyingArrives =>
      if b.ekey.None? then (a, b)
      else
        var t := Confirmed(hmac, a, ToInitiator(b));
        (if t.Some? then t.value else a, b)
  }

  function KeyingRun(hmac: Hmac, a: Party, b: Party, events: seq<KeyingEvent>): (ends: (Party, Party))
    requires HmacOk(hmac) && a.sid < U32_LIMIT && b.sid < U32_LIMIT
    ensures ends.0.sid == a.sid && ends.1.sid == b.sid
  {
    if events == [] then (a, b)
    else
      var (u, v) := KeyingRun(hmac, a, b, events[..|events| - 1]);
      KeyingStep(hmac, u, v, events[|events| - 1])
  }

  /** Each side is still new or has exactly the keys of this exchange. */
  ghost predicate KeyingInv(hmac: Hmac, a0: Party, b0: Party, a: Party, b: Party)
    requires HmacOk(hmac)
  {
    && a.sid == a0.sid && a.private == a0.private && b.sid == b0.sid && b.private == b0.private
    && KnowsNumber(a.otherPublic, b.private)
    && (b == b0 || b == Keyed(hmac, b0, FixedWidth(PublicNumber(a.private)), NonceOf(a.private))
                          .(mode := Responder, otherSid := a.sid))
    && (a == a0 || (b != b0 && a == Keyed(hmac, a0, FixedWidth(PublicNumber(b.private)), NonceOf(b.private))
                                      .(mode := Initiator, otherSid := b.sid, otherPublic := a.otherPublic)))
  }

  predicate BothNew(a: Party, b: Party) {
    && a.sid < U32_LIMIT && b.sid < U32_LIMIT
    && a.dkey.None? && a.ekey.None? && b.dkey.None? && b.ekey.None? && KnowsNumber(a.otherPublic, b.private)
  }

  lemma KeyingStepInv(hmac: Hmac, a0: Party, b0: Party, a: Party, b: Party, e: KeyingEvent)
    requires HmacOk(hmac) && BothNew(a0, b0) && KeyingInv(hmac, a0, b0, a, b)
    ensures var (u, v) := KeyingStep(hmac, a, b, e);
      && KeyingInv(hmac, a0, b0, u, v)
      && (e.IIKeyingArrives? ==> v != b0 && u == a)
      && (e.RIKeyingArrives? && b != b0 ==> u != a0 && v == b)
  {
    hide FixedWidth, PublicNumber, NonceOf, CertOf, CryptoKey, SharedSecret, AfterIIKeying, AfterRIKeying, BigEndian;
    match e
    case IIKeyingArrives(cookie) =>
      KeyingOutcome(hmac, a, b, cookie);
    case RIKeyingArrives =>
      KeyingOutcome(hmac, a, b, []);
      ConfirmedTwice(hmac, a, ToInitiator(b));
      NumberKept(a0, b, FixedWidth(PublicNumber(b.private)));
      ConfirmedNumber(hmac, a, b);
  }

  /** A repeated answer changes nothing. */
  lemma ConfirmedTwice(hmac: Hmac, a: Party, chunk: Bytes)
    requires HmacOk(hmac)
    ensures a.ekey.Some? && Confirmed(hmac, a, chunk).Some? ==> Confirmed(hmac, a, chunk) == Some(a)
  {
  }

  lemma NumberKept(a: Party, b: Party, number: Bytes)
    requires number == FixedWidth(PublicNumber(b.private))
    ensures KnowsNumber(Some(number), b.private)
  {
    FixedWidthValue(PublicNumber(b.private));
  }

  lemma ConfirmedNumber(hmac: Hmac, a: Party, b: Party)
    requires HmacOk(hmac) && KnowsNumber(a.otherPublic, b.private) && b.sid < U32_LIMIT
    ensures Confirmed(hmac, a, ToInitiator(b)).Some? ==>
      KnowsNumber(Confirmed(hmac, a, ToInitiator(b)).value.otherPublic, b.private)
  {
    hide FixedWidth, PublicNumber, NonceOf, CryptoKey, SharedSecret, BigEndian, FindOption, RIKeyingBytes, TakeRIKeying,
         IIKeyingBytes, TakeIIKeying;
    KeyingRoundTrip(IIKeying(0, [], [], []), RIKeying(b.sid, NonceOf(b.private)));
    PublicNumberFound(b.private);
    var pb := FixedWidth(PublicNumber(b.private));
    FixedWidthValue(PublicNumber(b.private));
    assert ([0x02] + pb)[1..] == pb;
  }

  lemma {:induction false} KeyingRuns(hmac: Hmac, a: Party, b: Party, events: seq<KeyingEvent>)
    requires HmacOk(hmac) && BothNew(a, b)
    ensures KeyingInv(hmac, a, b, KeyingRun(hmac, a, b, events).0, KeyingRun(hmac, a, b, events).1)
  {
    if events != [] {
      hide KeyingInv, KeyingStep;
      var n := |events| - 1;
      KeyingRuns(hmac, a, b, events[..n]);
      var (u, v) := KeyingRun(hmac, a, b, events[..n]);
      KeyingStepInv(hmac, a, b, u, v, events[n]);
    } else {
      hide Keyed, FixedWidth, PublicNumber;
    }
  }

  lemma MatchFromInv(hmac: Hmac, a0: Party, b0: Party, a: Party, b: Party)
    requires HmacOk(hmac) && BothNew(a0, b0) && KeyingInv(hmac, a0, b0, a, b)
    ensures a.ekey.Some? ==> KeysMatch(a, b) && a.otherSid == b.sid && b.otherSid == a.sid
    ensures a != a0 ==> a.ekey.Some?
  {
    hide FixedWidth, PublicNumber, NonceOf, CryptoKey, BigEndian, SharedSecret;
    KeyedMatch(hmac, a0, b0);
  }

  /**
   * Key agreement: however often and in whatever order the two chunks arrive, once the initiator has
   * keys they are the responder's, crosswise, and each side knows the other's session id.
   */
  lemma KeysAgree(hmac: Hmac, a: Party, b: Party, events: seq<KeyingEvent>)
    requires HmacOk(hmac) && BothNew(a, b)
    ensures var (u, v) := KeyingRun(hmac, a, b, events);
      u.ekey.Some? ==> KeysMatch(u, v) && u.otherSid == b.sid && v.otherSid == a.sid
  {
    hide KeyingRun, FixedWidth, PublicNumber, Keyed;
    KeyingRuns(hmac, a, b, events);
    MatchFromInv(hmac, a, b, KeyingRun(hmac, a, b, events).0, KeyingRun(hmac, a, b, events).1);
  }

  /** The key for one direction: 16 bytes of the hmac of the nonces in this order, under the secret's shortest form. */
  predicate IsKey(hmac: Hmac, key: Option<Bytes>, secret: nat, first: Bytes, second: Bytes)
    requires HmacOk(hmac)
  {
    key == Some(hmac(MinBytes(secret), hmac(first, second))[..16])
  }

  lemma KeyedIs(hmac: Hmac, s: Party, x: nat, otherNonce: Bytes)
    requires HmacOk(hmac)
    ensures var t := Keyed(hmac, s, FixedWidth(PublicNumber(x)), otherNonce);
      && Prime() > 0
      && IsKey(hmac, t.dkey, Pow(2, s.private * x) % Prime(), NonceOf(s.private), otherNonce)
      && IsKey(hmac, t.ekey, Pow(2, s.private * x) % Prime(), otherNonce, NonceOf(s.private))
  {
    hide FixedWidth, PublicNumber, NonceOf, SharedSecret, MinBytes, Pow, Prime;
    SecretsAgree(s.private, x);
  }

  /** The nonce of a party is 139 bytes long and ends with its public number. */
  lemma NonceMeans(private: nat)
    ensures Prime() > 0 && |NonceOf(private)| == 139
    ensures BigEndian(NonceOf(private)[11..]) == Pow(2, private) % Prime()
  {
    hide FixedWidth, BigEndian, Pow, Prime;
    PrimeShape();
    FixedWidthValue(PublicNumber(private));
    assert NonceOf(private)[11..] == FixedWidth(PublicNumber(private));
  }

  /**
   * The keys are those of the exchange: after any run, whoever has keys decrypts with the hmac of its own nonce
   * and the other's and encrypts with that of the other's and its own, under the secret both private numbers give.
   */
  lemma KeysValue(hmac: Hmac, a: Party, b: Party, events: seq<KeyingEvent>)
    requires HmacOk(hmac) && BothNew(a, b)
    ensures Prime() > 0
    ensures var (u, v) := KeyingRun(hmac, a, b, events);
      var secret, na, nb := Pow(2, a.private * b.private) % Prime(), NonceOf(a.private), NonceOf(b.private);
      && (u.ekey.Some? || u.dkey.Some? ==> IsKey(hmac, u.dkey, secret, na, nb) && IsKey(hmac, u.ekey, secret, nb, na))
      && (v.ekey.Some? || v.dkey.Some? ==> IsKey(hmac, v.dkey, secret, nb, na) && IsKey(hmac, v.ekey, secret, na, nb))
  {
    hide KeyingRun, FixedWidth, PublicNumber, NonceOf, Keyed, IsKey, Pow, Prime, BigEndian;
    PrimeShape();
    KeyingRuns(hmac, a, b, events);
    KeyedIs(hmac, a, b.private, NonceOf(b.private));
    KeyedIs(hmac, b, a.private, NonceOf(a.private));
    assert a.private * b.private == b.private * a.private;
  }

  predicate OpensAs(cipher: Packets.Cipher, key: Option<Bytes>, datagram: Bytes, sid: nat,
                    h: Packets.Header, chunks: seq<Packets.RawChunk>) {
    Packets.Opened(cipher, key, datagram) == Packets.Packet(sid, h, chunks)
  }

  /** From then on each side opens the packets of the other, with its own session id and the same contents. */
  lemma PacketsCross(hmac: Hmac, cipher: Packets.Cipher, a: Party, b: Party, events: seq<KeyingEvent>,
                     h: Packets.Header, chunks: seq<Packets.RawChunk>)
    requires HmacOk(hmac) && BothNew(a, b)
    requires Packets.CipherOk(cipher) && Packets.HeaderOk(h)
    ensures var (u, v) := KeyingRun(hmac, a, b, events);
      var body, fits := Packets.Body(h, chunks), Packets.ChunksFit(chunks);
      u.ekey.Some? ==>
        && u.otherSid == b.sid && v.otherSid == a.sid
        && (OpensAs(cipher, v.dkey, Packets.Packed(cipher, u.ekey, u.otherSid, body), b.sid, h, chunks) <==> fits)
        && (OpensAs(cipher, u.dkey, Packets.Packed(cipher, v.ekey, v.otherSid, body), a.sid, h, chunks) <==> fits)
  {
    hide KeyingRun, Packets.Opened, Packets.Packed, Packets.Body, Packets.CipherOk;
    KeysAgree(hmac, a, b, events);
    var (u, v) := KeyingRun(hmac, a, b, events);
    if u.ekey.Some? {
      Packets.PacketRoundTrip(cipher, u.ekey, b.sid, h, chunks);
      Packets.PacketRoundTrip(cipher, v.ekey, a.sid, h, chunks);
    }
  }

  /** After any run, one more IIKeying and one more RIKeying leave both sides with matching keys. */
  lemma KeysComplete(hmac: Hmac, a: Party, b: Party, events: seq<KeyingEvent>, cookie: Bytes)
    requires HmacOk(hmac) && BothNew(a, b)
    ensures var (u, v) := KeyingRun(hmac, a, b, events + [IIKeyingArrives(cookie), RIKeyingArrives]);
      KeysMatch(u, v)
  {
    hide KeyingStep, KeyingInv;
    var first := events + [IIKeyingArrives(cookie)];
    var all := events + [IIKeyingArrives(cookie), RIKeyingArrives];
    assert first[..|events|] == events && all[..|first|] == first;
    var (u, v) := KeyingRun(hmac, a, b, events);
    KeyingRuns(hmac, a, b, events);
    KeyingStepInv(hmac, a, b, u, v, IIKeyingArrives(cookie));
    var (u1, v1) := KeyingStep(hmac, u, v, IIKeyingArrives(cookie));
    KeyingStepInv(hmac, a, b, u1, v1, RIKeyingArrives);
    var (u2, v2) := KeyingStep(hmac, u1, v1, RIKeyingArrives);
    MatchFromInv(hmac, a, b, u2, v2);
  }

  // ------------------------------------------------------------------- session

  class KeySession {
    const sid: nat
    const private: nat
    var otherPublic: Option<Bytes>
    const nonce: Bytes
    var mode: Mode
    var otherSid: nat
    var dkey: Option<Bytes>
    var ekey: Option<Bytes>

    ghost function Model(): Party
      reads this
    {
      Party(sid, private, otherPublic, mode, otherSid, dkey, ekey)
    }

    ghost predicate Valid()
      reads this
    {
      sid < U32_LIMIT && nonce == NonceOf(private)
    }

    constructor (sid: nat, private: nat, otherPublic: Option<Bytes>)
      requires sid < U32_LIMIT
      ensures Valid() && Model() == NewParty(sid, private, otherPublic)
    {
      this.sid, this.private, this.otherPublic := sid, private, otherPublic;
      mode, otherSid, dkey, ekey := Startup, 0, None, None;
      nonce := NONCE_HEAD + FixedWidth(PublicNumber(private));
    }

    predicate Handshaked()
      reads this
    {
      ekey.Some?
    }

    method GenerateAesKeys(hmac: Hmac, otherDhPub: Bytes, otherNonce: Bytes)
      requires Valid() && HmacOk(hmac)
      modifies this`dkey, this`ekey
      ensures Valid() && Model() == Keyed(hmac, old(Model()), otherDhPub, otherNonce)
    {
      var secret := SharedSecret(private, otherDhPub);
      dkey := Some(hmac(MinBytes(secret), hmac(nonce, otherNonce))[..16]);
      ekey := Some(hmac(MinBytes(secret), hmac(otherNonce, nonce))[..16]);
    }

    method SendIIKeying(cookie: Bytes) returns (chunk: Bytes)
      requires Valid()
      ensures chunk == ToResponder(Model(), cookie)
    {
      hide Vlu, FixedWidth, PublicNumber, U32, Prefixed, NonceOf;
      var public := FixedWidth(PublicNumber(private));
      FixedWidthValue(PublicNumber(private));
      var chunkBuf := new Buffer([]);
      chunkBuf.Write(U32(sid));
      EncodeVluPrefixBytes(chunkBuf, cookie);
      ghost var front := chunkBuf.data;
      EncodeVlu(chunkBuf, 132);
      chunkBuf.Write(CERT_HEAD);
      chunkBuf.Write(public);
      PrefixedCert(front, private, public);
      EncodeVluPrefixBytes(chunkBuf, nonce);
      chunkBuf.WriteByte(SIGNATURE_BYTE);
      chunk := chunkBuf.data;
    }

    method SendRIKeying() returns (chunk: Bytes)
      requires Valid()
      ensures chunk == ToInitiator(Model())
    {
      hide Prefixed, U32, NonceOf;
      var chunkBuf := new Buffer([]);
      chunkBuf.Write(U32(sid));
      EncodeVluPrefixBytes(chunkBuf, nonce);
      chunkBuf.WriteByte(SIGNATURE_BYTE);
      chunk := chunkBuf.data;
    }

    method RecvIIKeying(hmac: Hmac, initSid: nat, initCert: Bytes, initNonce: Bytes) returns (ok: bool)
      requires Valid() && HmacOk(hmac)
      modifies this
      ensures Valid() && ok == AfterIIKeying(hmac, old(Model()), initSid, initCert, initNonce).Some?
      ensures Some(Model()) ==
        if ok then AfterIIKeying(hmac, old(Model()), initSid, initCert, initNonce) else Some(old(Model()))
    {
      hide FindOption, NonceOf, CryptoKey, SharedSecret;
      var option := ReadOption(initCert, OPTION_CERT_KEY);
      if !option.Found? || option.data == [] {
        return false;
      }
      GenerateAesKeys(hmac, option.data[1..], initNonce);
      mode, otherSid := Responder, initSid;
      return true;
    }

    method RecvRIKeying(hmac: Hmac, respSid: nat, respNonce: Bytes) returns (ok: bool)
      requires Valid() && HmacOk(hmac)
      modifies this
      ensures Valid() && ok == AfterRIKeying(hmac, old(Model()), respSid, respNonce).Some?
      ensures Some(Model()) == if ok then AfterRIKeying(hmac, old(Model()), respSid, respNonce) else Some(old(Model()))
    {
      hide FindOption, NonceOf, CryptoKey, SharedSecret;
      if Handshaked() {
        return true;
      }
      var option := ReadOption(respNonce, OPTION_NONCE_KEY);
      if option.OutOfRange? {
        return false;
      }
      if otherPublic.None? && option.Found? && |option.data| > 1 {
        otherPublic := Some(option.data[1..]);
      }
      if otherPublic.None? {
        return false;
      }
      GenerateAesKeys(hmac, otherPublic.value, respNonce);
      mode, otherSid := Initiator, respSid;
      return true;
    }

    /** The chunk is decoded and handed to the session. */
    method HandleIIKeying(hmac: Hmac, chunk: Bytes) returns (ok: bool)
      requires Valid() && HmacOk(hmac)
      modifies this
      ensures Valid() && ok == Responded(hmac, old(Model()), chunk).Some?
      ensures Some(Model()) == if ok then Responded(hmac, old(Model()), chunk) else Some(old(Model()))
    {
      hide TakeIIKeying, AfterIIKeying;
      var m := DecodeIIKeyingChunk(chunk);
      if m.None? {
        return false;
      }
      ok := RecvIIKeying(hmac, m.value.sid, m.value.cert, m.value.nonce);
    }

    method HandleRIKeying(hmac: Hmac, chunk: Bytes) returns (ok: bool)
      requires Valid() && HmacOk(hmac)
      modifies this
      ensures Valid() && ok == Confirmed(hmac, old(Model()), chunk).Some?
      ensures Some(Model()) == if ok then Confirmed(hmac, old(Model()), chunk) else Some(old(Model()))
    {
      hide TakeRIKeying, AfterRIKeying;
      var m := DecodeRIKeyingChunk(chunk);
      if m.None? {
        return false;
      }
      ok := RecvRIKeying(hmac, m.value.sid, m.value.nonce);
    }
  }

  lemma PrefixedCert(front: Bytes, private: nat, public: Bytes)
    requires public == FixedWidth(PublicNumber(private)) && |public| == DH_SIZE
    ensures front + Vlu(132) + CERT_HEAD + public == front + Prefixed(CertOf(private))
  {
    hide Vlu, FixedWidth, PublicNumber;
    assert |CertOf(private)| == 132;
  }

  method EncodeVluPrefixBytes(w: Buffer, buf: Bytes)
    modifies w
    ensures w.data == old(w.data) + Prefixed(buf)
  {
    hide Vlu;
    EncodeVlu(w, |buf|);
    w.Write(buf);
  }

  method ReadPrefixed(r: Buffer) returns (b: Option<Bytes>)
    modifies r
    ensures b.Some? <==> TakePrefixed(old(r.data)).Some?
    ensures b.Some? ==> Parsed(b.value, r.data) == TakePrefixed(old(r.data)).value
  {
    hide TakeVlu;
    var length := DecodeVlu(r);
    if |r.data| < length {
      return None;
    }
    b := Some(r.data[..length]);
    r.Next(length);
  }

  method DecodeIIKeyingChunk(chunk: Bytes) returns (m: Option<IIKeying>)
    ensures m == TakeIIKeying(chunk)
  {
    hide TakePrefixed, TakeU32;
    var r := new Buffer(chunk);
    var initSid := r.ReadU32();
    var cookie := ReadPrefixed(r);
    if cookie.None? {
      return None;
    }
    var cert := ReadPrefixed(r);
    if cert.None? {
      return None;
    }
    var nonce := ReadPrefixed(r);
    return if nonce.None? then None else Some(IIKeying(initSid, cookie.value, cert.value, nonce.value));
  }

  method DecodeRIKeyingChunk(chunk: Bytes) returns (m: Option<RIKeying>)
    ensures m == TakeRIKeying(chunk)
  {
    hide TakePrefixed, TakeU32;
    var r := new Buffer(chunk);
    var respSid := r.ReadU32();
    var nonce := ReadPrefixed(r);
    return if nonce.None? then None else Some(RIKeying(respSid, nonce.value));
  }
}
