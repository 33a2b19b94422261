/**
  Signed evidence-preview tokens: the payload names the evidence, the administrator and the expiry second,
  and travels together with its signature.  The signature function is any function of the payload bytes.
*/
module PreviewToken {
  import opened Common
  import opened Base64Url

  /** A UUID as its 32 hexadecimal digits. */
  type Uuid = u: seq<int> | |u| == 32 && forall i :: 0 <= i < |u| ==> 0 <= u[i] < 16 witness seq(32, i => 0)

  type Signer = seq<Byte> -> seq<Byte>

  datatype ReviewError = LinkInvalid | LinkExpired

  // ---------------------------------------------------------------------------------------------
  // Text of the payload
  // ---------------------------------------------------------------------------------------------

  function HexChar(d: int): char
    requires 0 <= d < 16
  {
    if d < 10 then '0' + (d as char) else 'a' + ((d - 10) as char)
  }

  function HexValue(c: char): Option<int> {
    if '0' <= c <= '9' then Some((c - '0') as int)
    else if 'a' <= c <= 'f' then Some((c - 'a') as int + 10)
    else if 'A' <= c <= 'F' then Some((c - 'A') as int + 10)
    else None
  }

  function Hex(digits: seq<int>): (text: string)
    requires forall i :: 0 <= i < |digits| ==> 0 <= digits[i] < 16
    ensures |text| == |digits|
    ensures forall i :: 0 <= i < |text| ==> text[i] == HexChar(digits[i])
  {
    seq(|digits|, i requires 0 <= i < |digits| => HexChar(digits[i]))
  }

  function UuidText(u: Uuid): string {
    Hex(u[..8]) + "-" + Hex(u[8..12]) + "-" + Hex(u[12..16]) + "-" + Hex(u[16..20]) + "-" + Hex(u[20..])
  }

  function StripDashes(text: string): string {
    if text == "" then ""
    else if text[0] == '-' then StripDashes(text[1..])
    else [text[0]] + StripDashes(text[1..])
  }

  function HexDigits(text: string): Option<seq<int>> {
    if text == "" then Some([])
    else
      match (HexValue(text[0]), HexDigits(text[1..]))
      case (Some(d), Some(rest)) => Some([d] + rest)
      case _ => None
  }

  /** Dashes are dropped wherever they are; 32 hexadecimal digits must remain. */
  function ParseUuid(text: string): (u: Option<Uuid>) {
    var digits := HexDigits(StripDashes(text));
    if digits.Some? && |digits.value| == 32 && (forall i :: 0 <= i < 32 ==> 0 <= digits.value[i] < 16)
    then Some(digits.value)
    else None
  }

  function Decimal(n: nat): string {
    if n < 10 then ['0' + (n as char)] else Decimal(n / 10) + ['0' + ((n % 10) as char)]
  }

  function ParseDecimal(text: string): Option<nat> {
    if text == "" then None
    else
      var c := text[|text| - 1];
      if !('0' <= c <= '9') then None
      else if |text| == 1 then Some((c - '0') as int)
      else
        match ParseDecimal(text[..|text| - 1])
        case None => None
        case Some(front) => Some(front * 10 + (c - '0') as int)
  }

  /** Split at the first separator; None when there is none. */
  function SplitOnce(text: string, separator: char): Option<(string, string)> {
    if text == "" then None
    else if text[0] == separator then Some(("", text[1..]))
    else
      match SplitOnce(text[1..], separator)
      case None => None
      case Some((front, back)) => Some(([text[0]] + front, back))
  }

  function Ascii(text: string): seq<Byte>
    requires forall i :: 0 <= i < |text| ==> text[i] < 128 as char
  {
    seq(|text|, i requires 0 <= i < |text| => text[i] as int)
  }

  function FromAscii(bytes: seq<Byte>): Option<string> {
    if exists i :: 0 <= i < |bytes| && bytes[i] >= 128 then None
    else Some(seq(|bytes|, i requires 0 <= i < |bytes| => if bytes[i] < 128 then bytes[i] as char else ' '))
  }

  function PayloadText(evidence: Uuid, admin: Uuid, expiresAt: nat): string {
    UuidText(evidence) + [':'] + (UuidText(admin) + [':'] + Decimal(expiresAt))
  }

  // ---------------------------------------------------------------------------------------------
  // Minting and verifying
  // ---------------------------------------------------------------------------------------------

  function Mint(sign: Signer, evidence: Uuid, admin: Uuid, now: nat, ttl: nat): string {
    PayloadTextIsAscii(evidence, admin, now + ttl);
    var payload := Ascii(PayloadText(evidence, admin, now + ttl));
    Encode(payload) + ['.'] + Encode(sign(payload))
  }

  datatype Claims = Claims(evidence: Uuid, admin: Uuid, expiresAt: nat)

  function ParsePayload(payload: seq<Byte>): Option<Claims> {
    match FromAscii(payload)
    case None => None
    case Some(text) =>
      match SplitOnce(text, ':')
      case None => None
      case Some((first, others)) =>
        match SplitOnce(others, ':')
        case None => None
        case Some((second, third)) =>
          match (ParseUuid(first), ParseUuid(second), ParseDecimal(third))
          case (Some(e), Some(a), Some(t)) => Some(Claims(e, a, t))
          case _ => None
  }

  function Verify(sign: Signer, token: string, evidence: Uuid, admin: Uuid, now: nat): Result<(), ReviewError> {
    match SplitOnce(token, '.')
    case None => Err(LinkInvalid)
    case Some((payloadPart, signaturePart)) =>
      match (Decode(payloadPart), Decode(signaturePart))
      case (Some(payload), Some(supplied)) =>
        if supplied != sign(payload) then Err(LinkInvalid)
        else (
          match ParsePayload(payload)
          case None => Err(LinkInvalid)
          case Some(claims) =>
            if claims.evidence != evidence || claims.admin != admin then Err(LinkInvalid)
            else if claims.expiresAt < now then Err(LinkExpired)
            else Ok(()))
      case _ => Err(LinkInvalid)
  }

  // ---------------------------------------------------------------------------------------------
  // Round trips
  // ---------------------------------------------------------------------------------------------

  lemma {:induction false} SplitOnceFindsFirst(front: string, separator: char, back: string)
    requires separator !in front
    ensures SplitOnce(front + [separator] + back, separator) == Some((front, back))
  {
    var text := front + [separator] + back;
    if front == "" {
      assert text[1..] == back;
    } else {
      SplitOnceFindsFirst(front[1..], separator, back);
      assert text[1..] == front[1..] + [separator] + back;
      assert [front[0]] + front[1..] == front;
    }
  }

  lemma {:induction false} DecimalRoundTrips(n: nat)
    ensures ParseDecimal(Decimal(n)) == Some(n)
    ensures forall i :: 0 <= i < |Decimal(n)| ==> '0' <= Decimal(n)[i] <= '9'
    ensures Decimal(n) != ""
  {
    if n >= 10 {
      DecimalRoundTrips(n / 10);
      var text := Decimal(n);
      assert text[..|text| - 1] == Decimal(n / 10);
    }
  }

  lemma {:induction false} StripDashesDistributes(a: string, b: string)
    ensures StripDashes(a + b) == StripDashes(a) + StripDashes(b)
  {
    if a == "" {
      assert a + b == b;
    } else {
      assert (a + b)[1..] == a[1..] + b;
      StripDashesDistributes(a[1..], b);
    }
  }

  lemma {:induction false} HexHasNoDashes(digits: seq<int>)
    requires forall i :: 0 <= i < |digits| ==> 0 <= digits[i] < 16
    ensures StripDashes(Hex(digits)) == Hex(digits)
  {
    if digits != [] {
      HexHasNoDashes(digits[1..]);
      assert Hex(digits)[1..] == Hex(digits[1..]);
      assert Hex(digits)[0] != '-';
    }
  }

  lemma {:induction false} HexRoundTrips(digits: seq<int>)
    requires forall i :: 0 <= i < |digits| ==> 0 <= digits[i] < 16
    ensures HexDigits(Hex(digits)) == Some(digits)
  {
    if digits != [] {
      HexRoundTrips(digits[1..]);
      assert Hex(digits)[1..] == Hex(digits[1..]);
      assert HexValue(Hex(digits)[0]) == Some(digits[0]);
      assert [digits[0]] + digits[1..] == digits;
    }
  }

  /** Five dash-free groups joined by dashes. */
  lemma GroupsStripped(a: string, b: string, c: string, d: string, e: string)
    requires StripDashes(a) == a && StripDashes(b) == b && StripDashes(c) == c && StripDashes(d) == d && StripDashes(e) == e
    ensures StripDashes(a + "-" + b + "-" + c + "-" + d + "-" + e) == a + b + c + d + e
  {
    DashStripped(a, b);
    DashStripped(a + "-" + b, c);
    DashStripped(a + "-" + b + "-" + c, d);
    DashStripped(a + "-" + b + "-" + c + "-" + d, e);
  }

  lemma GroupsJoin(u: Uuid)
    ensures Hex(u[..8]) + Hex(u[8..12]) + Hex(u[12..16]) + Hex(u[16..20]) + Hex(u[20..]) == Hex(u)
  {
  }

  lemma GroupHasNoDashes(u: Uuid, low: nat, high: nat)
    requires low <= high <= 32
    ensures StripDashes(Hex(u[low..high])) == Hex(u[low..high])
  {
    HexHasNoDashes(u[low..high]);
  }

  lemma UuidTextStripped(u: Uuid)
    ensures StripDashes(UuidText(u)) == Hex(u)
  {
    GroupHasNoDashes(u, 0, 8);
    GroupHasNoDashes(u, 8, 12);
    GroupHasNoDashes(u, 12, 16);
    GroupHasNoDashes(u, 16, 20);
    GroupHasNoDashes(u, 20, 32);
    assert u[0..8] == u[..8] && u[20..32] == u[20..];
    GroupsStripped(Hex(u[..8]), Hex(u[8..12]), Hex(u[12..16]), Hex(u[16..20]), Hex(u[20..]));
    GroupsJoin(u);
  }

  lemma UuidRoundTrips(u: Uuid)
    ensures ParseUuid(UuidText(u)) == Some(u)
  {
    UuidTextStripped(u);
    HexRoundTrips(u);
  }

  lemma DashStripped(front: string, back: string)
    ensures StripDashes(front + "-" + back) == StripDashes(front) + StripDashes(back)
  {
    StripDashesDistributes(front + "-", back);
    StripDashesDistributes(front, "-");
    assert StripDashes("-") == "";
    assert StripDashes(front) + "" == StripDashes(front);
  }

  /** The characters of a UUID's text. */
  lemma UuidTextCharacters(u: Uuid)
    ensures forall i :: 0 <= i < |UuidText(u)| ==> UuidText(u)[i] < 128 as char && UuidText(u)[i] != ':'
  {
  }

  /** The canonical form of a UUID (section 3 of RFC 4122): 36 characters, four dashes, lower-case digits in order. */
  lemma UuidTextIsCanonical(u: Uuid)
    ensures |UuidText(u)| == 36
    ensures forall i :: 0 <= i < 36 ==>
              UuidText(u)[i] == if i == 8 || i == 13 || i == 18 || i == 23 then '-'
                                else HexChar(u[if i < 8 then i else if i < 13 then i - 1 else if i < 18 then i - 2
                                               else if i < 23 then i - 3 else i - 4])
  {
  }

  lemma PayloadTextIsAscii(evidence: Uuid, admin: Uuid, expiresAt: nat)
    ensures forall i :: 0 <= i < |PayloadText(evidence, admin, expiresAt)| ==>
                          PayloadText(evidence, admin, expiresAt)[i] < 128 as char
  {
    UuidTextCharacters(evidence);
    UuidTextCharacters(admin);
    DecimalRoundTrips(expiresAt);
  }

  lemma PayloadRoundTrips(evidence: Uuid, admin: Uuid, expiresAt: nat)
    requires forall i :: 0 <= i < |PayloadText(evidence, admin, expiresAt)| ==>
                           PayloadText(evidence, admin, expiresAt)[i] < 128 as char
    ensures ParsePayload(Ascii(PayloadText(evidence, admin, expiresAt))) == Some(Claims(evidence, admin, expiresAt))
  {
    var text := PayloadText(evidence, admin, expiresAt);
    var bytes := Ascii(text);
    assert FromAscii(bytes) == Some(text) by {
      assert forall i :: 0 <= i < |bytes| ==> bytes[i] == text[i] as int;
      assert FromAscii(bytes).value == text;
    }
    UuidTextCharacters(evidence);
    UuidTextCharacters(admin);
    SplitOnceFindsFirst(UuidText(evidence), ':', UuidText(admin) + [':'] + Decimal(expiresAt));
    SplitOnceFindsFirst(UuidText(admin), ':', Decimal(expiresAt));
    UuidRoundTrips(evidence);
    UuidRoundTrips(admin);
    DecimalRoundTrips(expiresAt);
  }

  /**
    A minted token verifies for the evidence and the administrator it names until its expiry second has
    passed, and for nothing and nobody else.
  */
  lemma MintedTokenVerifiesExactly(sign: Signer, evidence: Uuid, admin: Uuid, mintedAt: nat, ttl: nat,
                                   wanted: Uuid, viewer: Uuid, now: nat)
    ensures Verify(sign, Mint(sign, evidence, admin, mintedAt, ttl), wanted, viewer, now)
         == if wanted != evidence || viewer != admin then Err(LinkInvalid)
            else if now <= mintedAt + ttl then Ok(())
            else Err(LinkExpired)
  {
    PayloadTextIsAscii(evidence, admin, mintedAt + ttl);
    var payload := Ascii(PayloadText(evidence, admin, mintedAt + ttl));
    EncodedText(payload);
    SplitOnceFindsFirst(Encode(payload), '.', Encode(sign(payload)));
    DecodeUndoesEncode(payload);
    DecodeUndoesEncode(sign(payload));
    PayloadRoundTrips(evidence, admin, mintedAt + ttl);
  }

  /** A token that was handed out: for which evidence and administrator, when, and for how long. */
  datatype Minting = Minting(evidence: Uuid, admin: Uuid, at: nat, ttl: nat)

  /** What the service signs when it mints. */
  function SignedPayload(m: Minting): seq<Byte> {
    PayloadTextIsAscii(m.evidence, m.admin, m.at + m.ttl);
    Ascii(PayloadText(m.evidence, m.admin, m.at + m.ttl))
  }

  /** Everybody's knowledge of signatures comes from minted tokens. */
  ghost predicate Unforged(sign: Signer, known: set<seq<Byte>>, minted: seq<Minting>) {
    forall payload: seq<Byte> :: sign(payload) in known ==> exists k :: 0 <= k < |minted| && payload == SignedPayload(minted[k])
  }

  predicate SignatureKnown(token: string, known: set<seq<Byte>>) {
    && SplitOnce(token, '.').Some?
    && Decode(SplitOnce(token, '.').value.1).Some?
    && Decode(SplitOnce(token, '.').value.1).value in known
  }

  /**
    If signatures are known only of minted payloads, then whatever token somebody puts together from them, and
    whatever spelling it is in, opens evidence for an administrator only if a token for exactly these two was
    minted and has not expired.
  */
  lemma VerifiedTokenWasMinted(sign: Signer, known: set<seq<Byte>>, minted: seq<Minting>, token: string,
                               evidence: Uuid, admin: Uuid, now: nat)
    requires Unforged(sign, known, minted) && SignatureKnown(token, known)
    requires Verify(sign, token, evidence, admin, now).Ok?
    ensures exists k :: 0 <= k < |minted| && minted[k].evidence == evidence && minted[k].admin == admin
                        && now <= minted[k].at + minted[k].ttl
  {
    var payload := Decode(SplitOnce(token, '.').value.0).value;
    var k :| 0 <= k < |minted| && payload == SignedPayload(minted[k]);
    PayloadTextIsAscii(minted[k].evidence, minted[k].admin, minted[k].at + minted[k].ttl);
    PayloadRoundTrips(minted[k].evidence, minted[k].admin, minted[k].at + minted[k].ttl);
  }
}
