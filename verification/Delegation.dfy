/** When a delegation certificate is valid. */
module Delegation {
  import opened Basics
  import opened Base64Url

  /** A timestamp: the instant the platform's date parser reads from it, if any, and whether
      it is written as a UTC instant, which the certificate rules insist on. */
  datatype Stamp = Stamp(instant: Option<int>, utc: bool)

  /** `named` says that the identifiers are not blank. */
  datatype Certificate = Certificate(
    named: bool,
    agentId: string,
    agentPublicKey: string,
    scopes: seq<string>,
    validFrom: Stamp,
    validUntil: Stamp
  )

  /** A delegation as stored: when it was itself revoked, and when its signer's key was. */
  datatype Stored = Stored(certificate: Certificate, revokedAt: Option<Stamp>, signerKeyRevokedAt: Option<Stamp>)

  const SCOPES := ["formalize", "prove", "review"]

  /** Reading a stamp strictly; `None` is the error. */
  function UtcInstant(s: Stamp): Option<int> { if s.utc then s.instant else None }

  predicate UrlSafeChar(c: char) {
    'A' <= c <= 'Z' || 'a' <= c <= 'z' || '0' <= c <= '9' || c == '-' || c == '_'
  }

  /** Unpadded base64url of 32 bytes. */
  predicate IsRawKey(value: string) {
    && (forall i :: 0 <= i < |value| ==> UrlSafeChar(value[i]))
    && Base64UrlToBytes(value).Some?
    && |Base64UrlToBytes(value).value| == 32
  }

  predicate KnownScopes(scopes: seq<string>) {
    && scopes != []
    && (forall i :: 0 <= i < |scopes| ==> scopes[i] in SCOPES)
    && forall i, j :: 0 <= i < j < |scopes| ==> scopes[i] != scopes[j]
  }

  predicate WellFormed(c: Certificate) {
    && c.named
    && IsRawKey(c.agentPublicKey)
    && KnownScopes(c.scopes)
    && UtcInstant(c.validFrom).Some?
    && UtcInstant(c.validUntil).Some?
    && UtcInstant(c.validFrom).value < UtcInstant(c.validUntil).value
  }

  datatype Validity = Valid | Revoked | NotYetValid | Expired | Malformed

  /** An error on the way is `Malformed`. */
  function ValidityAt(c: Certificate, event: Stamp, revokedAt: Option<Stamp>): Validity {
    if !WellFormed(c) || UtcInstant(event).None? then Malformed
    else
      var now := UtcInstant(event).value;
      if revokedAt.Some? && UtcInstant(revokedAt.value).None? then Malformed
      else if revokedAt.Some? && now >= UtcInstant(revokedAt.value).value then Revoked
      else if now < UtcInstant(c.validFrom).value then NotYetValid
      else if now >= UtcInstant(c.validUntil).value then Expired
      else Valid
  }

  /** Comparing with an instant that could not be read is false. */
  predicate NoLater(left: Stamp, right: Stamp) {
    left.instant.Some? && right.instant.Some? && left.instant.value <= right.instant.value
  }

  function EarliestRevocation(left: Option<Stamp>, right: Option<Stamp>): Option<Stamp> {
    if left.None? then right
    else if right.None? then left
    else if NoLater(left.value, right.value) then left
    else right
  }

  predicate CurrentlyValid(d: Stored, event: Stamp) {
    ValidityAt(d.certificate, event, EarliestRevocation(d.revokedAt, d.signerKeyRevokedAt)) == Valid
  }

  predicate Within(c: Certificate, event: Stamp) {
    && WellFormed(c)
    && UtcInstant(event).Some?
    && UtcInstant(c.validFrom).value <= UtcInstant(event).value < UtcInstant(c.validUntil).value
  }

  /** The revocation can be read and lies after the event. */
  predicate StillAhead(revocation: Stamp, event: Stamp) {
    && UtcInstant(revocation).Some?
    && UtcInstant(event).Some?
    && UtcInstant(event).value < UtcInstant(revocation).value
  }

  predicate NotReached(revocation: Option<Stamp>, event: Stamp) {
    revocation.Some? && revocation.value.instant.Some? && UtcInstant(event).Some? ==>
      UtcInstant(event).value < revocation.value.instant.value
  }

  /** A valid delegation is within its window, and no revocation that can be read has been
      reached, whichever of the two it is. */
  lemma {:induction false} ValidMeansUnrevoked(d: Stored, event: Stamp)
    requires CurrentlyValid(d, event)
    ensures Within(d.certificate, event)
    ensures NotReached(d.revokedAt, event) && NotReached(d.signerKeyRevokedAt, event)
  {
  }

  /** A revocation that is there but cannot be read strictly. */
  predicate Unreadable(revocation: Option<Stamp>) {
    revocation.Some? && UtcInstant(revocation.value).None?
  }

  predicate Ahead(revocation: Option<Stamp>, event: Stamp) {
    revocation.Some? && StillAhead(revocation.value, event)
  }

  /** An unreadable revocation of its own is passed over when the signer's key has one that is
      still ahead, unless the date parser reads the delegation's own and puts it no later. */
  predicate OwnPassedOver(d: Stored, event: Stamp) {
    Unreadable(d.revokedAt) && Ahead(d.signerKeyRevokedAt, event)
    && !NoLater(d.revokedAt.value, d.signerKeyRevokedAt.value)
  }

  /** An unreadable revocation of its signer's key is passed over when its own is still ahead
      and the date parser does read the key's, and puts it no earlier. */
  predicate KeysPassedOver(d: Stored, event: Stamp) {
    Unreadable(d.signerKeyRevokedAt) && Ahead(d.revokedAt, event)
    && NoLater(d.revokedAt.value, d.signerKeyRevokedAt.value)
  }

  /** Every revocation there is is still ahead: what the certificate rules ask for. */
  predicate NothingRevoked(d: Stored, event: Stamp) {
    && (d.revokedAt.Some? ==> Ahead(d.revokedAt, event))
    && (d.signerKeyRevokedAt.Some? ==> Ahead(d.signerKeyRevokedAt, event))
  }

  /** For all stored delegations: valid is within the window with every revocation there is
      still ahead, or with the one that cannot be read passed over for the other. */
  lemma {:induction false} ValidIff(d: Stored, event: Stamp)
    ensures CurrentlyValid(d, event) <==>
              && Within(d.certificate, event)
              && (NothingRevoked(d, event) || OwnPassedOver(d, event) || KeysPassedOver(d, event))
  {
  }

  /** So an unreadable revocation blocks, except where one of the two is passed over. */
  lemma {:induction false} UnreadableRevocation(d: Stored, event: Stamp)
    requires Unreadable(d.revokedAt) || Unreadable(d.signerKeyRevokedAt)
    ensures CurrentlyValid(d, event) <==>
              Within(d.certificate, event) && (OwnPassedOver(d, event) || KeysPassedOver(d, event))
  {
    ValidIff(d, event);
  }

  // ---- Field by field ----

  function UrlDigit(c: char): Digit
    requires UrlSafeChar(c)
  {
    if c <= '9' then (if c == '-' then 62 else c as int + 4)
    else if c <= 'Z' then c as int - 65
    else if c == '_' then 63
    else c as int - 71
  }

  lemma {:induction false} UrlDigitPrints(c: char)
    requires UrlSafeChar(c)
    ensures UrlChar(UrlDigit(c)) == c
  {
  }

  lemma {:induction false} DecodedLength(ds: seq<Digit>)
    requires |ds| % 4 != 1
    ensures |DecodeDigits(ds)| == |ds| * 3 / 4
    decreases |ds|
  {
    if |ds| >= 4 {
      FourLess(|ds|);
      DecodedLength(ds[4..]);
    }
  }

  /** Letters, digits, hyphens and underscores of ASCII, by their codes. */
  predicate UrlSafeText(value: string) {
    forall i | 0 <= i < |value| ::
      var n := value[i] as int;
      65 <= n <= 90 || 97 <= n <= 122 || 48 <= n <= 57 || n == 45 || n == 95
  }

  /** A key's text is 43 such characters. */
  lemma {:induction false} RawKeyIs43Characters(value: string)
    ensures IsRawKey(value) <==> |value| == 43 && UrlSafeText(value)
  {
    assert UrlSafeText(value) <==> forall i :: 0 <= i < |value| ==> UrlSafeChar(value[i]);
    if UrlSafeText(value) {
      var ds := seq(|value|, i requires 0 <= i < |value| => UrlDigit(value[i]));
      forall i | 0 <= i < |value|
        ensures UrlChars(ds)[i] == value[i]
      {
        UrlDigitPrints(value[i]);
      }
      assert UrlChars(ds) == value;
      ParsesDigits(ds);
      if |ds| % 4 != 1 {
        DecodedLength(ds);
      }
    }
  }

  /** A stamp that can be read strictly. */
  predicate Readable(s: Stamp) { s.utc && s.instant != None }

  /** The certificate's own fields: a window, a key, and each scope from the list of three and
      at most once. */
  predicate Sound(c: Certificate) {
    && c.named
    && |c.agentPublicKey| == 43 && UrlSafeText(c.agentPublicKey)
    && Readable(c.validFrom) && Readable(c.validUntil)
    && 1 <= |c.scopes|
    && (forall scope | scope in c.scopes :: scope in ["formalize", "prove", "review"])
    && (forall i, j | 0 <= i < |c.scopes| && 0 <= j < |c.scopes| && i != j :: c.scopes[i] != c.scopes[j])
  }

  /** At instant `now` neither revocation has been reached, or the one that cannot be read
      strictly is passed over: the delegation's own for its key's, unless the looser parser
      reads it and puts it no later; or the key's for its own, if that parser reads it and
      puts it no earlier. */
  predicate Unrevoked(own: Option<Stamp>, key: Option<Stamp>, now: int) {
    match (own, key)
    case (None, None) => true
    case (Some(r), None) => Readable(r) && now < r.instant.value
    case (None, Some(k)) => Readable(k) && now < k.instant.value
    case (Some(r), Some(k)) =>
      || (Readable(r) && Readable(k) && now < r.instant.value && now < k.instant.value)
      || (!Readable(r) && Readable(k) && now < k.instant.value
          && (r.instant == None || k.instant.value < r.instant.value))
      || (Readable(r) && !Readable(k) && now < r.instant.value
          && k.instant != None && r.instant.value <= k.instant.value)
  }

  /** Validity in the fields alone: a sound certificate, an event that can be read and lies in
      the window, its end excluded, and nothing revoked by then. */
  lemma {:induction false} ValidFieldByField(d: Stored, event: Stamp)
    ensures CurrentlyValid(d, event)
       <==> && Sound(d.certificate)
            && Readable(event)
            && var now := event.instant.value;
            && d.certificate.validFrom.instant.value <= now < d.certificate.validUntil.instant.value
            && Unrevoked(d.revokedAt, d.signerKeyRevokedAt, now)
  {
    SoundIsWellFormed(d.certificate);
    ValidIff(d, event);
  }

  lemma {:induction false} SoundIsWellFormed(c: Certificate)
    ensures WellFormed(c) ==> Sound(c)
    ensures Sound(c) && c.validFrom.instant.value < c.validUntil.instant.value ==> WellFormed(c)
  {
    RawKeyIs43Characters(c.agentPublicKey);
    ScopesMean(c.scopes);
  }

  lemma {:induction false} ScopesMean(scopes: seq<string>)
    ensures KnownScopes(scopes)
       <==> && 1 <= |scopes|
            && (forall scope | scope in scopes :: scope in ["formalize", "prove", "review"])
            && (forall i, j | 0 <= i < |scopes| && 0 <= j < |scopes| && i != j :: scopes[i] != scopes[j])
  {
    assert SCOPES == ["formalize", "prove", "review"];
  }

  // ---- Three delegations ----

  function At(instant: int): Stamp { Stamp(Some(instant), true) }

  lemma {:induction false} PrintedKeyIsRaw(key: seq<Byte>)
    requires |key| == 32
    ensures IsRawKey(Encode(key))
  {
    RoundTrip(key);
  }

  lemma {:induction false} PassedOverFor(c: Certificate)
    requires WellFormed(c) && c.validFrom == At(0) && c.validUntil == At(100)
    ensures
      var noDate, day := Stamp(None, false), Stamp(Some(90), false);
      && CurrentlyValid(Stored(c, Some(noDate), Some(At(90))), At(50))
      && !CurrentlyValid(Stored(c, Some(At(90)), Some(noDate)), At(50))
      && CurrentlyValid(Stored(c, Some(At(80)), Some(day)), At(50))
  {
    var noDate, day := Stamp(None, false), Stamp(Some(90), false);
    ValidIff(Stored(c, Some(noDate), Some(At(90))), At(50));
    ValidIff(Stored(c, Some(At(90)), Some(noDate)), At(50));
    ValidIff(Stored(c, Some(At(80)), Some(day)), At(50));
  }

  /** A certificate valid from 0 to 100, seen at 50. Its own revocation is no date at all, and
      its signer's key is revoked at 90: it is valid. With the two the other way round it is
      not. And with its own revocation at 80 and its signer's key revoked at 90, written as a
      day and so no UTC instant, it is valid too. */
  lemma {:induction false} PassedOver(key: seq<Byte>)
    requires |key| == 32
    ensures
      var c := Certificate(true, "agent", Encode(key), ["prove"], At(0), At(100));
      var noDate, day := Stamp(None, false), Stamp(Some(90), false);
      && CurrentlyValid(Stored(c, Some(noDate), Some(At(90))), At(50))
      && !CurrentlyValid(Stored(c, Some(At(90)), Some(noDate)), At(50))
      && CurrentlyValid(Stored(c, Some(At(80)), Some(day)), At(50))
  {
    PrintedKeyIsRaw(key);
    PassedOverFor(Certificate(true, "agent", Encode(key), ["prove"], At(0), At(100)));
  }
}
