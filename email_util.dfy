/**
 * emmaa/subscription/email_util.py: the HMAC signature carried by
 * unsubscribe links, its verification, and the link format. The HMAC digest
 * itself (RFC 2104 over SHA-256) is the parameter `hmac`, mapping a key and a
 * message to a hexadecimal digest; `quote_plus` is the parameter `quotePlus`.
 */
module EmailUtil {
  import opened Wrappers
  import opened Strings

  /** `not EMAIL_SIGNATURE_KEY` is false: the variable is set and not empty. */
  predicate KeySet(key: Option<string>)
  {
    key.Some? && key.value != ""
  }

  /** `__sign_str_concat`: the message that is signed, email and expiration joined by one space. */
  function SignStrConcat(email: string, expiration: string): string
  {
    Join([email, expiration], ' ')
  }

  /**
   * An expiration carries no space (it is the integral part of a timestamp),
   * so the signed message determines both the email and the expiration, even
   * when the email itself holds spaces.
   */
  lemma SignStrInjective(e1: string, x1: string, e2: string, x2: string)
    requires ' ' !in x1 && ' ' !in x2
    requires SignStrConcat(e1, x1) == SignStrConcat(e2, x2)
    ensures e1 == e2 && x1 == x2
  {
    var m1 := e1 + [' '] + x1;
    var m2 := e2 + [' '] + x2;
    JoinPair(e1, x1, ' ');
    JoinPair(e2, x2, ' ');
    assert m1[|e1|] == ' ' && m2[|e2|] == ' ';
    assert |e1| == |e2|;
    assert e1 == m1[..|e1|] && e2 == m2[..|e2|];
    assert x1 == m1[|e1| + 1..] && x2 == m2[|e2| + 1..];
  }

  /**
   * `generate_signature(email, expire_str)`: the hexadecimal HMAC of the
   * signed message under the configured key; `ValueError` without a key.
   */
  function GenerateSignature(key: Option<string>, email: string, expireStr: string, hmac: (string, string) -> string): (r: Result<string>)
    ensures r.Err? <==> !KeySet(key)
    ensures r.Err? ==> r.error == ValueError
  {
    if !KeySet(key) then Err(ValueError)
    else Ok(hmac(key.value, SignStrConcat(email, expireStr)))
  }

  /** Every character is ASCII. */
  predicate Ascii(s: string)
  {
    forall i :: 0 <= i < |s| ==> s[i] < 128 as char
  }

  /** `hmac.compare_digest` on two `str` values: `TypeError` unless both are ASCII. */
  function CompareDigest(a: string, b: string): (r: Result<bool>)
    ensures r.Ok? <==> Ascii(a) && Ascii(b)
    ensures r.Ok? ==> (r.value <==> a == b)
  {
    if Ascii(a) && Ascii(b) then Ok(a == b) else Err(TypeError)
  }

  /**
   * `verify_email_signature(signature, email, expiration)`: false without a
   * key, false when the lengths differ, false when the comparison raises, and
   * otherwise whether the signature equals the recomputed digest.
   */
  function VerifyEmailSignature(key: Option<string>, signature: string, email: string, expiration: string,
                                hmac: (string, string) -> string): (ok: bool)
    ensures ok ==> KeySet(key) && signature == hmac(key.value, SignStrConcat(email, expiration))
  {
    if !KeySet(key) then false
    else
      var actual := hmac(key.value, SignStrConcat(email, expiration));
      if |signature| != |actual| then false
      else
        var c := CompareDigest(actual, signature);
        if c.Err? then false else c.value
  }

  /** A signature made under the configured key verifies for the same email and expiration. */
  lemma SignatureRoundTrip(key: Option<string>, email: string, expiration: string, hmac: (string, string) -> string)
    requires KeySet(key)
    requires Ascii(hmac(key.value, SignStrConcat(email, expiration)))
    ensures GenerateSignature(key, email, expiration, hmac).Ok?
    ensures VerifyEmailSignature(key, GenerateSignature(key, email, expiration, hmac).value, email, expiration, hmac)
  {
  }

  /** Without a key, signing raises `ValueError` and nothing verifies. */
  lemma NoKeyNoSignature(key: Option<string>, signature: string, email: string, expiration: string,
                         hmac: (string, string) -> string)
    requires !KeySet(key)
    ensures GenerateSignature(key, email, expiration, hmac) == Err(ValueError)
    ensures !VerifyEmailSignature(key, signature, email, expiration, hmac)
  {
  }

  /** A signature whose length differs from the digest's is rejected before any comparison. */
  lemma LengthMismatchRejected(key: Option<string>, signature: string, email: string, expiration: string,
                               hmac: (string, string) -> string)
    requires KeySet(key)
    requires |signature| != |hmac(key.value, SignStrConcat(email, expiration))|
    ensures !VerifyEmailSignature(key, signature, email, expiration, hmac)
  {
  }

  /** A non-ASCII signature of the right length makes the comparison raise, which yields false. */
  lemma CompareExceptionRejected(key: Option<string>, signature: string, email: string, expiration: string,
                                 hmac: (string, string) -> string)
    requires KeySet(key)
    requires |signature| == |hmac(key.value, SignStrConcat(email, expiration))|
    requires !Ascii(signature)
    ensures CompareDigest(hmac(key.value, SignStrConcat(email, expiration)), signature).Err?
    ensures !VerifyEmailSignature(key, signature, email, expiration, hmac)
  {
  }

  // ---------------------------------------------------------------------
  // Unsubscribe links
  // ---------------------------------------------------------------------

  /**
   * `generate_unsubscribe_qs`: `urlencode` of the email, the expiration and
   * the signature, in that order. The expiration (seconds of the current time
   * plus `days`) is a parameter; the parameter names are plain ASCII words,
   * which `quote_plus` leaves as they are.
   */
  function GenerateUnsubscribeQs(email: string, expiration: string, key: Option<string>,
                                 hmac: (string, string) -> string, quotePlus: string -> string): (r: Result<string>)
    ensures r.Err? <==> !KeySet(key)
  {
    var signature := GenerateSignature(key, email, expiration, hmac);
    if signature.Err? then Err(signature.error)
    else
      Ok(Join([Param("email", quotePlus(email)), Param("expiration", quotePlus(expiration)),
               Param("signature", quotePlus(signature.value))], '&'))
  }

  const UnsubscribePath: string := "/query/unsubscribe?"

  /** `generate_unsubscribe_link`: `https://{domain}/query/unsubscribe?{qs}`. */
  function GenerateUnsubscribeLink(email: string, expiration: string, domain: string, key: Option<string>,
                                   hmac: (string, string) -> string, quotePlus: string -> string): (r: Result<string>)
    ensures r.Err? <==> !KeySet(key)
    ensures r.Err? ==> r.error == ValueError
  {
    var qs := GenerateUnsubscribeQs(email, expiration, key, hmac, quotePlus);
    if qs.Err? then Err(qs.error) else Ok("https://" + domain + UnsubscribePath + qs.value)
  }

  /**
   * With a key, the link is the unsubscribe URL of the domain followed by
   * exactly three `&`-separated parameters, `email`, `expiration` and
   * `signature` in that order, and the signature carried is the one that
   * verifies for this email and expiration (given that `quote_plus` escapes
   * every `&` and that the digest is ASCII).
   */
  lemma UnsubscribeLinkFormat(email: string, expiration: string, domain: string, key: Option<string>,
                              hmac: (string, string) -> string, quotePlus: string -> string)
    requires KeySet(key)
    requires '&' !in quotePlus(email) && '&' !in quotePlus(expiration)
    requires '&' !in quotePlus(hmac(key.value, SignStrConcat(email, expiration)))
    requires Ascii(hmac(key.value, SignStrConcat(email, expiration)))
    ensures GenerateUnsubscribeLink(email, expiration, domain, key, hmac, quotePlus).Ok?
    ensures
      var link := GenerateUnsubscribeLink(email, expiration, domain, key, hmac, quotePlus).value;
      var prefix := "https://" + domain + UnsubscribePath;
      var signature := hmac(key.value, SignStrConcat(email, expiration));
      && prefix <= link
      && Split(link[|prefix|..], '&')
         == [Param("email", quotePlus(email)), Param("expiration", quotePlus(expiration)),
             Param("signature", quotePlus(signature))]
      && VerifyEmailSignature(key, signature, email, expiration, hmac)
  {
    var signature := hmac(key.value, SignStrConcat(email, expiration));
    var parts := [Param("email", quotePlus(email)), Param("expiration", quotePlus(expiration)),
                  Param("signature", quotePlus(signature))];
    forall i | 0 <= i < |parts| ensures '&' !in parts[i] {
    }
    JoinSplit(parts, '&');
    var prefix := "https://" + domain + UnsubscribePath;
    var link := GenerateUnsubscribeLink(email, expiration, domain, key, hmac, quotePlus).value;
    assert link == prefix + Join(parts, '&');
    assert link[|prefix|..] == Join(parts, '&');
    SignatureRoundTrip(key, email, expiration, hmac);
  }
}
