/** The JSON Web Token library (PyJWT) as the core uses it: `jwt.encode` and `jwt.decode`.
    Signing and signature checking are foreign code, so they are a parameter, a `Signer`,
    whose one law is that a signature made with a key and algorithm is accepted with the
    same key and algorithm. What decoding adds on top is the `exp` claim of section 4.1.4
    of RFC 7519: a token must not be accepted on or after its expiration time. */
module Jwt {
  import opened Wrappers
  import opened Json
  import opened Errors

  /** `sign(key, alg, claims)` is the compact token; `verify(key, alg, token)` is the
      payload when the signature checks, `None` when the token is malformed or forged. */
  datatype Signer = Signer(
    sign: (string, string, Claims) -> string,
    verify: (string, string, string) -> Option<Claims>)

  /** Verification undoes signing under the same key and algorithm. */
  ghost predicate Lawful(s: Signer)
  {
    forall key, alg, c :: s.verify(key, alg, s.sign(key, alg, c)) == Some(c)
  }

  /** `jwt.encode(claims, key, algorithm=alg)`. */
  function Encode(s: Signer, key: string, alg: string, c: Claims): string
  {
    s.sign(key, alg, c)
  }

  /** The instant a claim set expires, when it carries an integer `exp`. */
  predicate ExpiresAt(c: Claims, e: int)
  {
    "exp" in c && c["exp"] == JInt(e)
  }

  /** The claim set carries an integer `exp` that is not after `now`. */
  predicate HasExpired(c: Claims, now: int)
  {
    "exp" in c && c["exp"].JInt? && c["exp"].i <= now
  }

  /** The claim set carries an `exp` that is not an integer NumericDate. */
  predicate BadExp(c: Claims)
  {
    "exp" in c && !c["exp"].JInt?
  }

  /** `jwt.decode(token, key, algorithms=[alg])` at clock reading `now`: the signature
      is checked first, then a present `exp` claim. Only an integer `exp` is accepted
      here; the library's conversion of other values with `int()` is simplified away. */
  function Decode(s: Signer, key: string, alg: string, token: string, now: int): (r: Result<Claims, Exception>)
    ensures r.Err? ==> r.error == ExpiredSignatureError || r.error == InvalidTokenError
    ensures r.Ok? ==> s.verify(key, alg, token) == Some(r.value)
    ensures r.Ok? <==> s.verify(key, alg, token).Some? && !HasExpired(s.verify(key, alg, token).value, now)
                       && !BadExp(s.verify(key, alg, token).value)
    ensures r == Err(ExpiredSignatureError) <==>
              s.verify(key, alg, token).Some? && HasExpired(s.verify(key, alg, token).value, now)
  {
    match s.verify(key, alg, token)
    case None => Err(InvalidTokenError)
    case Some(c) =>
      if "exp" !in c then Ok(c)
      else match c["exp"]
        case JInt(e) => if e <= now then Err(ExpiredSignatureError) else Ok(c)
        case _ => Err(InvalidTokenError)
  }

  /** Decoding a freshly signed token gives back its claims while it has not expired. */
  lemma RoundTrip(s: Signer, key: string, alg: string, c: Claims, e: int, now: int)
    requires Lawful(s)
    requires ExpiresAt(c, e) && now < e
    ensures Decode(s, key, alg, Encode(s, key, alg, c), now) == Ok(c)
  {
    assert s.verify(key, alg, s.sign(key, alg, c)) == Some(c);
  }

  /** The same token decoded on or after its expiry is reported expired, not invalid. */
  lemma ExpiredAfter(s: Signer, key: string, alg: string, c: Claims, e: int, now: int)
    requires Lawful(s)
    requires ExpiresAt(c, e) && e <= now
    ensures Decode(s, key, alg, Encode(s, key, alg, c), now) == Err(ExpiredSignatureError)
  {
    assert s.verify(key, alg, s.sign(key, alg, c)) == Some(c);
  }

  /** A claim set without `exp` never expires: only its signature is checked. */
  lemma RoundTripNoExp(s: Signer, key: string, alg: string, c: Claims, now: int)
    requires Lawful(s)
    requires "exp" !in c
    ensures Decode(s, key, alg, Encode(s, key, alg, c), now) == Ok(c)
  {
    assert s.verify(key, alg, s.sign(key, alg, c)) == Some(c);
  }

  /** Acceptance is closed towards the past: a token accepted at `later` was accepted,
      with the same claims, at every earlier instant; and one that has expired stays expired. */
  lemma DecodeMonotone(s: Signer, key: string, alg: string, token: string, earlier: int, later: int)
    requires earlier <= later
    ensures Decode(s, key, alg, token, later).Ok? ==>
              Decode(s, key, alg, token, earlier) == Decode(s, key, alg, token, later)
    ensures Decode(s, key, alg, token, earlier) == Err(ExpiredSignatureError) ==>
              Decode(s, key, alg, token, later) == Err(ExpiredSignatureError)
    ensures Decode(s, key, alg, token, earlier) == Err(InvalidTokenError) <==>
              Decode(s, key, alg, token, later) == Err(InvalidTokenError)
  {
  }
}
