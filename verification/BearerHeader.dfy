/**
 * The authorization header, written by the client (block_engine/src/block_engine.rs) and read
 * by the interceptor (relayer/src/auth_interceptor.rs), and the claims a token carries in
 * serialised form.
 */
module BearerHeader {
  import opened Prelude
  import opened AuthTypes

  const BEARER: string := "Bearer "

  /** What the client inserts under "authorization" (section 2.1 of RFC 6750). */
  function Written(token: string): string { BEARER + token }

  predicate OccursAt(s: string, sep: string, i: nat) {
    i + |sep| <= |s| && s[i..i + |sep|] == sep
  }

  predicate Contains(s: string, sep: string) {
    exists i :: 0 <= i <= |s| && OccursAt(s, sep, i)
  }

  /** `str::split`: cut at each occurrence of the separator, from the left, without overlap. */
  function Split(s: string, sep: string): (pieces: seq<string>)
    requires sep != ""
    ensures pieces != []
    decreases |s|
  {
    SplitFrom(s, sep, 0)
  }

  /** The same, when no occurrence starts before `i`. */
  function SplitFrom(s: string, sep: string, i: nat): (pieces: seq<string>)
    requires sep != "" && i <= |s|
    ensures pieces != []
    decreases |s|, |s| - i
  {
    if i + |sep| > |s| then [s]
    else if OccursAt(s, sep, i) then [s[..i]] + SplitFrom(s[i + |sep|..], sep, 0)
    else SplitFrom(s, sep, i + 1)
  }

  function Join(pieces: seq<string>, sep: string): string {
    if pieces == [] then ""
    else if |pieces| == 1 then pieces[0]
    else pieces[0] + sep + Join(pieces[1..], sep)
  }

  /** Joining what was split gives the text back: the cuts remove separators and nothing else. */
  lemma {:induction false} JoinSplitFrom(s: string, sep: string, i: nat)
    requires sep != "" && i <= |s|
    ensures Join(SplitFrom(s, sep, i), sep) == s
    decreases |s|, |s| - i
  {
    if i + |sep| <= |s| {
      if OccursAt(s, sep, i) {
        var rest := SplitFrom(s[i + |sep|..], sep, 0);
        JoinSplitFrom(s[i + |sep|..], sep, 0);
        assert ([s[..i]] + rest)[1..] == rest;
        assert s == s[..i] + s[i..i + |sep|] + s[i + |sep|..];
      } else {
        JoinSplitFrom(s, sep, i + 1);
      }
    }
  }

  /** One piece means no separator, and then the piece is the text. */
  lemma {:induction false} OnePieceIffNoSeparator(s: string, sep: string, i: nat)
    requires sep != "" && i <= |s|
    requires forall j :: 0 <= j < i ==> !OccursAt(s, sep, j)
    ensures |SplitFrom(s, sep, i)| == 1 <==> !Contains(s, sep)
    ensures |SplitFrom(s, sep, i)| == 1 ==> SplitFrom(s, sep, i) == [s]
    decreases |s| - i
  {
    if i + |sep| <= |s| && !OccursAt(s, sep, i) {
      OnePieceIffNoSeparator(s, sep, i + 1);
    }
  }

  datatype Header = Missing | NotText | Value(text: string)

  /**
   * `jwt_from_header`, up to the check of the token it finds: `verify` answers the claims
   * of a token this service signed.
   */
  function JwtFromHeader(header: Header, verify: string -> Option<Claims>): Result<Claims, Status> {
    match header
    case Missing => Err(PermissionDenied)
    case NotText => Err(InvalidArgument)
    case Value(text) =>
      if !(BEARER <= text) then Err(PermissionDenied)
      else
        var split := Split(text, BEARER);
        if |split| != 2 then Err(PermissionDenied)
        else if verify(split[1]).None? then Err(PermissionDenied)
        else Ok(verify(split[1]).value)
  }

  /** The token a header text is understood to carry. */
  function Carried(text: string): Option<string> {
    if BEARER <= text && |Split(text, BEARER)| == 2 then Some(Split(text, BEARER)[1]) else None
  }

  lemma SplitWritten(token: string)
    ensures Split(Written(token), BEARER) == [""] + Split(token, BEARER)
  {
    var text := Written(token);
    assert OccursAt(text, BEARER, 0);
    assert text[..0] == "" && text[|BEARER|..] == token;
  }

  /** The round trip: the token the client wrote is read back exactly when it does not contain "Bearer " itself. */
  lemma ReadsBackIff(token: string)
    ensures Carried(Written(token)) == Some(token) <==> !Contains(token, BEARER)
    ensures Contains(token, BEARER) ==> Carried(Written(token)) == None
  {
    SplitWritten(token);
    OnePieceIffNoSeparator(token, BEARER, 0);
    assert BEARER <= Written(token);
  }

  /** And nothing else is ever read: whatever header carries a token is the one the client would have written for it. */
  lemma CarriedIffWritten(text: string, token: string)
    ensures Carried(text) == Some(token) <==> text == Written(token) && !Contains(token, BEARER)
  {
    ReadsBackIff(token);
    if Carried(text) == Some(token) {
      JoinSplitFrom(text, BEARER, 0);
      var rest := text[|BEARER|..];
      assert text == Written(rest);
      SplitWritten(rest);
      OnePieceIffNoSeparator(rest, BEARER, 0);
    }
  }

  /**
   * The interceptor lets a request through exactly when its header is "Bearer " and a token that
   * verifies; a header that is no text is an invalid argument, and everything else is denied.
   */
  lemma InterceptedIff(header: Header, verify: string -> Option<Claims>, claims: Claims)
    ensures JwtFromHeader(header, verify) == Ok(claims) <==>
            exists token :: header == Value("Bearer " + token) && !Contains(token, "Bearer ")
                            && verify(token) == Some(claims)
    ensures JwtFromHeader(header, verify) == Err(InvalidArgument) <==> header.NotText?
    ensures JwtFromHeader(header, verify).Err? ==>
              JwtFromHeader(header, verify).error in {InvalidArgument, PermissionDenied}
  {
    if header.Value? {
      forall token
        ensures Carried(header.text) == Some(token) <==> header.text == Written(token) && !Contains(token, BEARER)
      {
        CarriedIffWritten(header.text, token);
      }
      if JwtFromHeader(header, verify) == Ok(claims) {
        assert Carried(header.text) == Some(Split(header.text, BEARER)[1]);
      }
    }
  }

  // ---------------------------------------------------------------- claims

  /** Claims in serialised form: printed address and key, expiry in whole seconds. */
  datatype DeSerClaims = DeSerClaims(ip: string, pubkey: string, expiresAtUnixTs: nat)

  /** Printing and parsing of addresses and keys; the source unwraps the parse results. */
  datatype Codec = Codec(
    printIp: Ip -> string, parseIp: string -> Option<Ip>,
    printKey: Pubkey -> string, parseKey: string -> Option<Pubkey>)
  {
    ghost predicate Faithful() {
      && (forall ip: Ip :: parseIp(printIp(ip)) == Some(ip))
      && (forall key: Pubkey :: parseKey(printKey(key)) == Some(key))
    }
  }

  function Serialise(c: Claims, codec: Codec): DeSerClaims {
    DeSerClaims(codec.printIp(c.ip), codec.printKey(c.pubkey), c.expiresAt / NANOS_PER_SEC)
  }

  /** `From<&DeSerClaims>`: `None` where the source would panic on an unwrap. */
  function Deserialise(d: DeSerClaims, codec: Codec): Option<Claims> {
    var ip, key := codec.parseIp(d.ip), codec.parseKey(d.pubkey);
    if ip.Some? && key.Some? then Some(Claims(ip.value, key.value, d.expiresAtUnixTs * NANOS_PER_SEC)) else None
  }

  /**
   * Serialising and back keeps address and key and only cuts the expiry to whole seconds:
   * the very expiry reported to the client, and so also the expiry of the issued token.
   * A token read back never outlives its claims and falls short of them by less than a second.
   */
  lemma ClaimsRoundTrip(c: Claims, codec: Codec)
    requires codec.Faithful()
    ensures Deserialise(Serialise(c, codec), codec) == Some(c.(expiresAt := WholeSeconds(c.expiresAt)))
    ensures Issue(c).claims == Deserialise(Serialise(c, codec), codec).value
    ensures Serialise(c, codec).ip == codec.printIp(c.ip) && Serialise(c, codec).pubkey == codec.printKey(c.pubkey)
    ensures var seconds := Serialise(c, codec).expiresAtUnixTs;
            seconds * 1_000_000_000 <= c.expiresAt < (seconds + 1) * 1_000_000_000
            && Issue(c).claims.expiresAt == seconds * 1_000_000_000
    ensures forall now: Time :: c.expiresAt <= now ==> IsExpired(Issue(c).claims.expiresAt, now)
    ensures Deserialise(Serialise(c.(expiresAt := WholeSeconds(c.expiresAt)), codec), codec)
            == Deserialise(Serialise(c, codec), codec)
  {
    assert codec.parseIp(codec.printIp(c.ip)) == Some(c.ip);
    assert codec.parseKey(codec.printKey(c.pubkey)) == Some(c.pubkey);
    assert c.expiresAt == c.expiresAt / NANOS_PER_SEC * NANOS_PER_SEC + c.expiresAt % NANOS_PER_SEC;
  }
}
