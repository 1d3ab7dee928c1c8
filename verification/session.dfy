/**
 * The browser session: the stored access token, the identity read from the
 * token's payload, and the login / logout transitions.
 *
 * The token is a JWS Compact Serialization (section 7.1 of RFC 7515): the
 * payload is its second dot-separated segment, base64url-encoded without
 * padding (section 5 of RFC 4648); its `sub` and `role` claims (section 4 of
 * RFC 7519) name the user. Base64 decoding (`atob`) and `JSON.parse` are passed
 * in as partial functions (None where the browser throws).
 */
module Session {
  import opened Common

  /** What `JSON.parse` can produce, as far as reading `.sub` and `.role` is concerned. */
  datatype Json =
    | JsonNull                                             // reading a property throws
    | JsonObject(sub: Option<string>, role: Option<string>)  // None: property absent (undefined)
    | JsonOther                                            // number, string, boolean, array: properties undefined

  /** The decoded user: `{username: payload.sub, role: payload.role}`. */
  datatype Identity = Identity(username: Option<string>, role: Option<string>)

  /** Position of the first '.' in `s`. */
  function DotIndex(s: string): (r: Option<nat>)
    ensures r.Some? ==> r.value < |s| && s[r.value] == '.' && '.' !in s[..r.value]
    ensures r.None? ==> '.' !in s
  {
    if s == [] then None
    else if s[0] == '.' then Some(0)
    else match DotIndex(s[1..])
      case None => None
      case Some(k) =>
        assert s[..k + 1] == [s[0]] + s[1..][..k];
        Some(k + 1)
  }

  /** `s.split(".")[0]`: the part of `s` before its first '.', all of `s` when it has none. */
  function FirstSegment(s: string): (r: string)
    ensures '.' !in r
    ensures |r| <= |s| && r == s[..|r|]
    ensures |r| == |s| || s[|r|] == '.'
  {
    match DotIndex(s)
    case None => s
    case Some(k) => s[..k]
  }

  /** `s.split(".")[1]`: the segment between the first and second '.', undefined without a '.'. */
  function SecondSegment(s: string): (r: Option<string>)
    ensures r.None? <==> '.' !in s
    ensures r.Some? ==> '.' !in r.value
    ensures r.Some? ==> exists k :: 0 <= k < |s| && s[k] == '.' && '.' !in s[..k] && r.value == FirstSegment(s[k + 1..])
  {
    match DotIndex(s)
    case None => None
    case Some(k) => Some(FirstSegment(s[k + 1..]))
  }

  /** Number of '=' `padEnd` appends: (4 - |s| mod 4) mod 4. */
  function PadCount(n: nat): (k: nat)
    ensures k <= 3
    ensures (n + k) % 4 == 0
  {
    (4 - n % 4) % 4
  }

  function Equals(k: nat): (r: string)
    ensures |r| == k && forall i :: 0 <= i < k ==> r[i] == '='
  {
    if k == 0 then [] else Equals(k - 1) + ['=']
  }

  /** `s.padEnd(...)`: `s` followed by at most three '=', up to a length divisible by four. */
  function Padded(s: string): (r: string)
    ensures |r| % 4 == 0
    ensures |s| <= |r| <= |s| + 3
    ensures r[..|s|] == s
    ensures forall i :: |s| <= i < |r| ==> r[i] == '='
  {
    s + Equals(PadCount(|s|))
  }

  /** Padding never pads a string whose length is already a multiple of four. */
  lemma PaddedIsIdentityOnFullBlocks(s: string)
    requires |s| % 4 == 0
    ensures Padded(s) == s
  {
  }

  /** The smallest padding: any shorter extension has a length that is not a multiple of four. */
  lemma PaddedIsShortest(s: string, k: nat)
    requires k < |Padded(s)| - |s|
    ensures (|s| + k) % 4 != 0
  {
  }

  function FromBase64UrlChar(c: char): char {
    if c == '-' then '+' else if c == '_' then '/' else c
  }

  /** `.replace(/-/g, "+").replace(/_/g, "/")`: the base64url alphabet mapped onto base64's. */
  function FromBase64Url(s: string): (r: string)
    ensures |r| == |s|
    ensures forall i :: 0 <= i < |s| ==>
              r[i] == (if s[i] == '-' then '+' else if s[i] == '_' then '/' else s[i])
    ensures '-' !in r && '_' !in r
  {
    if s == [] then [] else [FromBase64UrlChar(s[0])] + FromBase64Url(s[1..])
  }

  /**
   * `decodeToken`: null for a missing or empty token; null whenever a step
   * throws (no payload segment, undecodable base64, unparsable JSON, a `null`
   * payload); otherwise the payload's `sub` and `role`.
   */
  function DecodeToken(token: Option<string>, atob: string -> Option<string>, parse: string -> Option<Json>)
    : (r: Option<Identity>)
    ensures (token.None? || token == Some("")) ==> r.None?
    ensures (token.Some? && SecondSegment(token.value).None?) ==> r.None?
    ensures r.Some? ==>
              && token.Some? && token.value != ""
              && var seg := SecondSegment(token.value);
              && seg.Some?
              && var json := atob(FromBase64Url(Padded(seg.value)));
              && json.Some?
              && var payload := parse(json.value);
              && payload.Some? && payload.value != JsonNull
              && r.value == (if payload.value.JsonObject? then Identity(payload.value.sub, payload.value.role)
                             else Identity(None, None))
  {
    match token
    case None => None
    case Some(t) =>
      if t == "" then None
      else match SecondSegment(t)
        case None => None
        case Some(seg) =>
          match atob(FromBase64Url(Padded(seg)))
          case None => None
          case Some(json) =>
            match parse(json)
            case None => None
            case Some(JsonNull) => None
            case Some(JsonObject(sub, role)) => Some(Identity(sub, role))
            case Some(JsonOther) => Some(Identity(None, None))
  }

  /** The payload segment of a token is the text between its first two dots. */
  lemma SecondSegmentOfToken(header: string, payload: string, signature: string)
    requires '.' !in header && '.' !in payload
    ensures SecondSegment(header + "." + payload + "." + signature) == Some(payload)
  {
    var t := header + "." + payload + "." + signature;
    assert DotIndex(t) == Some(|header|) by {
      assert t[|header|] == '.';
      assert t[..|header|] == header;
      DotIndexIsFirstDot(t, |header|);
    }
    var rest := t[|header| + 1..];
    assert FirstSegment(rest) == payload by {
      assert rest == payload + "." + signature;
      assert rest[|payload|] == '.';
      assert rest[..|payload|] == payload;
      DotIndexIsFirstDot(rest, |payload|);
    }
  }

  /** A well-formed token whose payload is an object decodes to exactly its claims. */
  lemma DecodeReadsClaims(header: string, payload: string, signature: string,
                          atob: string -> Option<string>, parse: string -> Option<Json>,
                          json: string, sub: Option<string>, role: Option<string>)
    requires '.' !in header && '.' !in payload
    requires atob(FromBase64Url(Padded(payload))) == Some(json)
    requires parse(json) == Some(JsonObject(sub, role))
    ensures DecodeToken(Some(header + "." + payload + "." + signature), atob, parse) == Some(Identity(sub, role))
  {
    SecondSegmentOfToken(header, payload, signature);
  }

  lemma {:induction false} DotIndexIsFirstDot(s: string, k: nat)
    requires k < |s| && s[k] == '.' && '.' !in s[..k]
    ensures DotIndex(s) == Some(k)
  {
    if k > 0 {
      assert s[0] in s[..k];
      assert s[1..][..k - 1] == s[1..k];
      assert forall c :: c in s[1..k] ==> c in s[..k];
      DotIndexIsFirstDot(s[1..], k - 1);
    }
  }

  /**
   * The `AuthProvider` state: the token in local storage, the `token` state and
   * the decoded `user` state.
   */
  class AuthProvider {
    const atob: string -> Option<string>
    const parse: string -> Option<Json>
    var stored: Option<string>
    var token: Option<string>
    var user: Option<Identity>

    /** The effect on `token` has run: `user` is the decoding of the current token. */
    predicate Settled()
      reads this
    {
      user == DecodeToken(token, atob, parse)
    }

    /** `isAuth`: a non-empty token and a non-null user. */
    predicate IsAuth()
      reads this
    {
      token.Some? && token.value != "" && user.Some?
    }

    /** Mounting: both states start from local storage. */
    constructor (storage: Option<string>, atob: string -> Option<string>, parse: string -> Option<Json>)
      ensures this.atob == atob && this.parse == parse
      ensures stored == storage && token == storage
      ensures user == DecodeToken(storage, atob, parse)
      ensures Settled()
    {
      this.atob := atob;
      this.parse := parse;
      stored := storage;
      token := storage;
      user := DecodeToken(storage, atob, parse);
    }

    /** The effect run when `token` changes. */
    method TokenChanged()
      modifies this
      ensures stored == old(stored) && token == old(token)
      ensures user == DecodeToken(token, atob, parse)
      ensures Settled()
    {
      user := DecodeToken(token, atob, parse);
    }

    /** `login(t)`: stores the token; `user` follows once the effect has run. */
    method Login(accessToken: string)
      modifies this
      ensures stored == Some(accessToken) && token == Some(accessToken)
      ensures user == old(user)
    {
      stored := Some(accessToken);
      token := Some(accessToken);
    }

    /** `logout`: clears storage, token and user. */
    method Logout()
      modifies this
      ensures stored.None? && token.None? && user.None?
      ensures Settled() && !IsAuth()
    {
      stored := None;
      token := None;
      user := None;
    }
  }

  /** Once settled, the session is authenticated exactly when its token decodes. */
  lemma IsAuthIffDecodes(p: AuthProvider)
    requires p.Settled()
    ensures p.IsAuth() <==> DecodeToken(p.token, p.atob, p.parse).Some?
  {
  }

  /** Logging in and letting the effect run authenticates exactly when the new token decodes. */
  method LoginThenSettle(p: AuthProvider, accessToken: string)
    modifies p
    ensures p.stored == Some(accessToken) && p.token == Some(accessToken)
    ensures p.Settled()
    ensures p.IsAuth() <==> DecodeToken(Some(accessToken), p.atob, p.parse).Some?
  {
    p.Login(accessToken);
    p.TokenChanged();
  }
}
