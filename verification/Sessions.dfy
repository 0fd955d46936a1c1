/** The signed session cookie: base64url of (base64url of the payload, a dot, base64url of its tag). */
module Sessions {
  import opened Wrappers
  import opened Base64

  datatype Session = Session(username: string, groups: seq<string>, expiry: int)

  // JSON and HMAC, of which only the equations stated where they are used matter.
  datatype Codec = Codec(marshal: Session -> Bytes, unmarshal: Bytes -> Option<Session>, tag: Bytes -> Bytes)

  datatype Reading = Valid(session: Session) | NoSession | BadSession | BadEncoding | BadSignature | SessionExpired

  function CookieValue(k: Codec, session: Session): Bytes {
    var payload := k.marshal(session);
    Encode(Encode(payload) + [DOT] + Encode(k.tag(payload)))
  }

  // The parts before and after the first dot.
  function SplitAtDot(s: Bytes): Option<(Bytes, Bytes)> {
    if s == [] then None
    else if s[0] == DOT then Some(([], s[1..]))
    else
      var rest :- SplitAtDot(s[1..]);
      Some(([s[0]] + rest.0, rest.1))
  }

  // `now` is the Unix second.
  function FromRequest(k: Codec, cookie: Option<Bytes>, now: int): Reading {
    if cookie.None? || cookie.value == [] then NoSession
    else if Decode(cookie.value).None? then BadSession
    else
      var parts := SplitAtDot(Decode(cookie.value).value);
      if parts.None? then BadSession
      else
        var payload, sig := Decode(parts.value.0), Decode(parts.value.1);
        if payload.None? || sig.None? then BadEncoding
        else if k.tag(payload.value) != sig.value then BadSignature
        else
          var session := k.unmarshal(payload.value);
          if session.None? then BadSession
          else if now > session.value.expiry then SessionExpired
          else Valid(session.value)
  }

  lemma {:induction false} SplitOfJoined(a: Bytes, b: Bytes)
    requires DOT !in a
    ensures SplitAtDot(a + [DOT] + b) == Some((a, b))
  {
    var s := a + [DOT] + b;
    if a == [] {
      assert s[1..] == b;
    } else {
      assert s[0] == a[0] && s[1..] == a[1..] + [DOT] + b;
      SplitOfJoined(a[1..], b);
      assert a == [a[0]] + a[1..];
    }
  }

  lemma {:induction false} JoinedOfSplit(s: Bytes)
    requires SplitAtDot(s).Some?
    ensures var (a, b) := SplitAtDot(s).value; s == a + [DOT] + b && DOT !in a
  {
    if s[0] != DOT {
      JoinedOfSplit(s[1..]);
    }
  }

  // Cookie round trip: reading the cookie made for a session gives that session up to and
  // including its expiry second, and `expired` afterwards.
  lemma CookieRoundTrip(k: Codec, session: Session, now: int)
    requires k.unmarshal(k.marshal(session)) == Some(session)
    ensures FromRequest(k, Some(CookieValue(k, session)), now) == if now <= session.expiry then Valid(session) else SessionExpired
  {
    hide Encode, Decode, SplitAtDot;
    var payload := k.marshal(session);
    var inner := Encode(payload) + [DOT] + Encode(k.tag(payload));
    EncodeAlphabet(payload);
    SplitOfJoined(Encode(payload), Encode(k.tag(payload)));
    DecodeOfEncode(payload);
    DecodeOfEncode(k.tag(payload));
    DecodeOfEncode(inner);
    assert inner != [];
  }

  // A cookie is accepted only if it carries, around its first dot, an unexpired session and the
  // tag of exactly the bytes that session was read from.
  lemma AcceptedIsTagged(k: Codec, cookie: Option<Bytes>, now: int)
    requires FromRequest(k, cookie, now).Valid?
    ensures var session := FromRequest(k, cookie, now).session;
            && now <= session.expiry && cookie.Some?
            && exists a, b, payload :: Carries(cookie.value, a, b, payload, k.tag(payload)) && k.unmarshal(payload) == Some(session)
  {
    hide Decode, SplitAtDot;
    var raw := Decode(cookie.value).value;
    JoinedOfSplit(raw);
    var (a, b) := SplitAtDot(raw).value;
    assert Carries(cookie.value, a, b, Decode(a).value, k.tag(Decode(a).value));
  }

  predicate Carries(cookie: Bytes, a: Bytes, b: Bytes, payload: Bytes, sig: Bytes) {
    Decode(cookie) == Some(a + [DOT] + b) && DOT !in a && Decode(a) == Some(payload) && Decode(b) == Some(sig)
  }

  // The two parts around the first dot of what the cookie decodes to.
  predicate Splits(cookie: Bytes, a: Bytes, b: Bytes) {
    Decode(cookie) == Some(a + [DOT] + b) && DOT !in a
  }

  // The parts decode to a session's bytes and their tag.
  predicate Tagged(k: Codec, a: Bytes, b: Bytes, session: Option<Session>) {
    Decode(a).Some? && Decode(b) == Some(k.tag(Decode(a).value)) && k.unmarshal(Decode(a).value) == session
  }

  // What each reading says of the cookie; no two of them can be said of one.
  ghost predicate ReadTruly(k: Codec, cookie: Option<Bytes>, now: int, reading: Reading) {
    if cookie == None || cookie.value == [] then reading == NoSession
    else
      match reading
      case NoSession => false
      case BadSession =>
        || Decode(cookie.value) == None
        || DOT !in Decode(cookie.value).value
        || exists a, b :: Splits(cookie.value, a, b) && Tagged(k, a, b, None)
      case BadEncoding => exists a, b :: Splits(cookie.value, a, b) && (Decode(a) == None || Decode(b) == None)
      case BadSignature =>
        exists a, b :: Splits(cookie.value, a, b) && Decode(a).Some? && Decode(b).Some? && Decode(b).value != k.tag(Decode(a).value)
      case SessionExpired => exists a, b, session :: Splits(cookie.value, a, b) && Tagged(k, a, b, Some(session)) && now > session.expiry
      case Valid(session) => exists a, b :: Splits(cookie.value, a, b) && Tagged(k, a, b, Some(session)) && now <= session.expiry
  }

  // So a cookie is given a reading if and only if the reading is true of it.
  lemma ReadExactly(k: Codec, cookie: Option<Bytes>, now: int, reading: Reading)
    ensures ReadTruly(k, cookie, now, reading) <==> FromRequest(k, cookie, now) == reading
  {
    hide Decode, SplitAtDot;
    if cookie.Some? && cookie.value != [] && Decode(cookie.value).Some? {
      var raw := Decode(cookie.value).value;
      forall a, b | Splits(cookie.value, a, b) ensures SplitAtDot(raw) == Some((a, b)) {
        SplitOfJoined(a, b);
      }
      if SplitAtDot(raw).Some? {
        JoinedOfSplit(raw);
        var (a, b) := SplitAtDot(raw).value;
        assert Splits(cookie.value, a, b);
      } else {
        NoDot(raw);
      }
    }
  }

  lemma {:induction false} NoDot(s: Bytes)
    requires SplitAtDot(s) == None
    ensures DOT !in s
  {
    if s != [] {
      NoDot(s[1..]);
    }
  }
}
