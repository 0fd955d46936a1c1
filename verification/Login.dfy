/** Login states: issued with a PKCE challenge, consumed by one callback. */
module Login {
  import opened Wrappers
  import opened Timestamp
  import opened Base64

  const WINDOW: int := 600 * SECOND

  datatype PendingAuth = PendingAuth(expiry: Instant, verifier: Bytes)

  // What goes out to the browser, and what is sent to the token endpoint.
  datatype AuthRequest = AuthRequest(state: Bytes, challenge: Bytes)
  datatype TokenRequest = TokenRequest(code: Bytes, verifier: Bytes)

  // The S256 challenge of sections 4.2 of RFC 7636, for a given hash.
  function Challenge(hash: Bytes -> Bytes, verifier: Bytes): Bytes {
    Encode(hash(verifier))
  }

  // The critical sections, in the order the mutex lets them in. `failed` is the provider's error
  // parameter; a callback's `at` is when it compares the expiry.
  datatype Visit =
    | Start(state: Bytes, verifier: Bytes, at: Instant)
    | Callback(failed: bool, state: Bytes, code: Bytes, at: Instant)

  // What a start sends to the browser.
  function Sent(hash: Bytes -> Bytes, v: Visit): AuthRequest
    requires v.Start?
  {
    AuthRequest(v.state, Challenge(hash, v.verifier))
  }

  predicate Consumes(v: Visit, state: Bytes) {
    v.Callback? && !v.failed && v.state == state && state != [] && v.code != []
  }

  function After(states: map<Bytes, PendingAuth>, v: Visit): map<Bytes, PendingAuth> {
    match v
    case Start(state, verifier, at) => states[state := PendingAuth(at + WINDOW, verifier)]
    case Callback(_, state, _, _) => if Consumes(v, state) then states - {state} else states
  }

  // The callback gets past the state check and sends this.
  function Answer(states: map<Bytes, PendingAuth>, v: Visit): Option<TokenRequest> {
    if v.Callback? && Consumes(v, v.state) && v.state in states && v.at <= states[v.state].expiry
    then Some(TokenRequest(v.code, states[v.state].verifier)) else None
  }

  class Manager {
    const hash: Bytes -> Bytes
    var states: map<Bytes, PendingAuth>

    constructor (hash: Bytes -> Bytes)
      ensures states == map[] && this.hash == hash
    {
      this.hash := hash;
      states := map[];
    }

    // `state` and `verifier` come from the random source, which may fail.
    method LoginURL(random: bool, state: Bytes, verifier: Bytes, now: Instant) returns (sent: Option<AuthRequest>)
      modifies this`states
      ensures states == if random then After(old(states), Start(state, verifier, now)) else old(states)
      ensures sent == if random then Some(Sent(hash, Start(state, verifier, now))) else None
      ensures random ==> sent.value.state == state && Decode(sent.value.challenge) == Some(hash(verifier))
    {
      hide Encode, Decode;
      if !random {
        return None;
      }
      DecodeOfEncode(hash(verifier));
      var challenge := Encode(hash(verifier));
      states := states[state := PendingAuth(now + WINDOW, verifier)];
      sent := Some(AuthRequest(state, challenge));
    }

    method HandleCallback(failed: bool, state: Bytes, code: Bytes, now: Instant) returns (sent: Option<TokenRequest>)
      modifies this`states
      ensures states == After(old(states), Callback(failed, state, code, now))
      ensures sent == Answer(old(states), Callback(failed, state, code, now))
    {
      if failed {
        return None;
      }
      if state == [] || code == [] {
        return None;
      }
      var known := state in states;
      var pending := if known then states[state] else PendingAuth(0, []);
      states := states - {state};
      if !known || now > pending.expiry {
        return None;
      }
      sent := Some(TokenRequest(code, pending.verifier));
    }
  }

  // ----- runs -----

  function Table(visits: seq<Visit>): map<Bytes, PendingAuth> {
    if visits == [] then map[] else After(Table(visits[..|visits| - 1]), visits[|visits| - 1])
  }

  function AnswerAt(visits: seq<Visit>, j: nat): Option<TokenRequest>
    requires j < |visits|
  {
    Answer(Table(visits[..j]), visits[j])
  }

  // No state is issued twice.
  predicate FreshStates(visits: seq<Visit>) {
    forall i, j :: 0 <= i < j < |visits| && visits[i].Start? && visits[j].Start? ==> visits[i].state != visits[j].state
  }

  // State `state` was issued at `i` and is still there after `n` visits.
  predicate Open(visits: seq<Visit>, i: nat, n: nat, state: Bytes)
    requires n <= |visits|
  {
    && i < n && visits[i].Start? && visits[i].state == state
    && forall k :: i < k < n ==> !Consumes(visits[k], state)
  }

  // The table holds exactly the issued states no callback has consumed since, with their own
  // verifier and expiry.
  lemma {:induction false} TableExact(visits: seq<Visit>, n: nat, state: Bytes)
    requires n <= |visits| && FreshStates(visits)
    ensures state in Table(visits[..n]) <==> exists i: nat :: Open(visits, i, n, state)
    ensures forall i: nat :: Open(visits, i, n, state) ==>
              state in Table(visits[..n]) && Table(visits[..n])[state] == PendingAuth(visits[i].at + 600 * SECOND, visits[i].verifier)
  {
    if n > 0 {
      var last := visits[n - 1];
      assert visits[..n][..n - 1] == visits[..n - 1];
      TableExact(visits, n - 1, state);
      forall i: nat | Open(visits, i, n, state) ensures i == n - 1 || Open(visits, i, n - 1, state) {}
      if last.Start? && last.state == state {
        assert Open(visits, n - 1, n, state);
      } else if state in Table(visits[..n]) {
        var i: nat :| Open(visits, i, n - 1, state);
        assert Open(visits, i, n, state);
      }
    }
  }

  // Exactly when a callback passes: its state was issued before, at most ten minutes before, and no
  // callback has consumed it in between. It then sends the verifier whose challenge went out.
  lemma CallbackPassesExactly(visits: seq<Visit>, j: nat)
    requires j < |visits| && FreshStates(visits) && visits[j].Callback?
    ensures var v := visits[j];
            && (AnswerAt(visits, j).Some? <==>
                  Consumes(v, v.state) && exists i: nat :: Open(visits, i, j, v.state) && v.at <= visits[i].at + 600 * SECOND)
            && (forall i: nat :: Open(visits, i, j, v.state) && AnswerAt(visits, j).Some? ==>
                  AnswerAt(visits, j) == Some(TokenRequest(v.code, visits[i].verifier)))
  {
    TableExact(visits, j, visits[j].state);
  }

  // Each state passes at most once.
  lemma StateIsOneShot(visits: seq<Visit>, j: nat, k: nat)
    requires j < k < |visits| && FreshStates(visits)
    requires AnswerAt(visits, j).Some? && AnswerAt(visits, k).Some?
    ensures visits[j].state != visits[k].state
  {
    CallbackPassesExactly(visits, j);
    CallbackPassesExactly(visits, k);
    var i: nat :| Open(visits, i, j, visits[j].state);
    var l: nat :| Open(visits, l, k, visits[k].state);
  }

  // The provider's check of section 4.6 of RFC 7636: the challenge that went out with the state of a passing
  // callback is the encoded hash of the verifier that callback sends.
  lemma VerifierMatchesChallenge(hash: Bytes -> Bytes, visits: seq<Visit>, j: nat) returns (i: nat)
    requires j < |visits| && FreshStates(visits) && AnswerAt(visits, j).Some?
    ensures i < j && visits[i].Start? && Sent(hash, visits[i]).state == visits[j].state
    ensures visits[j].at <= visits[i].at + 600 * SECOND
    ensures Decode(Sent(hash, visits[i]).challenge) == Some(hash(AnswerAt(visits, j).value.verifier))
    ensures AnswerAt(visits, j).value.verifier == visits[i].verifier && AnswerAt(visits, j).value.code == visits[j].code
  {
    hide Encode, Decode, Table;
    CallbackPassesExactly(visits, j);
    i :| Open(visits, i, j, visits[j].state);
    DecodeOfEncode(hash(visits[i].verifier));
  }
}
