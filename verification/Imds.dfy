/** The session token of the IMDS client. */
module Imds {
  import opened Prelude

  datatype Status = Body(body: string) | NotFound | Unauthorized | OtherStatus | Lost

  /** A reply to a token request: `None` is any failure. */
  type TokenReply = Option<string>

  /** A GET with its token and the number of token requests made before it. */
  datatype Get = Get(token: string, status: Status, puts: nat)

  datatype Attempt = Fetched(body: Option<string>) | Retry

  /** One of the token requests from `lo` up to `hi` was answered with this token. */
  ghost predicate IssuedBetween(issue: nat -> TokenReply, token: string, lo: nat, hi: nat) {
    exists n: nat :: lo <= n < hi && issue(n) == Some(token)
  }

  /** A token that was refused at one GET is in use at a later point only if it was issued again in
      between. */
  ghost predicate ReissuedSince(issue: nat -> TokenReply, gets: seq<Get>, token: string, puts: nat) {
    forall i :: 0 <= i < |gets| && gets[i].status.Unauthorized? && gets[i].token == token ==>
      IssuedBetween(issue, token, gets[i].puts, puts)
  }

  ghost predicate RefusedStayAway(issue: nat -> TokenReply, gets: seq<Get>) {
    forall j :: 0 <= j < |gets| ==> ReissuedSince(issue, gets[..j], gets[j].token, gets[j].puts)
  }

  /** No token comes after a GET in which the server refused it. */
  ghost predicate NeverAgain(gets: seq<Get>) {
    forall i, j :: 0 <= i < j < |gets| && gets[i].status.Unauthorized? ==> gets[j].token != gets[i].token
  }

  /** The server does not issue the same token twice. */
  ghost predicate FreshTokens(issue: nat -> TokenReply) {
    forall i: nat, j: nat :: i < j && issue(i).Some? && issue(j).Some? ==> issue(i) != issue(j)
  }

  /** Only issued tokens are used. */
  ghost predicate OnlyIssued(issue: nat -> TokenReply, gets: seq<Get>) {
    forall i :: 0 <= i < |gets| ==> IssuedBetween(issue, gets[i].token, 0, gets[i].puts)
  }

  /** So against a server that does not reissue tokens, a refused one is never sent again. */
  lemma {:induction false} FreshMeansNeverAgain(issue: nat -> TokenReply, gets: seq<Get>)
    requires RefusedStayAway(issue, gets) && OnlyIssued(issue, gets) && FreshTokens(issue)
    ensures NeverAgain(gets)
  {
    forall i, j | 0 <= i < j < |gets| && gets[i].status.Unauthorized?
      ensures gets[j].token != gets[i].token
    {
      assert ReissuedSince(issue, gets[..j], gets[j].token, gets[j].puts);
      assert gets[..j][i] == gets[i];
      assert IssuedBetween(issue, gets[i].token, 0, gets[i].puts);
    }
  }

  /** The client with everything it has asked for so far; the server answers however it likes. */
  class ImdsClient {
    var sessionToken: Option<string>
    var puts: nat
    var gets: seq<Get>
    const issue: nat -> TokenReply
    const answer: nat -> Status

    ghost predicate Valid()
      reads this
    {
      && OnlyIssued(issue, gets) && RefusedStayAway(issue, gets)
      && (forall i :: 0 <= i < |gets| ==> gets[i].puts <= puts)
      && (sessionToken.Some? ==>
            && IssuedBetween(issue, sessionToken.value, 0, puts)
            && ReissuedSince(issue, gets, sessionToken.value, puts))
    }

    constructor (issue: nat -> TokenReply, answer: nat -> Status)
      ensures Valid() && this.issue == issue && this.answer == answer && gets == [] && sessionToken == None
    {
      this.issue, this.answer := issue, answer;
      sessionToken, puts, gets := None, 0, [];
    }

    /** `write_token` with the retries of `fetch_token`; `patience` is how many requests fit into the
        timeout.  The token in hand is the first one issued in this call. */
    method WriteToken(patience: nat) returns (r: Option<string>)
      requires Valid() && sessionToken == None
      modifies this`sessionToken, this`puts
      ensures Valid()
      ensures r == sessionToken
      ensures old(puts) <= puts <= old(puts) + patience
      ensures if r.Some? then puts > old(puts) && issue(puts - 1) == r else puts == old(puts) + patience
      ensures forall n: nat :: old(puts) <= n < puts && (r.Some? ==> n < puts - 1) ==> issue(n).None?
    {
      var i := 0;
      while i < patience
        invariant Valid() && sessionToken == None && i <= patience && puts == old(puts) + i
        invariant forall n: nat :: old(puts) <= n < puts ==> issue(n).None?
      {
        var reply := issue(puts);
        puts := puts + 1;
        if reply.Some? {
          assert forall lo: nat :: lo < puts ==> IssuedBetween(issue, reply.value, lo, puts);
          sessionToken := reply;
          return reply;
        }
        i := i + 1;
      }
      r := None;
    }

    /** One attempt of `fetch_imds`. */
    method TryFetch(patience: nat) returns (r: Attempt)
      requires Valid()
      modifies this
      ensures Valid()
      ensures old(gets) <= gets && |gets| <= |old(gets)| + 1
      // Without a token nothing is asked for; otherwise the status decides.
      ensures gets == old(gets) ==> r == Retry && old(sessionToken) == None == sessionToken && puts == old(puts) + patience
      ensures gets != old(gets) ==>
        && gets[|old(gets)|].status == answer(|old(gets)|)
        && (old(sessionToken).Some? ==> gets[|old(gets)|].token == old(sessionToken).value && puts == old(puts))
        && r == (match gets[|old(gets)|].status
                 case Body(body) => Fetched(Some(body))
                 case NotFound => Fetched(None)
                 case _ => Retry)
        && sessionToken == if gets[|old(gets)|].status.Unauthorized? then None else Some(gets[|old(gets)|].token)
    {
      var token := sessionToken;
      if token.None? {
        token := WriteToken(patience);
        if token.None? { return Retry; }
      }
      var status := answer(|gets|);
      Sent(issue, gets, Get(token.value, status, puts));
      gets := gets + [Get(token.value, status, puts)];
      match status
      case Body(body) => r := Fetched(Some(body));
      case NotFound => r := Fetched(None);
      case Unauthorized =>
        sessionToken := None;
        r := Retry;
      case _ => r := Retry;
    }

    /** `fetch_imds`, with as many attempts as fit into the timeout.  Over all calls on one client, a token
        that drew a 401 is sent again only if the server issued it again after that. */
    method FetchImds(attempts: nat, patience: nat) returns (r: Option<Option<string>>)
      requires Valid()
      modifies this
      ensures Valid() && old(gets) <= gets
      ensures RefusedStayAway(issue, gets)
      ensures FreshTokens(issue) ==> NeverAgain(gets)
      ensures r.Some? ==>
        && gets != []
        && gets[|gets| - 1].status == if r.value.Some? then Body(r.value.value) else NotFound
      // It gives up only after all attempts, none of them answered.
      ensures |gets| <= |old(gets)| + attempts
      ensures r.None? ==> forall j :: |old(gets)| <= j < |gets| ==> !gets[j].status.Body? && !gets[j].status.NotFound?
      ensures attempts > 0 && old(sessionToken).Some? && answer(|old(gets)|).Body? ==> r == Some(Some(answer(|old(gets)|).body))
      ensures attempts > 0 && old(sessionToken).Some? && answer(|old(gets)|).NotFound? ==> r == Some(None)
    {
      var i := 0;
      r := None;
      while i < attempts && r.None?
        invariant Valid() && old(gets) <= gets && i <= attempts && |gets| <= |old(gets)| + i
        invariant i == 0 ==> gets == old(gets) && sessionToken == old(sessionToken) && r.None?
        invariant r.None? ==> forall j :: |old(gets)| <= j < |gets| ==> !gets[j].status.Body? && !gets[j].status.NotFound?
        invariant i > 0 && old(sessionToken).Some? && answer(|old(gets)|).Body? ==> r == Some(Some(answer(|old(gets)|).body))
        invariant i > 0 && old(sessionToken).Some? && answer(|old(gets)|).NotFound? ==> r == Some(None)
        invariant r.Some? ==>
          && gets != []
          && gets[|gets| - 1].status == if r.value.Some? then Body(r.value.value) else NotFound
      {
        var attempt := TryFetch(patience);
        if attempt.Fetched? { r := Some(attempt.body); }
        i := i + 1;
      }
      if FreshTokens(issue) { FreshMeansNeverAgain(issue, gets); }
    }
  }

  lemma {:induction false} Sent(issue: nat -> TokenReply, gets: seq<Get>, g: Get)
    requires RefusedStayAway(issue, gets) && ReissuedSince(issue, gets, g.token, g.puts)
    ensures RefusedStayAway(issue, gets + [g])
    ensures !g.status.Unauthorized? ==> ReissuedSince(issue, gets + [g], g.token, g.puts)
  {
    var all := gets + [g];
    forall j | 0 <= j < |all| ensures ReissuedSince(issue, all[..j], all[j].token, all[j].puts) {
      assert all[..j] == if j < |gets| then gets[..j] else gets;
    }
  }
}
