/**
 * The pub ownership claims endpoint: `POST` files a pending claim for a pub
 * and hands back its verification token, `PATCH` verifies a claim by token
 * and moves it to "pending_verification". The database's answers that the
 * model cannot derive (a failing client, a failing query, a failing write),
 * the fresh token and the current time are parameters.
 */
module Claims {
  import opened Wrappers

  datatype Claim = Claim(id: string, pubId: string, email: string, status: string,
                         verificationToken: string, verifiedAt: Option<string>)

  datatype Body = ErrorBody(error: string) | MessageBody(message: string) | TokenBody(message: string, token: string)

  datatype Response = Response(status: int, body: Body)

  const SubmittedMessage := "Claim submitted. Check your email for verification instructions."
  const VerifiedMessage := "Email verified. Await admin approval."

  /** The rows whose verification token is `token`. */
  function WithToken(claims: seq<Claim>, token: string): (r: seq<nat>)
    ensures forall k :: 0 <= k < |r| ==> r[k] < |claims| && claims[r[k]].verificationToken == token
    ensures forall k :: 0 <= k < |claims| && claims[k].verificationToken == token ==> k in r
    decreases |claims|
  {
    if claims == [] then []
    else
      var n := |claims| - 1;
      WithToken(claims[..n], token) + (if claims[n].verificationToken == token then [n] else [])
  }

  /** The claims with every row of the given id verified at `now`. */
  function Verify(claims: seq<Claim>, id: string, now: string): (r: seq<Claim>)
    ensures |r| == |claims|
    ensures forall k :: 0 <= k < |claims| ==>
              r[k] == (if claims[k].id == id then claims[k].(status := "pending_verification", verifiedAt := Some(now)) else claims[k])
  {
    seq(|claims|, k requires 0 <= k < |claims| =>
      if claims[k].id == id then claims[k].(status := "pending_verification", verifiedAt := Some(now)) else claims[k])
  }

  /**
   * `POST`: the reply and the claims afterwards. `pubSlug` and `email` are
   * none unless the body is JSON with a string there; `pubs` maps slugs to
   * pub ids.
   */
  function PostOutcome(claims: seq<Claim>, pubs: map<string, string>, pubSlug: Option<string>, email: Option<string>,
                       clientFailure: Option<string>, lookupFailure: bool, newId: string, token: string,
                       insertFailure: Option<string>): (Response, seq<Claim>)
  {
    if pubSlug.None? || email.None? then (Response(400, ErrorBody("Invalid payload")), claims)
    else if clientFailure.Some? then (Response(500, ErrorBody(clientFailure.value)), claims)
    else if lookupFailure || pubSlug.value !in pubs then (Response(404, ErrorBody("Pub not found")), claims)
    else if insertFailure.Some? then (Response(500, ErrorBody(insertFailure.value)), claims)
    else (Response(200, TokenBody(SubmittedMessage, token)),
          claims + [Claim(newId, pubs[pubSlug.value], email.value, "pending", token, None)])
  }

  /**
   * `PATCH`: the reply and the claims afterwards. The look-up asks for at
   * most one claim with the token, so none or several give 404.
   */
  function PatchOutcome(claims: seq<Claim>, token: Option<string>, clientFailure: Option<string>,
                        lookupFailure: bool, now: string, updateFailure: Option<string>): (Response, seq<Claim>)
  {
    if token.None? then (Response(400, ErrorBody("Missing token")), claims)
    else if clientFailure.Some? then (Response(500, ErrorBody(clientFailure.value)), claims)
    else
      var found := WithToken(claims, token.value);
      if lookupFailure || |found| != 1 then (Response(404, ErrorBody("Claim not found")), claims)
      else
        var claim := claims[found[0]];
        if claim.status != "pending" then (Response(200, MessageBody("Already verified.")), claims)
        else if updateFailure.Some? then (Response(500, ErrorBody(updateFailure.value)), claims)
        else (Response(200, MessageBody(VerifiedMessage)), Verify(claims, claim.id, now))
  }

  /** The `pub_claims` table. */
  class ClaimStore {
    var claims: seq<Claim>

    constructor (initial: seq<Claim>)
      ensures claims == initial
    {
      claims := initial;
    }

    /** `POST /api/claims`. */
    method Post(pubs: map<string, string>, pubSlug: Option<string>, email: Option<string>,
                clientFailure: Option<string>, lookupFailure: bool, newId: string, token: string,
                insertFailure: Option<string>) returns (response: Response)
      modifies this
      ensures (response, claims) ==
              PostOutcome(old(claims), pubs, pubSlug, email, clientFailure, lookupFailure, newId, token, insertFailure)
    {
      if pubSlug.None? || email.None? {
        return Response(400, ErrorBody("Invalid payload"));
      }
      if clientFailure.Some? {
        return Response(500, ErrorBody(clientFailure.value));
      }
      if lookupFailure || pubSlug.value !in pubs {
        return Response(404, ErrorBody("Pub not found"));
      }
      var pubId := pubs[pubSlug.value];
      if insertFailure.Some? {
        return Response(500, ErrorBody(insertFailure.value));
      }
      claims := claims + [Claim(newId, pubId, email.value, "pending", token, None)];
      return Response(200, TokenBody(SubmittedMessage, token));
    }

    /** `PATCH /api/claims`. */
    method Patch(token: Option<string>, clientFailure: Option<string>, lookupFailure: bool, now: string,
                 updateFailure: Option<string>) returns (response: Response)
      modifies this
      ensures (response, claims) == PatchOutcome(old(claims), token, clientFailure, lookupFailure, now, updateFailure)
    {
      if token.None? {
        return Response(400, ErrorBody("Missing token"));
      }
      if clientFailure.Some? {
        return Response(500, ErrorBody(clientFailure.value));
      }
      var found := WithToken(claims, token.value);
      if lookupFailure || |found| != 1 {
        return Response(404, ErrorBody("Claim not found"));
      }
      var claim := claims[found[0]];
      if claim.status != "pending" {
        return Response(200, MessageBody("Already verified."));
      }
      if updateFailure.Some? {
        return Response(500, ErrorBody(updateFailure.value));
      }
      claims := Verify(claims, claim.id, now);
      return Response(200, MessageBody(VerifiedMessage));
    }
  }

  /**
   * A claim is filed only from a body with a pub slug and an email for a
   * known pub: it is then the one new row, pending, for that pub, and carries
   * the token that is returned. Any other reply leaves the claims unchanged.
   */
  lemma PostFilesPendingClaim(claims: seq<Claim>, pubs: map<string, string>, pubSlug: Option<string>, email: Option<string>,
                              clientFailure: Option<string>, lookupFailure: bool, newId: string, token: string,
                              insertFailure: Option<string>)
    ensures var (response, after) := PostOutcome(claims, pubs, pubSlug, email, clientFailure, lookupFailure, newId, token, insertFailure);
            && (response.status == 200 <==> pubSlug.Some? && email.Some? && clientFailure.None? && !lookupFailure
                                            && pubSlug.value in pubs && insertFailure.None?)
            && (response.status == 200 ==>
                  |after| == |claims| + 1 && after[..|claims|] == claims
                  && after[|claims|].status == "pending" && after[|claims|].pubId == pubs[pubSlug.value]
                  && after[|claims|].email == email.value
                  && response.body.TokenBody? && after[|claims|].verificationToken == response.body.token)
            && (response.status != 200 ==> after == claims)
            && (pubSlug.None? || email.None? ==> response.status == 400)
            && (pubSlug.Some? && email.Some? && clientFailure.None? && pubSlug.value !in pubs ==> response.status == 404)
  {
  }

  /**
   * `PATCH` verifies exactly a pending claim found by its token: that row
   * becomes "pending_verification" with its verification time, and every
   * row with another id is untouched. A claim that is not pending is
   * answered "Already verified." and nothing changes.
   */
  lemma PatchVerifiesPendingClaim(claims: seq<Claim>, token: string, now: string)
    requires |WithToken(claims, token)| == 1
    ensures var k := WithToken(claims, token)[0];
            var (response, after) := PatchOutcome(claims, Some(token), None, false, now, None);
            && (claims[k].status == "pending" ==>
                  response == Response(200, MessageBody(VerifiedMessage))
                  && after[k].status == "pending_verification" && after[k].verifiedAt == Some(now)
                  && after[k].verificationToken == token
                  && |after| == |claims|
                  && forall j :: 0 <= j < |claims| && claims[j].id != claims[k].id ==> after[j] == claims[j])
            && (claims[k].status != "pending" ==>
                  response == Response(200, MessageBody("Already verified.")) && after == claims)
  {
  }

  /** Verifying the same token a second time answers "Already verified." and changes nothing. */
  lemma PatchTwice(claims: seq<Claim>, token: string, now: string, later: string)
    requires |WithToken(claims, token)| == 1
    requires forall a, b :: 0 <= a < b < |claims| ==> claims[a].id != claims[b].id
    ensures var after := PatchOutcome(claims, Some(token), None, false, now, None).1;
            PatchOutcome(after, Some(token), None, false, later, None) == (Response(200, MessageBody("Already verified.")), after)
  {
    var k := WithToken(claims, token)[0];
    var after := PatchOutcome(claims, Some(token), None, false, now, None).1;
    if claims[k].status == "pending" {
      var v := Verify(claims, claims[k].id, now);
      assert after == v;
      forall j | 0 <= j < |claims| ensures v[j].verificationToken == claims[j].verificationToken {
      }
      SameTokens(claims, v, token);
      assert v[k].status == "pending_verification";
    }
  }

  /** Two tables whose rows carry the same tokens find the same rows for a token. */
  lemma {:induction false} SameTokens(a: seq<Claim>, b: seq<Claim>, token: string)
    requires |a| == |b|
    requires forall j :: 0 <= j < |a| ==> a[j].verificationToken == b[j].verificationToken
    ensures WithToken(a, token) == WithToken(b, token)
    decreases |a|
  {
    if a != [] {
      var n := |a| - 1;
      SameTokens(a[..n], b[..n], token);
    }
  }

  /** Missing input is rejected before anything is looked up. */
  lemma PatchRejectsMissingToken(claims: seq<Claim>, clientFailure: Option<string>, lookupFailure: bool,
                                 now: string, updateFailure: Option<string>)
    ensures PatchOutcome(claims, None, clientFailure, lookupFailure, now, updateFailure) == (Response(400, ErrorBody("Missing token")), claims)
    ensures forall t :: |WithToken(claims, t)| == 0 && clientFailure.None? ==>
              PatchOutcome(claims, Some(t), clientFailure, lookupFailure, now, updateFailure) == (Response(404, ErrorBody("Claim not found")), claims)
  {
  }
}
