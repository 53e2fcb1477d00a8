/** A user approves, the client redeems in time, and a token is issued. */
module Redeem {
  import opened Store
  import opened Sorting
  import opened Text
  import opened Scopes
  import opened Oidc

  // ----- What is asked of a request, a client and a verifier -----

  predicate Base64Url(c: char) {
    'a' <= c <= 'z' || 'A' <= c <= 'Z' || '0' <= c <= '9' || c == '-' || c == '_'
  }

  ghost predicate GoodScope(client: Client, scope: string) {
    var scopes := Split(scope, ' ');
    && 1 <= |scope| <= 256 && |scopes| <= 4 && NoRepeats(scopes) && "openid" in scopes
    && (forall i | 0 <= i < |scopes| ::
          scopes[i] in {"openid", "profile", "email", "phone"} && scopes[i] in client.allowedScopes)
  }

  ghost predicate GoodRequest(cfg: Config, client: Client, r: AuthorizationRequest) {
    && client.enabled && cfg.redirectAllowed(client, r.redirectUri)
    && 1 <= |r.clientId| <= 128 && 1 <= |r.state| <= 512 && 1 <= |r.nonce| <= 256
    && r.responseType == "code" && (r.responseMode == None || r.responseMode == Some("query"))
    && |r.codeChallenge| == 43 && (forall i | 0 <= i < 43 :: Base64Url(r.codeChallenge[i]))
    && r.codeChallengeMethod == "S256" && r.prompt == None
    && GoodScope(client, r.scope)
  }

  /** The authorization endpoint accepts exactly the good requests of known clients. */
  lemma AuthorizationExactly(cfg: Config, clients: map<string, Client>, r: AuthorizationRequest)
    ensures ValidateAuthorization(cfg, clients, r).Some? <==>
            r.clientId in clients && GoodRequest(cfg, clients[r.clientId], r)
    ensures ValidateAuthorization(cfg, clients, r).Some? ==>
              ValidateAuthorization(cfg, clients, r).value == Split(r.scope, ' ')
  {
    hide Split;
    assert ValidChallenge(r.codeChallenge) <==>
           |r.codeChallenge| == 43 && forall i | 0 <= i < 43 :: Base64Url(r.codeChallenge[i]);
    hide ValidChallenge;
  }

  /** A web client shows the secret whose hash is on record; a desktop client has none and shows nothing. */
  ghost predicate GoodCredentials(cfg: Config, client: Client, authentication: Authentication) {
    match client.clientType
    case Web =>
      exists secret ::
        authentication == Basic(client.clientId, secret) && client.secretHash == Some(cfg.sha256(secret))
    case Desktop => authentication == NoCredentials && client.secretHash == None
  }

  lemma AuthenticatesExactly(cfg: Config, client: Client, authentication: Authentication)
    ensures Authenticates(cfg, client, client.clientId, authentication) <==>
            GoodCredentials(cfg, client, authentication)
  {
    if client.clientType == Web && authentication.Basic? && authentication.clientId == client.clientId {
      assert authentication == Basic(client.clientId, authentication.secret);
    }
  }

  ghost predicate GoodVerifier(verifier: string) {
    && 43 <= |verifier| <= 128
    && forall i | 0 <= i < |verifier| :: Base64Url(verifier[i]) || verifier[i] == '.' || verifier[i] == '~'
  }

  // ----- Nothing comes between -----

  /** The code, its client and its user are as the approval left them. */
  ghost predicate Held(s: Server, record: CodeRecord, client: Client, user: Person) {
    && record.codeHash in s.codes && s.codes[record.codeHash] == record
    && record.clientId in s.clients && s.clients[record.clientId] == client
    && record.employeeId in s.users && s.users[record.employeeId] == user
  }

  /** The step neither presents the code nor touches its client or user, and its clock has not passed the code's end. */
  predicate Undisturbing(cfg: Config, s: Server, a: Action, record: CodeRecord) {
    match a
    case Approve(_, _, _, _, now, _) => now < record.expiresAt
    case BeginExchange(_, _, request, _, _) => cfg.sha256(request.code) != record.codeHash
    case FinishExchange(id, _, _) => id in s.exchanges ==> cfg.sha256(s.exchanges[id].request.code) != record.codeHash
    case PutClient(client) => client.clientId != record.clientId
    case DeleteClient(clientId) => clientId != record.clientId
    case PutUser(user) => user.employeeId != record.employeeId
    case DeleteUser(employeeId) => employeeId != record.employeeId
  }

  lemma ApproveHolds(cfg: Config, s: Server, a: Action, record: CodeRecord, client: Client, user: Person)
    requires a.Approve? && Held(s, record, client, user) && a.now < record.expiresAt
    ensures Held(ApproveStep(cfg, s, a), record, client, user) && ApproveStep(cfg, s, a).exchanges == s.exchanges
  {
    hide ValidateAuthorization;
  }

  lemma StepHolds(cfg: Config, s: Server, a: Action, record: CodeRecord, client: Client, user: Person, id: nat)
    requires Held(s, record, client, user) && Undisturbing(cfg, s, a, record)
    ensures Held(Step(cfg, s, a), record, client, user)
    ensures id in s.exchanges && cfg.sha256(s.exchanges[id].request.code) == record.codeHash ==>
              id in Step(cfg, s, a).exchanges && Step(cfg, s, a).exchanges[id] == s.exchanges[id]
  {
    hide Authenticates, MayIssue, ValidateAuthorization, TokenFor;
    if a.Approve? {
      ApproveHolds(cfg, s, a, record, client, user);
      hide ApproveStep;
    }
  }

  ghost predicate UndisturbedRun(cfg: Config, s: Server, actions: seq<Action>, record: CodeRecord) {
    forall i | 0 <= i < |actions| :: Undisturbing(cfg, Run(cfg, s, actions[..i]), actions[i], record)
  }

  lemma {:induction false} RunHolds(cfg: Config, s: Server, actions: seq<Action>, record: CodeRecord, client: Client,
                                    user: Person, id: nat)
    requires Held(s, record, client, user) && UndisturbedRun(cfg, s, actions, record)
    ensures Held(Run(cfg, s, actions), record, client, user)
    ensures id in s.exchanges && cfg.sha256(s.exchanges[id].request.code) == record.codeHash ==>
              id in Run(cfg, s, actions).exchanges && Run(cfg, s, actions).exchanges[id] == s.exchanges[id]
  {
    hide Held, Undisturbing, Step;
    if actions != [] {
      var n := |actions| - 1;
      forall i | 0 <= i < n ensures Undisturbing(cfg, Run(cfg, s, actions[..n][..i]), actions[..n][i], record) {
        assert actions[..n][..i] == actions[..i];
      }
      RunHolds(cfg, s, actions[..n], record, client, user, id);
      StepHolds(cfg, Run(cfg, s, actions[..n]), actions[n], record, client, user, id);
    }
  }

  // ----- From the approval to the token -----

  /** What an approval stores, field by field. */
  function StoredRecord(cfg: Config, a: Action): CodeRecord
    requires a.Approve?
  {
    CodeRecord(cfg.sha256(a.code), a.issuer, a.request.clientId, a.session.employeeId, a.request.redirectUri,
               Split(a.request.scope, ' '), a.request.nonce, a.request.codeChallenge, a.session.authTime, a.now + 120)
  }

  /** A good request of a known client, approved by an active user, with times that fit and a fresh code. */
  ghost predicate CanApprove(cfg: Config, s: Server, a: Action, client: Client, user: Person) {
    && a.Approve?
    && a.request.clientId in s.clients && s.clients[a.request.clientId] == client
    && client.clientId == a.request.clientId && GoodRequest(cfg, client, a.request)
    && a.session.employeeId in s.users && s.users[a.session.employeeId] == user
    && user.employeeId == a.session.employeeId && user.status == Active
    && a.now + 120 <= 0x7fff_ffff_ffff_ffff && a.session.authTime <= 0x7fff_ffff_ffff_ffff
    && cfg.sha256(a.code) !in s.codes
  }

  lemma ApprovalStores(cfg: Config, s: Server, a: Action, client: Client, user: Person)
    requires CanApprove(cfg, s, a, client, user)
    ensures Held(Step(cfg, s, a), StoredRecord(cfg, a), client, user)
  {
    AuthorizationExactly(cfg, s.clients, a.request);
    hide ValidateAuthorization, GoodRequest, Split;
  }

  /** An approval stores its fresh code exactly when all of that holds. */
  lemma ApprovalExactly(cfg: Config, s: Server, a: Action)
    requires a.Approve? && cfg.sha256(a.code) !in s.codes && ClientsKeyed(s) && UsersKeyed(s)
    ensures cfg.sha256(a.code) in Step(cfg, s, a).codes <==>
            && a.request.clientId in s.clients && a.session.employeeId in s.users
            && CanApprove(cfg, s, a, s.clients[a.request.clientId], s.users[a.session.employeeId])
  {
    AuthorizationExactly(cfg, s.clients, a.request);
    hide ValidateAuthorization, GoodRequest, Split;
  }

  /** Users are stored under their own ID. */
  ghost predicate UsersKeyed(s: Server) {
    forall id | id in s.users :: s.users[id].employeeId == id
  }

  /** The same client presents the code, the redirect URI and a verifier that hashes to the challenge. */
  ghost predicate CanRedeem(cfg: Config, approve: Action, begin: Action, client: Client)
    requires approve.Approve?
  {
    && begin.BeginExchange?
    && begin.issuer == approve.issuer
    && begin.tokenRequest.grantType == "authorization_code"
    && begin.tokenRequest.clientId == client.clientId
    && begin.tokenRequest.redirectUri == approve.request.redirectUri
    && begin.tokenRequest.code == approve.code
    && GoodVerifier(begin.tokenRequest.codeVerifier)
    && cfg.pkce(begin.tokenRequest.codeVerifier) == approve.request.codeChallenge
    && GoodCredentials(cfg, client, begin.authentication)
  }

  lemma RedemptionBegins(cfg: Config, s: Server, approve: Action, begin: Action, client: Client, user: Person)
    requires approve.Approve? && CanRedeem(cfg, approve, begin, client)
    requires Held(s, StoredRecord(cfg, approve), client, user)
    requires client.clientId == approve.request.clientId && begin.id !in s.exchanges
    ensures var s' := Step(cfg, s, begin);
            && Held(s', StoredRecord(cfg, approve), client, user)
            && begin.id in s'.exchanges
            && s'.exchanges[begin.id] == Exchange(begin.issuer, begin.tokenRequest, begin.authentication, client)
  {
    AuthenticatesExactly(cfg, client, begin.authentication);
    hide Authenticates, GoodCredentials, Split;
  }

  lemma ScopesGranted(cfg: Config, s: Server, a: Action, client: Client, user: Person)
    requires CanApprove(cfg, s, a, client, user)
    ensures ScopesStillGranted(StoredRecord(cfg, a), client)
    ensures Join(StoredRecord(cfg, a).scopes, ' ') == a.request.scope
  {
    var scopes := Split(a.request.scope, ' ');
    assert Acceptable(scopes);
    JoinedScopesValidate(scopes);
    JoinSplit(a.request.scope, ' ');
    hide Split, Join, Acceptable, ScopesOf;
  }

  /** The token says what was approved. */
  ghost predicate TokenOf(token: Token, approve: Action, client: Client)
    requires approve.Approve?
  {
    && token.issuer == approve.issuer && token.clientId == client.clientId
    && token.subject == approve.session.employeeId && token.authTime == approve.session.authTime
    && token.scope == approve.request.scope && token.nonce == approve.request.nonce
  }

  lemma RedemptionFinishes(cfg: Config, start: Server, s: Server, approve: Action, begin: Action, finish: Action,
                           client: Client, user: Person)
    requires CanApprove(cfg, start, approve, client, user) && CanRedeem(cfg, approve, begin, client)
    requires Held(s, StoredRecord(cfg, approve), client, user) && begin.id in s.exchanges
    requires s.exchanges[begin.id] == Exchange(begin.issuer, begin.tokenRequest, begin.authentication, client)
    requires finish.FinishExchange? && finish.id == begin.id && finish.signed && finish.now < approve.now + 120
    ensures Redeemed(cfg, approve, client, Step(cfg, s, finish))
  {
    var e, record := s.exchanges[begin.id], StoredRecord(cfg, approve);
    ScopesGranted(cfg, start, approve, client, user);
    AuthenticatesExactly(cfg, client, begin.authentication);
    assert ValidVerifier(begin.tokenRequest.codeVerifier);
    hide Authenticates, GoodCredentials, Split, ScopesStillGranted, ValidVerifier, GoodRequest, Join, ClaimsFor;
    assert MayIssue(cfg, s, e, record, finish.now);
  }

  /** The code is gone and the last thing that happened is its token. */
  ghost predicate Redeemed(cfg: Config, approve: Action, client: Client, s: Server)
    requires approve.Approve?
  {
    && cfg.sha256(approve.code) !in s.codes
    && s.log != []
    && var last := s.log[|s.log| - 1];
    && last.Issued? && last.redeemed == StoredRecord(cfg, approve) && TokenOf(last.token, approve, client)
  }

  /**
   For web and desktop clients: a good request is approved, anything may happen that does not concern
   its code, client or user, the client redeems the code properly, again anything else may happen,
   and the exchange that finishes less than 120 seconds after the approval issues the token.
   */
  lemma RedemptionSucceeds(cfg: Config, s: Server, approve: Action, meanwhile: seq<Action>, begin: Action,
                           later: seq<Action>, finish: Action, client: Client, user: Person)
    requires CanApprove(cfg, s, approve, client, user) && CanRedeem(cfg, approve, begin, client)
    requires UndisturbedRun(cfg, Step(cfg, s, approve), meanwhile, StoredRecord(cfg, approve))
    requires begin.id !in Run(cfg, Step(cfg, s, approve), meanwhile).exchanges
    requires UndisturbedRun(cfg, Step(cfg, Run(cfg, Step(cfg, s, approve), meanwhile), begin), later,
                            StoredRecord(cfg, approve))
    requires finish.FinishExchange? && finish.id == begin.id && finish.signed && finish.now < approve.now + 120
    ensures var asked := Step(cfg, Run(cfg, Step(cfg, s, approve), meanwhile), begin);
            Redeemed(cfg, approve, client, Step(cfg, Run(cfg, asked, later), finish))
  {
    var record := StoredRecord(cfg, approve);
    ApprovalStores(cfg, s, approve, client, user);
    var approved := Step(cfg, s, approve);
    assert client.clientId == approve.request.clientId && cfg.sha256(begin.tokenRequest.code) == record.codeHash;
    hide Held, Step, CanApprove, CanRedeem, UndisturbedRun, Redeemed;
    RunHolds(cfg, approved, meanwhile, record, client, user, begin.id);
    RedemptionBegins(cfg, Run(cfg, approved, meanwhile), approve, begin, client, user);
    var asked := Step(cfg, Run(cfg, approved, meanwhile), begin);
    RunHolds(cfg, asked, later, record, client, user, begin.id);
    RedemptionFinishes(cfg, s, Run(cfg, asked, later), approve, begin, finish, client, user);
  }

  // ----- What else removes a code -----

  /** An approval clears expired codes only, of those the clean-up looked at. */
  lemma CleanUpExactly(cfg: Config, s: Server, a: Action, client: Client, user: Person, hash: string)
    requires CanApprove(cfg, s, a, client, user) && hash != cfg.sha256(a.code)
    ensures hash in Step(cfg, s, a).codes <==>
            hash in s.codes && !(hash in a.cleaned && s.codes[hash].expiresAt <= a.now)
    ensures hash in Step(cfg, s, a).codes ==> Step(cfg, s, a).codes[hash] == s.codes[hash]
  {
    AuthorizationExactly(cfg, s.clients, a.request);
    hide ValidateAuthorization, GoodRequest, Split;
  }

  /** An unknown client, and another grant of an authenticated one, leave every code where it is. */
  lemma OtherAttemptsKeepCodes(cfg: Config, s: Server, a: Action)
    requires a.BeginExchange? && a.id !in s.exchanges
    requires a.tokenRequest.clientId !in s.clients
             || (&& a.tokenRequest.grantType != "authorization_code"
                 && s.clients[a.tokenRequest.clientId].clientId == a.tokenRequest.clientId
                 && GoodCredentials(cfg, s.clients[a.tokenRequest.clientId], a.authentication))
    ensures Step(cfg, s, a) == s
  {
    if a.tokenRequest.clientId in s.clients {
      AuthenticatesExactly(cfg, s.clients[a.tokenRequest.clientId], a.authentication);
    }
  }

  /** Deleting a user leaves none of the user's codes. */
  lemma DeletedUserHasNoCodes(cfg: Config, s: Server, employeeId: string)
    ensures forall h | h in Step(cfg, s, Oidc.Action.DeleteUser(employeeId)).codes ::
              Step(cfg, s, Oidc.Action.DeleteUser(employeeId)).codes[h].employeeId != employeeId
  {
  }
}
