/**
 Authorization codes: approved, stored, redeemed once, and turned into tokens.

 Requests run concurrently: the client lookup and authentication of a token request is one
 step, and the transaction that consumes the code is a later one, so clients, users and codes
 can change in between.
 */
module Oidc {
  import opened Store
  import opened Text
  import opened Scopes

  const CODE_TTL: nat := 120
  const I64_MAX: nat := 0x7fff_ffff_ffff_ffff

  datatype ClientType = Web | Desktop

  datatype Client = Client(
    clientId: string,
    clientType: ClientType,
    secretHash: Option<string>,
    allowedScopes: seq<string>,
    enabled: bool)

  datatype Person = Person(
    employeeId: string,
    username: string,
    displayName: string,
    email: Option<string>,
    mobile: Option<string>,
    telephone: Option<string>,
    status: UserStatus)

  datatype CodeRecord = CodeRecord(
    codeHash: string,
    issuer: string,
    clientId: string,
    employeeId: string,
    redirectUri: string,
    scopes: seq<string>,
    nonce: string,
    codeChallenge: string,
    authTime: nat,
    expiresAt: nat)

  datatype AuthorizationRequest = AuthorizationRequest(
    responseType: string,
    clientId: string,
    redirectUri: string,
    scope: string,
    state: string,
    nonce: string,
    codeChallenge: string,
    codeChallengeMethod: string,
    responseMode: Option<string>,
    prompt: Option<string>)

  datatype Session = Session(employeeId: string, authTime: nat)

  datatype Authentication = NoCredentials | Basic(clientId: string, secret: string) | InvalidCredentials

  datatype TokenRequest = TokenRequest(
    grantType: string,
    clientId: string,
    redirectUri: string,
    code: string,
    codeVerifier: string)

  datatype Claims = Claims(
    preferredUsername: Option<string>,
    name: Option<string>,
    email: Option<string>,
    phoneNumber: Option<string>)

  /** What the two signed tokens say. */
  datatype Token = Token(
    issuer: string,
    subject: string,
    clientId: string,
    scope: string,
    authTime: nat,
    nonce: string,
    claims: Claims)

  /** The hashes, and the redirect URI check, whose workings the model does not look into. */
  datatype Config = Config(
    sha256: string -> string,
    pkce: string -> string,
    redirectAllowed: (Client, string) -> bool)

  // ----- Validation -----

  predicate Between(s: string, min: nat, max: nat) { min <= |s| <= max }

  predicate Alphanumeric(c: char) { 'a' <= c <= 'z' || 'A' <= c <= 'Z' || '0' <= c <= '9' }

  predicate ValidChallenge(s: string) {
    |s| == 43 && forall i | 0 <= i < |s| :: Alphanumeric(s[i]) || s[i] == '-' || s[i] == '_'
  }

  predicate ValidVerifier(s: string) {
    && Between(s, 43, 128)
    && forall i | 0 <= i < |s| ::
      Alphanumeric(s[i]) || s[i] == '-' || s[i] == '.' || s[i] == '_' || s[i] == '~'
  }

  predicate ScopesAllowed(client: Client, scopes: seq<string>) {
    forall i | 0 <= i < |scopes| :: scopes[i] in client.allowedScopes
  }

  /** The scopes of a request that passes every check of the authorization endpoint; None otherwise. */
  function ValidateAuthorization(cfg: Config, clients: map<string, Client>,
                                 r: AuthorizationRequest): Option<seq<string>> {
    if !Between(r.clientId, 1, 128) || r.clientId !in clients || !clients[r.clientId].enabled then None
    else if !cfg.redirectAllowed(clients[r.clientId], r.redirectUri) then None
    else if !Between(r.state, 1, 512) || r.responseType != "code" then None
    else if r.responseMode != None && r.responseMode != Some("query") then None
    else if !Between(r.nonce, 1, 256) || !ValidChallenge(r.codeChallenge) || r.codeChallengeMethod != "S256" then None
    else if r.prompt != None then None
    else
      match ScopesOf(r.scope)
      case None => None
      case Some(scopes) => if ScopesAllowed(clients[r.clientId], scopes) then Some(scopes) else None
  }

  predicate Authenticates(cfg: Config, client: Client, bodyClientId: string, authentication: Authentication) {
    match client.clientType
    case Web =>
      && authentication.Basic?
      && client.secretHash.Some?
      && authentication.clientId == bodyClientId
      && client.secretHash.value == cfg.sha256(authentication.secret)
    case Desktop => authentication.NoCredentials? && client.secretHash.None?
  }

  function NonEmpty(value: Option<string>): Option<string> {
    if value.Some? && Trim(value.value) != "" then value else None
  }

  function ClaimsFor(user: Person, scopes: seq<string>): Claims {
    Claims(
      if "profile" in scopes then NonEmpty(Some(user.username)) else None,
      if "profile" in scopes then NonEmpty(Some(user.displayName)) else None,
      if "email" in scopes then NonEmpty(user.email) else None,
      if "phone" !in scopes then None
      else if NonEmpty(user.mobile).Some? then NonEmpty(user.mobile)
      else NonEmpty(user.telephone))
  }

  // ----- The server -----

  /** A token request whose client has authenticated and which has not consumed its code yet. */
  datatype Exchange = Exchange(issuer: string, request: TokenRequest, authentication: Authentication, client: Client)

  /** What the user approved: the request, for which client row, in which session, at which issuer. */
  datatype Approval = Approval(issuer: string, request: AuthorizationRequest, session: Session, client: Client)

  datatype Event =
    | Stored(record: CodeRecord, approval: Approval, code: string, at: nat)
    | Removed(hashes: set<string>)
    | Issued(token: Token, redeemed: CodeRecord, exchange: Exchange, user: Person, client: Client, at: nat)

  datatype Server = Server(
    codes: map<string, CodeRecord>,
    clients: map<string, Client>,
    users: map<string, Person>,
    exchanges: map<nat, Exchange>,
    log: seq<Event>)

  datatype Action =
    | Approve(issuer: string, request: AuthorizationRequest, session: Session, code: string, now: nat,
      cleaned: set<string>)
    | BeginExchange(id: nat, issuer: string, tokenRequest: TokenRequest, authentication: Authentication, now: nat)
    | FinishExchange(id: nat, now: nat, signed: bool)
    | PutClient(client: Client)
    | DeleteClient(clientId: string)
    | PutUser(user: Person)
    | DeleteUser(employeeId: string)

  /** Deletes codes and notes which of them were there. */
  function Remove(s: Server, hashes: set<string>): Server {
    s.(codes := s.codes - hashes, log := s.log + [Removed(hashes * s.codes.Keys)])
  }

  function Expired(s: Server, hashes: set<string>, now: nat): set<string> {
    set h | h in hashes && h in s.codes && s.codes[h].expiresAt <= now
  }

  function Record(cfg: Config, approval: Approval, scopes: seq<string>, code: string, now: nat): CodeRecord {
    var r := approval.request;
    CodeRecord(cfg.sha256(code), approval.issuer, approval.client.clientId, approval.session.employeeId,
               r.redirectUri, scopes,
               r.nonce, r.codeChallenge, approval.session.authTime, now + CODE_TTL)
  }

  /** Clears some expired codes, then stores the new one; a hash that is taken makes the insert fail. */
  function ApproveStep(cfg: Config, s: Server, a: Action): Server
    requires a.Approve?
  {
    match ValidateAuthorization(cfg, s.clients, a.request)
    case None => s
    case Some(scopes) =>
      if a.session.employeeId !in s.users || s.users[a.session.employeeId].status != Active || a.now > I64_MAX then s
      else
        var cleaned := Remove(s, Expired(s, a.cleaned, a.now));
        var approval := Approval(a.issuer, a.request, a.session, s.clients[a.request.clientId]);
        var record := Record(cfg, approval, scopes, a.code, a.now);
        if a.now + CODE_TTL > I64_MAX || a.session.authTime > I64_MAX || record.codeHash in cleaned.codes then cleaned
        else cleaned.(codes := cleaned.codes[record.codeHash := record],
                      log := cleaned.log + [Stored(record, approval, a.code, a.now)])
  }

  function BeginStep(cfg: Config, s: Server, a: Action): Server
    requires a.BeginExchange?
  {
    if a.id in s.exchanges || a.tokenRequest.clientId !in s.clients then s
    else
      var client := s.clients[a.tokenRequest.clientId];
      if !Authenticates(cfg, client, a.tokenRequest.clientId, a.authentication) then
        if a.now > I64_MAX then s else Remove(s, {cfg.sha256(a.tokenRequest.code)})
      else if a.tokenRequest.grantType != "authorization_code" then s
      else s.(exchanges := s.exchanges[a.id := Exchange(a.issuer, a.tokenRequest, a.authentication, client)])
  }

  predicate ScopesStillGranted(record: CodeRecord, client: Client) {
    ScopesOf(Join(record.scopes, ' ')).Some? && ScopesAllowed(client, record.scopes)
  }

  /** Every check between consuming the code and issuing tokens, against the rows of the same transaction. */
  predicate MayIssue(cfg: Config, s: Server, e: Exchange, record: CodeRecord, now: nat) {
    && record.expiresAt > now
    && record.issuer == e.issuer
    && record.clientId in s.clients
    && var client := s.clients[record.clientId];
    && client.enabled && client.clientId == e.client.clientId && client.clientType == e.client.clientType
    && Authenticates(cfg, client, e.request.clientId, e.authentication)
    && record.clientId == e.request.clientId
    && record.redirectUri == e.request.redirectUri
    && ValidVerifier(e.request.codeVerifier)
    && record.codeChallenge == cfg.pkce(e.request.codeVerifier)
    && ScopesStillGranted(record, client)
    && record.employeeId in s.users
    && s.users[record.employeeId].employeeId == record.employeeId
    && s.users[record.employeeId].status == Active
  }

  function TokenFor(issuer: string, record: CodeRecord, user: Person, client: Client): Token {
    Token(issuer, user.employeeId, client.clientId, Join(record.scopes, ' '), record.authTime, record.nonce,
      ClaimsFor(user, record.scopes))
  }

  function FinishStep(cfg: Config, s: Server, a: Action): Server
    requires a.FinishExchange?
  {
    if a.id !in s.exchanges || a.now > I64_MAX then s
    else
      var e := s.exchanges[a.id];
      var hash := cfg.sha256(e.request.code);
      var consumed := Remove(s, {hash}).(exchanges := s.exchanges - {a.id});
      if hash in s.codes && MayIssue(cfg, s, e, s.codes[hash], a.now) && a.signed then
        var record := s.codes[hash];
        var user, client := s.users[record.employeeId], s.clients[record.clientId];
        consumed.(log := consumed.log + [Issued(TokenFor(e.issuer, record, user, client), record, e, user, client,
          a.now)])
      else consumed
  }

  function CodesOf(s: Server, employeeId: string): set<string> {
    set h | h in s.codes && s.codes[h].employeeId == employeeId
  }

  function Step(cfg: Config, s: Server, a: Action): Server {
    match a
    case Approve(_, _, _, _, _, _) => ApproveStep(cfg, s, a)
    case BeginExchange(_, _, _, _, _) => BeginStep(cfg, s, a)
    case FinishExchange(_, _, _) => FinishStep(cfg, s, a)
    case PutClient(client) => s.(clients := s.clients[client.clientId := client])
    case DeleteClient(clientId) => s.(clients := s.clients - {clientId})
    case PutUser(user) => s.(users := s.users[user.employeeId := user])
    case DeleteUser(employeeId) =>
      Remove(s, CodesOf(s, employeeId)).(users := s.users - {employeeId})
  }

  function Run(cfg: Config, s: Server, actions: seq<Action>): Server {
    if actions == [] then s else Step(cfg, Run(cfg, s, actions[..|actions| - 1]), actions[|actions| - 1])
  }

  /** Clients are stored under their own ID. */
  predicate ClientsKeyed(s: Server) {
    forall id | id in s.clients :: s.clients[id].clientId == id
  }

  /** No codes yet; any clients and users. */
  predicate Initial(s: Server) {
    s.codes == map[] && s.exchanges == map[] && s.log == [] && ClientsKeyed(s)
  }

  // ----- Conservation -----

  function Count(log: seq<Event>, which: Event -> bool): nat {
    if log == [] then 0 else Count(log[..|log| - 1], which) + if which(log[|log| - 1]) then 1 else 0
  }

  function StoresOf(hash: string): Event -> bool { (e: Event) => e.Stored? && e.record.codeHash == hash }
  function RemovalsOf(hash: string): Event -> bool { (e: Event) => e.Removed? && hash in e.hashes }
  function IssuesOf(hash: string): Event -> bool { (e: Event) => e.Issued? && e.redeemed.codeHash == hash }

  lemma CountAppend(log: seq<Event>, e: Event, which: Event -> bool)
    ensures Count(log + [e], which) == Count(log, which) + if which(e) then 1 else 0
  {
    assert (log + [e])[..|log|] == log;
  }

  ghost predicate Conserved(s: Server, hash: string) {
    && Count(s.log, StoresOf(hash)) == Count(s.log, RemovalsOf(hash)) + (if hash in s.codes then 1 else 0)
    && Count(s.log, IssuesOf(hash)) <= Count(s.log, RemovalsOf(hash))
  }

  ghost predicate HashesMatch(s: Server) {
    forall h | h in s.codes :: s.codes[h].codeHash == h
  }

  lemma AppendCounts(log: seq<Event>, e: Event, hash: string)
    ensures Count(log + [e], StoresOf(hash)) == Count(log, StoresOf(hash)) + if StoresOf(hash)(e) then 1 else 0
    ensures Count(log + [e], RemovalsOf(hash)) == Count(log, RemovalsOf(hash)) + if RemovalsOf(hash)(e) then 1 else 0
    ensures Count(log + [e], IssuesOf(hash)) == Count(log, IssuesOf(hash)) + if IssuesOf(hash)(e) then 1 else 0
  {
    CountAppend(log, e, StoresOf(hash));
    CountAppend(log, e, RemovalsOf(hash));
    CountAppend(log, e, IssuesOf(hash));
  }

  lemma RemoveConserves(s: Server, hashes: set<string>, hash: string)
    requires Conserved(s, hash) && HashesMatch(s)
    ensures Conserved(Remove(s, hashes), hash) && HashesMatch(Remove(s, hashes))
    ensures hash in hashes && hash in s.codes ==>
              Count(Remove(s, hashes).log, IssuesOf(hash)) < Count(Remove(s, hashes).log, RemovalsOf(hash))
  {
    AppendCounts(s.log, Removed(hashes * s.codes.Keys), hash);
    hide Count;
  }

  lemma ApproveConserves(cfg: Config, s: Server, a: Action, hash: string)
    requires a.Approve? && Conserved(s, hash) && HashesMatch(s)
    ensures Conserved(ApproveStep(cfg, s, a), hash) && HashesMatch(ApproveStep(cfg, s, a))
  {
    hide Count, Remove, Expired;
    var cleaned := Remove(s, Expired(s, a.cleaned, a.now));
    RemoveConserves(s, Expired(s, a.cleaned, a.now), hash);
    var scopes := ValidateAuthorization(cfg, s.clients, a.request);
    if scopes.Some? {
      var approval := Approval(a.issuer, a.request, a.session, s.clients[a.request.clientId]);
      var record := Record(cfg, approval, scopes.value, a.code, a.now);
      AppendCounts(cleaned.log, Stored(record, approval, a.code, a.now), hash);
    }
  }

  lemma FinishConserves(cfg: Config, s: Server, a: Action, hash: string)
    requires a.FinishExchange? && Conserved(s, hash) && HashesMatch(s)
    ensures Conserved(FinishStep(cfg, s, a), hash) && HashesMatch(FinishStep(cfg, s, a))
  {
    if a.id in s.exchanges && a.now <= I64_MAX {
      var e := s.exchanges[a.id];
      var consumed := cfg.sha256(e.request.code);
      var removed, s' := Remove(s, {consumed}), FinishStep(cfg, s, a);
      RemoveConserves(s, {consumed}, hash);
      assert consumed in {consumed} && removed.codes == s.codes - {consumed} && s'.codes == removed.codes;
      hide Count, Remove, MayIssue, TokenFor, Conserved, HashesMatch;
      if consumed in s.codes && MayIssue(cfg, s, e, s.codes[consumed], a.now) && a.signed {
        IssueConserves(cfg, s, a, removed, hash);
        SameCodes(removed, s', hash);
        var record := s.codes[consumed];
        var user, client := s.users[record.employeeId], s.clients[record.clientId];
        var issued := Issued(TokenFor(e.issuer, record, user, client), record, e, user, client, a.now);
        SameCodes(removed.(log := removed.log + [issued]), s', hash);
      } else {
        SameCodes(removed, s', hash);
      }
    }
  }

  /** Both statements are about the codes, and the log, only. */
  lemma SameCodes(s: Server, s': Server, hash: string)
    requires s'.codes == s.codes
    ensures HashesMatch(s') <==> HashesMatch(s)
    ensures s'.log == s.log ==> (Conserved(s', hash) <==> Conserved(s, hash))
  {
  }

  lemma IssueConserves(cfg: Config, s: Server, a: Action, removed: Server, hash: string)
    requires a.FinishExchange? && a.id in s.exchanges && HashesMatch(s) && Conserved(removed, hash)
    requires var consumed := cfg.sha256(s.exchanges[a.id].request.code);
             && consumed in s.codes && MayIssue(cfg, s, s.exchanges[a.id], s.codes[consumed], a.now)
             && removed.codes == s.codes - {consumed}
             && (hash == consumed ==> Count(removed.log, IssuesOf(hash)) < Count(removed.log, RemovalsOf(hash)))
    ensures var e := s.exchanges[a.id];
            var record := s.codes[cfg.sha256(e.request.code)];
            var user, client := s.users[record.employeeId], s.clients[record.clientId];
            Conserved(removed.(log := removed.log + [Issued(TokenFor(e.issuer, record, user, client), record, e, user,
              client, a.now)]), hash)
  {
    var e := s.exchanges[a.id];
    var record := s.codes[cfg.sha256(e.request.code)];
    var user, client := s.users[record.employeeId], s.clients[record.clientId];
    AppendCounts(removed.log, Issued(TokenFor(e.issuer, record, user, client), record, e, user, client, a.now), hash);
    hide Count;
  }

  lemma StepConserves(cfg: Config, s: Server, a: Action, hash: string)
    requires Conserved(s, hash) && HashesMatch(s)
    ensures Conserved(Step(cfg, s, a), hash) && HashesMatch(Step(cfg, s, a))
  {
    hide Count, Authenticates, MayIssue, ValidateAuthorization;
    match a
    case Approve(_, _, _, _, _, _) => ApproveConserves(cfg, s, a, hash);
    case BeginExchange(_, _, request, _, _) => RemoveConserves(s, {cfg.sha256(request.code)}, hash);
    case FinishExchange(_, _, _) => FinishConserves(cfg, s, a, hash);
    case DeleteUser(id) => RemoveConserves(s, CodesOf(s, id), hash);
    case _ =>
  }

  /**
   Over any run, each code hash was removed as often as it was stored, less one while it is still
   there; and no more tokens were issued for it than codes were removed.
   */
  lemma {:induction false} CodesConserved(cfg: Config, s: Server, actions: seq<Action>, hash: string)
    requires Initial(s)
    ensures Conserved(Run(cfg, s, actions), hash) && HashesMatch(Run(cfg, s, actions))
  {
    if actions != [] {
      CodesConserved(cfg, s, actions[..|actions| - 1], hash);
      StepConserves(cfg, Run(cfg, s, actions[..|actions| - 1]), actions[|actions| - 1], hash);
    }
  }

  // ----- A code is burnt by every attempt -----

  /** A known client fails to authenticate, with a clock that can be read. */
  predicate FailsAuthentication(cfg: Config, s: Server, a: Action) {
    && a.BeginExchange? && a.id !in s.exchanges && a.tokenRequest.clientId in s.clients && a.now <= I64_MAX
    && !Authenticates(cfg, s.clients[a.tokenRequest.clientId], a.tokenRequest.clientId, a.authentication)
  }

  /** An authenticated exchange with the authorization-code grant comes to its end, whatever its result. */
  predicate Finishes(s: Server, a: Action) {
    a.FinishExchange? && a.id in s.exchanges && a.now <= I64_MAX
  }

  function PresentedHash(cfg: Config, s: Server, a: Action): string
    requires FailsAuthentication(cfg, s, a) || Finishes(s, a)
  {
    cfg.sha256(if a.BeginExchange? then a.tokenRequest.code else s.exchanges[a.id].request.code)
  }

  /** A code with the hash was stored among the events from `since` up to `n`. */
  ghost predicate StoredSince(log: seq<Event>, since: nat, n: nat, hash: string) {
    exists p :: since <= p < n <= |log| && log[p].Stored? && log[p].record.codeHash == hash
  }

  /** One of the events stores a code with the hash. */
  ghost predicate Stores(events: seq<Event>, hash: string) {
    exists j :: 0 <= j < |events| && events[j].Stored? && events[j].record.codeHash == hash
  }

  /** Since event `since` the hash has been absent, and unredeemed, except after it was stored again. */
  ghost predicate AbsentSince(s: Server, since: nat, hash: string) {
    && since <= |s.log|
    && (hash in s.codes ==> StoredSince(s.log, since, |s.log|, hash))
    && (forall j | since <= j < |s.log| && s.log[j].Issued? && s.log[j].redeemed.codeHash == hash ::
          StoredSince(s.log, since, j, hash))
  }

  lemma StoredStays(log: seq<Event>, more: seq<Event>, since: nat, n: nat, hash: string)
    requires StoredSince(log, since, n, hash)
    ensures forall m | n <= m <= |log + more| :: StoredSince(log + more, since, m, hash)
  {
    var p :| since <= p < n <= |log| && log[p].Stored? && log[p].record.codeHash == hash;
    assert (log + more)[p] == log[p];
  }

  /** Appending events: a token for the hash needs the code to have been there. */
  lemma AbsentAppend(s: Server, s': Server, more: seq<Event>, since: nat, hash: string)
    requires AbsentSince(s, since, hash) && s'.log == s.log + more
    requires forall j | 0 <= j < |more| && more[j].Issued? :: more[j].redeemed.codeHash == hash ==> hash in s.codes
    requires hash in s'.codes ==> hash in s.codes || Stores(more, hash)
    ensures AbsentSince(s', since, hash)
  {
    forall j | since <= j < |s'.log| && s'.log[j].Issued? && s'.log[j].redeemed.codeHash == hash
      ensures StoredSince(s'.log, since, j, hash)
    {
      if j < |s.log| {
        StoredStays(s.log, more, since, j, hash);
      } else {
        assert s'.log[j] == more[j - |s.log|];
        StoredStays(s.log, more, since, |s.log|, hash);
      }
    }
    if hash in s'.codes {
      if hash in s.codes {
        StoredStays(s.log, more, since, |s.log|, hash);
      } else {
        assert Stores(more, hash);
        var j :| 0 <= j < |more| && more[j].Stored? && more[j].record.codeHash == hash;
        assert s'.log[|s.log| + j] == more[j];
      }
    }
  }

  /** What the events of one step may say about a hash: a token needs the code, a new code needs a store. */
  ghost predicate Explained(s: Server, s': Server, more: seq<Event>, hash: string) {
    && s'.log == s.log + more
    && (forall j | 0 <= j < |more| && more[j].Issued? :: more[j].redeemed.codeHash == hash ==> hash in s.codes)
    && (hash in s'.codes ==> hash in s.codes || Stores(more, hash))
  }

  lemma ApproveExplained(cfg: Config, s: Server, a: Action, hash: string) returns (more: seq<Event>)
    requires a.Approve?
    ensures Explained(s, ApproveStep(cfg, s, a), more, hash)
  {
    hide ValidateAuthorization;
    var s' := ApproveStep(cfg, s, a);
    more := s'.log[|s.log|..];
    if hash in s'.codes && hash !in s.codes {
      var last := s'.log[|s'.log| - 1];
      assert last.Stored? && last.record.codeHash == hash;
      assert more[|more| - 1] == last;
    }
  }

  lemma FinishExplained(cfg: Config, s: Server, a: Action, hash: string) returns (more: seq<Event>)
    requires a.FinishExchange? && HashesMatch(s)
    ensures Explained(s, FinishStep(cfg, s, a), more, hash)
  {
    hide MayIssue, TokenFor;
    more := FinishStep(cfg, s, a).log[|s.log|..];
  }

  lemma StepExplained(cfg: Config, s: Server, a: Action, hash: string) returns (more: seq<Event>)
    requires HashesMatch(s)
    ensures Explained(s, Step(cfg, s, a), more, hash)
  {
    hide ApproveStep, FinishStep, Authenticates;
    match a
    case Approve(_, _, _, _, _, _) => more := ApproveExplained(cfg, s, a, hash);
    case FinishExchange(_, _, _) => more := FinishExplained(cfg, s, a, hash);
    case _ => more := Step(cfg, s, a).log[|s.log|..];
  }

  lemma {:induction false} AbsentThroughout(cfg: Config, s: Server, actions: seq<Action>, since: nat, hash: string)
    requires AbsentSince(s, since, hash) && HashesMatch(s)
    ensures AbsentSince(Run(cfg, s, actions), since, hash) && HashesMatch(Run(cfg, s, actions))
  {
    if actions != [] {
      var before, a := Run(cfg, s, actions[..|actions| - 1]), actions[|actions| - 1];
      AbsentThroughout(cfg, s, actions[..|actions| - 1], since, hash);
      var more := StepExplained(cfg, before, a, hash);
      StepMatches(cfg, before, a);
      hide Step, AbsentSince;
      AbsentAppend(before, Step(cfg, before, a), more, since, hash);
    }
  }

  lemma StepMatches(cfg: Config, s: Server, a: Action)
    requires HashesMatch(s)
    ensures HashesMatch(Step(cfg, s, a))
  {
    hide ValidateAuthorization, Authenticates, MayIssue, TokenFor;
  }

  /** The step itself leaves the presented code absent. */
  lemma AttemptRemoves(cfg: Config, s: Server, a: Action)
    requires FailsAuthentication(cfg, s, a) || Finishes(s, a)
    ensures PresentedHash(cfg, s, a) !in Step(cfg, s, a).codes
  {
  }

  /**
   After any attempt that fails client authentication, and any that finishes an exchange, no token is
   ever issued for the presented code unless an approval stores a code with its hash again.
   */
  lemma AttemptBurnsCode(cfg: Config, start: Server, before: seq<Action>, a: Action, after: seq<Action>)
    requires Initial(start)
    requires var s := Run(cfg, start, before); FailsAuthentication(cfg, s, a) || Finishes(s, a)
    ensures var s := Run(cfg, start, before);
            AbsentSince(Run(cfg, Step(cfg, s, a), after), |Step(cfg, s, a).log|, PresentedHash(cfg, s, a))
  {
    var s := Run(cfg, start, before);
    var hash := PresentedHash(cfg, s, a);
    CodesConserved(cfg, start, before, hash);
    AttemptRemoves(cfg, s, a);
    StepMatches(cfg, s, a);
    hide Step, Run;
    AbsentThroughout(cfg, Step(cfg, s, a), after, |Step(cfg, s, a).log|, hash);
  }

  // ----- Every token traces back to one approval -----

  /** What an approval stores. */
  ghost predicate ApprovalValid(cfg: Config, e: Event)
    requires e.Stored?
  {
    var a := e.approval;
    && e.record.codeHash == cfg.sha256(e.code)
    && e.record.expiresAt == e.at + 120
    && e.record.issuer == a.issuer
    && e.record.clientId == a.client.clientId
    && e.record.employeeId == a.session.employeeId && e.record.authTime == a.session.authTime
    && e.record.redirectUri == a.request.redirectUri
    && e.record.nonce == a.request.nonce && e.record.codeChallenge == a.request.codeChallenge
    && a.request.codeChallengeMethod == "S256" && ValidChallenge(a.request.codeChallenge)
    && e.record.scopes == Split(a.request.scope, ' ') && Acceptable(e.record.scopes)
    && a.client.enabled && ScopesAllowed(a.client, e.record.scopes)
       && cfg.redirectAllowed(a.client, a.request.redirectUri)
  }

  predicate Removes(e: Event, hash: string) { e.Removed? && hash in e.hashes }

  /** Event `i` stored the record, and nothing has removed its code between then and event `n`. */
  ghost predicate StoredAt(cfg: Config, log: seq<Event>, i: nat, n: nat, record: CodeRecord) {
    && i < n <= |log|
    && log[i].Stored? && log[i].record == record && ApprovalValid(cfg, log[i])
    && (forall x | i < x < n :: !Removes(log[x], record.codeHash))
  }

  ghost predicate Backed(cfg: Config, log: seq<Event>, n: nat, record: CodeRecord) {
    exists i: nat :: StoredAt(cfg, log, i, n, record)
  }

  /** The token says what the approval said, and the redemption met every condition. */
  ghost predicate Honoured(cfg: Config, e: Event)
    requires e.Issued?
  {
    && e.token.issuer == e.redeemed.issuer
    && e.token.clientId == e.client.clientId == e.exchange.request.clientId == e.redeemed.clientId
    && Authenticates(cfg, e.client, e.exchange.request.clientId, e.exchange.authentication)
    && e.token.subject == e.redeemed.employeeId
    && e.token.nonce == e.redeemed.nonce && e.token.authTime == e.redeemed.authTime
    && e.token.scope == Join(e.redeemed.scopes, ' ') && ScopesAllowed(e.client, e.redeemed.scopes)
    && e.exchange.request.redirectUri == e.redeemed.redirectUri
    && cfg.sha256(e.exchange.request.code) == e.redeemed.codeHash
    && ValidVerifier(e.exchange.request.codeVerifier)
    && cfg.pkce(e.exchange.request.codeVerifier) == e.redeemed.codeChallenge
    && e.at < e.redeemed.expiresAt
    && e.user.employeeId == e.redeemed.employeeId && e.user.status == Active && e.client.enabled
    && ClaimsRight(e.token.claims, e.user, e.redeemed.scopes)
  }

  predicate Blank(value: Option<string>) { value.None? || Trim(value.value) == "" }

  /** Each claim is the user's own field, exactly when its scope was granted and the field is not blank. */
  ghost predicate ClaimsRight(claims: Claims, user: Person, scopes: seq<string>) {
    && claims.preferredUsername ==
       (if "profile" in scopes && !Blank(Some(user.username)) then Some(user.username) else None)
    && claims.name == (if "profile" in scopes && !Blank(Some(user.displayName)) then Some(user.displayName) else None)
    && claims.email == (if "email" in scopes && !Blank(user.email) then user.email else None)
    && ("phone" !in scopes ==> claims.phoneNumber == None)
    && ("phone" in scopes && !Blank(user.mobile) ==> claims.phoneNumber == user.mobile)
    && ("phone" in scopes && Blank(user.mobile) ==>
          claims.phoneNumber == if Blank(user.telephone) then None else user.telephone)
  }

  /** The token was issued right after the code was removed, and the code was stored until then. */
  ghost predicate IssueValid(cfg: Config, log: seq<Event>, j: nat)
    requires j < |log|
  {
    log[j].Issued? ==>
      && j > 0
      && Honoured(cfg, log[j])
      && Removes(log[j - 1], log[j].redeemed.codeHash)
      && Backed(cfg, log, j - 1, log[j].redeemed)
  }

  ghost predicate Traced(cfg: Config, s: Server) {
    && HashesMatch(s)
    && ClientsKeyed(s)
    && (forall h | h in s.codes :: Backed(cfg, s.log, |s.log|, s.codes[h]))
    && (forall j | 0 <= j < |s.log| :: IssueValid(cfg, s.log, j))
  }

  lemma BackedAppend(cfg: Config, log: seq<Event>, e: Event, record: CodeRecord)
    requires Backed(cfg, log, |log|, record) && !Removes(e, record.codeHash)
    ensures Backed(cfg, log + [e], |log| + 1, record)
  {
    hide ApprovalValid, Honoured;
    var i: nat :| StoredAt(cfg, log, i, |log|, record);
    assert StoredAt(cfg, log + [e], i, |log| + 1, record);
  }

  lemma IssueValidAppend(cfg: Config, log: seq<Event>, e: Event, j: nat)
    requires j < |log| && IssueValid(cfg, log, j)
    ensures IssueValid(cfg, log + [e], j)
  {
    hide ApprovalValid, Honoured;
    if log[j].Issued? {
      var i: nat :| StoredAt(cfg, log, i, j - 1, log[j].redeemed);
      assert StoredAt(cfg, log + [e], i, j - 1, log[j].redeemed);
    }
  }

  lemma RemoveTraced(cfg: Config, s: Server, hashes: set<string>)
    requires Traced(cfg, s)
    ensures Traced(cfg, Remove(s, hashes))
  {
    hide ApprovalValid, Honoured;
    var e := Removed(hashes * s.codes.Keys);
    forall h | h in s.codes && h !in hashes ensures Backed(cfg, s.log + [e], |s.log| + 1, s.codes[h]) {
      BackedAppend(cfg, s.log, e, s.codes[h]);
    }
    forall j | 0 <= j < |s.log| ensures IssueValid(cfg, s.log + [e], j) {
      IssueValidAppend(cfg, s.log, e, j);
    }
  }

  lemma StoreTraced(cfg: Config, s: Server, e: Event)
    requires Traced(cfg, s) && e.Stored? && e.record.codeHash !in s.codes && ApprovalValid(cfg, e)
    ensures Traced(cfg, s.(codes := s.codes[e.record.codeHash := e.record], log := s.log + [e]))
  {
    hide ApprovalValid, Honoured;
    var log := s.log + [e];
    forall h | h in s.codes ensures Backed(cfg, log, |log|, s.codes[h]) {
      BackedAppend(cfg, s.log, e, s.codes[h]);
    }
    assert StoredAt(cfg, log, |s.log|, |log|, e.record);
    forall j | 0 <= j < |s.log| ensures IssueValid(cfg, log, j) {
      IssueValidAppend(cfg, s.log, e, j);
    }
  }

  lemma ApprovalIsValid(cfg: Config, s: Server, a: Action)
    requires a.Approve? && ValidateAuthorization(cfg, s.clients, a.request).Some?
    ensures var approval := Approval(a.issuer, a.request, a.session, s.clients[a.request.clientId]);
            var scopes := ValidateAuthorization(cfg, s.clients, a.request).value;
            ApprovalValid(cfg, Stored(Record(cfg, approval, scopes, a.code, a.now), approval, a.code, a.now))
  {
    hide Acceptable, Split;
  }

  lemma ApproveTraced(cfg: Config, s: Server, a: Action)
    requires a.Approve? && Traced(cfg, s)
    ensures Traced(cfg, ApproveStep(cfg, s, a))
  {
    var scopes := ValidateAuthorization(cfg, s.clients, a.request);
    if scopes.Some? {
      var approval := Approval(a.issuer, a.request, a.session, s.clients[a.request.clientId]);
      var record := Record(cfg, approval, scopes.value, a.code, a.now);
      var e := Stored(record, approval, a.code, a.now);
      ApprovalIsValid(cfg, s, a);
      hide Traced, Remove, Expired, Acceptable, ApprovalValid;
      var cleaned := Remove(s, Expired(s, a.cleaned, a.now));
      RemoveTraced(cfg, s, Expired(s, a.cleaned, a.now));
      if record.codeHash !in cleaned.codes {
        StoreTraced(cfg, cleaned, e);
      }
    }
  }

  lemma IssueTraced(cfg: Config, s: Server, hashes: set<string>, e: Event)
    requires Traced(cfg, s) && e.Issued? && Honoured(cfg, e)
    requires e.redeemed.codeHash in hashes && e.redeemed.codeHash in s.codes
             && s.codes[e.redeemed.codeHash] == e.redeemed
    ensures Traced(cfg, Remove(s, hashes).(log := Remove(s, hashes).log + [e]))
  {
    hide ApprovalValid, Honoured;
    RemoveTraced(cfg, s, hashes);
    var removed := Remove(s, hashes);
    var log := removed.log + [e];
    forall h | h in removed.codes ensures Backed(cfg, log, |log|, removed.codes[h]) {
      BackedAppend(cfg, removed.log, e, removed.codes[h]);
    }
    forall j | 0 <= j < |removed.log| ensures IssueValid(cfg, log, j) {
      IssueValidAppend(cfg, removed.log, e, j);
    }
    var i: nat :| StoredAt(cfg, s.log, i, |s.log|, e.redeemed);
    assert StoredAt(cfg, log, i, |s.log|, e.redeemed);
    assert IssueValid(cfg, log, |removed.log|);
  }

  lemma MayIssueHonoured(cfg: Config, s: Server, e: Exchange, record: CodeRecord, now: nat)
    requires ClientsKeyed(s) && MayIssue(cfg, s, e, record, now) && record.codeHash == cfg.sha256(e.request.code)
    ensures var user, client := s.users[record.employeeId], s.clients[record.clientId];
            Honoured(cfg, Issued(TokenFor(e.issuer, record, user, client), record, e, user, client, now))
  {
  }

  lemma FinishTraced(cfg: Config, s: Server, a: Action)
    requires a.FinishExchange? && Traced(cfg, s)
    ensures Traced(cfg, FinishStep(cfg, s, a))
  {
    hide ApprovalValid, Honoured, IssueValid, Backed;
    if a.id in s.exchanges {
      var e := s.exchanges[a.id];
      var hash := cfg.sha256(e.request.code);
      RemoveTraced(cfg, s, {hash});
      if hash in s.codes && MayIssue(cfg, s, e, s.codes[hash], a.now) {
        var record := s.codes[hash];
        var user, client := s.users[record.employeeId], s.clients[record.clientId];
        MayIssueHonoured(cfg, s, e, record, a.now);
        IssueTraced(cfg, s, {hash}, Issued(TokenFor(e.issuer, record, user, client), record, e, user, client, a.now));
      }
    }
  }

  lemma StepTraced(cfg: Config, s: Server, a: Action)
    requires Traced(cfg, s)
    ensures Traced(cfg, Step(cfg, s, a))
  {
    hide IssueValid, Backed, MayIssue, Authenticates;
    match a
    case Approve(_, _, _, _, _, _) => ApproveTraced(cfg, s, a);
    case BeginExchange(_, _, request, _, _) => RemoveTraced(cfg, s, {cfg.sha256(request.code)});
    case FinishExchange(_, _, _) => FinishTraced(cfg, s, a);
    case DeleteUser(id) => RemoveTraced(cfg, s, CodesOf(s, id));
    case _ =>
  }

  lemma {:induction false} RunTraced(cfg: Config, s: Server, actions: seq<Action>)
    requires Initial(s)
    ensures Traced(cfg, Run(cfg, s, actions))
  {
    if actions != [] {
      RunTraced(cfg, s, actions[..|actions| - 1]);
      StepTraced(cfg, Run(cfg, s, actions[..|actions| - 1]), actions[|actions| - 1]);
    }
  }

  /** The token carries what the user approved, and the redemption answered that approval in time. */
  ghost predicate Answers(cfg: Config, issued: Event, stored: Event)
    requires issued.Issued? && stored.Stored?
  {
    var token, approval, request := issued.token, stored.approval, issued.exchange.request;
    && token.issuer == approval.issuer
    && token.subject == approval.session.employeeId && token.authTime == approval.session.authTime
    && token.clientId == request.clientId == approval.client.clientId
    && request.redirectUri == approval.request.redirectUri
    && token.scope == approval.request.scope
    && token.nonce == approval.request.nonce
    && cfg.pkce(request.codeVerifier) == approval.request.codeChallenge
    && issued.at < stored.at + 120
  }

  /**
   Every issued token goes back to an earlier approval whose code nothing else removed, carries
   what that approval said, and was redeemed less than 120 seconds after it.
   */
  lemma TokenHasApproval(cfg: Config, s: Server, actions: seq<Action>, j: nat) returns (i: nat)
    requires Initial(s)
    requires j < |Run(cfg, s, actions).log| && Run(cfg, s, actions).log[j].Issued?
    ensures var log := Run(cfg, s, actions).log;
            && i < j
            && StoredAt(cfg, log, i, j - 1, log[j].redeemed)
            && Honoured(cfg, log[j])
            && Answers(cfg, log[j], log[i])
  {
    RunTraced(cfg, s, actions);
    var log := Run(cfg, s, actions).log;
    assert IssueValid(cfg, log, j);
    i :| StoredAt(cfg, log, i, j - 1, log[j].redeemed);
    JoinSplit(log[i].approval.request.scope, ' ');
  }

  /** Two tokens never go back to the same approval. */
  lemma TokensHaveDifferentApprovals(cfg: Config, s: Server, actions: seq<Action>, j: nat, j': nat, i: nat)
    requires Initial(s)
    requires var log := Run(cfg, s, actions).log;
             && 0 < j < j' < |log| && log[j].Issued? && log[j'].Issued?
             && StoredAt(cfg, log, i, j - 1, log[j].redeemed)
    ensures var log := Run(cfg, s, actions).log; !StoredAt(cfg, log, i, j' - 1, log[j'].redeemed)
  {
    RunTraced(cfg, s, actions);
    var log := Run(cfg, s, actions).log;
    assert IssueValid(cfg, log, j) && IssueValid(cfg, log, j');
    assert Removes(log[j - 1], log[j].redeemed.codeHash);
  }

  /** With an injective hash, the code presented is the very code that the approval handed out. */
  lemma RedeemedCodeIsApprovedCode(cfg: Config, s: Server, actions: seq<Action>, j: nat, i: nat)
    requires Initial(s) && forall x, y :: cfg.sha256(x) == cfg.sha256(y) ==> x == y
    requires var log := Run(cfg, s, actions).log;
             0 < j < |log| && log[j].Issued? && StoredAt(cfg, log, i, j - 1, log[j].redeemed)
    ensures var log := Run(cfg, s, actions).log; log[j].exchange.request.code == log[i].code
  {
    RunTraced(cfg, s, actions);
    assert IssueValid(cfg, Run(cfg, s, actions).log, j);
  }

  /** At redemption the scope check rejects a stored code exactly when the client has lost one of its scopes. */
  lemma ScopeRejectionExactly(cfg: Config, s: Server, actions: seq<Action>, hash: string, client: Client)
    requires Initial(s) && hash in Run(cfg, s, actions).codes
    ensures var record := Run(cfg, s, actions).codes[hash];
            !ScopesStillGranted(record, client) <==>
            exists scope :: scope in record.scopes && scope !in client.allowedScopes
  {
    RunTraced(cfg, s, actions);
    var log := Run(cfg, s, actions).log;
    var record := Run(cfg, s, actions).codes[hash];
    var i: nat :| StoredAt(cfg, log, i, |log|, record);
    JoinedScopesValidate(record.scopes);
    hide Run;
  }
}
