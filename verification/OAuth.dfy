/** Rotating connection credentials: code exchange, refresh with replay detection, revocation and resolution, running
    concurrently over the atomic store contract. Secrets are numbers drawn fresh; a secret stands for its hash too. */
module OAuth {
  import opened Wrappers

  type Secret = nat
  type Time = nat  // 0 is the zero time

  const MINUTE := 60
  const ACCESS_TTL := 5 * MINUTE
  const MAX_ACCESS_TTL := 60 * MINUTE
  const REFRESH_TTL := 30 * 24 * 60 * MINUTE
  const MAX_REFRESH_TTL := 90 * 24 * 60 * MINUTE

  /** What the policy resolves a grant to right now. */
  datatype Grant = Grant(id: string, version: nat, consumer: string, provider: string, revoked: bool, expiresAt: Time)

  datatype Client = Client(id: string, tenant: string, redirects: set<string>)

  datatype Code = Code(
    client: string, redirect: string, challenge: string, grant: string, version: nat, expiresAt: Time)

  /** `grantExpires` and `predecessor` record how the token came about; the source stores the rest. */
  datatype Token = Token(
    access: Secret, refresh: Secret, family: Secret, client: string, grant: string, version: nat,
    expiresAt: Time, refreshExpiresAt: Time, rotated: bool, revoked: bool,
    grantExpires: Time, predecessor: Option<Secret>)

  datatype StoreError = Replay | Unavailable | NotFound

  /** Durable storage: codes and the families they were exchanged for, tokens by refresh secret, and an access index. */
  datatype Storage = Storage(
    codes: map<Secret, Code>,
    consumed: map<Secret, Secret>,
    tokens: map<Secret, Token>,
    byAccess: map<Secret, Secret>)

  // ---- The store contract: each operation is atomic ----

  function Insert(d: Storage, t: Token): Storage {
    d.(tokens := d.tokens[t.refresh := t], byAccess := d.byAccess[t.access := t.refresh])
  }

  function ConsumeCode(d: Storage, code: Secret, t: Token, now: Time): Result<Storage, StoreError> {
    if code in d.consumed then Err(Replay)
    else if code !in d.codes || now >= d.codes[code].expiresAt then Err(Unavailable)
    else Ok(Insert(d.(consumed := d.consumed[code := t.family]), t))
  }

  function RotateToken(d: Storage, refresh: Secret, t: Token, now: Time): Result<Storage, StoreError> {
    if refresh !in d.tokens then Err(NotFound)
    else if d.tokens[refresh].rotated then Err(Replay)
    else if || d.tokens[refresh].revoked || now >= d.tokens[refresh].refreshExpiresAt
            || t.family != d.tokens[refresh].family
    then Err(Unavailable)
    else Ok(Insert(d.(tokens := d.tokens[refresh := d.tokens[refresh].(rotated := true)]), t))
  }

  function RevokeFamily(d: Storage, family: Secret): Storage {
    d.(tokens := map r | r in d.tokens ::
                   if d.tokens[r].family == family then d.tokens[r].(revoked := true) else d.tokens[r])
  }

  function LoadAccess(d: Storage, access: Secret): Option<Token> {
    if access in d.byAccess && d.byAccess[access] in d.tokens then Some(d.tokens[d.byAccess[access]]) else None
  }

  /** The token a secret belongs to, looked up as a refresh secret first. */
  function Presented(d: Storage, secret: Secret): Option<Token> {
    if secret in d.tokens then Some(d.tokens[secret]) else LoadAccess(d, secret)
  }

  // ---- The provider's checks ----

  function Bounded(value: int, fallback: nat, maximum: nat): nat {
    if value <= 0 || value > maximum then fallback else value
  }

  function Min(a: nat, b: nat): nat {
    if a < b then a else b
  }

  predicate Current(g: Grant, client: Client, provider: string, grant: string, version: nat, now: Time) {
    && !g.revoked && now < g.expiresAt && g.id == grant && g.version == version
    && g.consumer == client.tenant && g.provider == provider
  }

  /** `tokens`: a zero `refreshExpiry` starts a new lifetime, any other is only ever shortened. */
  function Mint(c: Client, g: Grant, access: Secret, refresh: Secret, family: Secret, refreshExpiry: Time, now: Time,
                accessTTL: int, refreshTTL: int, predecessor: Option<Secret>): Token
  {
    var lifetime :=
      if refreshExpiry == 0 then now + Bounded(refreshTTL, REFRESH_TTL, MAX_REFRESH_TTL) else refreshExpiry;
    var refreshExpires := Min(g.expiresAt, lifetime);
    var expires := Min(refreshExpires, now + Bounded(accessTTL, ACCESS_TTL, MAX_ACCESS_TTL));
    Token(access, refresh, family, c.id, g.id, g.version, expires, refreshExpires, false, false,
          g.expiresAt, predecessor)
  }

  predicate CodeAccepted(a: Code, c: Client, redirect: string, challenge: string, now: Time) {
    && redirect in c.redirects && a.client == c.id && a.redirect == redirect
    && now < a.expiresAt && a.challenge == challenge
  }

  predicate RefreshAccepted(t: Token, c: Client, now: Time) {
    t.client == c.id && !t.revoked && now < t.refreshExpiresAt
  }

  predicate AccessAccepted(t: Token, now: Time) {
    !t.revoked && !t.rotated && now < t.expiresAt
  }

  // ---- Concurrent requests ----

  datatype Answer = Issued(t: Token) | Denied | Replayed(family: Secret) | StoreFailed | Revoked(family: Secret)

  /** Where a request stands between its store operations. */
  datatype Request =
    | CodeLoaded(client: Client, code: Secret, a: Code)
    | CodeMinted(code: Secret, t: Token)
    | RefreshLoaded(client: Client, prior: Token)
    | RefreshMinted(prior: Token, t: Token)
    | MustRevoke(family: Secret)
    | Revoking(family: Secret)
    | Done(answer: Answer)

  datatype State = State(d: Storage, requests: map<nat, Request>, next: Secret, revokedFamilies: set<Secret>)

  const INIT := State(Storage(map[], map[], map[], map[]), map[], 0, {})

  datatype Event =
    | Authorize(issued: Code)
    | StartExchange(r: nat, c: Client, code: Secret, redirect: string, challenge: string, now: Time)
    | StartRefresh(r: nat, c: Client, refresh: Secret, now: Time)
    | StartRevoke(r: nat, c: Client, secret: Secret)
    | MintFor(r: nat, provider: string, g: Grant, checked: Time, now: Time, accessTTL: int, refreshTTL: int)
    | Commit(r: nat, now: Time, up: bool)

  function WithRequest(s: State, r: nat, q: Request): State {
    s.(requests := s.requests[r := q])
  }

  function StartExchangeStep(
    s: State, r: nat, c: Client, code: Secret, redirect: string, challenge: string, now: Time): State
  {
    if r in s.requests then s
    else if code in s.d.codes && CodeAccepted(s.d.codes[code], c, redirect, challenge, now)
    then WithRequest(s, r, CodeLoaded(c, code, s.d.codes[code]))
    else WithRequest(s, r, Done(Denied))
  }

  /** A rotated token presented again is a replay: its family must go before the caller is told. */
  function StartRefreshStep(s: State, r: nat, c: Client, refresh: Secret, now: Time): State {
    if r in s.requests then s
    else if refresh in s.d.tokens && RefreshAccepted(s.d.tokens[refresh], c, now) then
      var prior := s.d.tokens[refresh];
      WithRequest(s, r, if prior.rotated then MustRevoke(prior.family) else RefreshLoaded(c, prior))
    else WithRequest(s, r, Done(Denied))
  }

  /** Either kind of token may be presented for revocation; another client's, or an unknown one, is ignored. */
  function StartRevokeStep(s: State, r: nat, c: Client, secret: Secret): State {
    if r in s.requests then s else
    var t := Presented(s.d, secret);
    WithRequest(s, r, if t.Some? && t.value.client == c.id then Revoking(t.value.family) else Done(Denied))
  }

  /** `current` and `tokens` for a loaded code: three fresh secrets, the third names the new family. */
  function MintForCode(s: State, r: nat, q: Request, provider: string, g: Grant, checked: Time, now: Time,
                       accessTTL: int, refreshTTL: int): State
    requires q.CodeLoaded?
  {
    if !Current(g, q.client, provider, q.a.grant, q.a.version, checked) then WithRequest(s, r, Done(Denied)) else
    var t := Mint(q.client, g, s.next, s.next + 1, s.next + 2, 0, now, accessTTL, refreshTTL, None);
    WithRequest(s.(next := s.next + 3), r, CodeMinted(q.code, t))
  }

  /** The same for a loaded refresh token: two fresh secrets, the family and at most the remaining lifetime stay. */
  function MintForRefresh(s: State, r: nat, q: Request, provider: string, g: Grant, checked: Time, now: Time,
                          accessTTL: int, refreshTTL: int): State
    requires q.RefreshLoaded?
  {
    if !Current(g, q.client, provider, q.prior.grant, q.prior.version, checked)
    then WithRequest(s, r, Done(Denied)) else
    var t := Mint(q.client, g, s.next, s.next + 1, q.prior.family, q.prior.refreshExpiresAt, now, accessTTL, refreshTTL,
                  Some(q.prior.refresh));
    WithRequest(s.(next := s.next + 2), r, RefreshMinted(q.prior, t))
  }

  function MintStep(
    s: State, r: nat, provider: string, g: Grant, checked: Time, now: Time, accessTTL: int, refreshTTL: int): State
  {
    if r !in s.requests then s
    else if s.requests[r].CodeLoaded? then
      MintForCode(s, r, s.requests[r], provider, g, checked, now, accessTTL, refreshTTL)
    else if s.requests[r].RefreshLoaded? then
      MintForRefresh(s, r, s.requests[r], provider, g, checked, now, accessTTL, refreshTTL)
    else s
  }

  /** `ConsumeCode`; a second consumer of the same code is told its grant is invalid. */
  function CommitCode(s: State, r: nat, code: Secret, t: Token, now: Time): State {
    match ConsumeCode(s.d, code, t, now)
    case Ok(d) => WithRequest(s.(d := d), r, Done(Issued(t)))
    case Err(Replay) => WithRequest(s, r, Done(Denied))
    case Err(_) => WithRequest(s, r, Done(StoreFailed))
  }

  /** `RotateToken`; losing the race to rotate is a replay too. */
  function CommitRefresh(s: State, r: nat, prior: Token, t: Token, now: Time): State {
    match RotateToken(s.d, prior.refresh, t, now)
    case Ok(d) => WithRequest(s.(d := d), r, Done(Issued(t)))
    case Err(Replay) => WithRequest(s, r, MustRevoke(prior.family))
    case Err(_) => WithRequest(s, r, Done(StoreFailed))
  }

  function CommitRevoke(s: State, r: nat, family: Secret, answer: Answer): State {
    WithRequest(s.(d := RevokeFamily(s.d, family), revokedFamilies := s.revokedFamilies + {family}), r, Done(answer))
  }

  /** The request's pending store operation; `up` is false when the store cannot be reached. */
  function CommitStep(s: State, r: nat, now: Time, up: bool): State {
    if r !in s.requests || s.requests[r].Done? || s.requests[r].CodeLoaded? || s.requests[r].RefreshLoaded? then s
    else if !up then WithRequest(s, r, Done(StoreFailed))
    else match s.requests[r]
    case CodeMinted(code, t) => CommitCode(s, r, code, t, now)
    case RefreshMinted(prior, t) => CommitRefresh(s, r, prior, t, now)
    case MustRevoke(family) => CommitRevoke(s, r, family, Replayed(family))
    case Revoking(family) => CommitRevoke(s, r, family, Revoked(family))
  }

  function Next(s: State, e: Event): State {
    match e
    case Authorize(issued) => s.(d := s.d.(codes := s.d.codes[s.next := issued]), next := s.next + 1)
    case StartExchange(r, c, code, redirect, challenge, now) =>
      StartExchangeStep(s, r, c, code, redirect, challenge, now)
    case StartRefresh(r, c, refresh, now) => StartRefreshStep(s, r, c, refresh, now)
    case StartRevoke(r, c, secret) => StartRevokeStep(s, r, c, secret)
    case MintFor(r, provider, g, checked, now, accessTTL, refreshTTL) =>
      MintStep(s, r, provider, g, checked, now, accessTTL, refreshTTL)
    case Commit(r, now, up) => CommitStep(s, r, now, up)
  }

  function Run(s: State, es: seq<Event>): State
    decreases |es|
  {
    if es == [] then s else Run(Next(s, es[0]), es[1..])
  }

  // ---- What every step keeps ----

  predicate Live(t: Token) {
    !t.rotated && !t.revoked
  }

  /** `a` is `b` up to the marks rotation and revocation leave. */
  ghost predicate SameToken(a: Token, b: Token) {
    a.(rotated := false, revoked := false) == b.(rotated := false, revoked := false)
  }

  function Families(d: Storage): set<Secret> {
    set r | r in d.tokens :: d.tokens[r].family
  }

  ghost predicate TokensSound(s: State) {
    && (forall r :: r in s.d.tokens ==>
          var t := s.d.tokens[r];
          && t.refresh == r && r < s.next && t.access < s.next && t.family < s.next
          && t.expiresAt <= t.refreshExpiresAt <= t.grantExpires
          && (t.family in s.revokedFamilies ==> t.revoked))
    && s.revokedFamilies <= Families(s.d)
    && (forall a :: a in s.d.byAccess ==> s.d.byAccess[a] in s.d.tokens && s.d.tokens[s.d.byAccess[a]].access == a)
  }

  ghost predicate SoleLive(tokens: map<Secret, Token>, a: Secret, b: Secret) {
    a in tokens && b in tokens && Live(tokens[a]) && Live(tokens[b]) && tokens[a].family == tokens[b].family ==>
      a == b
  }

  ghost predicate OneLivePerFamily(s: State) {
    forall a, b :: SoleLive(s.d.tokens, a, b)
  }

  ghost predicate OneFamilyEach(consumed: map<Secret, Secret>, a: Secret, b: Secret) {
    (a in consumed && b in consumed && consumed[a] == consumed[b]) ==> a == b
  }

  /** Tokens of a family stem from one consumed code, and consumed codes have distinct families. */
  ghost predicate FamiliesFromCodes(s: State) {
    && (forall c :: c in s.d.consumed ==> s.d.consumed[c] < s.next)
    && (forall a, b :: OneFamilyEach(s.d.consumed, a, b))
    && (forall r :: r in s.d.tokens ==> s.d.tokens[r].family in s.d.consumed.Values)
  }

  /** A successor names a rotated token of its family, for the same client and grant, which it does not outlive. */
  ghost predicate Succeeds(tokens: map<Secret, Token>, r: Secret) {
    r in tokens && tokens[r].predecessor.Some? ==>
      && tokens[r].predecessor.value in tokens
      && var t, p := tokens[r], tokens[tokens[r].predecessor.value];
         p.rotated && p.family == t.family && p.client == t.client && p.grant == t.grant && p.version == t.version &&
         t.refreshExpiresAt <= p.refreshExpiresAt
  }

  ghost predicate OnlySuccessor(tokens: map<Secret, Token>, a: Secret, b: Secret) {
    a in tokens && b in tokens && tokens[a].predecessor.Some? && tokens[a].predecessor == tokens[b].predecessor ==>
      a == b
  }

  ghost predicate Succession(s: State) {
    && (forall r :: Succeeds(s.d.tokens, r))
    && (forall a, b :: OnlySuccessor(s.d.tokens, a, b))
  }

  /** A minted token nobody has seen yet: its secrets were drawn for it alone. */
  ghost predicate Unused(s: State, t: Token) {
    && t.refresh < s.next && t.access < s.next && t.family < s.next
    && t.refresh !in s.d.tokens && t.access !in s.d.byAccess
    && Live(t) && t.expiresAt <= t.refreshExpiresAt <= t.grantExpires
  }

  ghost predicate RequestSound(s: State, q: Request) {
    match q
    case CodeLoaded(c, code, a) => true
    case CodeMinted(code, t) =>
      && Unused(s, t) && t.predecessor == None
      && t.family !in s.d.consumed.Values
    case RefreshLoaded(c, prior) =>
      && prior.client == c.id && 0 < prior.refreshExpiresAt
      && prior.refresh in s.d.tokens && SameToken(prior, s.d.tokens[prior.refresh])
    case RefreshMinted(prior, t) =>
      && Unused(s, t) && t.predecessor == Some(prior.refresh)
      && t.family == prior.family && t.client == prior.client && t.grant == prior.grant && t.version == prior.version
      && t.refreshExpiresAt <= prior.refreshExpiresAt
      && prior.refresh in s.d.tokens && SameToken(prior, s.d.tokens[prior.refresh])
    case MustRevoke(family) => family in Families(s.d)
    case Revoking(family) => family in Families(s.d)
    case Done(Replayed(family)) => family in s.revokedFamilies
    case Done(Revoked(family)) => family in s.revokedFamilies
    case Done(_) => true
  }

  /** The secrets a request has drawn and not yet handed to the store. */
  function Drawn(q: Request): set<Secret> {
    match q
    case CodeMinted(_, t) => {t.access, t.refresh, t.family}
    case RefreshMinted(_, t) => {t.access, t.refresh}
    case _ => {}
  }

  ghost predicate Apart(requests: map<nat, Request>, a: nat, b: nat) {
    (a in requests && b in requests && a != b) ==> Drawn(requests[a]) !! Drawn(requests[b])
  }

  ghost predicate AllApart(requests: map<nat, Request>) {
    forall a, b :: Apart(requests, a, b)
  }

  ghost predicate RequestsSound(s: State) {
    && (forall r :: r in s.requests ==> RequestSound(s, s.requests[r]))
    && AllApart(s.requests)
  }

  ghost predicate Inv(s: State) {
    TokensSound(s) && OneLivePerFamily(s) && FamiliesFromCodes(s) && Succession(s) && RequestsSound(s)
  }

  // ---- Steps that leave the storage alone ----

  lemma RequestMoves(s: State, r: nat, q: Request)
    requires Inv(s) && RequestSound(s, q)
    requires r !in s.requests || Drawn(q) <= Drawn(s.requests[r])
    requires r !in s.requests ==> Drawn(q) == {}
    ensures Inv(WithRequest(s, r, q))
  {
    forall b | b in s.requests && b != r ensures Drawn(q) !! Drawn(s.requests[b]) {
      assert Apart(s.requests, r, b);
    }
    ApartWith(s.requests, r, q);
    RequestReplaced(s, r, q);
  }

  lemma ApartWith(requests: map<nat, Request>, r: nat, q: Request)
    requires AllApart(requests)
    requires forall b :: b in requests && b != r ==> Drawn(q) !! Drawn(requests[b])
    ensures AllApart(requests[r := q])
  {
    var after := requests[r := q];
    forall a, b | true ensures Apart(after, a, b) {
      assert Apart(requests, a, b);
    }
  }

  lemma RequestReplaced(s: State, r: nat, q: Request)
    requires Inv(s) && RequestSound(s, q) && AllApart(s.requests[r := q])
    ensures Inv(WithRequest(s, r, q))
  {
    var s' := WithRequest(s, r, q);
    forall x | x in s'.requests ensures RequestSound(s', s'.requests[x]) {
      assert x in s.requests ==> RequestSound(s, s.requests[x]);
    }
  }

  lemma StartExchangeKeeps(s: State, r: nat, c: Client, code: Secret, redirect: string, challenge: string, now: Time)
    requires Inv(s)
    ensures Inv(StartExchangeStep(s, r, c, code, redirect, challenge, now))
  {
    if r !in s.requests {
      if code in s.d.codes {
        RequestMoves(s, r, CodeLoaded(c, code, s.d.codes[code]));
      }
      RequestMoves(s, r, Done(Denied));
    }
  }

  lemma StartRefreshKeeps(s: State, r: nat, c: Client, refresh: Secret, now: Time)
    requires Inv(s)
    ensures Inv(StartRefreshStep(s, r, c, refresh, now))
  {
    if r !in s.requests {
      if refresh in s.d.tokens && RefreshAccepted(s.d.tokens[refresh], c, now) {
        var prior := s.d.tokens[refresh];
        RequestMoves(s, r, if prior.rotated then MustRevoke(prior.family) else RefreshLoaded(c, prior));
      }
      RequestMoves(s, r, Done(Denied));
    }
  }

  lemma StartRevokeKeeps(s: State, r: nat, c: Client, secret: Secret)
    requires Inv(s)
    ensures Inv(StartRevokeStep(s, r, c, secret))
  {
    if r !in s.requests {
      var t := Presented(s.d, secret);
      if t.Some? {
        assert t.value.family in Families(s.d);
        RequestMoves(s, r, Revoking(t.value.family));
      }
      RequestMoves(s, r, Done(Denied));
    }
  }

  // ---- Drawing secrets ----

  lemma DrawnAreOld(s: State, q: Request)
    requires RequestSound(s, q)
    ensures forall x :: x in Drawn(q) ==> x < s.next
  {
  }

  lemma NextGrows(s: State, next: Secret)
    requires Inv(s) && s.next <= next
    ensures Inv(s.(next := next))
  {
    var s' := s.(next := next);
    forall r | r in s'.requests ensures RequestSound(s', s'.requests[r]) {
      assert RequestSound(s, s.requests[r]);
    }
  }

  lemma RequestMints(s: State, r: nat, q: Request)
    requires Inv(s) && RequestSound(s, q)
    requires forall b :: b in s.requests && b != r ==> Drawn(q) !! Drawn(s.requests[b])
    ensures Inv(WithRequest(s, r, q))
  {
    ApartWith(s.requests, r, q);
    RequestReplaced(s, r, q);
  }

  /** What has not been drawn yet occurs nowhere. */
  lemma UndrawnIsUnknown(s: State, x: Secret)
    requires Inv(s) && x >= s.next
    ensures x !in s.d.tokens && x !in s.d.byAccess && x !in s.d.consumed.Values
    ensures forall b :: b in s.requests ==> x !in Drawn(s.requests[b])
  {
    forall b | b in s.requests ensures x !in Drawn(s.requests[b]) {
      DrawnAreOld(s, s.requests[b]);
    }
  }

  lemma RequestDraws(s: State, next: Secret, r: nat, q: Request)
    requires Inv(s) && s.next <= next && RequestSound(s.(next := next), q)
    requires forall x :: x in Drawn(q) ==> x >= s.next
    ensures Inv(WithRequest(s.(next := next), r, q))
  {
    NextGrows(s, next);
    forall b | b in s.requests && b != r ensures Drawn(q) !! Drawn(s.requests[b]) {
      DrawnAreOld(s, s.requests[b]);
    }
    RequestMints(s.(next := next), r, q);
  }

  lemma MintedForCodeSound(s: State, t: Token, code: Secret)
    requires s.next + 1 !in s.d.tokens && s.next !in s.d.byAccess && s.next + 2 !in s.d.consumed.Values
    requires t.access == s.next && t.refresh == s.next + 1 && t.family == s.next + 2
    requires Live(t) && t.expiresAt <= t.refreshExpiresAt <= t.grantExpires && t.predecessor == None
    ensures RequestSound(s.(next := s.next + 3), CodeMinted(code, t))
  {
  }

  lemma MintCodeKeeps(s: State, r: nat, t: Token, code: Secret)
    requires Inv(s) && r in s.requests
    requires t.access == s.next && t.refresh == s.next + 1 && t.family == s.next + 2
    requires Live(t) && t.expiresAt <= t.refreshExpiresAt <= t.grantExpires && t.predecessor == None
    ensures Inv(WithRequest(s.(next := s.next + 3), r, CodeMinted(code, t)))
  {
    UndrawnIsUnknown(s, s.next);
    UndrawnIsUnknown(s, s.next + 1);
    UndrawnIsUnknown(s, s.next + 2);
    MintedForCodeSound(s, t, code);
    RequestDraws(s, s.next + 3, r, CodeMinted(code, t));
  }

  lemma MintedForRefreshSound(s: State, t: Token, prior: Token, next: Secret)
    requires TokensSound(s) && prior.refresh in s.d.tokens && SameToken(prior, s.d.tokens[prior.refresh])
    requires t.access == s.next && t.refresh == s.next + 1 && t.family == prior.family && next == s.next + 2
    requires t.access !in s.d.byAccess && t.refresh !in s.d.tokens
    requires t.client == prior.client && t.grant == prior.grant && t.version == prior.version
    requires t.refreshExpiresAt <= prior.refreshExpiresAt && t.predecessor == Some(prior.refresh)
    requires Live(t) && t.expiresAt <= t.refreshExpiresAt <= t.grantExpires
    ensures RequestSound(s.(next := next), RefreshMinted(prior, t))
  {
    assert t.family == s.d.tokens[prior.refresh].family;
  }

  lemma MintRefreshKeeps(s: State, r: nat, t: Token, prior: Token)
    requires Inv(s) && r in s.requests && prior.refresh in s.d.tokens && SameToken(prior, s.d.tokens[prior.refresh])
    requires t.access == s.next && t.refresh == s.next + 1 && t.family == prior.family
    requires t.client == prior.client && t.grant == prior.grant && t.version == prior.version
    requires t.refreshExpiresAt <= prior.refreshExpiresAt && t.predecessor == Some(prior.refresh)
    requires Live(t) && t.expiresAt <= t.refreshExpiresAt <= t.grantExpires
    ensures Inv(WithRequest(s.(next := s.next + 2), r, RefreshMinted(prior, t)))
  {
    UndrawnIsUnknown(s, s.next);
    UndrawnIsUnknown(s, s.next + 1);
    MintedForRefreshSound(s, t, prior, s.next + 2);
    RequestDraws(s, s.next + 2, r, RefreshMinted(prior, t));
  }

  lemma MintFacts(c: Client, g: Grant, access: Secret, refresh: Secret, family: Secret, refreshExpiry: Time, now: Time,
                  accessTTL: int, refreshTTL: int, predecessor: Option<Secret>)
    ensures
      var t := Mint(c, g, access, refresh, family, refreshExpiry, now, accessTTL, refreshTTL, predecessor);
      && t.expiresAt <= t.refreshExpiresAt <= t.grantExpires == g.expiresAt && Live(t)
      && (refreshExpiry > 0 ==> t.refreshExpiresAt <= refreshExpiry)
      && t.expiresAt <= now + MAX_ACCESS_TTL
      && (refreshExpiry == 0 ==> t.refreshExpiresAt <= now + MAX_REFRESH_TTL)
      && t.expiresAt in {t.refreshExpiresAt, now + if 0 < accessTTL <= MAX_ACCESS_TTL then accessTTL else ACCESS_TTL}
      && t.refreshExpiresAt in {g.expiresAt, if refreshExpiry > 0 then refreshExpiry else
                                 now + if 0 < refreshTTL <= MAX_REFRESH_TTL then refreshTTL else REFRESH_TTL}
      && t.access == access && t.refresh == refresh && t.family == family
      && t.client == c.id && t.grant == g.id && t.version == g.version && t.predecessor == predecessor
  {
  }

  lemma DoneKeeps(s: State, r: nat, answer: Answer)
    requires Inv(s) && r in s.requests && !answer.Replayed? && !answer.Revoked?
    ensures Inv(WithRequest(s, r, Done(answer)))
  {
    RequestMoves(s, r, Done(answer));
  }

  lemma MintForCodeKeeps(
      s: State, r: nat, provider: string, g: Grant, checked: Time, now: Time, accessTTL: int, refreshTTL: int)
    requires Inv(s) && r in s.requests && s.requests[r].CodeLoaded?
    ensures Inv(MintForCode(s, r, s.requests[r], provider, g, checked, now, accessTTL, refreshTTL))
  {
    var q := s.requests[r];
    if Current(g, q.client, provider, q.a.grant, q.a.version, checked) {
      MintFacts(q.client, g, s.next, s.next + 1, s.next + 2, 0, now, accessTTL, refreshTTL, None);
      var t := Mint(q.client, g, s.next, s.next + 1, s.next + 2, 0, now, accessTTL, refreshTTL, None);
      MintCodeKeeps(s, r, t, q.code);
    } else {
      DoneKeeps(s, r, Denied);
    }
  }

  lemma LoadedIsStored(s: State, r: nat)
    requires RequestsSound(s) && r in s.requests && s.requests[r].RefreshLoaded?
    ensures
      var prior := s.requests[r].prior;
      prior.refresh in s.d.tokens && SameToken(prior, s.d.tokens[prior.refresh]) && 0 < prior.refreshExpiresAt
      && prior.client == s.requests[r].client.id
  {
    assert RequestSound(s, s.requests[r]);
  }

  lemma MintForRefreshKeeps(
      s: State, r: nat, provider: string, g: Grant, checked: Time, now: Time, accessTTL: int, refreshTTL: int)
    requires Inv(s) && r in s.requests && s.requests[r].RefreshLoaded?
    ensures Inv(MintForRefresh(s, r, s.requests[r], provider, g, checked, now, accessTTL, refreshTTL))
  {
    var c, prior := s.requests[r].client, s.requests[r].prior;
    LoadedIsStored(s, r);
    if !Current(g, c, provider, prior.grant, prior.version, checked) {
      DoneKeeps(s, r, Denied);
    } else {
      var t := SuccessorOf(s, c, g, prior, now, accessTTL, refreshTTL);
      MintRefreshKeeps(s, r, t, prior);
    }
  }

  lemma SuccessorOf(s: State, c: Client, g: Grant, prior: Token, now: Time, accessTTL: int, refreshTTL: int)
    returns (t: Token)
    requires g.id == prior.grant && g.version == prior.version && c.id == prior.client && 0 < prior.refreshExpiresAt
    ensures t == Mint(c, g, s.next, s.next + 1, prior.family, prior.refreshExpiresAt, now, accessTTL, refreshTTL,
                      Some(prior.refresh))
    ensures t.access == s.next && t.refresh == s.next + 1 && t.family == prior.family
    ensures t.client == prior.client && t.grant == prior.grant && t.version == prior.version
    ensures t.refreshExpiresAt <= prior.refreshExpiresAt && t.predecessor == Some(prior.refresh)
    ensures Live(t) && t.expiresAt <= t.refreshExpiresAt <= t.grantExpires
  {
    var expiry, predecessor := prior.refreshExpiresAt, Some(prior.refresh);
    MintFacts(c, g, s.next, s.next + 1, prior.family, expiry, now, accessTTL, refreshTTL, predecessor);
    t := Mint(c, g, s.next, s.next + 1, prior.family, expiry, now, accessTTL, refreshTTL, predecessor);
  }

  lemma MintKeeps(
      s: State, r: nat, provider: string, g: Grant, checked: Time, now: Time, accessTTL: int, refreshTTL: int)
    requires Inv(s)
    ensures Inv(MintStep(s, r, provider, g, checked, now, accessTTL, refreshTTL))
  {
    if r in s.requests {
      if s.requests[r].CodeLoaded? {
        MintForCodeKeeps(s, r, provider, g, checked, now, accessTTL, refreshTTL);
      } else if s.requests[r].RefreshLoaded? {
        MintForRefreshKeeps(s, r, provider, g, checked, now, accessTTL, refreshTTL);
      }
    }
  }

  // ---- Store operations ----

  /** Tokens differ at most by marks: rotation marks as before, revocation marks only added. */
  ghost predicate OnlyRevokes(d: Storage, d': Storage) {
    && d'.codes == d.codes && d'.consumed == d.consumed && d'.byAccess == d.byAccess
    && d'.tokens.Keys == d.tokens.Keys
    && forall r :: r in d.tokens ==>
         && SameToken(d.tokens[r], d'.tokens[r]) && d'.tokens[r].rotated == d.tokens[r].rotated
         && (d.tokens[r].revoked ==> d'.tokens[r].revoked)
  }

  lemma OnlyRevokesKeepsLineage(s: State, s': State)
    requires OneLivePerFamily(s) && FamiliesFromCodes(s) && Succession(s) && OnlyRevokes(s.d, s'.d) && s'.next == s.next
    ensures OneLivePerFamily(s') && FamiliesFromCodes(s') && Succession(s')
  {
    forall a, b | true ensures SoleLive(s'.d.tokens, a, b) { assert SoleLive(s.d.tokens, a, b); }
    forall r | true ensures Succeeds(s'.d.tokens, r) { assert Succeeds(s.d.tokens, r); }
    forall a, b | true ensures OnlySuccessor(s'.d.tokens, a, b) { assert OnlySuccessor(s.d.tokens, a, b); }
  }

  lemma OnlyRevokesKeepsRequests(s: State, s': State)
    requires RequestsSound(s) && OnlyRevokes(s.d, s'.d) && s'.next == s.next && s'.requests == s.requests
    requires s.revokedFamilies <= s'.revokedFamilies && Families(s'.d) == Families(s.d)
    ensures RequestsSound(s')
  {
    forall r | r in s'.requests ensures RequestSound(s', s'.requests[r]) {
      assert RequestSound(s, s.requests[r]);
    }
  }

  lemma SameFamilies(d: Storage, d': Storage)
    requires OnlyRevokes(d, d')
    ensures Families(d') == Families(d)
  {
    forall f | f in Families(d) ensures f in Families(d') {
      var r :| r in d.tokens && d.tokens[r].family == f;
      assert d'.tokens[r].family == f;
    }
  }

  lemma RevokeTokensSound(s: State, family: Secret)
    requires TokensSound(s) && family in Families(s.d)
    ensures TokensSound(s.(d := RevokeFamily(s.d, family), revokedFamilies := s.revokedFamilies + {family}))
    ensures OnlyRevokes(s.d, RevokeFamily(s.d, family)) && Families(RevokeFamily(s.d, family)) == Families(s.d)
  {
    SameFamilies(s.d, RevokeFamily(s.d, family));
  }

  lemma RevokeKeeps(s: State, family: Secret)
    requires Inv(s) && family in Families(s.d)
    ensures Inv(s.(d := RevokeFamily(s.d, family), revokedFamilies := s.revokedFamilies + {family}))
  {
    var s' := s.(d := RevokeFamily(s.d, family), revokedFamilies := s.revokedFamilies + {family});
    RevokeTokensSound(s, family);
    OnlyRevokesKeepsLineage(s, s');
    OnlyRevokesKeepsRequests(s, s');
  }

  lemma OthersStayUnused(s: State, r: nat, x: nat)
    requires RequestsSound(s) && r in s.requests && x in s.requests && x != r
    ensures Drawn(s.requests[r]) !! Drawn(s.requests[x])
  {
    assert Apart(s.requests, r, x);
  }

  lemma InsertKeepsRequests(s: State, s': State, r: nat, t: Token)
    requires RequestsSound(s) && r in s.requests && {t.access, t.refresh} <= Drawn(s.requests[r])
    requires s.requests[r].CodeMinted? ==> t.family in Drawn(s.requests[r])
    requires s'.requests == s.requests[r := Done(Issued(t))]
    requires s'.next == s.next && s'.revokedFamilies == s.revokedFamilies
    requires s'.d.tokens.Keys == s.d.tokens.Keys + {t.refresh} && s'.d.byAccess.Keys == s.d.byAccess.Keys + {t.access}
    requires forall x :: x in s.d.tokens && x != t.refresh ==> SameToken(s.d.tokens[x], s'.d.tokens[x])
    requires t.refresh !in s.d.tokens
    requires s'.d.consumed == s.d.consumed ||
             (s.requests[r].CodeMinted? && s'.d.consumed.Values <= s.d.consumed.Values + {t.family})
    ensures RequestsSound(s')
  {
    forall x | x in s'.requests ensures RequestSound(s', s'.requests[x]) {
      if x != r {
        assert RequestSound(s, s.requests[x]);
        OthersStayUnused(s, r, x);
        StaysSound(s, s', t, s.requests[x], s.requests[r]);
      }
    }
    forall b | b in s.requests && b != r ensures Drawn(Done(Issued(t))) !! Drawn(s.requests[b]) {}
    ApartWith(s.requests, r, Done(Issued(t)));
  }

  lemma StaysSound(s: State, s': State, t: Token, q: Request, mine: Request)
    requires RequestSound(s, q) && Drawn(mine) !! Drawn(q) && {t.access, t.refresh} <= Drawn(mine)
    requires mine.CodeMinted? ==> t.family in Drawn(mine)
    requires s'.next == s.next && s'.revokedFamilies == s.revokedFamilies
    requires s'.d.tokens.Keys == s.d.tokens.Keys + {t.refresh} && s'.d.byAccess.Keys == s.d.byAccess.Keys + {t.access}
    requires forall x :: x in s.d.tokens && x != t.refresh ==> SameToken(s.d.tokens[x], s'.d.tokens[x])
    requires t.refresh !in s.d.tokens
    requires || s'.d.consumed == s.d.consumed
             || (mine.CodeMinted? && s'.d.consumed.Values <= s.d.consumed.Values + {t.family})
    ensures RequestSound(s', q)
  {
    if q.MustRevoke? || q.Revoking? {
      var x :| x in s.d.tokens && s.d.tokens[x].family == q.family;
      assert s'.d.tokens[x].family == q.family;
    }
    if q.CodeMinted? { assert q.t.family in Drawn(q) && q.t.refresh in Drawn(q) && q.t.access in Drawn(q); }
    if q.RefreshMinted? { assert q.t.refresh in Drawn(q) && q.t.access in Drawn(q); }
  }

  lemma ConsumeKeepsLineage(s: State, code: Secret, t: Token, d: Storage)
    requires TokensSound(s) && OneLivePerFamily(s) && FamiliesFromCodes(s) && Succession(s)
    requires Unused(s, t) && t.predecessor == None && t.family !in s.d.consumed.Values && code !in s.d.consumed
    requires d == Insert(s.d.(consumed := s.d.consumed[code := t.family]), t)
    ensures var s' := s.(d := d); TokensSound(s') && OneLivePerFamily(s') && FamiliesFromCodes(s') && Succession(s')
    ensures d.consumed.Values == s.d.consumed.Values + {t.family}
  {
    ConsumeKeepsTokens(s, code, t, d);
    ConsumeKeepsSuccession(s, code, t, d);
  }

  lemma ConsumeKeepsTokens(s: State, code: Secret, t: Token, d: Storage)
    requires TokensSound(s) && FamiliesFromCodes(s)
    requires Unused(s, t) && t.family !in s.d.consumed.Values && code !in s.d.consumed
    requires d == Insert(s.d.(consumed := s.d.consumed[code := t.family]), t)
    ensures TokensSound(s.(d := d)) && FamiliesFromCodes(s.(d := d))
    ensures d.consumed.Values == s.d.consumed.Values + {t.family}
  {
    ConsumedValues(s.d.consumed, code, t.family);
    forall a, b | true ensures OneFamilyEach(d.consumed, a, b) { assert OneFamilyEach(s.d.consumed, a, b); }
    FamiliesGrow(s.d, d, t.refresh);
  }

  lemma ConsumeKeepsSuccession(s: State, code: Secret, t: Token, d: Storage)
    requires OneLivePerFamily(s) && FamiliesFromCodes(s) && Succession(s)
    requires Unused(s, t) && t.predecessor == None && t.family !in s.d.consumed.Values
    requires d == Insert(s.d.(consumed := s.d.consumed[code := t.family]), t)
    ensures OneLivePerFamily(s.(d := d)) && Succession(s.(d := d))
  {
    forall a, b | true ensures SoleLive(d.tokens, a, b) { assert SoleLive(s.d.tokens, a, b); }
    forall r | true ensures Succeeds(d.tokens, r) { assert Succeeds(s.d.tokens, r); }
    forall a, b | true ensures OnlySuccessor(d.tokens, a, b) { assert OnlySuccessor(s.d.tokens, a, b); }
  }

  lemma ConsumedValues(consumed: map<Secret, Secret>, code: Secret, family: Secret)
    requires code !in consumed
    ensures consumed[code := family].Values == consumed.Values + {family}
  {
    var after := consumed[code := family];
    forall f | f in consumed.Values + {family} ensures f in after.Values {
      if f == family { assert after[code] == f; } else {
        var c :| c in consumed && consumed[c] == f;
        assert after[c] == f;
      }
    }
  }

  lemma FamiliesGrow(d: Storage, d': Storage, refresh: Secret)
    requires d.tokens.Keys <= d'.tokens.Keys && refresh !in d.tokens
    requires forall x :: x in d.tokens ==> d'.tokens[x].family == d.tokens[x].family
    ensures Families(d) <= Families(d')
  {
    forall f | f in Families(d) ensures f in Families(d') {
      var x :| x in d.tokens && d.tokens[x].family == f;
      assert d'.tokens[x].family == f;
    }
  }

  lemma CommitCodeKeeps(s: State, r: nat, now: Time)
    requires Inv(s) && r in s.requests && s.requests[r].CodeMinted?
    ensures Inv(CommitCode(s, r, s.requests[r].code, s.requests[r].t, now))
  {
    var code, t := s.requests[r].code, s.requests[r].t;
    var res := ConsumeCode(s.d, code, t, now);
    assert RequestSound(s, s.requests[r]);
    if res.Ok? {
      ConsumeKeepsLineage(s, code, t, res.value);
      InsertKeepsRequests(s, CommitCode(s, r, code, t, now), r, t);
    } else if res.error == Replay {
      DoneKeeps(s, r, Denied);
    } else {
      DoneKeeps(s, r, StoreFailed);
    }
  }

  lemma RotateKeepsTokens(s: State, prior: Secret, t: Token, d: Storage)
    requires TokensSound(s) && FamiliesFromCodes(s) && Unused(s, t)
    requires prior in s.d.tokens && Live(s.d.tokens[prior]) && t.family == s.d.tokens[prior].family
    requires d == Insert(s.d.(tokens := s.d.tokens[prior := s.d.tokens[prior].(rotated := true)]), t)
    ensures TokensSound(s.(d := d)) && FamiliesFromCodes(s.(d := d))
  {
    FamiliesGrow(s.d, d, t.refresh);
  }

  lemma RotateKeepsLineage(s: State, prior: Secret, t: Token, d: Storage)
    requires OneLivePerFamily(s) && Succession(s)
    requires t.refresh !in s.d.tokens && t.predecessor == Some(prior)
    requires prior in s.d.tokens && Live(s.d.tokens[prior])
    requires
      var p := s.d.tokens[prior];
      && t.family == p.family && t.client == p.client && t.grant == p.grant && t.version == p.version
      && t.refreshExpiresAt <= p.refreshExpiresAt
    requires d.tokens == s.d.tokens[prior := s.d.tokens[prior].(rotated := true)][t.refresh := t]
    ensures OneLivePerFamily(s.(d := d)) && Succession(s.(d := d))
  {
    var tokens := s.d.tokens;
    forall a, b | true ensures SoleLive(d.tokens, a, b) {
      assert SoleLive(tokens, a, b) && SoleLive(tokens, a, prior) && SoleLive(tokens, prior, b);
    }
    forall r | true ensures Succeeds(d.tokens, r) {
      assert Succeeds(tokens, r);
    }
    forall a, b | true ensures OnlySuccessor(d.tokens, a, b) {
      assert OnlySuccessor(tokens, a, b) && Succeeds(tokens, a) && Succeeds(tokens, b);
    }
  }

  lemma CommitRefreshKeeps(s: State, r: nat, now: Time)
    requires Inv(s) && r in s.requests && s.requests[r].RefreshMinted?
    ensures Inv(CommitRefresh(s, r, s.requests[r].prior, s.requests[r].t, now))
  {
    var prior, t := s.requests[r].prior, s.requests[r].t;
    var res := RotateToken(s.d, prior.refresh, t, now);
    assert RequestSound(s, s.requests[r]);
    if res.Ok? {
      RotateKeepsTokens(s, prior.refresh, t, res.value);
      RotateKeepsLineage(s, prior.refresh, t, res.value);
      InsertKeepsRequests(s, CommitRefresh(s, r, prior, t, now), r, t);
    } else if res.error == Replay {
      assert prior.family in Families(s.d);
      RequestMoves(s, r, MustRevoke(prior.family));
    } else {
      DoneKeeps(s, r, StoreFailed);
    }
  }

  lemma CommitRevokeKeeps(s: State, r: nat, family: Secret, answer: Answer)
    requires Inv(s) && r in s.requests && family in Families(s.d)
    requires answer == Replayed(family) || answer == Revoked(family)
    ensures Inv(CommitRevoke(s, r, family, answer))
  {
    RevokeKeeps(s, family);
    RequestMoves(s.(d := RevokeFamily(s.d, family), revokedFamilies := s.revokedFamilies + {family}), r, Done(answer));
  }

  lemma CommitKeeps(s: State, r: nat, now: Time, up: bool)
    requires Inv(s)
    ensures Inv(CommitStep(s, r, now, up))
  {
    if r in s.requests {
      if !up {
        DoneKeeps(s, r, StoreFailed);
      } else {
        assert RequestSound(s, s.requests[r]);
        match s.requests[r]
        case CodeMinted(_, _) => CommitCodeKeeps(s, r, now);
        case RefreshMinted(_, _) => CommitRefreshKeeps(s, r, now);
        case MustRevoke(family) => CommitRevokeKeeps(s, r, family, Replayed(family));
        case Revoking(family) => CommitRevokeKeeps(s, r, family, Revoked(family));
        case _ =>
      }
    }
  }

  lemma AuthorizeKeeps(s: State, issued: Code)
    requires Inv(s)
    ensures Inv(s.(d := s.d.(codes := s.d.codes[s.next := issued]), next := s.next + 1))
  {
    NextGrows(s, s.next + 1);
    var s' := s.(d := s.d.(codes := s.d.codes[s.next := issued]), next := s.next + 1);
    CodesDoNotMatter(s.(next := s.next + 1), s');
  }

  lemma CodesDoNotMatter(s: State, s': State)
    requires Inv(s) && s' == s.(d := s.d.(codes := s'.d.codes))
    ensures Inv(s')
  {
    assert Families(s'.d) == Families(s.d);
    forall r | r in s'.requests ensures RequestSound(s', s'.requests[r]) {
      assert RequestSound(s, s.requests[r]);
    }
  }

  lemma NextKeepsInv(s: State, e: Event)
    requires Inv(s)
    ensures Inv(Next(s, e))
  {
    match e
    case Authorize(issued) => AuthorizeKeeps(s, issued);
    case StartExchange(r, c, code, redirect, challenge, now) =>
      StartExchangeKeeps(s, r, c, code, redirect, challenge, now);
    case StartRefresh(r, c, refresh, now) => StartRefreshKeeps(s, r, c, refresh, now);
    case StartRevoke(r, c, secret) => StartRevokeKeeps(s, r, c, secret);
    case MintFor(r, provider, g, checked, now, accessTTL, refreshTTL) =>
      MintKeeps(s, r, provider, g, checked, now, accessTTL, refreshTTL);
    case Commit(r, now, up) => CommitKeeps(s, r, now, up);
  }

  lemma {:induction false} RunKeepsInv(s: State, es: seq<Event>)
    requires Inv(s)
    ensures Inv(Run(s, es))
    decreases |es|
  {
    if es != [] {
      NextKeepsInv(s, es[0]);
      RunKeepsInv(Next(s, es[0]), es[1..]);
    }
  }

  lemma InitInv()
    ensures Inv(INIT)
  {
    forall a, b | true ensures SoleLive(INIT.d.tokens, a, b) {}
    forall a, b | true ensures OneFamilyEach(INIT.d.consumed, a, b) {}
    forall r | true ensures Succeeds(INIT.d.tokens, r) {}
    forall a, b | true ensures OnlySuccessor(INIT.d.tokens, a, b) {}
    forall a, b | true ensures Apart(INIT.requests, a, b) {}
  }

  // ---- What the protocol promises ----

  /** In every interleaving a family has at most one token that is neither rotated nor revoked, every token's expiries
      are nested within the grant's, and a successor belongs to the same client and grant and never outlives its
      predecessor. */
  lemma FamiliesStaySingle(es: seq<Event>, a: Secret)
    requires a in Run(INIT, es).d.tokens
    ensures
      var tokens := Run(INIT, es).d.tokens;
      var t := tokens[a];
      && (forall b :: b in tokens && tokens[b].family == t.family && Live(t) && Live(tokens[b]) ==> b == a)
      && t.expiresAt <= t.refreshExpiresAt <= t.grantExpires
      && (t.predecessor.Some? ==>
            && t.predecessor.value in tokens
            && var p := tokens[t.predecessor.value];
               p.rotated && p.family == t.family && p.client == t.client && p.grant == t.grant &&
               t.refreshExpiresAt <= p.refreshExpiresAt)
  {
    InitInv();
    RunKeepsInv(INIT, es);
    var tokens := Run(INIT, es).d.tokens;
    assert Succeeds(tokens, a);
    var t := tokens[a];
    forall b | b in tokens && tokens[b].family == t.family && Live(t) && Live(tokens[b]) ensures b == a {
      assert SoleLive(tokens, a, b);
    }
  }

  /** A code is exchanged for one family only, and every token there is stems from an exchanged code. */
  lemma CodesYieldOneFamily(es: seq<Event>, r: Secret) returns (code: Secret)
    requires r in Run(INIT, es).d.tokens
    ensures
      var d := Run(INIT, es).d;
      && code in d.consumed && d.consumed[code] == d.tokens[r].family
      && forall other :: other in d.consumed && d.consumed[other] == d.tokens[r].family ==> other == code
  {
    InitInv();
    RunKeepsInv(INIT, es);
    var d := Run(INIT, es).d;
    code :| code in d.consumed && d.consumed[code] == d.tokens[r].family;
    forall other | other in d.consumed && d.consumed[other] == d.tokens[r].family ensures other == code {
      assert OneFamilyEach(d.consumed, other, code);
    }
  }

  lemma {:induction false} RevokedStays(s: State, es: seq<Event>)
    ensures s.revokedFamilies <= Run(s, es).revokedFamilies
    decreases |es|
  {
    if es != [] {
      RevokedOnce(s, es[0]);
      RevokedStays(Next(s, es[0]), es[1..]);
    }
  }

  lemma RevokedOnce(s: State, e: Event)
    ensures s.revokedFamilies <= Next(s, e).revokedFamilies
  {
  }

  /** Once a refresh was answered with a replay, or a revocation was confirmed, no token of that family is ever accepted
      again: not for access, not for refresh, and not one that a concurrent refresh was about to store. */
  lemma ReplayEndsTheFamily(es: seq<Event>, r: nat, family: Secret, later: seq<Event>, x: Secret, c: Client, now: Time)
    requires
      var s := Run(INIT, es);
      r in s.requests && (s.requests[r] == Done(Replayed(family)) || s.requests[r] == Done(Revoked(family)))
    ensures
      var d := Run(Run(INIT, es), later).d;
      && (x in d.tokens && d.tokens[x].family == family ==>
            d.tokens[x].revoked && !RefreshAccepted(d.tokens[x], c, now))
      && (LoadAccess(d, x).Some? && LoadAccess(d, x).value.family == family ==>
            !AccessAccepted(LoadAccess(d, x).value, now))
  {
    InitInv();
    RunKeepsInv(INIT, es);
    var s := Run(INIT, es);
    assert RequestSound(s, s.requests[r]);
    RevokedStays(s, later);
    RunKeepsInv(s, later);
  }

  /** A rotated or revoked token stays as its own tombstone and never becomes live again. */
  lemma {:induction false} RotatedNeverLivesAgain(s: State, es: seq<Event>, x: Secret)
    requires Inv(s) && x in s.d.tokens && !Live(s.d.tokens[x])
    ensures x in Run(s, es).d.tokens && !Live(Run(s, es).d.tokens[x])
    decreases |es|
  {
    if es != [] {
      NextKeepsInv(s, es[0]);
      DeadOnce(s, es[0], x);
      RotatedNeverLivesAgain(Next(s, es[0]), es[1..], x);
    }
  }

  lemma DeadOnce(s: State, e: Event, x: Secret)
    requires Inv(s) && x in s.d.tokens && !Live(s.d.tokens[x])
    ensures x in Next(s, e).d.tokens && !Live(Next(s, e).d.tokens[x])
  {
    if e.Commit? && e.r in s.requests {
      assert RequestSound(s, s.requests[e.r]);
    }
  }

  // ---- One request at a time ----

  /** The provider over a storage nobody else touches meanwhile. `g` is what the policy resolves, and `now` the clock at
      each of the moments it is read. */
  class Provider {
    const tenant: string
    const accessTTL: int
    const refreshTTL: int
    var d: Storage
    var next: Secret

    constructor (tenant: string, accessTTL: int, refreshTTL: int)
      ensures d == INIT.d && next == 0
      ensures this.tenant == tenant && this.accessTTL == accessTTL && this.refreshTTL == refreshTTL
    {
      this.tenant, this.accessTTL, this.refreshTTL := tenant, accessTTL, refreshTTL;
      d, next := INIT.d, 0;
    }

    method ExchangeCode(c: Client, code: Secret, redirect: string, challenge: string, g: Grant, now: seq<Time>)
      returns (answer: Answer)
      requires |now| == 4
      requires forall r :: r in d.tokens ==> r < next
      modifies this
      ensures answer.Issued? || answer == Denied || answer == StoreFailed
      ensures !answer.Issued? ==> d == old(d)
      ensures answer.Issued? <==>
              && code in old(d).codes && code !in old(d).consumed
              && var a := old(d).codes[code];
                 && redirect in c.redirects
                 && a.client == c.id && a.redirect == redirect && a.challenge == challenge
                 && now[0] < a.expiresAt && now[3] < a.expiresAt
                 && g.id == a.grant && g.version == a.version && g.consumer == c.tenant && g.provider == tenant
                 && !g.revoked && now[1] < g.expiresAt
      ensures answer.Issued? ==>
                var t := answer.t;
                && d.consumed == old(d).consumed[code := t.family] && Live(t) && t.predecessor == None
                && t.refresh !in old(d).tokens && d.tokens == old(d).tokens[t.refresh := t]
                && LoadAccess(d, t.access) == Some(t) && t.client == c.id && t.grant == g.id
                && t.expiresAt <= t.refreshExpiresAt <= g.expiresAt
    {
      if code !in d.codes || !CodeAccepted(d.codes[code], c, redirect, challenge, now[0]) {
        return Denied;
      }
      var a := d.codes[code];
      if !Current(g, c, tenant, a.grant, a.version, now[1]) {
        return Denied;
      }
      var t := Mint(c, g, next, next + 1, next + 2, 0, now[2], accessTTL, refreshTTL, None);
      next := next + 3;
      match ConsumeCode(d, code, t, now[3])
      case Ok(stored) =>
        d := stored;
        return Issued(t);
      case Err(Replay) => return Denied;
      case Err(_) => return StoreFailed;
    }

    method Refresh(c: Client, refresh: Secret, g: Grant, now: seq<Time>) returns (answer: Answer)
      requires |now| == 4
      requires forall r :: r in d.tokens ==> r < next && d.tokens[r].refresh == r
      modifies this
      ensures answer.Replayed? <==>
              && refresh in old(d).tokens
              && var p := old(d).tokens[refresh];
                 p.client == c.id && !p.revoked && p.rotated && now[0] < p.refreshExpiresAt
      ensures answer.Replayed? ==> d == RevokeFamily(old(d), old(d).tokens[refresh].family)
      ensures answer.Replayed? ==>
                forall r :: r in d.tokens && d.tokens[r].family == old(d).tokens[refresh].family ==> d.tokens[r].revoked
      ensures answer == Denied || answer == StoreFailed ==> d == old(d)
      ensures answer.Issued? <==>
              && refresh in old(d).tokens
              && var p := old(d).tokens[refresh];
                 && p.client == c.id && !p.revoked && !p.rotated
                 && now[0] < p.refreshExpiresAt && now[3] < p.refreshExpiresAt
                 && g.id == p.grant && g.version == p.version && g.consumer == c.tenant && g.provider == tenant
                 && !g.revoked && now[1] < g.expiresAt
      ensures answer.Issued? ==>
                var t := answer.t;
                && t.refresh !in old(d).tokens
                && var p := old(d).tokens[refresh];
                   && Live(t) && t.predecessor == Some(refresh)
                   && d.tokens == old(d).tokens[refresh := p.(rotated := true)][t.refresh := t]
                   && t.family == p.family && t.grant == p.grant && t.version == p.version
                   && t.expiresAt <= t.refreshExpiresAt <= p.refreshExpiresAt && t.refreshExpiresAt <= g.expiresAt
    {
      if refresh !in d.tokens || !RefreshAccepted(d.tokens[refresh], c, now[0]) {
        return Denied;
      }
      var p := d.tokens[refresh];
      if p.rotated {
        d := RevokeFamily(d, p.family);
        return Replayed(p.family);
      }
      if !Current(g, c, tenant, p.grant, p.version, now[1]) {
        return Denied;
      }
      var t := Mint(c, g, next, next + 1, p.family, p.refreshExpiresAt, now[2], accessTTL, refreshTTL, Some(refresh));
      next := next + 2;
      match RotateToken(d, refresh, t, now[3])
      case Ok(stored) =>
        d := stored;
        return Issued(t);
      case Err(_) => return StoreFailed;
    }

    method ResolveAccessToken(c: Client, access: Secret, g: Grant, now: seq<Time>) returns (granted: bool)
      requires |now| == 2
      ensures granted <==>
              && access in d.byAccess && d.byAccess[access] in d.tokens
              && var t := d.tokens[d.byAccess[access]];
                 && t.client == c.id && !t.rotated && !t.revoked && now[0] < t.expiresAt
                 && g.id == t.grant && g.version == t.version && g.consumer == c.tenant && g.provider == tenant
                 && !g.revoked && now[1] < g.expiresAt
    {
      var t := LoadAccess(d, access);
      if t.None? || !AccessAccepted(t.value, now[0]) || t.value.client != c.id {
        return false;
      }
      return Current(g, c, tenant, t.value.grant, t.value.version, now[1]);
    }

    /** Revokes the family of a token of this client, presented by either secret; anything else changes nothing. */
    method Revoke(c: Client, secret: Secret)
      modifies this`d
      ensures d == old(d).(tokens := d.tokens) && d.tokens.Keys == old(d).tokens.Keys
      ensures forall r :: r in d.tokens ==> d.tokens[r] == old(d).tokens[r].(revoked := d.tokens[r].revoked)
      ensures
        var t := Presented(old(d), secret);
        var ends := t.Some? && t.value.client == c.id;
        && (forall r :: r in d.tokens ==>
              (d.tokens[r].revoked <==> old(d).tokens[r].revoked || (ends && d.tokens[r].family == t.value.family)))
        && (ends ==> forall x, now :: LoadAccess(d, x).Some? && LoadAccess(d, x).value.family == t.value.family ==>
                       !AccessAccepted(LoadAccess(d, x).value, now))
        && (!ends ==> d == old(d))
    {
      var t := Presented(d, secret);
      if t.None? || t.value.client != c.id {
        return;
      }
      d := RevokeFamily(d, t.value.family);
    }
  }
}
