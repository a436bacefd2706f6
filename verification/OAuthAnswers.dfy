/** Which requests are answered with a token, field by field: what an issued token proves about the request that got it,
    and that every request which proves as much gets one, however other requests interleave. */
module OAuthAnswers {
  import opened Wrappers
  import opened OAuth

  // ---- Runs, event by event ----

  lemma {:induction false} RunSnoc(s: State, es: seq<Event>, e: Event)
    ensures Run(s, es + [e]) == Next(Run(s, es), e)
    decreases |es|
  {
    if es == [] {
      assert es + [e] == [e] && [e][1..] == [];
    } else {
      assert (es + [e])[1..] == es[1..] + [e];
      RunSnoc(Next(s, es[0]), es[1..], e);
    }
  }

  /** Codes are never changed once given out. */
  ghost predicate CodesStay(s: State, s': State) {
    && s.next <= s'.next && (forall x :: x in s'.d.codes ==> x < s'.next)
    && forall x :: x in s.d.codes ==> x in s'.d.codes && s'.d.codes[x] == s.d.codes[x]
  }

  ghost predicate CodesDrawn(s: State) {
    forall x :: x in s.d.codes ==> x < s.next
  }

  lemma CodesStayOnce(s: State, e: Event)
    requires CodesDrawn(s)
    ensures CodesStay(s, Next(s, e))
  {
  }

  lemma {:induction false} CodesStayOver(s: State, es: seq<Event>)
    requires CodesDrawn(s)
    ensures CodesStay(s, Run(s, es))
    decreases |es|
  {
    if es != [] {
      CodesStayOnce(s, es[0]);
      CodesStayOver(Next(s, es[0]), es[1..]);
    }
  }

  /** Events of other requests. */
  ghost predicate Elsewhere(es: seq<Event>, r: nat) {
    forall e :: e in es ==> e.Authorize? || e.r != r
  }

  lemma {:induction false} OthersLeaveAlone(s: State, es: seq<Event>, r: nat)
    requires Elsewhere(es, r) && r in s.requests
    ensures r in Run(s, es).requests && Run(s, es).requests[r] == s.requests[r]
    decreases |es|
  {
    if es != [] {
      assert es[0] in es && forall e :: e in es[1..] ==> e in es;
      OthersLeaveAlone(Next(s, es[0]), es[1..], r);
    }
  }

  // ---- Field by field ----

  /** The code was given to this client for this redirect and challenge, and has not expired. */
  ghost predicate Proves(d: Storage, c: Client, code: Secret, redirect: string, challenge: string, now: Time) {
    && code in d.codes && redirect in c.redirects
    && d.codes[code].client == c.id && d.codes[code].redirect == redirect && d.codes[code].challenge == challenge
    && now < d.codes[code].expiresAt
  }

  /** The grant stands: the one meant, in this version, between these parties, neither revoked nor expired. */
  ghost predicate Stands(g: Grant, c: Client, provider: string, grant: string, version: nat, now: Time) {
    && g.id == grant && g.version == version && g.consumer == c.tenant && g.provider == provider
    && !g.revoked && now < g.expiresAt
  }

  /** The refresh secret is that of a token of this client which is neither revoked nor expired. */
  ghost predicate Holds(d: Storage, c: Client, refresh: Secret, now: Time) {
    && refresh in d.tokens && d.tokens[refresh].client == c.id
    && !d.tokens[refresh].revoked && now < d.tokens[refresh].refreshExpiresAt
  }

  // ---- Every issued token was earned ----

  /** Event `i` started the exchange, proving the code `a` its own. */
  ghost predicate ProvedAt(es: seq<Event>, i: nat, r: nat, c: Client, code: Secret, a: Code) {
    && i < |es| && es[i].StartExchange? && es[i].r == r && es[i].c == c && es[i].code == code
    && Proves(Run(INIT, es[..i]).d, c, code, es[i].redirect, es[i].challenge, es[i].now)
    && Run(INIT, es[..i]).d.codes[code] == a
  }

  /** Event `i` started the refresh with the secret of `prior`, not rotated yet. */
  ghost predicate HeldAt(es: seq<Event>, i: nat, r: nat, c: Client, prior: Token) {
    && i < |es| && es[i].StartRefresh? && es[i].r == r && es[i].c == c
    && Holds(Run(INIT, es[..i]).d, c, es[i].refresh, es[i].now)
    && Run(INIT, es[..i]).d.tokens[es[i].refresh] == prior && !prior.rotated
  }

  /** At event `j` the grant stood, and `t` was minted for it. */
  ghost predicate MintedAt(es: seq<Event>, j: nat, r: nat, c: Client, grant: string, version: nat, t: Token) {
    && j < |es| && es[j].MintFor? && es[j].r == r
    && Stands(es[j].g, c, es[j].provider, grant, version, es[j].checked)
    && t.client == c.id && t.grant == grant && t.version == version && t.refreshExpiresAt <= es[j].g.expiresAt
  }

  ghost predicate ExchangedBy(es: seq<Event>, r: nat, i: nat, j: nat, c: Client, code: Secret, a: Code, t: Token) {
    i < j && ProvedAt(es, i, r, c, code, a) && MintedAt(es, j, r, c, a.grant, a.version, t) && t.predecessor == None
  }

  ghost predicate RefreshedBy(es: seq<Event>, r: nat, i: nat, j: nat, c: Client, prior: Token, t: Token) {
    && i < j && HeldAt(es, i, r, c, prior) && MintedAt(es, j, r, c, prior.grant, prior.version, t)
    && t.predecessor == Some(prior.refresh) && t.family == prior.family && t.refreshExpiresAt <= prior.refreshExpiresAt
  }

  /** At event `k` the store took the code, unconsumed and in time. */
  ghost predicate ConsumedAt(es: seq<Event>, k: nat, r: nat, code: Secret, a: Code) {
    && k < |es| && es[k].Commit? && es[k].r == r && es[k].up && es[k].now < a.expiresAt
    && code !in Run(INIT, es[..k]).d.consumed
  }

  /** At event `k` the store rotated the token, still live and in time. */
  ghost predicate RotatedAt(es: seq<Event>, k: nat, r: nat, prior: Token) {
    && k < |es| && es[k].Commit? && es[k].r == r && es[k].up && es[k].now < prior.refreshExpiresAt
    && prior.refresh in Run(INIT, es[..k]).d.tokens && Live(Run(INIT, es[..k]).d.tokens[prior.refresh])
  }

  ghost predicate ExchangeEarned(es: seq<Event>, r: nat, t: Token) {
    exists i, j, k, c, code, a :: ExchangedBy(es, r, i, j, c, code, a, t) && j < k && ConsumedAt(es, k, r, code, a)
  }

  ghost predicate RefreshEarned(es: seq<Event>, r: nat, t: Token) {
    exists i, j, k, c, prior :: RefreshedBy(es, r, i, j, c, prior, t) && j < k && RotatedAt(es, k, r, prior)
  }

  ghost predicate Earned(es: seq<Event>, r: nat, q: Request) {
    match q
    case CodeLoaded(c, code, a) => exists i :: ProvedAt(es, i, r, c, code, a)
    case CodeMinted(code, t) => exists i, j, c, a :: ExchangedBy(es, r, i, j, c, code, a, t)
    case RefreshLoaded(c, prior) => exists i :: HeldAt(es, i, r, c, prior)
    case RefreshMinted(prior, t) => exists i, j, c :: RefreshedBy(es, r, i, j, c, prior, t)
    case Done(Issued(t)) => if t.predecessor.None? then ExchangeEarned(es, r, t) else RefreshEarned(es, r, t)
    case _ => true
  }

  lemma EarlierPrefix(es: seq<Event>, e: Event, i: nat)
    requires i <= |es|
    ensures (es + [e])[..i] == es[..i]
  {
  }

  lemma LoadedExtends(es: seq<Event>, e: Event, r: nat, q: Request)
    requires Earned(es, r, q) && (q.CodeLoaded? || q.RefreshLoaded?)
    ensures Earned(es + [e], r, q)
  {
    if q.CodeLoaded? {
      var i :| ProvedAt(es, i, r, q.client, q.code, q.a);
      EarlierPrefix(es, e, i);
      assert ProvedAt(es + [e], i, r, q.client, q.code, q.a);
    } else {
      var i :| HeldAt(es, i, r, q.client, q.prior);
      EarlierPrefix(es, e, i);
      assert HeldAt(es + [e], i, r, q.client, q.prior);
    }
  }

  lemma ExchangedExtends(
      es: seq<Event>, e: Event, r: nat, i: nat, j: nat, c: Client, code: Secret, a: Code, t: Token)
    requires ExchangedBy(es, r, i, j, c, code, a, t)
    ensures ExchangedBy(es + [e], r, i, j, c, code, a, t)
  {
    EarlierPrefix(es, e, i);
  }

  lemma RefreshedExtends(es: seq<Event>, e: Event, r: nat, i: nat, j: nat, c: Client, prior: Token, t: Token)
    requires RefreshedBy(es, r, i, j, c, prior, t)
    ensures RefreshedBy(es + [e], r, i, j, c, prior, t)
  {
    EarlierPrefix(es, e, i);
  }

  lemma MintedExtends(es: seq<Event>, e: Event, r: nat, q: Request)
    requires Earned(es, r, q) && (q.CodeMinted? || q.RefreshMinted?)
    ensures Earned(es + [e], r, q)
  {
    if q.CodeMinted? {
      var i, j, c, a :| ExchangedBy(es, r, i, j, c, q.code, a, q.t);
      ExchangedExtends(es, e, r, i, j, c, q.code, a, q.t);
    } else {
      var i, j, c :| RefreshedBy(es, r, i, j, c, q.prior, q.t);
      RefreshedExtends(es, e, r, i, j, c, q.prior, q.t);
    }
  }

  lemma ExchangeExtends(es: seq<Event>, e: Event, r: nat, t: Token)
    requires ExchangeEarned(es, r, t)
    ensures ExchangeEarned(es + [e], r, t)
  {
    var i, j, k, c, code, a :| ExchangedBy(es, r, i, j, c, code, a, t) && j < k && ConsumedAt(es, k, r, code, a);
    ExchangedExtends(es, e, r, i, j, c, code, a, t);
    EarlierPrefix(es, e, k);
    assert ConsumedAt(es + [e], k, r, code, a);
  }

  lemma RefreshExtends(es: seq<Event>, e: Event, r: nat, t: Token)
    requires RefreshEarned(es, r, t)
    ensures RefreshEarned(es + [e], r, t)
  {
    var i, j, k, c, prior :| RefreshedBy(es, r, i, j, c, prior, t) && j < k && RotatedAt(es, k, r, prior);
    RefreshedExtends(es, e, r, i, j, c, prior, t);
    EarlierPrefix(es, e, k);
    assert RotatedAt(es + [e], k, r, prior);
  }

  lemma EarnedExtends(es: seq<Event>, e: Event, r: nat, q: Request)
    requires Earned(es, r, q)
    ensures Earned(es + [e], r, q)
  {
    match q
    case CodeLoaded(_, _, _) => LoadedExtends(es, e, r, q);
    case RefreshLoaded(_, _) => LoadedExtends(es, e, r, q);
    case CodeMinted(_, _) => MintedExtends(es, e, r, q);
    case RefreshMinted(_, _) => MintedExtends(es, e, r, q);
    case Done(Issued(t)) =>
      if t.predecessor.None? { ExchangeExtends(es, e, r, t); } else { RefreshExtends(es, e, r, t); }
    case _ =>
  }

  lemma StartEarns(es: seq<Event>, e: Event)
    requires Inv(Run(INIT, es)) && (e.StartExchange? || e.StartRefresh?) && e.r !in Run(INIT, es).requests
    ensures Earned(es + [e], e.r, Next(Run(INIT, es), e).requests[e.r])
  {
    var s := Run(INIT, es);
    EarlierPrefix(es, e, |es|);
    assert es[..|es|] == es;
    var q := Next(s, e).requests[e.r];
    if q.CodeLoaded? {
      assert ProvedAt(es + [e], |es|, e.r, q.client, q.code, q.a);
    } else if q.RefreshLoaded? {
      assert HeldAt(es + [e], |es|, e.r, q.client, q.prior);
    }
  }

  lemma MintEarns(es: seq<Event>, e: Event)
    requires Inv(Run(INIT, es)) && e.MintFor? && e.r in Run(INIT, es).requests
    requires Earned(es, e.r, Run(INIT, es).requests[e.r])
    ensures Earned(es + [e], e.r, Next(Run(INIT, es), e).requests[e.r])
  {
    var s := Run(INIT, es);
    var q, q' := s.requests[e.r], Next(s, e).requests[e.r];
    if q.CodeLoaded? && q'.CodeMinted? {
      MintForCodeEarns(es, e, q, q'.t);
    } else if q.RefreshLoaded? && q'.RefreshMinted? {
      MintForRefreshEarns(es, e, q, q'.t);
    } else if q' == q {
      EarnedExtends(es, e, e.r, q);
    }
  }

  lemma MintForCodeEarns(es: seq<Event>, e: Event, q: Request, t: Token)
    requires e.MintFor? && e.r in Run(INIT, es).requests && Run(INIT, es).requests[e.r] == q
    requires q.CodeLoaded? && Earned(es, e.r, q) && Next(Run(INIT, es), e).requests[e.r] == CodeMinted(q.code, t)
    ensures Earned(es + [e], e.r, CodeMinted(q.code, t))
  {
    var s := Run(INIT, es);
    LoadedExtends(es, e, e.r, q);
    var i :| ProvedAt(es, i, e.r, q.client, q.code, q.a);
    EarlierPrefix(es, e, i);
    MintFacts(q.client, e.g, s.next, s.next + 1, s.next + 2, 0, e.now, e.accessTTL, e.refreshTTL, None);
    assert MintedAt(es + [e], |es|, e.r, q.client, q.a.grant, q.a.version, t);
    assert ExchangedBy(es + [e], e.r, i, |es|, q.client, q.code, q.a, t);
  }

  lemma MintForRefreshEarns(es: seq<Event>, e: Event, q: Request, t: Token)
    requires e.MintFor? && e.r in Run(INIT, es).requests && Run(INIT, es).requests[e.r] == q
    requires RequestSound(Run(INIT, es), q)
    requires q.RefreshLoaded? && Earned(es, e.r, q) && Next(Run(INIT, es), e).requests[e.r] == RefreshMinted(q.prior, t)
    ensures Earned(es + [e], e.r, RefreshMinted(q.prior, t))
  {
    var s := Run(INIT, es);
    var i :| HeldAt(es, i, e.r, q.client, q.prior);
    EarlierPrefix(es, e, i);
    MintFacts(q.client, e.g, s.next, s.next + 1, q.prior.family, q.prior.refreshExpiresAt, e.now, e.accessTTL,
              e.refreshTTL, Some(q.prior.refresh));
    assert MintedAt(es + [e], |es|, e.r, q.client, q.prior.grant, q.prior.version, t);
    assert RefreshedBy(es + [e], e.r, i, |es|, q.client, q.prior, t);
  }

  lemma CommitEarns(es: seq<Event>, e: Event)
    requires Inv(Run(INIT, es)) && e.Commit? && e.r in Run(INIT, es).requests
    requires Earned(es, e.r, Run(INIT, es).requests[e.r])
    ensures Earned(es + [e], e.r, Next(Run(INIT, es), e).requests[e.r])
  {
    var s := Run(INIT, es);
    var q, q' := s.requests[e.r], Next(s, e).requests[e.r];
    CommitMoves(s, e);
    if q' == q {
      EarnedExtends(es, e, e.r, q);
    } else if q'.Done? && q'.answer.Issued? {
      if q.CodeMinted? {
        CommitCodeEarns(es, e, q);
      } else {
        CommitRefreshEarns(es, e, q);
      }
    }
  }

  lemma CommitMoves(s: State, e: Event)
    requires e.Commit? && e.r in s.requests
    ensures
      var q, q' := s.requests[e.r], Next(s, e).requests[e.r];
      || q' == q || q'.MustRevoke? || (q'.Done? && !q'.answer.Issued?)
      || ((q.CodeMinted? || q.RefreshMinted?) && q' == Done(Issued(q.t)))
  {
  }

  lemma CommitCodeEarns(es: seq<Event>, e: Event, q: Request)
    requires e.Commit? && e.r in Run(INIT, es).requests && Run(INIT, es).requests[e.r] == q
    requires q.CodeMinted? && Earned(es, e.r, q) && Next(Run(INIT, es), e).requests[e.r] == Done(Issued(q.t))
    ensures ExchangeEarned(es + [e], e.r, q.t)
  {
    var i, j, c, a :| ExchangedBy(es, e.r, i, j, c, q.code, a, q.t);
    ExchangedExtends(es, e, e.r, i, j, c, q.code, a, q.t);
    CodesKept(es, i, q.code);
    EarlierPrefix(es, e, |es|);
    assert es[..|es|] == es;
    assert ConsumedAt(es + [e], |es|, e.r, q.code, a);
  }

  /** A code known after the first `i` events is the same after all. */
  lemma CodesKept(es: seq<Event>, i: nat, code: Secret)
    requires i <= |es| && code in Run(INIT, es[..i]).d.codes
    ensures code in Run(INIT, es).d.codes && Run(INIT, es).d.codes[code] == Run(INIT, es[..i]).d.codes[code]
  {
    RunAppend(INIT, es[..i], es[i..]);
    assert es[..i] + es[i..] == es;
    CodesStayOver(INIT, es[..i]);
    CodesStayOver(Run(INIT, es[..i]), es[i..]);
  }

  lemma {:induction false} RunAppend(s: State, a: seq<Event>, b: seq<Event>)
    ensures Run(s, a + b) == Run(Run(s, a), b)
    decreases |a|
  {
    if a == [] {
      assert a + b == b;
    } else {
      assert (a + b)[1..] == a[1..] + b;
      RunAppend(Next(s, a[0]), a[1..], b);
    }
  }

  lemma CommitRefreshEarns(es: seq<Event>, e: Event, q: Request)
    requires e.Commit? && e.r in Run(INIT, es).requests && Run(INIT, es).requests[e.r] == q
    requires RequestSound(Run(INIT, es), q)
    requires q.RefreshMinted? && Earned(es, e.r, q) && Next(Run(INIT, es), e).requests[e.r] == Done(Issued(q.t))
    ensures RefreshEarned(es + [e], e.r, q.t)
  {
    var i, j, c :| RefreshedBy(es, e.r, i, j, c, q.prior, q.t);
    RefreshedExtends(es, e, e.r, i, j, c, q.prior, q.t);
    EarlierPrefix(es, e, |es|);
    assert es[..|es|] == es;
    assert RotatedAt(es + [e], |es|, e.r, q.prior);
  }

  ghost predicate AllEarned(es: seq<Event>) {
    forall r :: r in Run(INIT, es).requests ==> Earned(es, r, Run(INIT, es).requests[r])
  }

  /** A step moves the request it names, and no other. */
  lemma OnlyItsRequest(s: State, e: Event, r: nat)
    requires e.Authorize? || e.r != r
    ensures r in Next(s, e).requests <==> r in s.requests
    ensures r in s.requests ==> Next(s, e).requests[r] == s.requests[r]
  {
  }

  lemma NextEarns(es: seq<Event>, e: Event)
    requires Inv(Run(INIT, es)) && AllEarned(es)
    ensures AllEarned(es + [e])
  {
    var s := Run(INIT, es);
    RunSnoc(INIT, es, e);
    forall r | r in Next(s, e).requests ensures Earned(es + [e], r, Next(s, e).requests[r]) {
      if e.Authorize? || e.r != r {
        OnlyItsRequest(s, e, r);
        EarnedExtends(es, e, r, s.requests[r]);
      } else {
        MovedEarns(es, e);
      }
    }
  }

  lemma StartedKeeps(s: State, e: Event)
    requires (e.StartExchange? || e.StartRefresh? || e.StartRevoke?) && e.r in s.requests
    ensures Next(s, e) == s
  {
  }

  lemma RevokeStarts(s: State, e: Event)
    requires e.StartRevoke? && e.r !in s.requests
    ensures Next(s, e).requests[e.r] == Done(Denied) || Next(s, e).requests[e.r].Revoking?
  {
  }

  lemma MovedEarns(es: seq<Event>, e: Event)
    requires Inv(Run(INIT, es)) && AllEarned(es) && !e.Authorize? && e.r in Next(Run(INIT, es), e).requests
    ensures Earned(es + [e], e.r, Next(Run(INIT, es), e).requests[e.r])
  {
    var s := Run(INIT, es);
    if e.MintFor? {
      MintEarns(es, e);
    } else if e.Commit? {
      CommitEarns(es, e);
    } else if e.r in s.requests {
      StartedKeeps(s, e);
      EarnedExtends(es, e, e.r, s.requests[e.r]);
    } else if e.StartRevoke? {
      RevokeStarts(s, e);
    } else {
      StartEarns(es, e);
    }
  }

  /** Whatever is interleaved, a token is issued only to a request that proved its code, or held a live refresh secret,
      while it was good, for a grant that stood after that, and the store took it still unused after that. */
  lemma {:induction false} IssuedIsEarned(es: seq<Event>)
    ensures AllEarned(es)
    decreases |es|
  {
    if es != [] {
      var before := es[..|es| - 1];
      IssuedIsEarned(before);
      InitInv();
      RunKeepsInv(INIT, before);
      NextEarns(before, es[|es| - 1]);
      assert before + [es[|es| - 1]] == es;
    }
  }

  // ---- And every request that earns one gets one ----

  lemma StartIff(s: State, e: Event)
    requires e.StartExchange? && e.r !in s.requests
    ensures e.r in Next(s, e).requests && Next(s, e).d == s.d
    ensures Next(s, e).requests[e.r] ==
            if Proves(s.d, e.c, e.code, e.redirect, e.challenge, e.now) then CodeLoaded(e.c, e.code, s.d.codes[e.code])
            else Done(Denied)
  {
  }

  lemma MintIff(s: State, e: Event)
    requires e.MintFor? && e.r in s.requests && s.requests[e.r].CodeLoaded?
    ensures
      var q, r := s.requests[e.r], Next(s, e);
      && e.r in r.requests && r.d == s.d
      && if Stands(e.g, q.client, e.provider, q.a.grant, q.a.version, e.checked)
         then r.requests[e.r].CodeMinted? && r.requests[e.r].code == q.code
         else r.requests[e.r] == Done(Denied)
  {
  }

  lemma ConsumeIff(s: State, e: Event)
    requires e.Commit? && e.r in s.requests && s.requests[e.r].CodeMinted? && s.requests[e.r].code in s.d.codes
    ensures
      var q, r := s.requests[e.r], Next(s, e);
      && e.r in r.requests && r.requests[e.r].Done?
      && if e.up && q.code !in s.d.consumed && e.now < s.d.codes[q.code].expiresAt
         then r.requests[e.r] == Done(Issued(q.t)) && q.code in r.d.consumed && r.d.consumed[q.code] == q.t.family
              && q.t.refresh in r.d.tokens && r.d.tokens[q.t.refresh] == q.t
         else !r.requests[e.r].answer.Issued? && r.d == s.d
  {
  }

  lemma DoneStays(s: State, e: Event)
    requires (e.MintFor? || e.Commit?) && e.r in s.requests && s.requests[e.r].Done?
    ensures Next(s, e) == s
  {
  }

  ghost predicate GotToken(s: State, r: nat) {
    r in s.requests && s.requests[r].Done? && s.requests[r].answer.Issued?
  }

  /** An exchange among any other requests is answered with a token exactly when the request proves the code its own,
      the grant stands when it is looked up, and the code is still unconsumed and in time when the store is asked. */
  lemma ExchangeIff(es: seq<Event>, start: Event, mid1: seq<Event>, mint: Event, mid2: seq<Event>, commit: Event)
    requires start.StartExchange? && mint.MintFor? && commit.Commit? && start.r == mint.r == commit.r
    requires start.r !in Run(INIT, es).requests && Elsewhere(mid1, start.r) && Elsewhere(mid2, start.r)
    ensures
      var s := Run(INIT, es);
      var asked := Run(Next(Run(Next(s, start), mid1), mint), mid2);
      GotToken(Next(asked, commit), start.r) <==>
      && Proves(s.d, start.c, start.code, start.redirect, start.challenge, start.now)
      && var a := s.d.codes[start.code];
      && Stands(mint.g, start.c, mint.provider, a.grant, a.version, mint.checked)
      && commit.up && start.code !in asked.d.consumed && commit.now < a.expiresAt
  {
    var s, r := Run(INIT, es), start.r;
    CodesStayOver(INIT, es);
    StartIff(s, start);
    CodesStayOnce(s, start);
    CodesStayOver(Next(s, start), mid1);
    OthersLeaveAlone(Next(s, start), mid1, r);
    var s2 := Run(Next(s, start), mid1);
    if s2.requests[r].CodeLoaded? { MintIff(s2, mint); } else { DoneStays(s2, mint); }
    CodesStayOnce(s2, mint);
    CodesStayOver(Next(s2, mint), mid2);
    OthersLeaveAlone(Next(s2, mint), mid2, r);
    var s4 := Run(Next(s2, mint), mid2);
    if s4.requests[r].CodeMinted? { ConsumeIff(s4, commit); } else { DoneStays(s4, commit); }
  }

  // ---- Refreshing ----

  lemma StartRefreshIff(s: State, e: Event)
    requires e.StartRefresh? && e.r !in s.requests
    ensures e.r in Next(s, e).requests && Next(s, e).d == s.d
    ensures Next(s, e).requests[e.r] ==
            if !Holds(s.d, e.c, e.refresh, e.now) then Done(Denied)
            else if s.d.tokens[e.refresh].rotated then MustRevoke(s.d.tokens[e.refresh].family)
            else RefreshLoaded(e.c, s.d.tokens[e.refresh])
  {
  }

  lemma MintRefreshIff(s: State, e: Event)
    requires e.MintFor? && e.r in s.requests && s.requests[e.r].RefreshLoaded?
    ensures
      var q, r := s.requests[e.r], Next(s, e);
      && e.r in r.requests && r.d == s.d
      && if Stands(e.g, q.client, e.provider, q.prior.grant, q.prior.version, e.checked)
         then r.requests[e.r].RefreshMinted? && r.requests[e.r].prior == q.prior
         else r.requests[e.r] == Done(Denied)
  {
  }

  /** The store's answer to a rotation: the one that finds the token live and in time gets its successor, one that finds
      it rotated must revoke, and any other gets nothing. */
  lemma RotateIff(s: State, e: Event)
    requires Inv(s) && e.Commit? && e.r in s.requests && s.requests[e.r].RefreshMinted?
    ensures
      var q, r := s.requests[e.r], Next(s, e);
      && q.prior.refresh in s.d.tokens && e.r in r.requests
      && var p := s.d.tokens[q.prior.refresh];
      if !e.up then r.requests[e.r] == Done(StoreFailed) && r.d == s.d
      else if p.rotated then r.requests[e.r] == MustRevoke(q.prior.family) && r.d == s.d
      else if p.revoked || e.now >= q.prior.refreshExpiresAt then r.requests[e.r] == Done(StoreFailed) && r.d == s.d
      else r.requests[e.r] == Done(Issued(q.t))
           && r.d.tokens == s.d.tokens[q.prior.refresh := p.(rotated := true)][q.t.refresh := q.t]
  {
    assert RequestSound(s, s.requests[e.r]);
  }

  lemma MustRevokeStays(s: State, e: Event)
    requires e.MintFor? && e.r in s.requests && s.requests[e.r].MustRevoke?
    ensures Next(s, e) == s
  {
  }

  lemma RevokeNow(s: State, e: Event)
    requires e.Commit? && e.r in s.requests && (s.requests[e.r].MustRevoke? || s.requests[e.r].Revoking?)
    ensures
      var q, r := s.requests[e.r], Next(s, e);
      && e.r in r.requests
      && r.requests[e.r] == Done(if !e.up then StoreFailed
                                 else if q.MustRevoke? then Replayed(q.family) else Revoked(q.family))
      && (e.up ==> forall x :: x in r.d.tokens && r.d.tokens[x].family == q.family ==> r.d.tokens[x].revoked)
  {
  }

  lemma KeptThrough(s: State, e: Event, mid: seq<Event>)
    requires Inv(s)
    ensures Inv(Run(Next(s, e), mid))
  {
    NextKeepsInv(s, e);
    RunKeepsInv(Next(s, e), mid);
  }

  /** A refresh among any other requests is answered with a token exactly when it holds the secret of a live token of
      its client, the grant stands when it is looked up, and the token is still live and in time when the store is
      asked. */
  lemma RefreshIff(es: seq<Event>, start: Event, mid1: seq<Event>, mint: Event, mid2: seq<Event>, commit: Event)
    requires start.StartRefresh? && mint.MintFor? && commit.Commit? && start.r == mint.r == commit.r
    requires start.r !in Run(INIT, es).requests && Elsewhere(mid1, start.r) && Elsewhere(mid2, start.r)
    ensures
      var s := Run(INIT, es);
      var asked := Run(Next(Run(Next(s, start), mid1), mint), mid2);
      GotToken(Next(asked, commit), start.r) <==>
      && Holds(s.d, start.c, start.refresh, start.now) && !s.d.tokens[start.refresh].rotated
      && var p := s.d.tokens[start.refresh];
      && Stands(mint.g, start.c, mint.provider, p.grant, p.version, mint.checked)
      && commit.up && start.refresh in asked.d.tokens && Live(asked.d.tokens[start.refresh])
      && commit.now < p.refreshExpiresAt
  {
    var s, r := Run(INIT, es), start.r;
    InitInv();
    RunKeepsInv(INIT, es);
    StartRefreshIff(s, start);
    OthersLeaveAlone(Next(s, start), mid1, r);
    var s2 := Run(Next(s, start), mid1);
    KeptThrough(s, start, mid1);
    KeptThrough(s2, mint, mid2);
    if s2.requests[r].RefreshLoaded? {
      MintRefreshIff(s2, mint);
    } else if s2.requests[r].MustRevoke? {
      MustRevokeStays(s2, mint);
    } else {
      DoneStays(s2, mint);
    }
    OthersLeaveAlone(Next(s2, mint), mid2, r);
    var s4 := Run(Next(s2, mint), mid2);
    if s4.requests[r].RefreshMinted? {
      RotateIff(s4, commit);
      assert s.d.tokens[start.refresh].refresh == start.refresh;
    } else if s4.requests[r].MustRevoke? {
      RevokeNow(s4, commit);
    } else {
      DoneStays(s4, commit);
    }
  }

  /** Presenting a rotated secret while it would be good is answered as a replay exactly when the family is revoked. */
  lemma ReplayIff(es: seq<Event>, start: Event, mid: seq<Event>, commit: Event)
    requires start.StartRefresh? && commit.Commit? && start.r == commit.r
    requires start.r !in Run(INIT, es).requests && Elsewhere(mid, start.r)
    ensures
      var s := Run(INIT, es);
      var r := Next(Run(Next(s, start), mid), commit);
      && start.r in r.requests
      && ((r.requests[start.r].Done? && r.requests[start.r].answer.Replayed?) <==>
            Holds(s.d, start.c, start.refresh, start.now) && s.d.tokens[start.refresh].rotated && commit.up)
      && (r.requests[start.r].Done? && r.requests[start.r].answer.Replayed? ==>
            forall x :: x in r.d.tokens && r.d.tokens[x].family == s.d.tokens[start.refresh].family ==>
              r.d.tokens[x].revoked)
  {
    var s := Run(INIT, es);
    StartRefreshIff(s, start);
    OthersLeaveAlone(Next(s, start), mid, start.r);
    var s2 := Run(Next(s, start), mid);
    if s2.requests[start.r].MustRevoke? { RevokeNow(s2, commit); }
  }

  /** A revocation is confirmed exactly when the secret is one of the client's token and the store can be reached. */
  lemma RevokeIff(es: seq<Event>, start: Event, mid: seq<Event>, commit: Event, family: Secret)
    requires start.StartRevoke? && commit.Commit? && start.r == commit.r
    requires start.r !in Run(INIT, es).requests && Elsewhere(mid, start.r)
    ensures
      var s := Run(INIT, es);
      var r := Next(Run(Next(s, start), mid), commit);
      && start.r in r.requests
      && (r.requests[start.r] == Done(Revoked(family)) <==>
            && commit.up
            && exists x :: x in s.d.tokens && s.d.tokens[x].client == start.c.id && s.d.tokens[x].family == family
                           && (x == start.secret ||
                               (start.secret !in s.d.tokens && s.d.tokens[x].access == start.secret)))
      && (r.requests[start.r] == Done(Revoked(family)) ==>
            forall x :: x in r.d.tokens && r.d.tokens[x].family == family ==> r.d.tokens[x].revoked)
  {
    var s := Run(INIT, es);
    InitInv();
    RunKeepsInv(INIT, es);
    RunIndexes(INIT, es);
    OthersLeaveAlone(Next(s, start), mid, start.r);
    var s2 := Run(Next(s, start), mid);
    if s2.requests[start.r].Revoking? { RevokeNow(s2, commit); }
  }

  // ---- Access ----

  /** Every token can be found by its access secret. */
  ghost predicate Indexed(d: Storage) {
    forall r :: r in d.tokens ==> d.tokens[r].access in d.byAccess && d.byAccess[d.tokens[r].access] == r
  }

  lemma CommitIndexes(s: State, e: Event)
    requires Inv(s) && Indexed(s.d) && e.Commit? && e.r in s.requests
    ensures Indexed(Next(s, e).d)
  {
    assert RequestSound(s, s.requests[e.r]);
  }

  lemma NextIndexes(s: State, e: Event)
    requires Inv(s) && Indexed(s.d)
    ensures Indexed(Next(s, e).d)
  {
    if e.Commit? && e.r in s.requests {
      CommitIndexes(s, e);
    } else {
      OnlyCommitsStore(s, e);
    }
  }

  lemma OnlyCommitsStore(s: State, e: Event)
    requires e.Commit? ==> e.r !in s.requests
    ensures Next(s, e).d == s.d.(codes := Next(s, e).d.codes)
  {
  }

  lemma {:induction false} RunIndexes(s: State, es: seq<Event>)
    requires Inv(s) && Indexed(s.d)
    ensures Indexed(Run(s, es).d)
    decreases |es|
  {
    if es != [] {
      NextKeepsInv(s, es[0]);
      NextIndexes(s, es[0]);
      RunIndexes(Next(s, es[0]), es[1..]);
    }
  }

  /** In every run an access secret leads to the one token that has it. */
  lemma AccessIff(es: seq<Event>, access: Secret, t: Token)
    ensures
      var d := Run(INIT, es).d;
      LoadAccess(d, access) == Some(t) <==> exists r :: r in d.tokens && d.tokens[r] == t && t.access == access
  {
    InitInv();
    RunKeepsInv(INIT, es);
    RunIndexes(INIT, es);
  }
}
