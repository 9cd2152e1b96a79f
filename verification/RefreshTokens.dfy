/**
  Refresh-token families: rotation, reuse detection and revocation on a clock of microseconds.

  A token is an unforgeable record whose expiry is a whole second.  Used tokens and revoked families are keys of a store
  that drops each key when its time to live, a whole number of seconds, has passed.  A revocation outlives every token
  of its family.  A used marker outlives its token only for some moments of use (`MarkerCoverage`), and what depends on
  it is stated under exactly that condition.
 */
module RefreshTokens {
  import opened Options

  type Id = nat
  type Time = nat  // microseconds, the resolution of `datetime`

  const SECOND: nat := 1_000_000

  /** A time to the second, as a JWT stores its expiry. */
  function WholeSecond(t: Time): Time {
    t / SECOND * SECOND
  }

  datatype User = User(active: bool, verified: bool, version: nat)

  datatype Token = Token(family: Id, user: Id, version: nat, expiresAt: Time)

  /** `tokens` are all that were ever signed; `used` and `revoked` map each key to its expiry. */
  datatype Auth = Auth(
    now: Time,
    users: map<Id, User>,
    tokens: map<Id, Token>,
    used: map<Id, Time>,
    revoked: map<Id, Time>)

  const INITIAL := Auth(0, map[], map[], map[], map[])

  datatype Error = InvalidCredentials | InactiveAccount | EmailNotVerified | InvalidToken

  /** What a call leaves behind, and the identifier of the token it handed out or the error it raised. */
  datatype Reply = Reply(auth: Auth, result: Attempt<Id, Error>)

  // ---------------------------------------------------------------- the key store

  /** A key with an expiry is there until that moment. */
  predicate Exists(keys: map<Id, Time>, key: Id, now: Time) {
    key in keys && now < keys[key]
  }

  /** `max(1, int((expires_at - now).total_seconds()))`: whole seconds, a fraction dropped. */
  function Ttl(expiresAt: Time, now: Time): nat {
    if expiresAt >= now + SECOND then (expiresAt - now) / SECOND else 1
  }

  /** `SET key EX ttl`. */
  function SetKey(keys: map<Id, Time>, key: Id, now: Time, ttl: nat): map<Id, Time> {
    keys[key := now + ttl * SECOND]
  }

  // ---------------------------------------------------------------- calls

  /** `decode_refresh_token`: the signature and the expiry are checked. */
  predicate Decodes(a: Auth, jti: Id) {
    jti in a.tokens && a.now < a.tokens[jti].expiresAt
  }

  function Revoke(a: Auth, family: Id, life: nat): Auth {
    a.(revoked := SetKey(a.revoked, family, a.now, life))
  }

  function Issue(a: Auth, jti: Id, user: Id, family: Id, version: nat, life: nat): Auth {
    a.(tokens := a.tokens[jti := Token(family, user, version, WholeSecond(a.now) + life * SECOND)])
  }

  /** The identifiers drawn for a new pair are new. */
  predicate IsFresh(a: Auth, jti: Id) {
    jti !in a.tokens
  }

  predicate IsFreshFamily(a: Auth, family: Id) {
    family !in a.revoked && forall t <- a.tokens :: a.tokens[t].family != family
  }

  /** `login`, once the password matched. */
  function Login(a: Auth, user: Id, jti: Id, family: Id, life: nat): Reply {
    if user !in a.users then Reply(a, Refused(InvalidCredentials))
    else if !a.users[user].active then Reply(a, Refused(InactiveAccount))
    else if !a.users[user].verified then Reply(a, Refused(EmailNotVerified))
    else Reply(Issue(a, jti, user, family, a.users[user].version, life), Ok(jti))
  }

  function Refresh(a: Auth, jti: Id, next: Id, life: nat): Reply {
    if !Decodes(a, jti) then Reply(a, Refused(InvalidToken))
    else
      var t := a.tokens[jti];
      if Exists(a.revoked, t.family, a.now) then Reply(a, Refused(InvalidToken))
      else if Exists(a.used, jti, a.now) then Reply(Revoke(a, t.family, life), Refused(InvalidToken))
      else
        var b := a.(used := SetKey(a.used, jti, a.now, Ttl(t.expiresAt, a.now)));
        if t.user !in b.users then Reply(Revoke(b, t.family, life), Refused(InvalidToken))
        else if !b.users[t.user].active then Reply(Revoke(b, t.family, life), Refused(InactiveAccount))
        else if t.version != b.users[t.user].version then Reply(Revoke(b, t.family, life), Refused(InvalidToken))
        else Reply(Issue(b, next, t.user, t.family, b.users[t.user].version, life), Ok(next))
  }

  function Logout(a: Auth, jti: Id, life: nat): Reply {
    if Decodes(a, jti) then Reply(Revoke(a, a.tokens[jti].family, life), Ok(jti)) else Reply(a, Refused(InvalidToken))
  }

  /** `update_password` on behalf of `reset_password`. */
  function ResetPassword(a: Auth, user: Id): Auth {
    if user in a.users && a.users[user].active
    then a.(users := a.users[user := a.users[user].(version := a.users[user].version + 1)])
    else a
  }

  /** The steps of the accounts and the clock; `life` is the lifetime of a refresh token in seconds. */
  datatype Step =
    | Register(user: Id)
    | Verify(user: Id)
    | SetActive(user: Id, active: bool)
    | RemoveUser(user: Id)
    | LogsIn(user: Id, jti: Id, family: Id)
    | Refreshes(jti: Id, next: Id)
    | LogsOut(jti: Id)
    | ResetsPassword(user: Id)
    | Tick(elapsed: nat)

  function Next(a: Auth, s: Step, life: nat): Auth {
    match s
    case Register(user) => if user in a.users then a else a.(users := a.users[user := User(true, false, 0)])
    case Verify(user) => if user in a.users then a.(users := a.users[user := a.users[user].(verified := true)]) else a
    case SetActive(user, active) => if user in a.users then a.(users := a.users[user := a.users[user].(active := active)]) else a
    case RemoveUser(user) => a.(users := a.users - {user})
    case LogsIn(user, jti, family) => if IsFresh(a, jti) && IsFreshFamily(a, family) then Login(a, user, jti, family, life).auth else a
    case Refreshes(jti, next) => if IsFresh(a, next) then Refresh(a, jti, next, life).auth else a
    case LogsOut(jti) => Logout(a, jti, life).auth
    case ResetsPassword(user) => ResetPassword(a, user)
    case Tick(elapsed) => a.(now := a.now + elapsed)
  }

  function RunFrom(a: Auth, steps: seq<Step>, life: nat): Auth
    decreases |steps|
  {
    if steps == [] then a else RunFrom(Next(a, steps[0], life), steps[1..], life)
  }

  function Run(steps: seq<Step>, life: nat): Auth {
    RunFrom(INITIAL, steps, life)
  }

  // ---------------------------------------------------------------- how long a marker lasts

  /** A use on a whole second, or within the last second of the token's life. */
  predicate Covered(p: Time, expiresAt: Time) {
    p % SECOND == 0 || expiresAt < p + SECOND
  }

  predicate IsBefore(t: Time, end: Time) { t < end }

  /**
    The marker of a token used at `p` covers it to its expiry exactly when the use is `Covered`.  Otherwise the token is
    unguarded from `p` plus the whole seconds that it had left.
   */
  lemma MarkerCoverage(p: Time, expiresAt: Time)
    requires p < expiresAt && expiresAt % SECOND == 0
    ensures var marker := p + Ttl(expiresAt, p) * SECOND;
      && (marker >= expiresAt <==> Covered(p, expiresAt))
      && (forall t: Time :: p <= t < expiresAt ==>
            (IsBefore(t, marker) <==> Covered(p, expiresAt) || IsBefore(t, p + (expiresAt - p) / SECOND * SECOND)))
      && (!Covered(p, expiresAt) ==> p < marker == p + (expiresAt - p) / SECOND * SECOND < expiresAt < marker + SECOND)
  {
    var left := expiresAt - p;
    assert left == left / SECOND * SECOND + left % SECOND;
    WholeDifference(p, expiresAt);
  }

  lemma WholeDifference(p: Time, e: Time)
    requires p < e && e % SECOND == 0
    ensures (e - p) % SECOND == 0 <==> p % SECOND == 0
  {
  }

  // ---------------------------------------------------------------- the invariant

  /** Tokens expire within their lifetime on whole seconds, and a revocation outlasts every token of its family. */
  ghost predicate Inv(a: Auth, life: nat) {
    && (forall t <- a.tokens :: a.tokens[t].expiresAt <= WholeSecond(a.now) + life * SECOND && a.tokens[t].expiresAt % SECOND == 0)
    && (forall f <- a.revoked :: a.revoked[f] <= a.now + life * SECOND)
    && (forall t <- a.used :: t in a.tokens)
    && (forall t <- a.tokens :: a.tokens[t].family in a.revoked ==> a.tokens[t].expiresAt <= a.revoked[a.tokens[t].family])
  }

  lemma SecondsPass(t: Time, u: Time)
    requires t <= u
    ensures WholeSecond(t) <= WholeSecond(u) <= u
  {
  }

  lemma WholeSecondIsWhole(t: Time, life: nat)
    ensures (WholeSecond(t) + life * SECOND) % SECOND == 0
  {
  }

  lemma RevokeKeepsInv(a: Auth, family: Id, life: nat)
    requires Inv(a, life)
    ensures Inv(Revoke(a, family, life), life)
  {
    SecondsPass(a.now, a.now);
  }

  function Consume(a: Auth, jti: Id): Auth
    requires jti in a.tokens
  {
    a.(used := SetKey(a.used, jti, a.now, Ttl(a.tokens[jti].expiresAt, a.now)))
  }

  lemma ConsumeKeepsInv(a: Auth, jti: Id, life: nat)
    requires Inv(a, life) && jti in a.tokens
    ensures Inv(Consume(a, jti), life)
  {
    hide SetKey, Ttl;
    assert Consume(a, jti).used.Keys == a.used.Keys + {jti} by { ConsumedKeys(a, jti); }
  }

  lemma ConsumedKeys(a: Auth, jti: Id)
    requires jti in a.tokens
    ensures Consume(a, jti).used.Keys == a.used.Keys + {jti}
    ensures forall t <- a.used :: t != jti ==> Consume(a, jti).used[t] == a.used[t]
  {
    hide Ttl;
  }

  lemma IssueKeepsInv(a: Auth, next: Id, user: Id, family: Id, version: nat, life: nat)
    requires Inv(a, life) && IsFresh(a, next) && family !in a.revoked
    ensures Inv(Issue(a, next, user, family, version, life), life)
  {
    WholeSecondIsWhole(a.now, life);
  }

  /** For a token that still decodes, its family's revocation is live exactly when it was ever set. */
  lemma RevocationsOutlive(a: Auth, jti: Id, life: nat)
    requires Inv(a, life) && Decodes(a, jti)
    ensures Exists(a.revoked, a.tokens[jti].family, a.now) <==> a.tokens[jti].family in a.revoked
  {
  }

  lemma RefreshKeepsInv(a: Auth, jti: Id, next: Id, life: nat)
    requires Inv(a, life) && IsFresh(a, next)
    ensures Inv(Refresh(a, jti, next, life).auth, life)
  {
    hide Inv, SetKey, Ttl, WholeSecond;
    if Decodes(a, jti) {
      var t := a.tokens[jti];
      RevocationsOutlive(a, jti, life);
      RevokeKeepsInv(a, t.family, life);
      if t.family !in a.revoked {
        var b := Consume(a, jti);
        ConsumeKeepsInv(a, jti, life);
        RevokeKeepsInv(b, t.family, life);
        if t.user in b.users {
          IssueKeepsInv(b, next, t.user, t.family, b.users[t.user].version, life);
        }
      }
    }
  }

  lemma LoginKeepsInv(a: Auth, user: Id, jti: Id, family: Id, life: nat)
    requires Inv(a, life) && IsFresh(a, jti) && IsFreshFamily(a, family)
    ensures Inv(Login(a, user, jti, family, life).auth, life)
  {
    hide Inv, WholeSecond;
    if user in a.users {
      IssueKeepsInv(a, jti, user, family, a.users[user].version, life);
    }
  }

  lemma TickKeepsInv(a: Auth, elapsed: nat, life: nat)
    requires Inv(a, life)
    ensures Inv(a.(now := a.now + elapsed), life)
  {
    SecondsPass(a.now, a.now + elapsed);
  }

  lemma StepKeepsInv(a: Auth, s: Step, life: nat)
    requires Inv(a, life)
    ensures Inv(Next(a, s, life), life)
  {
    hide Refresh, Login, Revoke, WholeSecond;
    match s
    case Refreshes(jti, next) => if IsFresh(a, next) { RefreshKeepsInv(a, jti, next, life); }
    case LogsIn(user, jti, family) => if IsFresh(a, jti) && IsFreshFamily(a, family) { LoginKeepsInv(a, user, jti, family, life); }
    case LogsOut(jti) => if Decodes(a, jti) { RevokeKeepsInv(a, a.tokens[jti].family, life); }
    case Tick(elapsed) => TickKeepsInv(a, elapsed, life);
    case _ =>
  }

  lemma {:induction false} RunKeepsInv(a: Auth, steps: seq<Step>, life: nat)
    requires Inv(a, life)
    ensures Inv(RunFrom(a, steps, life), life)
    decreases |steps|
  {
    hide Next, Inv;
    if steps != [] {
      StepKeepsInv(a, steps[0], life);
      RunKeepsInv(Next(a, steps[0], life), steps[1..], life);
    }
  }

  lemma ReachableKeepsInv(steps: seq<Step>, life: nat)
    ensures Inv(Run(steps, life), life)
  {
    hide RunFrom;
    RunKeepsInv(INITIAL, steps, life);
  }

  // ---------------------------------------------------------------- two states

  /** What was revoked stays revoked and tokens stay as signed. */
  ghost predicate MovesOn(a: Auth, b: Auth) {
    && a.now <= b.now
    && (forall t <- a.tokens :: t in b.tokens && b.tokens[t] == a.tokens[t])
    && (forall f <- a.revoked :: f in b.revoked)
  }

  lemma StepMovesOn(a: Auth, s: Step, life: nat)
    ensures MovesOn(a, Next(a, s, life))
  {
    hide WholeSecond, Ttl;
  }

  lemma {:induction false} RunMovesOn(a: Auth, steps: seq<Step>, life: nat)
    ensures MovesOn(a, RunFrom(a, steps, life))
    decreases |steps|
  {
    hide Next;
    if steps != [] {
      StepMovesOn(a, steps[0], life);
      RunMovesOn(Next(a, steps[0], life), steps[1..], life);
    }
  }

  lemma {:induction false} RunAppends(a: Auth, before: seq<Step>, after: seq<Step>, life: nat)
    ensures RunFrom(a, before + after, life) == RunFrom(RunFrom(a, before, life), after, life)
    decreases |before|
  {
    hide Next;
    if before == [] {
      assert before + after == after;
    } else {
      assert (before + after)[1..] == before[1..] + after;
      RunAppends(Next(a, before[0], life), before[1..], after, life);
    }
  }

  lemma LastStep(before: seq<Step>, s: Step, life: nat)
    ensures Run(before + [s], life) == Next(Run(before, life), s, life)
  {
    hide Next;
    RunAppends(INITIAL, before, [s], life);
    assert RunFrom(Run(before, life), [s], life) == RunFrom(Next(Run(before, life), s, life), [], life);
  }

  // ---------------------------------------------------------------- refreshing

  predicate Succeeds(a: Auth, jti: Id, next: Id, life: nat) {
    Refresh(a, jti, next, life).result.Ok?
  }

  /** When a refresh succeeds, exactly: the family must never have been revoked, and no used marker may be live. */
  lemma RefreshSucceeds(a: Auth, jti: Id, next: Id, life: nat)
    requires Inv(a, life)
    ensures Succeeds(a, jti, next, life) <==>
      && Decodes(a, jti) && a.tokens[jti].family !in a.revoked && !Exists(a.used, jti, a.now)
      && a.tokens[jti].user in a.users && a.users[a.tokens[jti].user].active
      && a.users[a.tokens[jti].user].version == a.tokens[jti].version
  {
    hide Inv, WholeSecond, SetKey, Ttl;
    if Decodes(a, jti) {
      RevocationsOutlive(a, jti, life);
    }
  }

  /** Nothing can make this token refresh again: its family is revoked, or its marker lasts to its expiry. */
  ghost predicate Sealed(a: Auth, jti: Id) {
    jti in a.tokens && (a.tokens[jti].family in a.revoked || (jti in a.used && a.used[jti] >= a.tokens[jti].expiresAt))
  }

  lemma SealedIsRefused(a: Auth, jti: Id, next: Id, life: nat)
    requires Inv(a, life) && Sealed(a, jti)
    ensures !Succeeds(a, jti, next, life)
  {
    RefreshSucceeds(a, jti, next, life);
  }

  /** A live marker is never overwritten, so a seal stays. */
  lemma StepKeepsSeal(a: Auth, s: Step, life: nat, jti: Id)
    requires Sealed(a, jti)
    ensures Sealed(Next(a, s, life), jti)
  {
    hide WholeSecond, Ttl;
  }

  lemma {:induction false} RunKeepsSeal(a: Auth, steps: seq<Step>, life: nat, jti: Id)
    requires Sealed(a, jti)
    ensures Sealed(RunFrom(a, steps, life), jti)
    decreases |steps|
  {
    hide Next, Sealed;
    if steps != [] {
      StepKeepsSeal(a, steps[0], life, jti);
      RunKeepsSeal(Next(a, steps[0], life), steps[1..], life, jti);
    }
  }

  /** The token never refreshes again, whatever happens after the steps. */
  ghost predicate NeverAgain(steps: seq<Step>, life: nat, jti: Id) {
    forall after: seq<Step>, next: Id :: !Succeeds(RunFrom(Run(steps, life), after, life), jti, next, life)
  }

  lemma SealedNeverAgain(steps: seq<Step>, life: nat, jti: Id)
    requires Sealed(Run(steps, life), jti)
    ensures NeverAgain(steps, life, jti)
  {
    hide Run, Sealed, Succeeds, RunFrom;
    forall after: seq<Step>, next: Id ensures !Succeeds(RunFrom(Run(steps, life), after, life), jti, next, life) {
      ReachableKeepsInv(steps, life);
      RunKeepsInv(Run(steps, life), after, life);
      RunKeepsSeal(Run(steps, life), after, life, jti);
      SealedIsRefused(RunFrom(Run(steps, life), after, life), jti, next, life);
    }
  }

  /** Presenting a token seals it when the use is covered, when the marker was live, and when the refresh is refused. */
  lemma PresentingSeals(a: Auth, jti: Id, first: Id, life: nat)
    requires Inv(a, life) && Decodes(a, jti) && IsFresh(a, first)
    requires Covered(a.now, a.tokens[jti].expiresAt) || !Succeeds(a, jti, first, life)
    ensures Sealed(Next(a, Refreshes(jti, first), life), jti)
  {
    RevocationsOutlive(a, jti, life);
    MarkerCoverage(a.now, a.tokens[jti].expiresAt);
  }

  /** A token presented once, successfully or not, at a covered moment never refreshes again. */
  lemma RefreshesOnce(before: seq<Step>, life: nat, jti: Id, first: Id)
    requires Decodes(Run(before, life), jti) && IsFresh(Run(before, life), first)
    requires Covered(Run(before, life).now, Run(before, life).tokens[jti].expiresAt) || !Succeeds(Run(before, life), jti, first, life)
    ensures NeverAgain(before + [Refreshes(jti, first)], life, jti)
  {
    hide Run, Next, Covered, Succeeds, Sealed, NeverAgain;
    ReachableKeepsInv(before, life);
    PresentingSeals(Run(before, life), jti, first, life);
    LastStep(before, Refreshes(jti, first), life);
    SealedNeverAgain(before + [Refreshes(jti, first)], life, jti);
  }

  /** After an uncovered refresh, both tokens are usable once the whole seconds that the first had left have passed. */
  lemma UncoveredRefreshLeaks(a: Auth, jti: Id, first: Id, life: nat)
    requires Inv(a, life) && IsFresh(a, first) && Succeeds(a, jti, first, life)
    requires !Covered(a.now, a.tokens[jti].expiresAt)
    ensures var wait := (a.tokens[jti].expiresAt - a.now) / SECOND * SECOND;
      var b := Next(Next(a, Refreshes(jti, first), life), Tick(wait), life);
      && Usable(b, jti) && Usable(b, first) && jti != first && b.tokens[first].family == b.tokens[jti].family
      && forall next :: Succeeds(b, jti, next, life)
  {
    RefreshSucceeds(a, jti, first, life);
    MarkerCoverage(a.now, a.tokens[jti].expiresAt);
    var wait := (a.tokens[jti].expiresAt - a.now) / SECOND * SECOND;
    var mid := Next(a, Refreshes(jti, first), life);
    var b := Next(mid, Tick(wait), life);
    UnusedUntilIssued(a, jti, first, life);
    StepKeepsInv(a, Refreshes(jti, first), life);
    StepKeepsInv(mid, Tick(wait), life);
    forall next ensures Succeeds(b, jti, next, life) {
      RefreshSucceeds(b, jti, next, life);
    }
  }

  lemma UnusedUntilIssued(a: Auth, jti: Id, first: Id, life: nat)
    requires Inv(a, life) && IsFresh(a, first) && Succeeds(a, jti, first, life)
    ensures var mid := Next(a, Refreshes(jti, first), life);
      && jti in a.tokens && first in mid.tokens && first !in mid.used && mid.users == a.users && mid.revoked == a.revoked
      && mid.tokens[jti] == a.tokens[jti] && mid.tokens[first].family == a.tokens[jti].family && mid.now == a.now
      && a.tokens[jti].expiresAt <= mid.tokens[first].expiresAt
      && mid.used == SetKey(a.used, jti, a.now, Ttl(a.tokens[jti].expiresAt, a.now))
  {
    hide Ttl, WholeSecond;
  }

  /** Decodes and has no live marker. */
  predicate Usable(a: Auth, jti: Id) {
    Decodes(a, jti) && !Exists(a.used, jti, a.now)
  }

  /**
    A successful refresh is the last of its token exactly when it is covered: presented on a whole second, or within the
    last second of the token's life.
   */
  lemma RefreshIsFinal(before: seq<Step>, life: nat, jti: Id, first: Id)
    requires IsFresh(Run(before, life), first) && Succeeds(Run(before, life), jti, first, life)
    ensures NeverAgain(before + [Refreshes(jti, first)], life, jti)
       <==> Covered(Run(before, life).now, Run(before, life).tokens[jti].expiresAt)
  {
    hide Run, Next, Covered, Succeeds, Usable;
    var a := Run(before, life);
    ReachableKeepsInv(before, life);
    RefreshSucceeds(a, jti, first, life);
    if Covered(a.now, a.tokens[jti].expiresAt) {
      RefreshesOnce(before, life, jti, first);
    } else {
      UncoveredRefreshLeaks(a, jti, first, life);
      LastStep(before, Refreshes(jti, first), life);
      var wait := (a.tokens[jti].expiresAt - a.now) / SECOND * SECOND;
      OneStep(Run(before + [Refreshes(jti, first)], life), Tick(wait), life);
      assert Succeeds(RunFrom(Run(before + [Refreshes(jti, first)], life), [Tick(wait)], life), jti, first, life);
    }
  }

  lemma OneStep(a: Auth, s: Step, life: nat)
    ensures RunFrom(a, [s], life) == Next(a, s, life)
  {
    hide Next;
    assert RunFrom(a, [s], life) == RunFrom(Next(a, s, life), [], life);
  }

  // ---------------------------------------------------------------- whose tokens they are

  /** A token signed now lives a refresh lifetime, counted from the whole second. */
  predicate SignedNow(a: Auth, t: Token, life: nat) {
    t.expiresAt == (a.now / SECOND + life) * SECOND
  }

  /** The successor belongs to the presented token's user and family and carries that user's current version. */
  lemma SuccessorIsTheOwners(a: Auth, jti: Id, next: Id, life: nat)
    requires Succeeds(a, jti, next, life)
    ensures var b := Refresh(a, jti, next, life).auth;
      && jti in a.tokens && next in b.tokens && a.tokens[jti].user in a.users
      && b.tokens[next].user == a.tokens[jti].user && b.tokens[next].family == a.tokens[jti].family
      && b.tokens[next].version == a.users[a.tokens[jti].user].version && SignedNow(a, b.tokens[next], life)
      && b.tokens == a.tokens[next := b.tokens[next]] && b.users == a.users && b.revoked == a.revoked
  {
    hide Ttl, SetKey;
    WholeSeconds(a.now, life);
  }

  lemma WholeSeconds(t: Time, life: nat)
    ensures WholeSecond(t) + life * SECOND == (t / SECOND + life) * SECOND
  {
  }

  /** A login gives an active, verified account a token of its own in the new family. */
  lemma LoginSignsForTheUser(a: Auth, user: Id, jti: Id, family: Id, life: nat)
    ensures var r := Login(a, user, jti, family, life);
      && (r.result.Ok? <==> user in a.users && a.users[user].active && a.users[user].verified)
      && (r.result.Ok? ==>
            && jti in r.auth.tokens && r.auth == a.(tokens := a.tokens[jti := r.auth.tokens[jti]])
            && r.auth.tokens[jti].user == user && r.auth.tokens[jti].family == family
            && r.auth.tokens[jti].version == a.users[user].version && SignedNow(a, r.auth.tokens[jti], life))
      && (r.result.Refused? ==> r.auth == a)
  {
    WholeSeconds(a.now, life);
  }

  /** All tokens of a family belong to one user. */
  ghost predicate OneOwner(a: Auth) {
    forall t <- a.tokens, u <- a.tokens :: a.tokens[t].family == a.tokens[u].family ==> a.tokens[t].user == a.tokens[u].user
  }

  /** Step `i` was a login of `user` that opened the family. */
  ghost predicate OpenedAt(steps: seq<Step>, life: nat, i: nat, family: Id, user: Id) {
    && i < |steps| && steps[i].LogsIn? && steps[i].family == family && steps[i].user == user
    && IsFreshFamily(Run(steps[..i], life), family)
    && Login(Run(steps[..i], life), user, steps[i].jti, family, life).result.Ok?
  }

  ghost predicate WasOpened(steps: seq<Step>, life: nat, family: Id, user: Id) {
    exists i: nat :: OpenedAt(steps, life, i, family, user)
  }

  /** Where a token of the state after a step comes from. */
  lemma TokenComesFrom(a: Auth, s: Step, life: nat, t: Id)
    requires t in Next(a, s, life).tokens
    ensures var x := Next(a, s, life).tokens[t];
      || (t in a.tokens && a.tokens[t] == x)
      || (s.Refreshes? && s.jti in a.tokens && x.family == a.tokens[s.jti].family && x.user == a.tokens[s.jti].user)
      || (s.LogsIn? && x.family == s.family && x.user == s.user && IsFreshFamily(a, s.family)
          && Login(a, s.user, s.jti, s.family, life).result.Ok?)
  {
    hide WholeSecond, Ttl, SetKey;
  }

  lemma StepKeepsOwner(a: Auth, s: Step, life: nat)
    requires OneOwner(a)
    ensures OneOwner(Next(a, s, life))
  {
    hide Next, Login;
    var b := Next(a, s, life);
    forall t, u | t in b.tokens && u in b.tokens && b.tokens[t].family == b.tokens[u].family
      ensures b.tokens[t].user == b.tokens[u].user
    {
      TokenComesFrom(a, s, life, t);
      TokenComesFrom(a, s, life, u);
    }
  }

  /**
    Every token of a reachable state belongs to the user whose login opened its family, and so do all other tokens of
    that family: no refresh ever hands a token to another account.
   */
  lemma {:induction false} FamiliesHaveOneOwner(steps: seq<Step>, life: nat, t: Id)
    requires t in Run(steps, life).tokens
    ensures WasOpened(steps, life, Run(steps, life).tokens[t].family, Run(steps, life).tokens[t].user)
    ensures OneOwner(Run(steps, life))
    decreases |steps|
  {
    hide Next, RunFrom, WasOpened, Login, IsFreshFamily;
    assert steps != [] by { NoTokensYet(life); }
    var front, last := steps[..|steps| - 1], steps[|steps| - 1];
    assert steps == front + [last];
    LastStep(front, last, life);
    OwnersOfRun(steps, life);
    var x := Run(steps, life).tokens[t];
    TokenComesFrom(Run(front, life), last, life, t);
    if last.LogsIn? && x.family == last.family && x.user == last.user && IsFreshFamily(Run(front, life), last.family)
       && Login(Run(front, life), last.user, last.jti, last.family, life).result.Ok? {
      assert steps[..|front|] == front;
      OpenedHere(steps, life, |front|, x.family, x.user);
    } else {
      var u := if t in Run(front, life).tokens && Run(front, life).tokens[t] == x then t else last.jti;
      FamiliesHaveOneOwner(front, life, u);
      StillOpened(front, last, life, x.family, x.user);
    }
  }

  lemma OpenedHere(steps: seq<Step>, life: nat, i: nat, family: Id, user: Id)
    requires OpenedAt(steps, life, i, family, user)
    ensures WasOpened(steps, life, family, user)
  {
  }

  lemma StillOpened(front: seq<Step>, s: Step, life: nat, family: Id, user: Id)
    requires WasOpened(front, life, family, user)
    ensures WasOpened(front + [s], life, family, user)
  {
    hide Run, Login, IsFreshFamily;
    var i: nat :| OpenedAt(front, life, i, family, user);
    assert (front + [s])[..i] == front[..i];
    assert OpenedAt(front + [s], life, i, family, user);
  }

  lemma NoTokensYet(life: nat)
    ensures Run([], life).tokens == map[]
  {
  }

  lemma {:induction false} OwnersOfRun(steps: seq<Step>, life: nat)
    ensures OneOwner(Run(steps, life))
    decreases |steps|
  {
    hide Next, RunFrom;
    if steps == [] {
      NoTokensYet(life);
    } else {
      var front, last := steps[..|steps| - 1], steps[|steps| - 1];
      assert steps == front + [last];
      LastStep(front, last, life);
      OwnersOfRun(front, life);
      StepKeepsOwner(Run(front, life), last, life);
    }
  }

  // ---------------------------------------------------------------- one usable token

  /** At most one token of the family is usable. */
  ghost predicate OneUsable(a: Auth, family: Id) {
    forall t <- a.tokens, u <- a.tokens ::
      a.tokens[t].family == family == a.tokens[u].family && Usable(a, t) && Usable(a, u) ==> t == u
  }

  /** Every used token of the family is marked to its expiry, and at most one was never presented. */
  ghost predicate Guarded(a: Auth, family: Id) {
    && (forall t <- a.used :: t in a.tokens && a.tokens[t].family == family ==> a.used[t] >= a.tokens[t].expiresAt)
    && (forall t <- a.tokens, u <- a.tokens ::
          t !in a.used && u !in a.used && a.tokens[t].family == family == a.tokens[u].family ==> t == u)
  }

  lemma GuardedIsOneUsable(a: Auth, family: Id)
    requires Guarded(a, family)
    ensures OneUsable(a, family)
  {
  }

  /** A step that marks a token of the family used does so at a covered moment. */
  predicate StepIsCovered(a: Auth, s: Step, family: Id) {
    s.Refreshes? && Usable(a, s.jti) && a.tokens[s.jti].family == family ==> Covered(a.now, a.tokens[s.jti].expiresAt)
  }

  ghost predicate RunIsCovered(a: Auth, steps: seq<Step>, life: nat, family: Id)
    decreases |steps|
  {
    steps == [] || (StepIsCovered(a, steps[0], family) && RunIsCovered(Next(a, steps[0], life), steps[1..], life, family))
  }

  lemma ConsumeKeepsGuard(a: Auth, jti: Id, life: nat, family: Id)
    requires Inv(a, life) && Guarded(a, family) && Usable(a, jti)
    requires a.tokens[jti].family == family ==> Covered(a.now, a.tokens[jti].expiresAt)
    ensures Guarded(Consume(a, jti), family)
    ensures a.tokens[jti].family == family ==> forall t <- a.tokens :: a.tokens[t].family == family ==> t in Consume(a, jti).used
  {
    hide SetKey, Ttl;
    ConsumedKeys(a, jti);
    ConsumedMarker(a, jti);
    MarkerCoverage(a.now, a.tokens[jti].expiresAt);
  }

  lemma ConsumedMarker(a: Auth, jti: Id)
    requires jti in a.tokens
    ensures Consume(a, jti).used[jti] == a.now + Ttl(a.tokens[jti].expiresAt, a.now) * SECOND
  {
    hide Ttl;
  }

  lemma IssueKeepsGuard(a: Auth, next: Id, user: Id, owner: Id, version: nat, life: nat, family: Id)
    requires Inv(a, life) && Guarded(a, family) && IsFresh(a, next)
    requires owner == family ==> forall t <- a.tokens :: a.tokens[t].family == family ==> t in a.used
    ensures Guarded(Issue(a, next, user, owner, version, life), family)
  {
    hide WholeSecond;
  }

  lemma RefreshKeepsGuard(a: Auth, jti: Id, next: Id, life: nat, family: Id)
    requires Inv(a, life) && Guarded(a, family) && IsFresh(a, next) && StepIsCovered(a, Refreshes(jti, next), family)
    ensures Guarded(Refresh(a, jti, next, life).auth, family)
  {
    hide Inv, SetKey, Ttl, WholeSecond, Guarded, Covered;
    if Usable(a, jti) {
      var t := a.tokens[jti];
      var b := Consume(a, jti);
      ConsumeKeepsGuard(a, jti, life, family);
      ConsumeKeepsInv(a, jti, life);
      RevokeKeepsGuard(b, t.family, life, family);
      if t.user in b.users {
        IssueKeepsGuard(b, next, t.user, t.family, b.users[t.user].version, life, family);
      }
    } else if Decodes(a, jti) {
      RevokeKeepsGuard(a, a.tokens[jti].family, life, family);
    }
  }

  lemma RevokeKeepsGuard(a: Auth, owner: Id, life: nat, family: Id)
    requires Guarded(a, family)
    ensures Guarded(Revoke(a, owner, life), family)
  {
  }

  lemma StepKeepsGuard(a: Auth, s: Step, life: nat, family: Id)
    requires Inv(a, life) && Guarded(a, family) && StepIsCovered(a, s, family)
    ensures Guarded(Next(a, s, life), family)
  {
    hide Refresh, WholeSecond, Revoke, StepIsCovered;
    match s
    case Refreshes(jti, next) => if IsFresh(a, next) { RefreshKeepsGuard(a, jti, next, life, family); }
    case LogsIn(user, jti, owner) =>
      if IsFresh(a, jti) && IsFreshFamily(a, owner) && user in a.users {
        IssueKeepsGuard(a, jti, user, owner, a.users[user].version, life, family);
      }
    case LogsOut(jti) => if Decodes(a, jti) { RevokeKeepsGuard(a, a.tokens[jti].family, life, family); }
    case _ =>
  }

  lemma {:induction false} RunKeepsGuard(a: Auth, steps: seq<Step>, life: nat, family: Id)
    requires Inv(a, life) && Guarded(a, family) && RunIsCovered(a, steps, life, family)
    ensures Guarded(RunFrom(a, steps, life), family)
    decreases |steps|
  {
    hide Next, Inv, Guarded, StepIsCovered;
    if steps != [] {
      StepKeepsInv(a, steps[0], life);
      StepKeepsGuard(a, steps[0], life, family);
      RunKeepsGuard(Next(a, steps[0], life), steps[1..], life, family);
    }
  }

  /** As long as every use of a family's tokens is covered, the family has at most one usable token. */
  lemma OneUsableToken(steps: seq<Step>, life: nat, family: Id)
    requires RunIsCovered(INITIAL, steps, life, family)
    ensures OneUsable(Run(steps, life), family)
  {
    hide RunFrom, Guarded, RunIsCovered, OneUsable;
    InitialIsGuarded(life, family);
    RunKeepsGuard(INITIAL, steps, life, family);
    GuardedIsOneUsable(Run(steps, life), family);
  }

  lemma InitialIsGuarded(life: nat, family: Id)
    ensures Inv(INITIAL, life) && Guarded(INITIAL, family)
  {
  }

  /**
    From a run that was covered so far, a successful refresh leaves the family with at most one usable token for all time
    exactly when it is covered itself.
   */
  lemma OneUsableAfterRefresh(before: seq<Step>, life: nat, jti: Id, first: Id)
    requires IsFresh(Run(before, life), first) && Succeeds(Run(before, life), jti, first, life)
    requires jti in Run(before, life).tokens && RunIsCovered(INITIAL, before, life, Run(before, life).tokens[jti].family)
    ensures (forall n: nat :: OneUsable(Next(Next(Run(before, life), Refreshes(jti, first), life), Tick(n), life),
                                        Run(before, life).tokens[jti].family))
       <==> Covered(Run(before, life).now, Run(before, life).tokens[jti].expiresAt)
  {
    hide Run, Covered, Succeeds, RunIsCovered, Refresh, Guarded, OneUsable, WholeSecond;
    var a := Run(before, life);
    var family := a.tokens[jti].family;
    ReachableKeepsInv(before, life);
    RefreshSucceeds(a, jti, first, life);
    if Covered(a.now, a.tokens[jti].expiresAt) {
      RunGuards(before, life, family);
      var mid := Next(a, Refreshes(jti, first), life);
      StepKeepsInv(a, Refreshes(jti, first), life);
      StepKeepsGuard(a, Refreshes(jti, first), life, family);
      forall n: nat ensures OneUsable(Next(mid, Tick(n), life), family) {
        StepKeepsGuard(mid, Tick(n), life, family);
        GuardedIsOneUsable(Next(mid, Tick(n), life), family);
      }
    } else {
      UncoveredRefreshLeaks(a, jti, first, life);
      var wait := (a.tokens[jti].expiresAt - a.now) / SECOND * SECOND;
      TwoUsable(Next(Next(a, Refreshes(jti, first), life), Tick(wait), life), jti, first);
      UnusedUntilIssued(a, jti, first, life);
    }
  }

  lemma RunGuards(steps: seq<Step>, life: nat, family: Id)
    requires RunIsCovered(INITIAL, steps, life, family)
    ensures Guarded(Run(steps, life), family)
  {
    hide RunFrom, Guarded, RunIsCovered;
    InitialIsGuarded(life, family);
    RunKeepsGuard(INITIAL, steps, life, family);
  }

  lemma TwoUsable(a: Auth, t: Id, u: Id)
    requires Usable(a, t) && Usable(a, u) && t != u && a.tokens[t].family == a.tokens[u].family
    ensures !OneUsable(a, a.tokens[t].family)
  {
  }

  /** A refused refresh of a token that decodes leaves its family revoked: by then it was, or the refusal revokes it. */
  lemma RefusalRevokes(a: Auth, jti: Id, next: Id, life: nat)
    requires Inv(a, life) && Decodes(a, jti) && !Succeeds(a, jti, next, life)
    ensures a.tokens[jti].family in Refresh(a, jti, next, life).auth.revoked
    ensures Refresh(a, jti, next, life).auth.tokens == a.tokens && Refresh(a, jti, next, life).auth.users == a.users
  {
    hide Ttl, WholeSecond;
    RevocationsOutlive(a, jti, life);
  }

  // ---------------------------------------------------------------- the run that refreshes twice

  /** Signed at 0 to live 20 seconds, used at 10.3 seconds and again 9.2 seconds later. */
  function TwiceUsed(): seq<Step> {
    [Register(1), Verify(1), LogsIn(1, 1, 1), Tick(10_300_000), Refreshes(1, 2), Tick(9_200_000)]
  }

  /** Its second use succeeds, undetected, beside the successor of the first. */
  lemma TokenRefreshesTwice()
    ensures var a := Run(TwiceUsed(), 20);
      && Succeeds(a, 1, 3, 20) && Usable(a, 1) && Usable(a, 2) && a.tokens[1].family == a.tokens[2].family
  {
    var steps := TwiceUsed();
    var a := Auth(0, map[1 := User(true, true, 0)], map[1 := Token(1, 1, 0, 20_000_000)], map[], map[]);
    var b := Auth(10_300_000, a.users, a.tokens[2 := Token(1, 1, 0, 30_000_000)], map[1 := 19_300_000], map[]);
    assert Next(INITIAL, steps[0], 20).users == map[1 := User(true, false, 0)];
    assert Next(Next(Next(INITIAL, steps[0], 20), steps[1], 20), steps[2], 20) == a;
    assert Next(Next(a, steps[3], 20), steps[4], 20) == b;
    SixSteps(INITIAL, steps, 20);
  }

  lemma SixSteps(a: Auth, s: seq<Step>, life: nat)
    requires |s| == 6
    ensures RunFrom(a, s, life)
         == Next(Next(Next(Next(Next(Next(a, s[0], life), s[1], life), s[2], life), s[3], life), s[4], life), s[5], life)
  {
    hide Next;
    var b := Next(Next(a, s[0], life), s[1], life);
    var c := Next(Next(b, s[2], life), s[3], life);
    assert RunFrom(a, s, life) == RunFrom(b, s[2..], life);
    assert RunFrom(b, s[2..], life) == RunFrom(c, s[4..], life) by { assert s[2..][2..] == s[4..]; }
    assert RunFrom(c, s[4..], life) == RunFrom(Next(Next(c, s[4], life), s[5], life), [], life) by { assert s[4..][2..] == []; }
  }

  // ---------------------------------------------------------------- revocation

  /** Once a family is revoked, no token of it refreshes, however much time passes. */
  lemma RevokedForGood(before: seq<Step>, after: seq<Step>, life: nat, jti: Id, next: Id)
    requires jti in Run(before + after, life).tokens
    requires Run(before + after, life).tokens[jti].family in Run(before, life).revoked
    ensures !Succeeds(Run(before + after, life), jti, next, life)
  {
    hide RunFrom, Succeeds;
    ReachableKeepsInv(before + after, life);
    RunAppends(INITIAL, before, after, life);
    RunMovesOn(Run(before, life), after, life);
    RefreshSucceeds(Run(before + after, life), jti, next, life);
  }

  /** Presenting a token whose marker is live, or logging out, revokes the family of the token. */
  lemma ReuseAndLogoutRevoke(steps: seq<Step>, life: nat, jti: Id, s: Step)
    requires Decodes(Run(steps, life), jti)
    requires s == LogsOut(jti)
          || (s.Refreshes? && s.jti == jti && IsFresh(Run(steps, life), s.next) && Exists(Run(steps, life).used, jti, Run(steps, life).now))
    ensures Run(steps, life).tokens[jti].family in Run(steps + [s], life).revoked
  {
    hide RunFrom, Run;
    ReachableKeepsInv(steps, life);
    LastStep(steps, s, life);
    RevocationsOutlive(Run(steps, life), jti, life);
  }

  /** A password reset refuses every token signed before it: the version of a live account never goes back. */
  lemma OldVersionsAreRefused(a: Auth, steps: seq<Step>, life: nat, jti: Id, next: Id)
    requires Inv(a, life) && jti in a.tokens && a.tokens[jti].user in a.users
    requires a.tokens[jti].version < a.users[a.tokens[jti].user].version
    requires forall s <- steps :: s != RemoveUser(a.tokens[jti].user)
    ensures !Succeeds(RunFrom(a, steps, life), jti, next, life)
  {
    hide Inv, Succeeds;
    RunKeepsInv(a, steps, life);
    RunMovesOn(a, steps, life);
    VersionsGrow(a, steps, life, a.tokens[jti].user);
    RefreshSucceeds(RunFrom(a, steps, life), jti, next, life);
  }

  lemma StepKeepsVersion(a: Auth, s: Step, life: nat, user: Id)
    requires user in a.users && s != RemoveUser(user)
    ensures user in Next(a, s, life).users && a.users[user].version <= Next(a, s, life).users[user].version
  {
  }

  lemma {:induction false} VersionsGrow(a: Auth, steps: seq<Step>, life: nat, user: Id)
    requires user in a.users && forall s <- steps :: s != RemoveUser(user)
    ensures user in RunFrom(a, steps, life).users && a.users[user].version <= RunFrom(a, steps, life).users[user].version
    decreases |steps|
  {
    hide Next;
    if steps != [] {
      assert steps[0] in steps;
      assert forall s <- steps[1..] :: s in steps;
      StepKeepsVersion(a, steps[0], life, user);
      VersionsGrow(Next(a, steps[0], life), steps[1..], life, user);
    }
  }
}
