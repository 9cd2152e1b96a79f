/** The authentication service and its key store, changing users, tokens and markers in place. */
module AuthService {
  import opened Options
  import opened RefreshTokens

  class Service {
    var now: Time
    var users: map<Id, User>
    var tokens: map<Id, Token>
    var used: map<Id, Time>
    var revoked: map<Id, Time>
    const life: nat  // seconds that a refresh token lives

    function State(): Auth
      reads this
    {
      Auth(now, users, tokens, used, revoked)
    }

    constructor (life: nat)
      ensures State() == INITIAL && this.life == life
    {
      now, users, tokens, used, revoked := 0, map[], map[], map[], map[];
      this.life := life;
    }

    // -------------------------------------------------------------- the key store

    /** `SET NX EX`: marks a token used until it expires, unless a live marker is there. */
    method Consume(jti: Id, expiresAt: Time) returns (first: bool)
      modifies this`used
      ensures first == !Exists(old(used), jti, now)
      ensures used == if first then SetKey(old(used), jti, now, Ttl(expiresAt, now)) else old(used)
    {
      if jti in used && now < used[jti] { return false; }
      var ttl := if expiresAt >= now + SECOND then (expiresAt - now) / SECOND else 1;
      used := used[jti := now + ttl * SECOND];
      return true;
    }

    method IsFamilyRevoked(family: Id) returns (isRevoked: bool)
      ensures isRevoked == Exists(revoked, family, now)
    {
      return family in revoked && now < revoked[family];
    }

    method RevokeFamily(family: Id)
      modifies this`revoked
      ensures revoked == SetKey(old(revoked), family, now, life)
    {
      revoked := revoked[family := now + life * SECOND];
    }

    method CreateTokenPair(jti: Id, user: Id, family: Id, version: nat)
      modifies this`tokens
      ensures tokens == old(tokens)[jti := Token(family, user, version, WholeSecond(now) + life * SECOND)]
    {
      tokens := tokens[jti := Token(family, user, version, now / SECOND * SECOND + life * SECOND)];
    }

    // -------------------------------------------------------------- calls

    method Login(user: Id, jti: Id, family: Id) returns (result: Attempt<Id, Error>)
      modifies this
      ensures Reply(State(), result) == RefreshTokens.Login(old(State()), user, jti, family, life)
      ensures result.Ok? <==> user in users && users[user].active && users[user].verified
      ensures result.Ok? ==> jti in tokens && tokens[jti].user == user && tokens[jti].family == family
                             && tokens[jti].version == users[user].version && SignedNow(State(), tokens[jti], life)
    {
      if user !in users { return Refused(InvalidCredentials); }
      if !users[user].active { return Refused(InactiveAccount); }
      if !users[user].verified { return Refused(EmailNotVerified); }
      CreateTokenPair(jti, user, family, users[user].version);
      return Ok(jti);
    }

    /** `jti` stands for the presented token and `next` for the identifier of its successor. */
    method Refresh(jti: Id, next: Id) returns (result: Attempt<Id, Error>)
      modifies this
      ensures Reply(State(), result) == RefreshTokens.Refresh(old(State()), jti, next, life)
      ensures result.Ok? ==>
        && jti in old(tokens) && next in tokens && tokens == old(tokens)[next := tokens[next]]
        && tokens[next].user == old(tokens)[jti].user && tokens[next].family == old(tokens)[jti].family
        && tokens[next].user in users && tokens[next].version == users[tokens[next].user].version
        && SignedNow(State(), tokens[next], life)
      ensures result.Refused? ==> tokens == old(tokens)
    {
      if jti !in tokens || tokens[jti].expiresAt <= now { return Refused(InvalidToken); }
      var decoded := tokens[jti];
      var isRevoked := IsFamilyRevoked(decoded.family);
      if isRevoked { return Refused(InvalidToken); }
      var wasConsumed := Consume(jti, decoded.expiresAt);
      if !wasConsumed {
        RevokeFamily(decoded.family);
        return Refused(InvalidToken);
      }
      if decoded.user !in users {
        RevokeFamily(decoded.family);
        return Refused(InvalidToken);
      }
      if !users[decoded.user].active {
        RevokeFamily(decoded.family);
        return Refused(InactiveAccount);
      }
      if decoded.version != users[decoded.user].version {
        RevokeFamily(decoded.family);
        return Refused(InvalidToken);
      }
      CreateTokenPair(next, decoded.user, decoded.family, users[decoded.user].version);
      return Ok(next);
    }

    method Logout(jti: Id) returns (result: Attempt<Id, Error>)
      modifies this
      ensures Reply(State(), result) == RefreshTokens.Logout(old(State()), jti, life)
      ensures result.Ok? ==> jti in tokens && now < tokens[jti].expiresAt && tokens[jti].family in revoked
                             && revoked[tokens[jti].family] == now + life * SECOND
      ensures result.Refused? ==> jti !in tokens || tokens[jti].expiresAt <= now
    {
      if jti !in tokens || tokens[jti].expiresAt <= now { return Refused(InvalidToken); }
      RevokeFamily(tokens[jti].family);
      return Ok(jti);
    }

    /** The part of `reset_password` after its one-time token was consumed. */
    method ResetPassword(user: Id)
      modifies this`users
      ensures State() == RefreshTokens.ResetPassword(old(State()), user)
      ensures user in old(users) && old(users)[user].active ==> user in users && users[user].version == old(users)[user].version + 1
    {
      if user !in users || !users[user].active { return; }
      users := users[user := users[user].(version := users[user].version + 1)];
    }

    method Wait(elapsed: nat)
      modifies this`now
      ensures State() == RefreshTokens.Next(old(State()), Tick(elapsed), life)
    {
      now := now + elapsed;
    }
  }
}
