/** The refresh-token state that the auth views drive through simplejwt with its blacklist
    application installed and, by the settings that take effect
    (backend/api/settings.py:169-174), rotation with blacklisting after rotation. Encoded
    tokens are opaque text; signing is not part of this model, so the text of a new token is
    supplied by the caller, and "a valid signature" is "issued by this store". */
module Tokens {
  import opened Common
  import opened Http

  /** A token's `jti` claim. */
  type Jti = nat

  /** The claims of an issued refresh token that the blacklist cares about. */
  datatype Claims = Claims(jti: Jti, user: UserId)

  /** The messages simplejwt attaches to the TokenError it raises. */
  const InvalidTokenMessage: string := "Token is invalid or expired"
  const BlacklistedTokenMessage: string := "Token is blacklisted"

  class TokenStore {
    /** Every refresh token this server has signed, with its claims. */
    var issued: map<string, Claims>
    /** The `jti`s of blacklisted tokens. */
    var blacklist: set<Jti>
    /** The `jti` the next token receives; `jti`s are never reused. */
    var nextJti: Jti

    ghost predicate Valid()
      reads this
    {
      && "" !in issued
      && (forall t :: t in issued ==> issued[t].jti < nextJti)
      && (forall j :: j in blacklist ==> j < nextJti)
    }

    constructor ()
      ensures Valid()
      ensures issued == map[] && blacklist == {}
    {
      issued := map[];
      blacklist := {};
      nextJti := 0;
    }

    /** `RefreshToken(token)` succeeds: the text decodes to a token this server signed,
        `expired` (the clock's verdict on it) is false, and it is not blacklisted. */
    predicate Redeemable(token: string, expired: bool)
      reads this
    {
      token in issued && !expired && issued[token].jti !in blacklist
    }

    /** The TokenError `RefreshToken(token)` raises when the token is not redeemable. Decoding
        comes first and rejects a forged or expired token as invalid; only a token that decodes
        is then looked up in the blacklist. */
    function RejectionMessage(token: string, expired: bool): (msg: string)
      reads this
      ensures msg == BlacklistedTokenMessage <==> token in issued && !expired && issued[token].jti in blacklist
      ensures msg != BlacklistedTokenMessage ==> msg == InvalidTokenMessage
    {
      if token in issued && !expired && issued[token].jti in blacklist then BlacklistedTokenMessage else InvalidTokenMessage
    }

    /** `RefreshToken.for_user(user)`: a token with a fresh `jti`. */
    method Issue(user: UserId, encoded: string)
      requires Valid()
      requires encoded != "" && encoded !in issued
      modifies this
      ensures Valid()
      ensures issued == old(issued)[encoded := Claims(old(nextJti), user)]
      ensures blacklist == old(blacklist)
      ensures Redeemable(encoded, false)
      ensures forall t, e :: Redeemable(t, e) && t != encoded ==> old(Redeemable(t, e))
      ensures forall t, e :: old(Redeemable(t, e)) ==> Redeemable(t, e)
    {
      issued := issued[encoded := Claims(nextJti, user)];
      nextJti := nextJti + 1;
    }

    /** `token.blacklist()` on a token that decoded successfully. */
    method Blacklist(token: string)
      requires Valid()
      requires token in issued
      modifies this
      ensures Valid()
      ensures blacklist == old(blacklist) + {old(issued)[token].jti}
      ensures issued == old(issued) && nextJti == old(nextJti)
      ensures forall e :: !Redeemable(token, e)
      ensures forall t, e :: Redeemable(t, e) ==> old(Redeemable(t, e))
    {
      blacklist := blacklist + {issued[token].jti};
    }

    /** The refresh serializer's validation with rotation: the presented token is
        blacklisted and a new one with a fresh `jti` is issued for the same user. */
    method Rotate(token: string, newToken: string)
      requires Valid()
      requires token in issued
      requires newToken != "" && newToken !in issued
      modifies this
      ensures Valid()
      ensures issued == old(issued)[newToken := Claims(old(nextJti), old(issued)[token].user)]
      ensures blacklist == old(blacklist) + {old(issued)[token].jti}
      ensures forall e :: !Redeemable(token, e)
      ensures Redeemable(newToken, false)
    {
      var user := issued[token].user;
      Blacklist(token);
      Issue(user, newToken);
    }
  }
}
