/**
 * The custom-claims service: it overwrites or merges a user's Firebase
 * custom claims and, on approval and admin assignment, revokes the user's
 * refresh tokens so the new claims take effect.
 */
module ClaimsService {
  import opened Js

  type Claims = map<string, JsValue>

  /** `{ ...current, approved: true }` */
  function WithApproved(current: Claims): (c: Claims)
    ensures c.Keys == current.Keys + {"approved"}
    ensures c["approved"] == Bool(true)
    ensures forall k :: k in current && k != "approved" ==> c[k] == current[k]
  {
    current["approved" := Bool(true)]
  }

  /** `{ ...current, admin: true }` */
  function WithAdmin(current: Claims): (c: Claims)
    ensures c.Keys == current.Keys + {"admin"}
    ensures c["admin"] == Bool(true)
    ensures forall k :: k in current && k != "admin" ==> c[k] == current[k]
  {
    current["admin" := Bool(true)]
  }

  lemma MergesIdempotent(c: Claims)
    ensures WithApproved(WithApproved(c)) == WithApproved(c)
    ensures WithAdmin(WithAdmin(c)) == WithAdmin(c)
  {
  }

  lemma MergesCommute(c: Claims)
    ensures WithApproved(WithAdmin(c)) == WithAdmin(WithApproved(c))
  {
  }

  /** The Firebase Auth user records as the service sees them. */
  class AuthStore {
    /** the uids `getUser` finds */
    var users: set<string>
    /** `customClaims` per user; a user without an entry has none set */
    var claims: map<string, Claims>
    /** the uids passed to `revokeRefreshTokens`, in call order */
    var revocations: seq<string>

    constructor (users: set<string>)
      ensures this.users == users && claims == map[] && revocations == []
    {
      this.users := users;
      claims := map[];
      revocations := [];
    }

    /** `user.customClaims || {}` */
    function CurrentClaims(uid: string): (c: Claims)
      reads this
      ensures uid !in claims ==> c == map[]
    {
      if uid in claims then claims[uid] else map[]
    }

    /**
     * `setUserApprovedFalse(uid)`: the claims become exactly `{approved: false}`.
     * Firebase rejects an unknown uid, and then nothing is written.
     */
    method SetUserApprovedFalse(uid: string) returns (ok: bool)
      modifies this
      ensures ok == (uid in old(users))
      ensures users == old(users) && revocations == old(revocations)
      ensures claims == if ok then old(claims)[uid := map["approved" := Bool(false)]] else old(claims)
    {
      if uid !in users {
        return false;
      }
      claims := claims[uid := map["approved" := Bool(false)]];
      ok := true;
    }

    /**
     * `approveUserByUid(uid)`: `getUser` (which throws for an unknown uid),
     * merge `approved: true`, write, then revoke the refresh tokens.
     */
    method ApproveUserByUid(uid: string) returns (ok: bool)
      modifies this
      ensures ok == (uid in old(users))
      ensures users == old(users)
      ensures claims == if ok then old(claims)[uid := WithApproved(old(CurrentClaims(uid)))] else old(claims)
      ensures revocations == if ok then old(revocations) + [uid] else old(revocations)
    {
      if uid !in users {
        return false;
      }
      var curentClaims := CurrentClaims(uid);
      var updatedClaims := curentClaims["approved" := Bool(true)];
      claims := claims[uid := updatedClaims];
      revocations := revocations + [uid];
      ok := true;
    }

    /** `assignAdminRole(uid)`: as approval, with `admin: true`. */
    method AssignAdminRole(uid: string) returns (ok: bool)
      modifies this
      ensures ok == (uid in old(users))
      ensures users == old(users)
      ensures claims == if ok then old(claims)[uid := WithAdmin(old(CurrentClaims(uid)))] else old(claims)
      ensures revocations == if ok then old(revocations) + [uid] else old(revocations)
    {
      if uid !in users {
        return false;
      }
      var curentClaims := CurrentClaims(uid);
      var updatedClaims := curentClaims["admin" := Bool(true)];
      claims := claims[uid := updatedClaims];
      revocations := revocations + [uid];
      ok := true;
    }
  }

  /** Approving then making admin, in either order, gives the same claims and revokes twice. */
  method ApproveAndPromote(store: AuthStore, uid: string, adminFirst: bool)
    requires uid in store.users
    modifies store
    ensures store.claims == old(store.claims)[uid := WithAdmin(WithApproved(old(store.CurrentClaims(uid))))]
    ensures store.revocations == old(store.revocations) + [uid, uid]
  {
    MergesCommute(store.CurrentClaims(uid));
    if adminFirst {
      var _ := store.AssignAdminRole(uid);
      var _ := store.ApproveUserByUid(uid);
    } else {
      var _ := store.ApproveUserByUid(uid);
      var _ := store.AssignAdminRole(uid);
    }
  }

  /** A second approval changes no claims; it only revokes the tokens again. */
  method ApproveTwice(store: AuthStore, uid: string)
    requires uid in store.users
    modifies store
    ensures store.claims == old(store.claims)[uid := WithApproved(old(store.CurrentClaims(uid)))]
    ensures store.revocations == old(store.revocations) + [uid, uid]
  {
    var _ := store.ApproveUserByUid(uid);
    MergesIdempotent(old(store.CurrentClaims(uid)));
    var _ := store.ApproveUserByUid(uid);
  }
}
