/**
 * Token-guarded keys in Redis: `SET NX` with a fresh random token, and the compare-then-delete and
 * compare-then-expire scripts. Both the idempotency-key store and the distributed lock are this.
 */
module TokenStore {
  import opened Common

  datatype Held = Held(token: nat, expiresAt: int)

  type Store = map<string, Held>

  /** A key exists until its time to live has run out. */
  predicate Live(s: Store, key: string, now: int) {
    key in s && now < s[key].expiresAt
  }

  predicate HeldBy(s: Store, key: string, token: nat, now: int) {
    Live(s, key, now) && s[key].token == token
  }

  function Acquired(s: Store, key: string, token: nat, ttl: int, now: int): Store {
    if Live(s, key, now) then s else s[key := Held(token, now + ttl)]
  }

  function Released(s: Store, key: string, token: nat, now: int): Store {
    if HeldBy(s, key, token, now) then s - {key} else s
  }

  function Extended(s: Store, key: string, token: nat, ttl: int, now: int): Store {
    if HeldBy(s, key, token, now) then s[key := Held(token, now + ttl)] else s
  }

  class RedisTokenStore {
    var keys: Store
    var minted: nat   // tokens handed out so far; the next one is new

    constructor ()
      ensures keys == map[] && minted == 0
    {
      keys, minted := map[], 0;
    }

    /** `claim` of the idempotency store and `acquire` of the lock. */
    method Acquire(key: string, ttl: int, now: int) returns (handle: Option<nat>)
      modifies this
      ensures minted == old(minted) + 1
      ensures keys == Acquired(old(keys), key, old(minted), ttl, now)
      ensures handle == if Live(old(keys), key, now) then None else Some(old(minted))
    {
      var token := minted;
      minted := minted + 1;
      if key in keys && now < keys[key].expiresAt {
        return None;
      }
      keys := keys[key := Held(token, now + ttl)];
      return Some(token);
    }

    method Release(key: string, token: nat, now: int) returns (done: bool)
      modifies this`keys
      ensures keys == Released(old(keys), key, token, now)
      ensures done <==> HeldBy(old(keys), key, token, now)
    {
      done := key in keys && now < keys[key].expiresAt && keys[key].token == token;
      if done {
        keys := keys - {key};
      }
    }

    method Extend(key: string, token: nat, ttl: int, now: int) returns (done: bool)
      modifies this`keys
      ensures keys == Extended(old(keys), key, token, ttl, now)
      ensures done <==> HeldBy(old(keys), key, token, now)
    {
      done := key in keys && now < keys[key].expiresAt && keys[key].token == token;
      if done {
        keys := keys[key := Held(token, now + ttl)];
      }
    }
  }

  // ---------------------------------------------------------------------------
  // Runs. The token of an acquisition is its position in the run, so tokens are fresh.
  // ---------------------------------------------------------------------------

  datatype Op =
    | Acquire(key: string, ttl: int, now: int)
    | Release(key: string, token: nat, now: int)
    | Extend(key: string, token: nat, ttl: int, now: int)

  function Run(ops: seq<Op>, k: nat): Store
    requires k <= |ops|
  {
    if k == 0 then map[]
    else match ops[k - 1]
      case Acquire(key, ttl, now) => Acquired(Run(ops, k - 1), key, k - 1, ttl, now)
      case Release(key, token, now) => Released(Run(ops, k - 1), key, token, now)
      case Extend(key, token, ttl, now) => Extended(Run(ops, k - 1), key, token, ttl, now)
  }

  predicate Succeeded(ops: seq<Op>, i: nat)
    requires i < |ops|
  {
    ops[i].Acquire? && !Live(Run(ops, i), ops[i].key, ops[i].now)
  }

  ghost predicate Monotone(ops: seq<Op>) {
    forall a, b | 0 <= a < b < |ops| :: ops[a].now <= ops[b].now
  }

  /**
   * What acquisition `i` is entitled to after `k` operations, computed from its own operations only:
   * the end of its lease, or nothing once it has released a lease that was still running.
   */
  function Lease(ops: seq<Op>, i: nat, k: nat): Option<int>
    requires i < k <= |ops| && ops[i].Acquire?
    decreases k
  {
    if k == i + 1 then Some(ops[i].now + ops[i].ttl)
    else
      var before := Lease(ops, i, k - 1);
      match ops[k - 1]
      case Release(key, token, now) =>
        if key == ops[i].key && token == i && before.Some? && now < before.value then None else before
      case Extend(key, token, ttl, now) =>
        if key == ops[i].key && token == i && before.Some? && now < before.value then Some(now + ttl) else before
      case Acquire(_, _, _) => before
  }

  /**
   * The store honours every lease: while it runs, the key is held by this acquisition with exactly
   * this expiry, whatever other holders, stale or new, have called meanwhile.
   */
  lemma {:induction false} LeaseIsHonoured(ops: seq<Op>, i: nat, k: nat)
    requires Monotone(ops) && i < k <= |ops| && Succeeded(ops, i)
    ensures var e := Lease(ops, i, k);
            && (e.Some? && ops[k - 1].now < e.value ==>
                  var s := Run(ops, k); ops[i].key in s && s[ops[i].key] == Held(i, e.value))
            && (ops[i].key in Run(ops, k) && Run(ops, k)[ops[i].key].token == i ==>
                  e == Some(Run(ops, k)[ops[i].key].expiresAt))
    decreases k
  {
    if k > i + 1 {
      LeaseIsHonoured(ops, i, k - 1);
      assert ops[k - 2].now <= ops[k - 1].now;
    }
  }

  /** A token that does not own the key changes nothing: a stale holder cannot free its successor. */
  lemma StaleTokenIsPowerless(ops: seq<Op>, i: nat, k: nat)
    requires Monotone(ops) && i < k < |ops| && Succeeded(ops, i)
    requires Lease(ops, i, k).Some? && ops[k].now < Lease(ops, i, k).value
    requires ops[k].key == ops[i].key && !ops[k].Acquire? && ops[k].token != i
    ensures Run(ops, k + 1) == Run(ops, k) && HeldBy(Run(ops, k + 1), ops[i].key, i, ops[k].now)
  {
    LeaseIsHonoured(ops, i, k);
    assert ops[k - 1].now <= ops[k].now;
  }

  /** Mutual exclusion: a second acquisition succeeds only after the first one's lease is over. */
  lemma Exclusion(ops: seq<Op>, i: nat, j: nat)
    requires Monotone(ops) && i < j < |ops| && ops[i].Acquire? && ops[j].Acquire? && ops[i].key == ops[j].key
    requires Succeeded(ops, i) && Succeeded(ops, j)
    ensures Lease(ops, i, j).Some? ==> Lease(ops, i, j).value <= ops[j].now
  {
    LeaseIsHonoured(ops, i, j);
    assert ops[j - 1].now <= ops[j].now;
  }
}
