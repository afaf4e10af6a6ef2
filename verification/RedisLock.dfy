/** The lease lock of network/src/redis_service.rs: clients that race for named locks on a store whose
    keys expire. */
module Locks {
  import opened Wrappers

  /** A lock key holds the token of its owner until it expires. */
  datatype Lease = Lease(token: string, expiresAt: nat)

  type Store = map<string, Lease>

  /** What `get` finds: expired keys are gone. */
  function Holder(s: Store, name: string, now: nat): (r: Option<string>) {
    if name in s && now < s[name].expiresAt then Some(s[name].token) else None
  }

  datatype Op =
    | Create(name: string, token: string, ttl: nat, now: nat)
    | Release(name: string, token: string, now: nat)

  /** `SET NX EX` writes only a free key, and a zero ttl is an error of the command. The release script
      deletes the key only when it holds the caller's token. */
  function Succeeds(s: Store, op: Op): (r: bool) {
    match op
    case Create(name, _, ttl, now) => ttl > 0 && Holder(s, name, now) == None
    case Release(name, token, now) => Holder(s, name, now) == Some(token)
  }

  function Step(s: Store, op: Op): (r: Store) {
    if !Succeeds(s, op) then s
    else
      match op
      case Create(name, token, ttl, now) => s[name := Lease(token, now + ttl)]
      case Release(name, _, _) => s - {name}
  }

  function Run(ops: seq<Op>): (r: Store)
    decreases |ops|
  {
    if ops == [] then map[] else Step(Run(ops[..|ops| - 1]), ops[|ops| - 1])
  }

  /** The server clock never goes back. */
  ghost predicate Ordered(ops: seq<Op>) {
    forall i, j | 0 <= i < j < |ops| :: ops[i].now <= ops[j].now
  }

  /** The i-th operation of the run was answered with success. */
  ghost predicate Succeeded(ops: seq<Op>, i: nat)
    requires i < |ops|
  {
    Succeeds(Run(ops[..i]), ops[i])
  }

  /** The i-th operation acquired the lock. */
  ghost predicate Acquired(ops: seq<Op>, i: nat, name: string, token: string)
    requires i < |ops|
  {
    ops[i].Create? && ops[i].name == name && ops[i].token == token && Succeeded(ops, i)
  }

  /** No operation from `i` on and before `j` released the lock with the token. */
  ghost predicate Unreleased(ops: seq<Op>, i: nat, j: nat, name: string, token: string)
    requires j <= |ops|
  {
    forall k | i <= k < j :: !(ops[k].Release? && ops[k].name == name && ops[k].token == token)
  }

  // ---------- A lease is kept ----------

  /** Once a token has acquired a lock and has not released it, the key holds that token until the
      lease runs out, whatever the other clients do. */
  lemma {:induction false} LeaseIsKept(ops: seq<Op>, i: nat, j: nat)
    requires Ordered(ops) && i < j <= |ops| && ops[i].Create? && Succeeded(ops, i)
    requires Unreleased(ops, i + 1, j, ops[i].name, ops[i].token)
    requires forall k | i < k < j :: ops[k].now < ops[i].now + ops[i].ttl
    ensures ops[i].name in Run(ops[..j])
    ensures Run(ops[..j])[ops[i].name] == Lease(ops[i].token, ops[i].now + ops[i].ttl)
    decreases j
  {
    assert ops[..j][..j - 1] == ops[..j - 1];
    if i + 1 < j {
      LeaseIsKept(ops, i, j - 1);
    }
  }

  /** While a lease stands, nobody acquires the lock, and no other token's release deletes it. */
  lemma LeaseExcludes(ops: seq<Op>, i: nat, j: nat)
    requires Ordered(ops) && i < j < |ops| && ops[i].Create? && Succeeded(ops, i)
    requires Unreleased(ops, i + 1, j, ops[i].name, ops[i].token)
    requires ops[j].now < ops[i].now + ops[i].ttl && ops[j].name == ops[i].name
    ensures ops[j].Create? ==> !Succeeded(ops, j)
    ensures ops[j].Release? ==> (Succeeded(ops, j) <==> ops[j].token == ops[i].token)
  {
    assert forall k | i < k < j :: ops[k].now <= ops[j].now;
    LeaseIsKept(ops, i, j);
  }

  // ---------- Mutual exclusion ----------

  /** `token` is entitled to the lock before operation `j`, at time `now`: it acquired it at `i`, has not
      released it since, and its lease still runs. */
  ghost predicate Entitled(ops: seq<Op>, i: nat, j: nat, name: string, token: string, now: nat) {
    && i < j <= |ops|
    && Acquired(ops, i, name, token)
    && Unreleased(ops, i + 1, j, name, token)
    && now < ops[i].now + ops[i].ttl
  }

  /** No two acquisitions entitle to the same lock at the same time. In particular no two clients with
      different tokens ever hold it together. */
  lemma MutualExclusion(ops: seq<Op>, a: nat, b: nat, j: nat, name: string, t: string, u: string, now: nat)
    requires Ordered(ops) && forall k | 0 <= k < j <= |ops| :: ops[k].now <= now
    requires Entitled(ops, a, j, name, t, now) && Entitled(ops, b, j, name, u, now)
    ensures a == b && t == u
  {
    if a < b {
      LeaseExcludes(ops, a, b);
    } else if b < a {
      LeaseExcludes(ops, b, a);
    }
  }

  /** The holder that the store reports is exactly the entitled token. */
  lemma {:induction false} HolderIsEntitled(ops: seq<Op>, j: nat, name: string, now: nat) returns (i: nat)
    requires Ordered(ops) && j <= |ops| && forall k | 0 <= k < j :: ops[k].now <= now
    requires Holder(Run(ops[..j]), name, now).Some?
    ensures Entitled(ops, i, j, name, Holder(Run(ops[..j]), name, now).value, now)
    ensures Run(ops[..j])[name].expiresAt == ops[i].now + ops[i].ttl
    decreases j
  {
    assert ops[..j][..j - 1] == ops[..j - 1];
    var s, op := Run(ops[..j - 1]), ops[j - 1];
    if op.Create? && op.name == name && Succeeds(s, op) {
      i := j - 1;
    } else {
      assert name in s && s[name] == Run(ops[..j])[name];
      i := HolderIsEntitled(ops, j - 1, name, now);
      assert !(op.Release? && op.name == name && op.token == s[name].token);
    }
  }

  /** Both directions: some token is entitled to the lock exactly when the store reports a holder, and
      then it is that token. */
  lemma HolderIffEntitled(ops: seq<Op>, j: nat, name: string, token: string, now: nat)
    requires Ordered(ops) && j <= |ops| && forall k | 0 <= k < j :: ops[k].now <= now
    ensures Holder(Run(ops[..j]), name, now) == Some(token) <==> exists i :: Entitled(ops, i, j, name, token, now)
  {
    if Holder(Run(ops[..j]), name, now) == Some(token) {
      var i := HolderIsEntitled(ops, j, name, now);
      assert Entitled(ops, i, j, name, token, now);
    }
    if i :| Entitled(ops, i, j, name, token, now) {
      LeaseIsKept(ops, i, j);
    }
  }

  /** A release succeeds exactly for the token that is entitled to the lock. */
  lemma ReleaseIffEntitled(ops: seq<Op>, j: nat)
    requires Ordered(ops) && j < |ops| && ops[j].Release?
    ensures Succeeded(ops, j) <==> exists i :: Entitled(ops, i, j, ops[j].name, ops[j].token, ops[j].now)
  {
    HolderIffEntitled(ops, j, ops[j].name, ops[j].token, ops[j].now);
  }

  /** A creation succeeds exactly with a positive ttl on a lock that nobody is entitled to. */
  lemma FreeLockIsGranted(ops: seq<Op>, j: nat)
    requires Ordered(ops) && j < |ops| && ops[j].Create?
    ensures Succeeded(ops, j) <==>
            ops[j].ttl > 0 && forall i, token :: !Entitled(ops, i, j, ops[j].name, token, ops[j].now)
  {
    var s, name, now := Run(ops[..j]), ops[j].name, ops[j].now;
    if Holder(s, name, now).Some? {
      HolderIffEntitled(ops, j, name, Holder(s, name, now).value, now);
    } else {
      forall i, token ensures !Entitled(ops, i, j, name, token, now) {
        HolderIffEntitled(ops, j, name, token, now);
      }
    }
  }

  // ---------- The service object ----------

  datatype LockError = InvalidExpire | NilReply

  class LockService {
    var store: Store

    constructor ()
      ensures store == map[]
    {
      store := map[];
    }

    /** A refused `SET NX` is answered with nil, which is no string, so the caller sees an error and never
        a plain `false`. */
    method CreateLock(name: string, token: string, ttl: nat, now: nat) returns (result: Result<bool, LockError>)
      modifies this
      ensures result == if Succeeds(old(store), Create(name, token, ttl, now)) then Ok(true)
                        else Err(if ttl == 0 then InvalidExpire else NilReply)
      ensures store == Step(old(store), Create(name, token, ttl, now))
    {
      if ttl == 0 { return Err(InvalidExpire); }
      if name in store && now < store[name].expiresAt { return Err(NilReply); }
      store := store[name := Lease(token, now + ttl)];
      result := Ok(true);
    }

    method ReleaseLock(name: string, token: string, now: nat) returns (ok: bool)
      modifies this
      ensures ok == Succeeds(old(store), Release(name, token, now))
      ensures store == Step(old(store), Release(name, token, now))
    {
      if name in store && now < store[name].expiresAt && store[name].token == token {
        store := store - {name};
        return true;
      }
      ok := false;
    }
  }
}
