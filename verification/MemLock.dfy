/** The process-local named lock: a map from lock name to the holder's token. */
module MemLock {

  function Acquired(locks: map<string, string>, name: string, token: string): map<string, string> {
    if name in locks then locks else locks[name := token]
  }

  /** Only the holder's token releases. */
  function Released(locks: map<string, string>, name: string, token: string): map<string, string> {
    if name in locks && locks[name] == token then locks - {name} else locks
  }

  /** Whoever was granted the lock gives it back with its own token; with any
      other token nothing happens. */
  lemma ReleaseUndoesAcquire(locks: map<string, string>, name: string, token: string, other: string)
    requires name !in locks
    ensures Released(Acquired(locks, name, token), name, token) == locks
    ensures other != token ==> Released(Acquired(locks, name, token), name, other) == Acquired(locks, name, token)
  {
    assert Acquired(locks, name, token) - {name} == locks;
  }

  class MemLocker {
    var locks: map<string, string>

    constructor ()
      ensures locks == map[]
    {
      locks := map[];
    }

    method Acquire(name: string, token: string) returns (ok: bool)
      modifies this
      ensures ok <==> name !in old(locks)
      ensures locks == Acquired(old(locks), name, token)
      ensures locks == if ok then old(locks)[name := token] else old(locks)
    {
      if name in locks {
        return false;
      }
      locks := locks[name := token];
      return true;
    }

    method Release(name: string, token: string)
      modifies this
      ensures locks == Released(old(locks), name, token)
    {
      if name in locks && locks[name] == token {
        locks := locks - {name};
      }
    }
  }
}
