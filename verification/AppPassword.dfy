/** The two ways the app password is replaced: in the settings of a running server, and by the
    reset command. */
module AppPassword {
  import opened Basics
  import opened Padding
  import opened Vault
  import opened PassStore

  /** Random values for one more wrapping and one more unlocking. */
  datatype Random = Random(salt: Bytes, nonce: Bytes, dek: Bytes)

  predicate Usable(c: Crypto, r: Random) {
    r.salt != [] && |r.nonce| == NONCE_SIZE && c.fits(r.dek)
  }

  /** The password whose hash the configuration holds in memory, and the one in its file. */
  datatype Config = Config(memory: Bytes, file: Bytes)

  /** `ChangeAppPassword`: the hash in memory is replaced before the file is written. */
  function Assigned(c: Config, next: Bytes, saved: bool): Config {
    if saved then Config(next, next) else c.(memory := next)
  }

  /** Any later write of the configuration. */
  function Saved(c: Config): Config {
    c.(file := c.memory)
  }

  /** The server starts again: the hash of the file is in force, and no data key in memory. */
  function Restarted(v: Vault, c: Config): Vault {
    v.(password := Some(c.file), unlocked := false)
  }

  datatype Outcome = Done | Forbidden | Failed

  /** The first half of the settings handler: what becomes of the password file. */
  method Prepare(store: Store, next: Bytes, force: bool, random: Random) returns (accepted: bool)
    requires store.Valid() && Usable(store.c, random)
    modifies store`file, store`wrap, store`secrets
    ensures store.Valid()
    ensures accepted == Prepared(old(store.Contents()), next, force).Some?
    ensures store.Contents() == if accepted then Prepared(old(store.Contents()), next, force).value
                                else old(store.Contents())
  {
    var isEmpty := store.IsEmpty();
    if isEmpty {
      var _ := store.DeletePasswordFile(false);
    } else if store.enclave == None {
      if !force {
        return false;
      }
      var _ := store.DeletePasswordFile(true);
    } else {
      var r := store.ReencryptWithInMemoryKey(next, random.salt, random.nonce);
      return r.Ok?;
    }
    return true;
  }

  /** The second half: the new hash is put in force, and with a keyring the new password unlocks. */
  method Adopt(store: Store, next: Bytes, hash: string, keyring: bool, random: Random)
    requires store.Valid() && HashOf(store.c, hash, next) && Usable(store.c, random)
    modifies store
    ensures store.Valid()
    ensures store.Contents() ==
      var w := old(store.Contents()).(password := Some(next)); if keyring then Unlocked(w, next) else w
  {
    store.SetAppPasswordHash(hash, next);
    if keyring {
      var _ := store.SetEncryptionKey(next, random.salt, random.dek, random.nonce);
    }
  }

  /** The settings handler. `saved`: the configuration with the new hash `hash` could be written. */
  method ChangeInSettings(store: Store, config: Config, next: Bytes, hash: string, force: bool, keyring: bool,
                          saved: bool, random: Random)
    returns (out: Outcome, config': Config)
    requires store.Valid() && HashOf(store.c, hash, next) && Usable(store.c, random)
    modifies store
    ensures store.Valid()
    ensures out == Forbidden <==> Prepared(old(store.Contents()), next, force).None?
    ensures out == Done ==> saved && store.Contents() == Step(old(store.Contents()), Change(next, force, keyring))
    ensures out == Forbidden ==> store.Contents() == old(store.Contents())
    ensures config' == if out == Forbidden then config else Assigned(config, next, saved)
    ensures out == Failed ==> !saved && Some(store.Contents()) == Prepared(old(store.Contents()), next, force)
  {
    var accepted := Prepare(store, next, force, random);
    if !accepted {
      return Forbidden, config;
    }
    config' := config.(memory := next);
    if !saved {
      return Failed, config';
    }
    config' := config'.(file := next);
    Adopt(store, next, hash, keyring, random);
    return Done, config';
  }

  /** When the configuration cannot be written after the password file was prepared, the old hash stays in
      force. A password that unlocks the store is left exactly if no data key got a new wrapping, or
      if the two passwords are equal. */
  lemma {:induction false} UnsavedChange(v: Vault, next: Bytes, force: bool)
    requires Sound(v) && v.password.Some? && Prepared(v, next, force).Some?
    ensures var w := Prepared(v, next, force).value;
      && (forall p :: CanUnlock(w, p) <==> v.password == Some(p) && (v.unlocked && v.secrets != map[] ==> p == next))
      && ((exists p :: CanUnlock(w, p)) <==> !(v.unlocked && v.secrets != map[]) || v.password == Some(next))
      && (w.secrets == v.secrets <==> v.unlocked || v.secrets == map[])
  {
    var w := Prepared(v, next, force).value;
    assert CanUnlock(w, v.password.value) <==> !(v.unlocked && v.secrets != map[]) || v.password == Some(next);
  }

  /** The hash in memory is already the new one, so the next write of the configuration and a restart put
      the new password in force, which then unlocks whatever the change left; a restart without such
      a write does not. */
  lemma {:induction false} SavedLater(v: Vault, c: Config, next: Bytes, force: bool, p: Bytes)
    requires Sound(v) && v.password == Some(c.file) && Prepared(v, next, force).Some?
    ensures var w := Prepared(v, next, force).value;
      var c' := Assigned(c, next, false);
      && (CanUnlock(Restarted(w, Saved(c')), p) <==> p == next)
      && (CanUnlock(Restarted(w, c'), p) <==> CanUnlock(w, p))
      && Restarted(w, Saved(c')).secrets == w.secrets && !CanSet(Restarted(w, Saved(c'))) && !CanSet(Restarted(w, c'))
  {
    assert Sound(v);
  }

  /** Once the settings accepted a new password, it unlocks the store and the old one does not; the
      secrets are all there exactly when the store was unlocked or had none. */
  lemma {:induction false} ChangeKeepsSecrets(v: Vault, next: Bytes, force: bool, keyring: bool, p: Bytes)
    requires Sound(v) && Prepared(v, next, force).Some?
    ensures var w := Step(v, Change(next, force, keyring));
      && (CanUnlock(w, p) <==> p == next)
      && (w.secrets == v.secrets <==> v.unlocked || v.secrets == map[])
      && (keyring ==> CanSet(w))
  {
  }

  datatype Reset = Aborted | NotReencrypted | Replaced

  /** The reset command, in a process of its own, followed by the next start of the server. `typed` is
      the old password as the user gives it, empty to skip; `next` is the generated one. */
  method ResetAppPassword(store: Store, typed: Bytes, confirmed: bool, next: Bytes, hash: string, random: Random)
    returns (out: Reset)
    requires store.Valid() && store.enclave.None? && HashOf(store.c, hash, next) && Usable(store.c, random)
    modifies store
    ensures store.Valid()
    ensures var v := old(store.Contents());
      out == if v.secrets == map[] then Replaced
             else if typed == [] then (if confirmed then Replaced else Aborted)
             else if typed == next && v.wrap == typed then Replaced
             else NotReencrypted
    ensures var v := old(store.Contents());
      store.Contents() == if out == Aborted then v
                          else if typed == [] && v.secrets != map[] then Dropped(v, true).(password := Some(next))
                          else v.(password := Some(next))
  {
    var typedOld: Bytes := [];
    var isEmpty := store.IsEmpty();
    if !isEmpty {
      typedOld := typed;
      if typedOld == [] {
        if !confirmed {
          return Aborted;
        }
        var _ := store.DeletePasswordFile(true);
      }
    }
    isEmpty := store.IsEmpty();
    if typedOld != [] && !isEmpty {
      store.SetAppPasswordHash(hash, next);
      var r := store.Reencrypt(typedOld, next, random.salt, random.nonce);
      if r.Err? {
        return NotReencrypted;
      }
    }
    // The program's other branch, for secrets that are still there without a typed password, is for a
    // file that could not be removed above.
    store.SetAppPasswordHash(hash, next);
    return Replaced;
  }

  /** What the reset leaves: the new password unlocks the store exactly when no protected data key
      was left behind, or when it equals the old one. In particular the secrets never survive with a
      password that is really new. */
  lemma {:induction false} AfterReset(v: Vault, typed: Bytes, next: Bytes)
    requires Sound(v)
    ensures var w := if typed == [] && v.secrets != map[] then Dropped(v, true).(password := Some(next))
                     else v.(password := Some(next));
      && (CanUnlock(w, next) <==> !v.ready || (typed == [] && v.secrets != map[]) || v.password == Some(next))
      && (v.secrets != map[] && v.password != Some(next) ==>
            !(CanUnlock(w, next) && w.secrets == v.secrets))
  {
  }
}
