/** What the password store promises, without files, keys or ciphertexts: a set of secrets behind
    the app password. `PassStore` implements every step. */
module Vault {
  import opened Basics
  import opened Padding

  /** `password`: the app password whose hash is in force. `wrap`: the one that protects the data key.
      `present`: there is a readable file; `ready`: it holds a protected data key. `unlocked`: the
      data key is in memory. */
  datatype Vault = Vault(password: Option<Bytes>, wrap: Bytes, present: bool, ready: bool, unlocked: bool,
                         secrets: map<string, Bytes>)

  predicate CanUnlock(v: Vault, p: Bytes) {
    v.password == Some(p) && (v.ready ==> v.wrap == p)
  }

  function Unlocked(v: Vault, p: Bytes): Vault {
    if CanUnlock(v, p) then v.(wrap := p, present := true, ready := true, unlocked := true) else v
  }

  function Locked(v: Vault): Vault {
    v.(unlocked := false)
  }

  predicate CanSet(v: Vault) {
    v.unlocked && v.present
  }

  function WithSecret(v: Vault, addr: string, x: Bytes): Vault {
    if CanSet(v) then v.(secrets := v.secrets[addr := x]) else v
  }

  function WithoutSecret(v: Vault, addr: string): Vault {
    v.(secrets := v.secrets - {addr})
  }

  function Dropped(v: Vault, force: bool): Vault {
    if force || v.secrets == map[] then v.(present := false, ready := false, secrets := map[]) else v
  }

  function Rewrapped(v: Vault, p: Bytes): Vault {
    if v.unlocked && v.ready then v.(wrap := p) else v
  }

  /** The change of the app password as far as the data key goes; None when it is refused. */
  function Prepared(v: Vault, p: Bytes, force: bool): Option<Vault> {
    if v.secrets == map[] then Some(Dropped(v, false))
    else if v.unlocked then Some(Rewrapped(v, p))
    else if force then Some(Dropped(v, true))
    else None
  }

  function Changed(v: Vault, p: Bytes, force: bool): Vault {
    match Prepared(v, p, force)
    case None => v
    case Some(w) => w.(password := Some(p))
  }

  // ---- Runs ----

  /** `Put`, `Remove`: an entry is saved or deleted. `Change`: the app password is replaced in the
      settings, and with a keyring the new one unlocks the store at once. */
  datatype Event =
    | Unlock(p: Bytes)
    | Lock
    | Put(addr: string, x: Bytes)
    | Remove(addr: string)
    | Change(next: Bytes, force: bool, keyring: bool)

  function Step(v: Vault, e: Event): Vault {
    match e
    case Unlock(p) => Unlocked(v, p)
    case Lock => Locked(v)
    case Put(addr, x) => WithSecret(v, addr, x)
    case Remove(addr) => WithoutSecret(v, addr)
    case Change(next, force, keyring) =>
      var w := Changed(v, next, force);
      if keyring && Prepared(v, next, force).Some? then Unlocked(w, next) else w
  }

  /** The value under each address stays, except at `addr`. */
  ghost predicate OthersKept(before: map<string, Bytes>, after: map<string, Bytes>, addr: string) {
    forall a :: a != addr ==>
      (a in after <==> a in before) && (a in before ==> a in after && after[a] == before[a])
  }

  /** What each event does. Unlocking takes the app password in force, which must also be the one that protects
      the data key if there is one. Saving takes the data key in memory, removing does not. Changing the app
      password keeps the secrets if the data key is in memory; otherwise they go by force, or the change is
      refused. */
  lemma {:induction false} StepEffect(v: Vault, e: Event)
    ensures var w := Step(v, e);
      match e
      case Unlock(p) =>
        if v.password == Some(p) && !(v.ready && v.wrap != p)
        then w == Vault(v.password, p, true, true, true, v.secrets) else w == v
      case Lock => !w.unlocked && w == v.(unlocked := w.unlocked)
      case Put(addr, x) =>
        if v.unlocked && v.present
        then addr in w.secrets && w.secrets[addr] == x && OthersKept(v.secrets, w.secrets, addr)
             && w == v.(secrets := w.secrets)
        else w == v
      case Remove(addr) => addr !in w.secrets && OthersKept(v.secrets, w.secrets, addr) && w == v.(secrets := w.secrets)
      case Change(next, force, keyring) =>
        var rewraps := v.secrets != map[] && v.unlocked;
        if v.secrets != map[] && !v.unlocked && !force then w == v
        else
          && w.password == Some(next) && w.secrets == (if rewraps then v.secrets else map[])
          && (w.ready ==> w.wrap == next) && w.ready == (keyring || (rewraps && v.ready))
          && w.present == (keyring || (rewraps && v.present)) && w.unlocked == (keyring || v.unlocked)
  {
  }

  function Run(v: Vault, events: seq<Event>): Vault
    decreases |events|
  {
    if events == [] then v else Run(Step(v, events[0]), events[1..])
  }

  /** The app password in force is the one that protects the data key, and secrets have a data key. */
  predicate Sound(v: Vault) {
    && (v.ready ==> v.present && v.password == Some(v.wrap))
    && (v.secrets != map[] ==> v.ready)
    && (v.unlocked && v.present ==> v.ready)
  }

  lemma {:induction false} StepSound(v: Vault, e: Event)
    requires Sound(v)
    ensures Sound(Step(v, e))
  {
    if e.Remove? && v.secrets == map[] {
      assert v.secrets - {e.addr} == map[];
    }
  }

  /** The event ends the life of the secret stored under `addr`: another value, a removal, or the
      app password replaced by force while the store is locked. */
  predicate Ends(v: Vault, e: Event, addr: string) {
    match e
    case Put(a, _) => a == addr && CanSet(v)
    case Remove(a) => a == addr
    case Change(_, force, _) => force && !v.unlocked
    case _ => false
  }

  predicate Undisturbed(v: Vault, events: seq<Event>, addr: string)
    decreases |events|
  {
    events != [] ==> !Ends(v, events[0], addr) && Undisturbed(Step(v, events[0]), events[1..], addr)
  }

  lemma {:induction false} KeptSecret(v: Vault, events: seq<Event>, addr: string)
    requires Sound(v) && addr in v.secrets && Undisturbed(v, events, addr)
    ensures var w := Run(v, events);
      Sound(w) && addr in w.secrets && w.secrets[addr] == v.secrets[addr]
    decreases |events|
  {
    if events != [] {
      StepSound(v, events[0]);
      assert v.secrets != map[];
      KeptSecret(Step(v, events[0]), events[1..], addr);
    }
  }

  /** Main result. However often the store is locked, unlocked, filled, cleared elsewhere, or given a
      new app password after a secret was saved, the app password then in force, and no other,
      unlocks the store and shows that secret. */
  lemma {:induction false} LastValueSurvives(v: Vault, addr: string, x: Bytes, events: seq<Event>, p: Bytes)
    requires Sound(v) && CanSet(v) && Undisturbed(WithSecret(v, addr, x), events, addr)
    ensures var w := Run(WithSecret(v, addr, x), events);
      && (CanUnlock(w, p) <==> w.password == Some(p)) && w.password.Some?
      && addr in Unlocked(w, p).secrets && Unlocked(w, p).secrets[addr] == x
  {
    StepSound(v, Put(addr, x));
    KeptSecret(WithSecret(v, addr, x), events, addr);
  }
}
