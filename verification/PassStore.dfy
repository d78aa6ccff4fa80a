/** The encrypted password file: a random data key (DEK) encrypts the secrets, and a key derived from
    the app password (KEK) encrypts the data key. */
module PassStore {
  import opened Basics
  import opened Padding
  import opened Vault

  // ---- The libraries ----

  /** Authenticated encryption (key, nonce, text), key derivation (password, salt), base64 and the
      password hash. */
  datatype Crypto = Crypto(
    fits: Bytes -> bool,
    seal: (Bytes, Bytes, Bytes) -> Bytes,
    unseal: (Bytes, Bytes, Bytes) -> Option<Bytes>,
    derive: (Bytes, Bytes) -> Bytes,
    encode: Bytes -> string,
    decode: string -> Option<Bytes>,
    matches: (string, Bytes) -> bool)

  /** Decryption undoes encryption, under the same key only; derived keys fit the cipher and tell
      passwords apart. */
  ghost predicate Lawful(c: Crypto) {
    && (forall k, n, p :: c.unseal(k, n, c.seal(k, n, p)) == Some(p))
    && (forall k, k', n, p :: k != k' ==> c.unseal(k', n, c.seal(k, n, p)) == None)
    && (forall p, s :: c.fits(c.derive(p, s)))
    && (forall p, p', s :: c.derive(p, s) == c.derive(p', s) ==> p == p')
    && (forall b :: c.decode(c.encode(b)) == Some(b))
    && c.decode("") == Some([])
  }

  ghost predicate HashOf(c: Crypto, hash: string, p: Bytes) {
    hash != "" && forall q :: c.matches(hash, q) <==> q == p
  }

  const NONCE_SIZE := 24

  function EncryptDEK(c: Crypto, dek: Bytes, kek: Bytes, nonce: Bytes): Option<string> {
    if !c.fits(kek) then None else Some(c.encode(nonce + c.seal(kek, nonce, dek)))
  }

  function DecryptDEK(c: Crypto, text: string, kek: Bytes): Option<Bytes> {
    match c.decode(text)
    case None => None
    case Some(b) =>
      if !c.fits(kek) || |b| < NONCE_SIZE then None
      else c.unseal(kek, b[..NONCE_SIZE], b[NONCE_SIZE..])
  }

  function Encrypt(c: Crypto, plaintext: Bytes, key: Bytes, nonce: Bytes): Option<string> {
    EncryptDEK(c, Padded(plaintext), key, nonce)
  }

  function Decrypt(c: Crypto, text: string, key: Bytes): Option<Bytes> {
    match DecryptDEK(c, text, key)
    case None => None
    case Some(padded) => Unpadded(padded)
  }

  /** What one key seals that key opens, and no other. */
  lemma {:induction false} OpenSealed(c: Crypto, dek: Bytes, kek: Bytes, nonce: Bytes, key: Bytes)
    requires Lawful(c) && c.fits(kek) && |nonce| == NONCE_SIZE
    ensures var t := EncryptDEK(c, dek, kek, nonce);
      && t.Some? && t.value != "" && DecryptDEK(c, t.value, key) == (if key == kek then Some(dek) else None)
      && c.decode(t.value) == Some(nonce + c.seal(kek, nonce, dek))
  {
    var b := nonce + c.seal(kek, nonce, dek);
    assert b[..NONCE_SIZE] == nonce && b[NONCE_SIZE..] == c.seal(kek, nonce, dek);
    assert c.decode(c.encode(b)) == Some(b);
  }

  lemma {:induction false} DecryptEncrypted(c: Crypto, plaintext: Bytes, key: Bytes, nonce: Bytes)
    requires Lawful(c) && c.fits(key) && |nonce| == NONCE_SIZE
    ensures var t := Encrypt(c, plaintext, key, nonce);
      t.Some? && t.value != "" && Decrypt(c, t.value, key) == Some(plaintext)
  {
    OpenSealed(c, Padded(plaintext), key, nonce, key);
    UnpadPad(plaintext);
  }

  /** What the cipher sees of a secret: the text, a byte 1 and zeros, so that up to 63 bytes all secrets look
      equally long. */
  lemma {:induction false} SealsPadded(c: Crypto, plaintext: Bytes, key: Bytes, nonce: Bytes)
    requires Lawful(c) && c.fits(key) && |nonce| == 24
    ensures var t := Encrypt(c, plaintext, key, nonce);
      && t.Some? && DecryptDEK(c, t.value, key).Some?
      && var x := DecryptDEK(c, t.value, key).value;
         && |x| == (if |plaintext| <= 63 then 64 else |plaintext| + 1)
         && x[..|plaintext|] == plaintext && x[|plaintext|] == 1
         && forall i :: |plaintext| < i < |x| ==> x[i] == 0
  {
    OpenSealed(c, Padded(plaintext), key, nonce, key);
  }

  // ---- The laws can be met ----

  /** A cipher that hides nothing but obeys the laws. */
  function Plain(): Crypto {
    Crypto(_ => true,
           (k, n, p) => Tagged(k) + p,
           (k, n, x) => if Tagged(k) <= x then Some(x[|Tagged(k)|..]) else None,
           (p, s) => p,
           b => Letters(b),
           s => ReadLetters(s),
           (h, p) => h == "h" + Letters(p))
  }

  function Tagged(k: Bytes): Bytes {
    Zeros(|k|) + [1] + k
  }

  function Letters(b: Bytes): string {
    seq(|b|, i requires 0 <= i < |b| => b[i] as char)
  }

  function ReadLetters(s: string): Option<Bytes> {
    if exists l <- s :: l as int >= 256 then None
    else
      var b: Bytes := seq(|s|, i requires 0 <= i < |s| => if s[i] as int < 256 then s[i] as int else 0);
      Some(b)
  }

  lemma {:induction false} TagsDiffer(k: Bytes, k': Bytes, p: Bytes)
    requires k != k'
    ensures !(Tagged(k') <= Tagged(k) + p)
  {
    var x, t := Tagged(k) + p, Tagged(k');
    assert x[|k|] == 1 && t[|k'|] == 1;
    if |k'| < |k| {
      assert x[|k'|] == 0;
    } else if |k'| > |k| {
      assert t[|k|] == 0;
    } else {
      assert Tagged(k)[|k| + 1..] == k && t[|k| + 1..] == k';
      assert x[..|t|] == Tagged(k);
    }
  }

  lemma {:induction false} LawsCanBeMet()
    ensures Lawful(Plain())
  {
    var c := Plain();
    forall k, n, p ensures c.unseal(k, n, c.seal(k, n, p)) == Some(p) {
      assert (Tagged(k) + p)[|Tagged(k)|..] == p;
    }
    forall k: Bytes, k', n, p | k != k' ensures c.unseal(k', n, c.seal(k, n, p)) == None {
      TagsDiffer(k, k', p);
    }
    forall b ensures c.decode(c.encode(b)) == Some(b) {
      assert ReadLetters(Letters(b)).value == b;
    }
  }

  // ---- The store ----

  datatype PasswordFile = PasswordFile(salt: string, encryptedDEK: string, passwords: map<string, string>)

  datatype File = Missing | Unreadable | Present(pf: PasswordFile)

  datatype Error = NoKey | NotExist | Invalid | NoPassword | DecryptionFail | NotEmpty | WrongPassword

  datatype Result<+T> = Ok(value: T) | Err(error: Error)

  /** The file's data key is `dek`, for the app password `wrap` and for no other. */
  ghost predicate Wraps(c: Crypto, pf: PasswordFile, wrap: Bytes, dek: Bytes) {
    && c.fits(dek)
    && c.decode(pf.salt).Some? && c.decode(pf.salt).value != []
    && forall p :: DecryptDEK(c, pf.encryptedDEK, c.derive(p, c.decode(pf.salt).value)) ==
                   if p == wrap then Some(dek) else None
  }

  ghost predicate Encrypts(c: Crypto, passwords: map<string, string>, dek: Bytes, secrets: map<string, Bytes>) {
    && passwords.Keys == secrets.Keys
    && forall a :: a in secrets ==> passwords[a] != "" && Decrypt(c, passwords[a], dek) == Some(secrets[a])
  }

  lemma {:induction false} WrapsAfter(c: Crypto, pf: PasswordFile, p: Bytes, dek: Bytes, salt: Bytes, nonce: Bytes)
    requires Lawful(c) && c.fits(dek) && salt != [] && |nonce| == NONCE_SIZE
    requires Some(pf.encryptedDEK) == EncryptDEK(c, dek, c.derive(p, salt), nonce)
    requires pf.salt == c.encode(salt)
    ensures Wraps(c, pf, p, dek) && pf.encryptedDEK != ""
  {
    assert c.decode(c.encode(salt)) == Some(salt);
    forall q ensures DecryptDEK(c, pf.encryptedDEK, c.derive(q, salt)) == if q == p then Some(dek) else None {
      OpenSealed(c, dek, c.derive(p, salt), nonce, c.derive(q, salt));
    }
  }

  class Store {
    const c: Crypto
    var enclave: Option<Bytes>
    var file: File
    var appPasswordHash: string
    ghost var password: Option<Bytes>
    ghost var wrap: Bytes
    ghost var dek: Bytes
    ghost var secrets: map<string, Bytes>

    predicate Ready()
      reads this
    {
      file.Present? && file.pf.encryptedDEK != ""
    }

    ghost predicate Valid()
      reads this
    {
      && Lawful(c)
      && (if password.None? then appPasswordHash == "" else HashOf(c, appPasswordHash, password.value))
      && (Ready() ==> Wraps(c, file.pf, wrap, dek) && (enclave.Some? ==> enclave.value == dek))
      && (file.Present? && !Ready() ==> enclave.None? && secrets == map[])
      && (if file.Present? then Encrypts(c, file.pf.passwords, dek, secrets) else secrets == map[])
    }

    ghost function Contents(): Vault
      reads this
    {
      Vault(password, wrap, file.Present?, Ready(), enclave.Some?, secrets)
    }

    /** A start: no key in memory, no file yet. */
    constructor (c: Crypto, hash: string, ghost p: Option<Bytes>)
      requires Lawful(c)
      requires if p.None? then hash == "" else HashOf(c, hash, p.value)
      ensures Valid() && Contents().password == p && !Contents().unlocked
      ensures Sound(Contents()) && Contents().secrets == map[]
    {
      this.c := c;
      enclave, file, appPasswordHash := None, Missing, hash;
      password, wrap, dek, secrets := p, [], [], map[];
    }

    function ReadPasswordFile(): Result<PasswordFile>
      reads this
    {
      match file
      case Missing => Err(NotExist)
      case Unreadable => Err(Invalid)
      case Present(pf) => Ok(pf)
    }

    method SetAppPasswordHash(hash: string, ghost p: Bytes)
      requires Valid() && HashOf(c, hash, p)
      modifies `appPasswordHash, `password
      ensures Valid() && Contents() == old(Contents()).(password := Some(p))
    {
      appPasswordHash := hash;
      password := Some(p);
    }

    /** `salt`, `newDek` and `nonce` are the random values that a new file would get. */
    method SetEncryptionKey(appPassword: Bytes, salt: Bytes, newDek: Bytes, nonce: Bytes) returns (ok: bool)
      requires Valid() && salt != [] && c.fits(newDek) && |nonce| == NONCE_SIZE
      modifies `enclave, `file, `wrap, `dek
      ensures Valid()
      ensures ok == CanUnlock(old(Contents()), appPassword)
      ensures Contents() == Unlocked(old(Contents()), appPassword)
      ensures ok <==> password == Some(appPassword) && (old(Ready()) ==> old(wrap) == appPassword)
      ensures ok ==> enclave == Some(dek) && Ready() && wrap == appPassword
      ensures ok && old(Ready()) ==> file == old(file) && dek == old(dek)
      ensures !ok ==> enclave == old(enclave) && file == old(file) && wrap == old(wrap) && dek == old(dek)
    {
      if appPasswordHash == "" || !c.matches(appPasswordHash, appPassword) {
        return false;
      }
      var r := ReadPasswordFile();
      if r.Err? || r.value.encryptedDEK == "" {
        var kek := c.derive(appPassword, salt);
        var encDEK := EncryptDEK(c, newDek, kek, nonce);
        OpenSealed(c, newDek, kek, nonce, kek);
        if encDEK.None? {
          return false;
        }
        var pf := if r.Err? then PasswordFile("", "", map[]) else r.value;
        pf := pf.(salt := c.encode(salt), encryptedDEK := encDEK.value);
        WrapsAfter(c, pf, appPassword, newDek, salt, nonce);
        file := Present(pf);
        enclave := Some(newDek);
        wrap, dek := appPassword, newDek;
        return true;
      }
      var fileSalt := c.decode(r.value.salt);
      if fileSalt.None? || fileSalt.value == [] {
        return false;
      }
      var kek := c.derive(appPassword, fileSalt.value);
      var key := DecryptDEK(c, r.value.encryptedDEK, kek);
      if key.None? {
        return false;
      }
      enclave := key;
      return true;
    }

    method ClearEncryptionKey()
      requires Valid()
      modifies `enclave
      ensures Valid() && Contents() == Locked(old(Contents())) && enclave == None
    {
      if enclave != None {
        enclave := None;
      }
    }

    method Get(addr: string) returns (r: Result<Bytes>)
      requires Valid()
      ensures enclave.None? ==> r == Err(NoKey)
      ensures enclave.Some? ==> r == if addr in secrets then Ok(secrets[addr])
                                     else if file.Missing? then Err(NotExist)
                                     else if file.Unreadable? then Err(Invalid)
                                     else Err(NoPassword)
    {
      if enclave == None {
        return Err(NoKey);
      }
      var pf := ReadPasswordFile();
      if pf.Err? {
        return Err(pf.error);
      }
      if addr !in pf.value.passwords || pf.value.passwords[addr] == "" {
        return Err(NoPassword);
      }
      var plaintext := Decrypt(c, pf.value.passwords[addr], enclave.value);
      if plaintext.None? {
        return Err(DecryptionFail);
      }
      return Ok(plaintext.value);
    }

    method Set(addr: string, secret: Bytes, nonce: Bytes) returns (r: Result<()>)
      requires Valid() && |nonce| == NONCE_SIZE
      modifies `file, `secrets
      ensures Valid() && Contents() == WithSecret(old(Contents()), addr, secret)
      ensures r.Ok? == CanSet(old(Contents())) && (r == Err(NoKey) <==> enclave.None?)
      ensures r.Ok? <==> enclave.Some? && old(file).Present?
      ensures r.Ok? ==> addr in secrets && secrets[addr] == secret && OthersKept(old(secrets), secrets, addr)
      ensures r.Err? ==> secrets == old(secrets) && file == old(file)
    {
      if enclave == None {
        return Err(NoKey);
      }
      var pf := ReadPasswordFile();
      if pf.Err? {
        return Err(pf.error);
      }
      var ciphertext := Encrypt(c, secret, enclave.value, nonce);
      DecryptEncrypted(c, secret, dek, nonce);
      if ciphertext.None? {
        return Err(DecryptionFail);
      }
      file := Present(pf.value.(passwords := pf.value.passwords[addr := ciphertext.value]));
      secrets := secrets[addr := secret];
      return Ok(());
    }

    /** Needs no key. */
    method Delete(addr: string) returns (r: Result<()>)
      requires Valid()
      modifies `file, `secrets
      ensures Valid() && Contents() == WithoutSecret(old(Contents()), addr)
      ensures r.Ok? <==> !old(file).Unreadable?
      ensures addr !in secrets && OthersKept(old(secrets), secrets, addr)
    {
      var pf := ReadPasswordFile();
      if pf.Err? {
        assert secrets - {addr} == secrets;
        return if pf.error == NotExist then Ok(()) else Err(pf.error);
      }
      if addr !in pf.value.passwords {
        assert secrets - {addr} == secrets;
        return Ok(());
      }
      file := Present(pf.value.(passwords := pf.value.passwords - {addr}));
      secrets := secrets - {addr};
      return Ok(());
    }

    method IsEmpty() returns (r: bool)
      requires Valid()
      ensures r <==> secrets == map[]
    {
      var pf := ReadPasswordFile();
      if pf.Err? {
        return true;
      }
      assert pf.value.passwords == map[] <==> pf.value.passwords.Keys == {};
      assert secrets == map[] <==> secrets.Keys == {};
      return |pf.value.passwords| == 0;
    }

    method DeletePasswordFile(force: bool) returns (r: Result<()>)
      requires Valid()
      modifies `file, `secrets
      ensures Valid() && Contents() == Dropped(old(Contents()), force)
      ensures r == if old(file).Missing? then (if force then Err(NotExist) else Ok(()))
                   else if force then Ok(())
                   else if old(file).Unreadable? then Err(Invalid)
                   else if old(secrets) == map[] then Ok(())
                   else Err(NotEmpty)
    {
      if !force {
        var pf := ReadPasswordFile();
        if pf.Err? {
          return if pf.error == NotExist then Ok(()) else Err(pf.error);
        }
        var isEmpty := IsEmpty();
        if !isEmpty {
          return Err(NotEmpty);
        }
      }
      if file.Missing? {
        return Err(NotExist);
      }
      file := Missing;
      secrets := map[];
      return Ok(());
    }

    /** The data key is wrapped again under `newPassword`, from memory. */
    method ReencryptWithInMemoryKey(newPassword: Bytes, salt: Bytes, nonce: Bytes) returns (r: Result<()>)
      requires Valid() && salt != [] && |nonce| == NONCE_SIZE
      modifies `file, `wrap
      ensures Valid() && Contents() == Rewrapped(old(Contents()), newPassword)
      ensures r.Ok? <==> enclave.Some? && !file.Unreadable?
      ensures enclave.Some? && old(file).Present? ==> Ready() && wrap == newPassword
    {
      if enclave == None {
        return Err(NoKey);
      }
      var pf := ReadPasswordFile();
      if pf.Err? {
        return if pf.error == NotExist then Ok(()) else Err(pf.error);
      }
      var encDEK := EncryptDEK(c, enclave.value, c.derive(newPassword, salt), nonce);
      OpenSealed(c, enclave.value, c.derive(newPassword, salt), nonce, []);
      if encDEK.None? {
        return Err(DecryptionFail);
      }
      var next := pf.value.(salt := c.encode(salt), encryptedDEK := encDEK.value);
      WrapsAfter(c, next, newPassword, dek, salt, nonce);
      file := Present(next);
      wrap := newPassword;
      return Ok(());
    }

    /** The data key is wrapped again under `newPassword`, from the old password. */
    method Reencrypt(oldPassword: Bytes, newPassword: Bytes, salt: Bytes, nonce: Bytes) returns (r: Result<()>)
      requires Valid() && salt != [] && |nonce| == NONCE_SIZE
      modifies `file, `wrap
      ensures Valid()
      ensures r.Ok? <==> (password.Some? ==> password.value == oldPassword) && !old(file).Unreadable?
                         && (old(Ready()) ==> old(wrap) == oldPassword)
      ensures Contents() == if r.Ok? && old(Ready()) then old(Contents()).(wrap := newPassword) else old(Contents())
    {
      if appPasswordHash != "" && !c.matches(appPasswordHash, oldPassword) {
        return Err(WrongPassword);
      }
      var pf := ReadPasswordFile();
      if pf.Err? {
        return if pf.error == NotExist then Ok(()) else Err(pf.error);
      }
      if pf.value.encryptedDEK == "" {
        return Ok(());
      }
      var oldSalt := c.decode(pf.value.salt);
      if oldSalt.None? || oldSalt.value == [] {
        return Err(Invalid);
      }
      var key := DecryptDEK(c, pf.value.encryptedDEK, c.derive(oldPassword, oldSalt.value));
      if key.None? {
        return Err(DecryptionFail);
      }
      var encDEK := EncryptDEK(c, key.value, c.derive(newPassword, salt), nonce);
      OpenSealed(c, key.value, c.derive(newPassword, salt), nonce, []);
      if encDEK.None? {
        return Err(DecryptionFail);
      }
      var next := pf.value.(salt := c.encode(salt), encryptedDEK := encDEK.value);
      WrapsAfter(c, next, newPassword, dek, salt, nonce);
      file := Present(next);
      wrap := newPassword;
      return Ok(());
    }
  }
}
