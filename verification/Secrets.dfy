/** Encrypted secrets, their store with its cache, and the Solana client that fetches its key from it. */
module Secrets {
  import opened TimedStore
  import opened SecretCache

  datatype User = User(username: string, superuser: bool)

  datatype Failure = PermissionDenied | ValueError | InvalidToken
  datatype Result<+T> = Ok(value: T) | Err(error: Failure)

  /** `encrypt` takes the master key, the plaintext and the randomness it draws; it fails on a malformed
      key.  `decrypt` takes the master key and the token. */
  datatype Fernet = Fernet(encrypt: (string, string, nat) -> Option<Cipher>, decrypt: (string, Cipher) -> Option<string>)

  ghost predicate Inverse(f: Fernet) {
    forall key, p, r :: f.encrypt(key, p, r).Some? ==> f.decrypt(key, f.encrypt(key, p, r).value) == Some(p)
  }

  function Under(f: Fernet, key: Option<string>): Decrypt {
    c => if Truthy(key) then f.decrypt(key.value, c) else None
  }

  class EncryptedSecret {
    var encryptedValue: Cipher
    var encryptionKeyId: string
    var createdBy: Option<User>
    var lastModifiedBy: Option<User>
    var isActive: bool
    var expiresAt: Option<real>
    var accessCount: nat
    var lastAccessedAt: Option<real>

    constructor (expiresAt: Option<real>)
      ensures Row() == Secret([], true, expiresAt) && accessCount == 0 && lastAccessedAt == None
      ensures createdBy == None && lastModifiedBy == None && encryptionKeyId == "v1"
    {
      encryptedValue, encryptionKeyId, createdBy, lastModifiedBy := [], "v1", None, None;
      isActive, this.expiresAt, accessCount, lastAccessedAt := true, expiresAt, 0, None;
    }

    function Row(): Secret
      reads this
    {
      Secret(encryptedValue, isActive, expiresAt)
    }

    /** Only a superuser gets a value in, it replaces the old one whole, and it can be read back. */
    method EncryptAndSave(f: Fernet, key: Option<string>, plaintext: string, user: User, randomness: nat)
      returns (r: Result<()>)
      modifies this`encryptedValue, this`encryptionKeyId, this`createdBy, this`lastModifiedBy
      ensures r == if !user.superuser then Err(PermissionDenied)
                   else if Truthy(key) && f.encrypt(key.value, plaintext, randomness).Some? then Ok(())
                   else Err(ValueError)
      ensures r.Err? ==> unchanged(this)
      ensures r.Ok? ==> encryptionKeyId == "v1" && createdBy == lastModifiedBy == Some(user)
      ensures r.Ok? ==> Some(encryptedValue) == f.encrypt(key.value, plaintext, randomness)
      ensures r.Ok? && Inverse(f) ==> Under(f, key)(encryptedValue) == Some(plaintext)
    {
      if !user.superuser {
        return Err(PermissionDenied);
      }
      if !Truthy(key) {
        return Err(ValueError);
      }
      var token := f.encrypt(key.value, plaintext, randomness);
      if token == None {
        return Err(ValueError);
      }
      encryptedValue := token.value;
      encryptionKeyId := "v1";
      createdBy := Some(user);
      lastModifiedBy := Some(user);
      r := Ok(());
    }

    /** As above, but the creator and the key version stay. */
    method RotateSecret(f: Fernet, key: Option<string>, plaintext: string, user: User, randomness: nat)
      returns (r: Result<()>)
      modifies this`encryptedValue, this`lastModifiedBy
      ensures r == if !user.superuser then Err(PermissionDenied)
                   else if Truthy(key) && f.encrypt(key.value, plaintext, randomness).Some? then Ok(())
                   else Err(ValueError)
      ensures r.Err? ==> unchanged(this)
      ensures r.Ok? ==> lastModifiedBy == Some(user) && Some(encryptedValue) == f.encrypt(key.value, plaintext, randomness)
      ensures r.Ok? && Inverse(f) ==> Under(f, key)(encryptedValue) == Some(plaintext)
    {
      if !user.superuser {
        return Err(PermissionDenied);
      }
      if !Truthy(key) {
        return Err(ValueError);
      }
      var token := f.encrypt(key.value, plaintext, randomness);
      if token == None {
        return Err(ValueError);
      }
      encryptedValue := token.value;
      lastModifiedBy := Some(user);
      r := Ok(());
    }

    /** The access count counts the successful decryptions and nothing else. */
    method DecryptValue(f: Fernet, key: Option<string>, user: User, now: real) returns (r: Result<string>)
      modifies this`accessCount, this`lastAccessedAt
      ensures r == if !user.superuser then Err(PermissionDenied)
                   else if !isActive || Expired(Row(), now) || !Truthy(key) then Err(ValueError)
                   else match f.decrypt(key.value, encryptedValue) case Some(p) => Ok(p) case None => Err(InvalidToken)
      ensures r.Ok? ==> accessCount == old(accessCount) + 1 && lastAccessedAt == Some(now)
      ensures r.Err? ==> unchanged(this)
    {
      if !user.superuser {
        return Err(PermissionDenied);
      }
      if !isActive {
        return Err(ValueError);
      }
      if expiresAt.Some? && expiresAt.value < now {
        return Err(ValueError);
      }
      if !Truthy(key) {
        return Err(ValueError);
      }
      var plaintext := f.decrypt(key.value, encryptedValue);
      if plaintext == None {
        return Err(InvalidToken);
      }
      lastAccessedAt := Some(now);
      accessCount := accessCount + 1;
      r := Ok(plaintext.value);
    }
  }

  function FirstSuperuser(admins: seq<User>, named: Option<string>): (u: Option<User>)
    ensures u.Some? ==> u.value in admins && u.value.superuser && (named.Some? ==> u.value.username == named.value)
    ensures u == None ==> forall a :: a in admins && a.superuser ==> named.Some? && a.username != named.value
  {
    if admins == [] then None
    else if admins[0].superuser && (named == None || admins[0].username == named.value) then Some(admins[0])
    else FirstSuperuser(admins[1..], named)
  }

  /** The account that system components decrypt with. */
  function SystemUser(admins: seq<User>): (u: Option<User>)
    ensures u.Some? <==> exists a :: a in admins && a.superuser
    ensures u.Some? ==> u.value in admins && u.value.superuser
    ensures u.Some? && (exists a :: a in admins && a.superuser && a.username == "system") ==> u.value.username == "system"
  {
    var system := FirstSuperuser(admins, Some("system"));
    if system.Some? then system else FirstSuperuser(admins, None)
  }

  const KEY_CACHE_KEY := "program_authority_key_b58"

  function SecretKey(name: string): string { "encrypted_secret:" + name }

  /** The secrets table, the admin accounts and the cache. */
  class SecretStore {
    var secrets: map<string, EncryptedSecret>
    var admins: seq<User>
    var cache: Store<string, string>

    constructor (secrets: map<string, EncryptedSecret>, admins: seq<User>)
      ensures this.secrets == secrets && this.admins == admins && cache == map[]
    {
      this.secrets, this.admins, cache := secrets, admins, map[];
    }

    ghost function Tables(): Database
      reads this, secrets.Values
    {
      Database(map name | name in secrets :: secrets[name].Row(), SystemUser(admins).Some?)
    }

    /** A cached value is returned as it is; otherwise the row is decrypted, counted once and cached for
        300 seconds.  A failure leaves everything as it was, and no row's contents ever change. */
    method GetSecretValue(name: string, f: Fernet, key: Option<string>, now: real) returns (r: Result<string>)
      modifies this`cache, (if name in secrets then {secrets[name]} else {})`accessCount,
        (if name in secrets then {secrets[name]} else {})`lastAccessedAt
      ensures Tables() == old(Tables())
      ensures
        var cached := Lookup(old(cache), SecretKey(name), now);
        var stored := Value(old(Tables()), name, now, Under(f, key));
        var answer := SecretAnswer(cached, stored);
        && (if answer.Some? then r == Ok(answer.value) else r.Err?)
        && if Truthy(cached) || stored == None then cache == old(cache) && (name in secrets ==> unchanged(secrets[name]))
        else
          && cache == Put(old(cache), SecretKey(name), stored.value, now, CACHE_TTL)
          && name in secrets && secrets[name].accessCount == old(secrets[name].accessCount) + 1
          && secrets[name].lastAccessedAt == Some(now)
    {
      var cached := Lookup(cache, SecretKey(name), now);
      if Truthy(cached) {
        return Ok(cached.value);
      }
      if name !in secrets || !secrets[name].isActive {
        return Err(ValueError);
      }
      var systemUser := SystemUser(admins);
      if systemUser == None {
        return Err(ValueError);
      }
      ghost var stored := Value(Tables(), name, now, Under(f, key));
      r := secrets[name].DecryptValue(f, key, systemUser.value, now);
      assert stored == if r.Ok? then Some(r.value) else None;
      assert forall n :: n in secrets ==> secrets[n].Row() == old(secrets[n].Row());
      assert Tables() == old(Tables());
      if r.Ok? {
        cache := Put(cache, SecretKey(name), r.value, now, CACHE_TTL);
      }
    }
  }

  class SolanaClient {
    const store: SecretStore
    const environmentKey: Option<string>

    constructor (store: SecretStore, environmentKey: Option<string>)
      ensures this.store == store && this.environmentKey == environmentKey
    {
      this.store, this.environmentKey := store, environmentKey;
    }

    method GetProgramAuthorityKey(f: Fernet, key: Option<string>, now: real) returns (r: Result<string>)
      modifies store`cache, (if AUTHORITY in store.secrets then {store.secrets[AUTHORITY]} else {})`accessCount,
        (if AUTHORITY in store.secrets then {store.secrets[AUTHORITY]} else {})`lastAccessedAt
      ensures store.Tables() == old(store.Tables())
      ensures
        var cachedKey := Lookup(old(store.cache), KEY_CACHE_KEY, now);
        var cachedSecret := Lookup(old(store.cache), SecretKey(AUTHORITY), now);
        var stored := Value(old(store.Tables()), AUTHORITY, now, Under(f, key));
        var answer := KeyAnswer(cachedKey, SecretAnswer(cachedSecret, stored), environmentKey);
        && (if answer.Some? then r == Ok(answer.value) else r == Err(ValueError))
        && store.cache ==
             if Truthy(cachedKey) || answer == None then old(store.cache)
             else if Truthy(cachedSecret) || stored == None then Put(old(store.cache), KEY_CACHE_KEY, answer.value, now, CACHE_TTL)
             else Put(Put(old(store.cache), SecretKey(AUTHORITY), stored.value, now, CACHE_TTL), KEY_CACHE_KEY, answer.value, now, CACHE_TTL)
    {
      var cachedKey := Lookup(store.cache, KEY_CACHE_KEY, now);
      if Truthy(cachedKey) {
        return Ok(cachedKey.value);
      }
      r := store.GetSecretValue(AUTHORITY, f, key, now);
      if r.Ok? {
        store.cache := Put(store.cache, KEY_CACHE_KEY, r.value, now, CACHE_TTL);
      } else if Truthy(environmentKey) {
        store.cache := Put(store.cache, KEY_CACHE_KEY, environmentKey.value, now, CACHE_TTL);
        r := Ok(environmentKey.value);
      } else {
        r := Err(ValueError);
      }
    }
  }

  /** Caching a secret never hides or changes the client's own entry, nor another secret's. */
  lemma CacheKeysApart(a: string, b: string)
    ensures SecretKey(a) != KEY_CACHE_KEY
    ensures SecretKey(a) == SecretKey(b) ==> a == b
  {
    assert SecretKey(a)[0] == 'e' && KEY_CACHE_KEY[0] == 'p';
    assert SecretKey(a)[|"encrypted_secret:"|..] == a && SecretKey(b)[|"encrypted_secret:"|..] == b;
  }
}
