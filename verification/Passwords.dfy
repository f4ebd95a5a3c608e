/**
 * Stored password hashes: verifying, and replacing an outdated hash after a successful login.
 * Argon2id and bcrypt are uninterpreted.
 */
module Passwords {
  import opened Wrappers
  import opened HashString

  datatype Crypto = Crypto(kdf: (seq<byte>, seq<byte>, Params) -> seq<byte>, bcrypt: (string, seq<byte>) -> bool)

  /** Argon2id returns as many bytes as it is asked for. */
  ghost predicate Sized(c: Crypto) {
    forall password, salt, p :: |c.kdf(password, salt, p)| == p.keyLen
  }

  const SALT_LENGTH := 16
  const CURRENT: Params := Params(64 * 1024, 3, 2, 32)

  datatype Verdict = Verdict(matches: bool, needsRehash: bool)

  function EncodeArgon2id(c: Crypto, password: seq<byte>, salt: seq<byte>, p: Params): string {
    Print(p, salt, c.kdf(password, salt, p))
  }

  /** `HashPassword`, with the salt that the random source gave. */
  function HashPassword(c: Crypto, password: seq<byte>, salt: seq<byte>): string {
    EncodeArgon2id(c, password, salt, CURRENT)
  }

  predicate IsBcrypt(hash: string) { HasPrefix(hash, "$2a$") || HasPrefix(hash, "$2b$") || HasPrefix(hash, "$2y$") }

  function VerifyArgon2id(c: Crypto, parsed: Parsed, password: seq<byte>): Verdict {
    match parsed
    case Ok(p, salt, key) =>
      var matches := c.kdf(password, salt, p) == key;
      Verdict(matches, matches && (p != CURRENT || |salt| != SALT_LENGTH))
    case _ => Verdict(false, false)
  }

  function VerifyPassword(c: Crypto, hash: string, password: seq<byte>): Verdict {
    if IsBcrypt(hash) then Verdict(c.bcrypt(hash, password), c.bcrypt(hash, password))
    else VerifyArgon2id(c, Parse(hash), password)
  }

  // ------------------------------------------------------------ a single hash

  lemma PrintedIsNotBcrypt(p: Params, salt: seq<byte>, key: seq<byte>)
    ensures !IsBcrypt(Print(p, salt, key))
  {
    var fields := ["", "argon2id", "v=" + Itoa(VERSION), PrintParams(p), Base64Encode(salt), Base64Encode(key)];
    var hash, rest := Join(fields, '$'), Join(fields[1..], '$');
    assert rest == "argon2id" + ['$'] + Join(fields[1..][1..], '$');
    assert hash == "" + ['$'] + rest;
    assert hash[1] == 'a';
  }

  /**
   * What any password is told about any encoded hash: it matches exactly when the hash is within
   * the parser's limits and the derived keys agree, and only then can a rehash be asked for.
   */
  lemma EncodedVerdict(c: Crypto, owner: seq<byte>, salt: seq<byte>, p: Params, password: seq<byte>)
    requires Sized(c)
    ensures var v := VerifyPassword(c, EncodeArgon2id(c, owner, salt, p), password);
      && (v.matches <==> CostsAllowed(p) && 8 <= |salt| <= 64 && 16 <= p.keyLen <= 64
                         && c.kdf(password, salt, p) == c.kdf(owner, salt, p))
      && (v.needsRehash <==> v.matches && (p != CURRENT || |salt| != SALT_LENGTH))
  {
    var key := c.kdf(owner, salt, p);
    ParseOfPrint(p, salt, key);
    PrintedIsNotBcrypt(p, salt, key);
  }

  /** A new hash verifies for its password and is up to date for every password. */
  lemma FreshHashVerifies(c: Crypto, owner: seq<byte>, salt: seq<byte>, password: seq<byte>)
    requires Sized(c) && |salt| == SALT_LENGTH
    ensures var v := VerifyPassword(c, HashPassword(c, owner, salt), password);
      && (v.matches <==> c.kdf(password, salt, CURRENT) == c.kdf(owner, salt, CURRENT))
      && !v.needsRehash
    ensures VerifyPassword(c, HashPassword(c, owner, salt), owner).matches
  {
    EncodedVerdict(c, owner, salt, CURRENT, password);
    EncodedVerdict(c, owner, salt, CURRENT, owner);
  }

  predicate HasBcryptPrefix(hash: string) { |hash| >= 4 && hash[..4] in {"$2a$", "$2b$", "$2y$"} }

  const TODAY := Params(65536, 3, 2, 32)

  /** Whether the hash is of a kind that a successful login replaces. */
  predicate Outdated(hash: string) {
    HasBcryptPrefix(hash) || (Parse(hash).Ok? && (Parse(hash).params != TODAY || |Parse(hash).salt| != 16))
  }

  lemma PrefixMeaning(hash: string)
    ensures IsBcrypt(hash) <==> HasBcryptPrefix(hash)
  {
  }

  /** What any stored hash says of any password: by bcrypt, by Argon2id with the hash's own costs and salt, or never. */
  lemma VerdictMeaning(c: Crypto, hash: string, password: seq<byte>)
    ensures var v, h := VerifyPassword(c, hash, password), Parse(hash);
      && (v.matches <==> if HasBcryptPrefix(hash) then c.bcrypt(hash, password)
                         else h.Ok? && c.kdf(password, h.salt, h.params) == h.key)
      && (v.needsRehash <==> v.matches && Outdated(hash))
  {
    PrefixMeaning(hash);
  }

  /** What an upgrade stores can be read back: today's costs, the salt, and the key that they give. */
  lemma NewHashParses(c: Crypto, password: seq<byte>, salt: seq<byte>)
    requires Sized(c) && |salt| == 16
    ensures var hash := HashPassword(c, password, salt);
      !HasBcryptPrefix(hash) && Parse(hash) == Ok(TODAY, salt, c.kdf(password, salt, TODAY)) && !Outdated(hash)
  {
    var key := c.kdf(password, salt, TODAY);
    ParseOfPrint(TODAY, salt, key);
    PrintedIsNotBcrypt(TODAY, salt, key);
    PrefixMeaning(Print(TODAY, salt, key));
  }

  // ---------------------------------------------------------- the stored hash

  /** The `password_hash` column of one user. */
  class UserRow {
    var passwordHash: string

    constructor (hash: string)
      ensures passwordHash == hash
    {
      passwordHash := hash;
    }

    /** Compare and set. */
    method UpdatePasswordHash(previous: string, replacement: string)
      modifies this
      ensures passwordHash == if old(passwordHash) == previous then replacement else old(passwordHash)
    {
      if passwordHash == previous {
        passwordHash := replacement;
      }
    }

    /**
     * A login without interference; `salt` is absent when the random source fails, and `stored` is false
     * when the new hash cannot be saved. Neither changes the answer.
     */
    method Login(c: Crypto, password: seq<byte>, salt: Option<seq<byte>>, stored: bool) returns (accepted: bool)
      requires Sized(c) && (salt.Some? ==> |salt.value| == SALT_LENGTH)
      modifies this
      ensures HasBcryptPrefix(old(passwordHash)) ==> (accepted <==> c.bcrypt(old(passwordHash), password))
      ensures !HasBcryptPrefix(old(passwordHash)) ==>
                (accepted <==> match Parse(old(passwordHash))
                               case Ok(costs, s, key) => c.kdf(password, s, costs) == key
                               case _ => false)
      ensures !(accepted && Outdated(old(passwordHash)) && salt.Some? && stored) ==> passwordHash == old(passwordHash)
      ensures accepted && Outdated(old(passwordHash)) && salt.Some? && stored ==>
                && !HasBcryptPrefix(passwordHash)
                && Parse(passwordHash) == Ok(TODAY, salt.value, c.kdf(password, salt.value, TODAY))
      ensures accepted == VerifyPassword(c, passwordHash, password).matches
    {
      var found := passwordHash;
      var v := VerifyPassword(c, found, password);
      VerdictMeaning(c, found, password);
      if !v.matches {
        return false;
      }
      if v.needsRehash && salt.Some? && stored {
        NewHashParses(c, password, salt.value);
        FreshHashVerifies(c, password, salt.value, password);
        UpdatePasswordHash(found, HashPassword(c, password, salt.value));
      }
      return true;
    }
  }

  // ------------------------------------------------------- interleaved logins

  /** Logins read the hash and later store a new one; `Reset` is the configured user's upsert at start. */
  datatype Step =
    | Read(login: nat, password: seq<byte>)
    | Upgrade(login: nat, salt: seq<byte>)
    | Reset(hash: string)

  datatype Attempt = Attempt(found: string, password: seq<byte>)

  /** `base` is the hash last set by something other than a login; `upgrades` counts the changes by logins since then. */
  datatype State = State(hash: string, attempts: map<nat, Attempt>, base: string, upgrades: nat)

  function Next(c: Crypto, s: State, step: Step): State {
    match step
    case Read(login, password) => s.(attempts := s.attempts[login := Attempt(s.hash, password)])
    case Reset(hash) => s.(hash := hash, base := hash, upgrades := 0)
    case Upgrade(login, salt) =>
      if login !in s.attempts then s
      else
        var a := s.attempts[login];
        if !VerifyPassword(c, a.found, a.password).needsRehash || |salt| != SALT_LENGTH then s
        else if s.hash != a.found then s.(attempts := s.attempts - {login})
        else s.(hash := HashPassword(c, a.password, salt), attempts := s.attempts - {login}, upgrades := s.upgrades + 1)
  }

  function Run(c: Crypto, first: string, steps: seq<Step>): State {
    if steps == [] then State(first, map[], first, 0)
    else Next(c, Run(c, first, steps[..|steps| - 1]), steps[|steps| - 1])
  }

  /** The stored hash was made by a login whose password matched `base`. */
  ghost predicate UpgradedBy(c: Crypto, s: State, password: seq<byte>, salt: seq<byte>) {
    && |salt| == SALT_LENGTH && s.hash == HashPassword(c, password, salt)
    && VerifyPassword(c, s.base, password).needsRehash
  }

  /** In every interleaving the stored hash is the base hash or one upgrade of it. */
  lemma {:induction false} StoredHashOrigin(c: Crypto, first: string, steps: seq<Step>)
    requires Sized(c)
    ensures var s := Run(c, first, steps);
      s.hash == s.base || exists password, salt :: UpgradedBy(c, s, password, salt)
  {
    if steps != [] {
      StoredHashOrigin(c, first, steps[..|steps| - 1]);
      var s, t := Run(c, first, steps[..|steps| - 1]), Run(c, first, steps);
      if s.hash != s.base {
        var password, salt :| UpgradedBy(c, s, password, salt);
        UpgradedStays(c, s, steps[|steps| - 1], password, salt);
        assert t.hash == t.base || UpgradedBy(c, t, password, salt);
      } else if t.hash != s.hash && !steps[|steps| - 1].Reset? {
        var login, salt := steps[|steps| - 1].login, steps[|steps| - 1].salt;
        assert UpgradedBy(c, t, s.attempts[login].password, salt);
      }
    }
  }

  /** No login replaces an upgraded hash, whatever it read and whenever it read it. */
  lemma UpgradedStays(c: Crypto, s: State, step: Step, password: seq<byte>, salt: seq<byte>)
    requires Sized(c) && UpgradedBy(c, s, password, salt)
    ensures var t := Next(c, s, step);
      step.Reset? || (t.hash == s.hash && t.base == s.base && t.upgrades == s.upgrades)
  {
    if step.Upgrade? && step.login in s.attempts {
      FreshHashVerifies(c, password, salt, s.attempts[step.login].password);
    }
  }

  /**
   * In every interleaving, between one setting of the hash and the next, logins replace it at most
   * once: never so far, and it is what was set, or once, by a password that matched it.
   */
  lemma {:induction false} AtMostOneUpgrade(c: Crypto, first: string, steps: seq<Step>)
    requires Sized(c)
    ensures var s := Run(c, first, steps);
      (s.upgrades == 0 && s.hash == s.base) || (s.upgrades == 1 && exists password, salt :: UpgradedBy(c, s, password, salt))
  {
    if steps != [] {
      var before, step := steps[..|steps| - 1], steps[|steps| - 1];
      AtMostOneUpgrade(c, first, before);
      var s, t := Run(c, first, before), Run(c, first, steps);
      if s.upgrades == 1 {
        var password, salt :| UpgradedBy(c, s, password, salt);
        UpgradedStays(c, s, step, password, salt);
        assert step.Reset? || UpgradedBy(c, t, password, salt);
      } else if t.upgrades == 1 {
        assert UpgradedBy(c, t, s.attempts[step.login].password, step.salt);
      }
    }
  }

  /**
   * Which passwords the account accepts after any interleaving: those that matched the base hash
   * while it is stored, and otherwise those whose derived key is that of the upgrading login.
   */
  lemma AcceptedAfterAnyRun(c: Crypto, first: string, steps: seq<Step>, password: seq<byte>)
    requires Sized(c)
    ensures var s := Run(c, first, steps); var accepted := VerifyPassword(c, s.hash, password).matches;
      || (s.hash == s.base && (accepted <==> VerifyPassword(c, s.base, password).matches))
      || exists owner, salt :: UpgradedBy(c, s, owner, salt)
           && (accepted <==> c.kdf(password, salt, CURRENT) == c.kdf(owner, salt, CURRENT))
  {
    StoredHashOrigin(c, first, steps);
    var s := Run(c, first, steps);
    if s.hash != s.base {
      var owner, salt :| UpgradedBy(c, s, owner, salt);
      FreshHashVerifies(c, owner, salt, password);
    }
  }

  /** When one password alone matches the base hash, it is accepted after every interleaving. */
  lemma OwnerKeepsAccess(c: Crypto, first: string, steps: seq<Step>, password: seq<byte>)
    requires Sized(c)
    requires var base := Run(c, first, steps).base;
      && VerifyPassword(c, base, password).matches
      && forall other :: VerifyPassword(c, base, other).matches ==> other == password
    ensures VerifyPassword(c, Run(c, first, steps).hash, password).matches
  {
    StoredHashOrigin(c, first, steps);
    var s := Run(c, first, steps);
    if s.hash != s.base {
      var owner, salt :| UpgradedBy(c, s, owner, salt);
      assert VerifyPassword(c, s.base, owner).matches;
      FreshHashVerifies(c, owner, salt, password);
    }
  }

  /**
   * Two passwords that match one outdated hash, as two long ones that agree on the bytes bcrypt
   * reads do: the first login locks the other password out unless the derived keys agree.
   */
  lemma SecondMatchSurvivesIff(c: Crypto, first: string, one: seq<byte>, two: seq<byte>, salt: seq<byte>)
    requires Sized(c) && |salt| == SALT_LENGTH
    requires VerifyPassword(c, first, one).needsRehash && VerifyPassword(c, first, two).matches
    ensures var s := Run(c, first, [Read(0, one), Upgrade(0, salt)]);
      VerifyPassword(c, s.hash, two).matches <==> c.kdf(two, salt, CURRENT) == c.kdf(one, salt, CURRENT)
  {
    var steps := [Read(0, one), Upgrade(0, salt)];
    assert steps[..1] == [Read(0, one)] && [Read(0, one)][..0] == [];
    var s := Run(c, first, [Read(0, one)]);
    assert s == Next(c, Run(c, first, []), Read(0, one));
    assert s.hash == first && s.attempts[0] == Attempt(first, one);
    assert Run(c, first, steps) == Next(c, s, Upgrade(0, salt));
    FreshHashVerifies(c, one, salt, two);
  }
}
