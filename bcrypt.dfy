/**
  The part of the bcrypt library that the account store relies on: `hashSync(password, 10)`
  and `compareSync(password, hash)`.

  A bcrypt hash is the 29-character setting `$2b$10$<22-character salt>` followed by the
  encoded digest. The digest is computed by the Eksblowfish key schedule, which is foreign
  code: here it is the parameter `kdf` (cost, salt, password) -> encoded digest. The salt
  that `hashSync` draws at random is a parameter too. Everything else -- how the setting is
  written, how `compareSync` reads it back out of a stored hash, re-hashes the candidate and
  compares -- is modelled, so "a hash verifies against the password it was made from" is a
  lemma here, for every key-derivation function.
 */
module Bcrypt {
  import opened Wrappers

  /** The key schedule: (cost, salt, password) -> encoded digest. */
  type Kdf = (nat, string, string) -> string

  /** The work factor the account store passes to `hashSync`. */
  const Rounds: nat := 10

  /** Number of characters of the encoded salt. */
  const SaltLength: nat := 22

  /** Number of characters before the digest: `$2b$10$` and the salt. */
  const SettingLength: nat := 29

  /** bcrypt's radix-64 alphabet: `./A-Za-z0-9`. */
  predicate IsRadix64(c: char) {
    c == '.' || c == '/' || ('A' <= c <= 'Z') || ('a' <= c <= 'z') || ('0' <= c <= '9')
  }

  predicate IsSalt(s: string) {
    |s| == SaltLength && forall i :: 0 <= i < |s| ==> IsRadix64(s[i])
  }

  /** An encoded salt as `genSalt` produces it. */
  type Salt = s: string | IsSalt(s) witness "......................"

  /** The revision letters a hash may carry after `$2`. */
  predicate IsMinor(c: char) {
    c == 'a' || c == 'b'
  }

  /** The work factors bcrypt accepts. */
  predicate IsCost(cost: nat) {
    4 <= cost <= 31
  }

  predicate IsDigit(c: char) {
    '0' <= c <= '9'
  }

  function DigitValue(c: char): (d: nat)
    requires IsDigit(c)
    ensures d < 10
  {
    c as int - '0' as int
  }

  /** The two-digit decimal text of a cost; `Rounds` is written `10`. */
  function CostText(cost: nat): (s: string)
    requires cost < 100
    ensures |s| == 2 && IsDigit(s[0]) && IsDigit(s[1])
    ensures 10 * DigitValue(s[0]) + DigitValue(s[1]) == cost
  {
    [('0' as int + cost / 10) as char, ('0' as int + cost % 10) as char]
  }

  /** What a hash says about how it was made: revision, work factor and salt. */
  datatype Setting = Setting(minor: char, cost: nat, salt: Salt) {

    predicate Valid() {
      IsMinor(minor) && IsCost(cost)
    }

    /** The 29-character prefix `$2<minor>$<cost>$<salt>` of every hash made with this setting. */
    function Text(): (s: string)
      requires Valid()
      ensures |s| == SettingLength
    {
      "$2" + [minor] + "$" + CostText(cost) + "$" + salt
    }
  }

  /** Reads the setting out of a stored hash; None for anything that is not a bcrypt hash. */
  function ParseSetting(h: string): (r: Option<Setting>)
    ensures r.Some? ==> r.value.Valid() && |h| >= SettingLength
  {
    if |h| >= SettingLength && h[0] == '$' && h[1] == '2' && IsMinor(h[2]) && h[3] == '$'
       && IsDigit(h[4]) && IsDigit(h[5]) && h[6] == '$' && IsSalt(h[7..SettingLength])
       && IsCost(10 * DigitValue(h[4]) + DigitValue(h[5]))
    then Some(Setting(h[2], 10 * DigitValue(h[4]) + DigitValue(h[5]), h[7..SettingLength]))
    else None
  }

  /** Hashes `password` under an explicit setting: the setting's text, then the digest. */
  function HashWith(kdf: Kdf, password: string, st: Setting): string
    requires st.Valid()
  {
    st.Text() + kdf(st.cost, st.salt, password)
  }

  /** `bcrypt.hashSync(password, 10)` with the salt it would draw. */
  function HashSync(kdf: Kdf, password: string, salt: Salt): (h: string)
    ensures ParseSetting(h) == Some(Setting('b', Rounds, salt))
    ensures h[SettingLength..] == kdf(Rounds, salt, password)
  {
    HashWith(kdf, password, Setting('b', Rounds, salt))
  }

  /**
    `bcrypt.compareSync(password, h)`: a stored value that is not a bcrypt hash matches
    nothing; otherwise the candidate is hashed under the stored setting and the two
    strings are compared.
   */
  predicate CompareSync(kdf: Kdf, password: string, h: string) {
    match ParseSetting(h)
    case None => false
    case Some(st) => HashWith(kdf, password, st) == h
  }

  /** Writing a setting and reading it back gives the same setting, whatever digest follows. */
  lemma ParseText(st: Setting, digest: string)
    requires st.Valid()
    ensures ParseSetting(st.Text() + digest) == Some(st)
  {
  }

  /** A parsed hash begins with the text of its own setting. */
  lemma TextOfParsed(h: string)
    requires ParseSetting(h).Some?
    ensures h[..SettingLength] == ParseSetting(h).value.Text()
  {
  }

  /**
    For a well-formed stored hash, `compareSync` succeeds exactly when the candidate's
    digest under the stored setting equals the stored digest.
   */
  lemma CompareSyncDigest(kdf: Kdf, password: string, h: string)
    requires ParseSetting(h).Some?
    ensures CompareSync(kdf, password, h) <==>
      kdf(ParseSetting(h).value.cost, ParseSetting(h).value.salt, password) == h[SettingLength..]
  {
  }

  /** The property the login path depends on: a hash verifies against the password it was made from. */
  lemma HashSyncVerifies(kdf: Kdf, password: string, salt: Salt)
    ensures CompareSync(kdf, password, HashSync(kdf, password, salt))
  {
  }

  /**
    A different password is rejected whenever the key schedule gives it a different digest
    under the same salt (bcrypt's collision resistance, which this model cannot prove of
    Eksblowfish and therefore takes as the hypothesis).
   */
  lemma HashSyncRejects(kdf: Kdf, password: string, other: string, salt: Salt)
    requires kdf(Rounds, salt, other) != kdf(Rounds, salt, password)
    ensures !CompareSync(kdf, other, HashSync(kdf, password, salt))
  {
  }

  /**
    What `hashSync` returns is never the plaintext, unless the plaintext is itself shaped
    like a bcrypt hash with the same setting.
   */
  lemma HashSyncNotPlaintext(kdf: Kdf, password: string, salt: Salt)
    requires ParseSetting(password) != Some(Setting('b', Rounds, salt))
    ensures HashSync(kdf, password, salt) != password
  {
  }
}
