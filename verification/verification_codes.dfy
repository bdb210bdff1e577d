/**
 * The e-mail verification codes of the sign-up flow. A six-digit code is drawn
 * at random and kept in browser storage under "verification_" + e-mail, with
 * an expiry 15 minutes after it was stored. Checking a code consumes it on a
 * match, deletes it once it has expired, and leaves it in place on a mismatch.
 *
 * The clock (`Date.now()`, in milliseconds) and the random draw are
 * parameters. `Store` and `Verify` are the storage transitions as functions;
 * the `EmailService` methods perform them in place.
 */
module VerificationCodes {
  import opened Decimal

  /** 15 * 60 * 1000 milliseconds. */
  const CodeLifetime: int := 900000

  const KeyPrefix: string := "verification_"

  /** The stored `{ code, expiry }` object. */
  datatype Entry = Entry(code: string, expiry: int)

  /** The storage key of an e-mail address. */
  function StorageKey(email: string): (key: string)
    ensures |key| == |KeyPrefix| + |email| && key[..|KeyPrefix|] == KeyPrefix && key[|KeyPrefix|..] == email
  {
    KeyPrefix + email
  }

  /** Different addresses never share a storage entry. */
  lemma StorageKeyInjective(a: string, b: string)
    requires StorageKey(a) == StorageKey(b)
    ensures a == b
  {
    assert a == StorageKey(a)[|KeyPrefix|..];
  }

  /**
   * `Math.floor(100000 + Math.random() * 900000).toString()`, where `draw` is
   * `Math.floor(Math.random() * 900000)`: always six digits without a leading
   * zero, between 100000 and 999999.
   */
  function GenerateVerificationCode(draw: nat): (code: string)
    requires draw < 900000
    ensures |code| == 6 && AllDigits(code) && code[0] != '0'
    ensures 100000 <= DigitsValue(code) <= 999999
    ensures DigitsValue(code) == 100000 + draw
  {
    var n := 100000 + draw;
    NatToStringLength(n, 5);
    NatToStringRoundTrip(n);
    NatToString(n)
  }

  /** `storeVerificationCode` as a function of the storage and the clock. */
  function Store(storage: map<string, Entry>, email: string, code: string, now: int): (s: map<string, Entry>)
    ensures StorageKey(email) in s && s[StorageKey(email)] == Entry(code, now + CodeLifetime)
    ensures s.Keys == storage.Keys + {StorageKey(email)}
    ensures forall k :: k in storage && k != StorageKey(email) ==> s[k] == storage[k]
  {
    storage[StorageKey(email) := Entry(code, now + CodeLifetime)]
  }

  /**
   * `verifyCode` as a function of the storage and the clock: whether the code
   * is accepted and the storage afterwards.
   */
  function Verify(storage: map<string, Entry>, email: string, input: string, now: int): (r: (bool, map<string, Entry>))
    ensures StorageKey(email) !in storage ==> r == (false, storage)
    ensures StorageKey(email) in storage && now > storage[StorageKey(email)].expiry ==>
              r == (false, storage - {StorageKey(email)})
    ensures StorageKey(email) in storage && now <= storage[StorageKey(email)].expiry ==>
              (if storage[StorageKey(email)].code == input
               then r == (true, storage - {StorageKey(email)})
               else r == (false, storage))
  {
    var key := StorageKey(email);
    if key !in storage then (false, storage)
    else if now > storage[key].expiry then (false, storage - {key})
    else if storage[key].code == input then (true, storage - {key})
    else (false, storage)
  }

  /** A code is accepted exactly when it is stored for that address, unexpired, and equal. */
  lemma VerifyAcceptsExactly(storage: map<string, Entry>, email: string, input: string, now: int)
    ensures Verify(storage, email, input, now).0 <==>
              && StorageKey(email) in storage
              && now <= storage[StorageKey(email)].expiry
              && storage[StorageKey(email)].code == input
  {
  }

  /** Checking a code never touches the entry of another address. */
  lemma VerifyLeavesOthers(storage: map<string, Entry>, email: string, input: string, now: int, other: string)
    requires other != email
    ensures var after := Verify(storage, email, input, now).1;
      (StorageKey(other) in after <==> StorageKey(other) in storage)
      && (StorageKey(other) in storage ==> after[StorageKey(other)] == storage[StorageKey(other)])
  {
    if StorageKey(other) == StorageKey(email) {
      StorageKeyInjective(other, email);
    }
  }

  /** A code that was accepted cannot be used again: the same check then fails. */
  lemma SingleUse(storage: map<string, Entry>, email: string, input: string, now: int, later: int)
    requires Verify(storage, email, input, now).0
    ensures !Verify(Verify(storage, email, input, now).1, email, input, later).0
  {
  }

  /** A fresh code is accepted up to and including the moment it expires, and refused after. */
  lemma FreshCodeLifetime(storage: map<string, Entry>, email: string, code: string, stored: int, now: int)
    ensures Verify(Store(storage, email, code, stored), email, code, now).0 <==> now <= stored + CodeLifetime
  {
  }

  /** A wrong guess leaves the entry, so the right code still succeeds afterwards. */
  lemma RetryAfterMismatch(storage: map<string, Entry>, email: string, wrong: string, right: string, now: int, later: int)
    requires StorageKey(email) in storage && storage[StorageKey(email)].code == right
    requires wrong != right && now <= later <= storage[StorageKey(email)].expiry
    ensures Verify(storage, email, wrong, now) == (false, storage)
    ensures Verify(Verify(storage, email, wrong, now).1, email, right, later).0
  {
  }

  /** Storing a new code for an address replaces the old one: the old code is refused. */
  lemma NewCodeReplacesOld(storage: map<string, Entry>, email: string, oldCode: string, newCode: string, t1: int, t2: int, now: int)
    requires oldCode != newCode
    ensures !Verify(Store(Store(storage, email, oldCode, t1), email, newCode, t2), email, oldCode, now).0
  {
  }

  /** The module-level `EmailService` instance and the browser storage it writes to. */
  class EmailService {
    var storage: map<string, Entry>

    constructor (storage: map<string, Entry>)
      ensures this.storage == storage
    {
      this.storage := storage;
    }

    /** `storeVerificationCode(email, code)` at time `now`. */
    method StoreVerificationCode(email: string, code: string, now: int)
      modifies this
      ensures storage == Store(old(storage), email, code, now)
    {
      storage := storage[StorageKey(email) := Entry(code, now + CodeLifetime)];
    }

    /** `verifyCode(email, inputCode)` at time `now`. */
    method VerifyCode(email: string, input: string, now: int) returns (ok: bool)
      modifies this
      ensures (ok, storage) == Verify(old(storage), email, input, now)
    {
      var key := StorageKey(email);
      if key !in storage {
        return false;
      }
      var entry := storage[key];
      if now > entry.expiry {
        storage := storage - {key};
        return false;
      }
      if entry.code == input {
        storage := storage - {key};
        return true;
      }
      return false;
    }

    /**
     * `sendVerificationEmail`: the code is only stored (and shown to the user).
     * `writable` says whether browser storage accepts the write; when it throws
     * instead, the error is caught, nothing is stored and the call reports failure.
     */
    method SendVerificationEmail(email: string, name: string, code: string, now: int, writable: bool)
      returns (success: bool)
      modifies this
      ensures success <==> writable
      ensures writable ==> storage == Store(old(storage), email, code, now)
      ensures writable ==> StorageKey(email) in storage && storage[StorageKey(email)].code == code
      ensures !writable ==> storage == old(storage)
    {
      if !writable {
        return false;
      }
      StoreVerificationCode(email, code, now);
      success := true;
    }
  }
}
