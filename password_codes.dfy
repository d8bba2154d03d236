/**
 * The password-reset code service's in-memory store: sending puts a fresh
 * six-digit code under the e-mail address, verifying checks it and removes
 * it. The random draw, the clock and the mail server's answer are inputs.
 *
 * The store is a plain JavaScript object (`{}`), so a lookup by address
 * also finds what the object inherits: the members of `Object.prototype`,
 * and, once `"__proto__"` has been assigned an entry, that entry's fields.
 */
module PasswordCodes {
  import opened Wrappers
  import opened JsObjects

  datatype CodeEntry = CodeEntry(code: string, timestamp: int)

  /**
   * `codeStore`: its own properties, and its prototype, which is
   * `Object.prototype` (`None`) until an entry is assigned to `"__proto__"`.
   */
  datatype Store = Store(own: map<string, CodeEntry>, proto: Option<CodeEntry>)

  const EmptyStore := Store(map[], None)

  datatype Body = Success | Failure(error: string)
  datatype Reply = Reply(status: nat, body: Body)

  const EmailRequired := "Email is required"
  const SendFailed := "Failed to send email"
  const InvalidCode := "Invalid code"

  /** The property name a request's `email` becomes: a missing one reads as `"undefined"`. */
  function Key(email: Option<string>): string
  {
    if email.Some? then email.value else "undefined"
  }

  /** `Math.floor(100000 + random * 900000)` for a draw in [0, 1). */
  function CodeNumber(random: real): (n: int)
    requires 0.0 <= random < 1.0
    ensures 100000 <= n <= 999999
  {
    (100000.0 + random * 900000.0).Floor
  }

  function DigitChar(d: nat): (c: char)
    requires d < 10
    ensures '0' <= c <= '9'
  {
    (48 + d) as char
  }

  /** `n.toString()` for a non-negative integer. */
  function DecimalText(n: nat): (s: string)
    ensures |s| >= 1 && forall i :: 0 <= i < |s| ==> '0' <= s[i] <= '9'
    decreases n
  {
    if n < 10 then [DigitChar(n)] else DecimalText(n / 10) + [DigitChar(n % 10)]
  }

  lemma {:induction false} DecimalTextLength(n: nat, k: nat)
    requires Power10(k) <= n < 10 * Power10(k)
    ensures |DecimalText(n)| == k + 1
    decreases k
  {
    if k > 0 {
      DecimalTextLength(n / 10, k - 1);
    }
  }

  function Power10(k: nat): (p: nat)
    ensures p >= 1
  {
    if k == 0 then 1 else 10 * Power10(k - 1)
  }

  /** Every code sent is six digits long. */
  lemma CodeIsSixDigits(random: real)
    requires 0.0 <= random < 1.0
    ensures |DecimalText(CodeNumber(random))| == 6
  {
    assert Power10(5) == 100000;
    DecimalTextLength(CodeNumber(random), 5);
  }

  /**
   * What `codeStore[key]` yields: nothing, a stored entry, or some other
   * value (a function, an object, a string or a number), whose `.code` is
   * `undefined` and whose truthiness is `truthy`.
   */
  datatype Found = Absent | Entry(entry: CodeEntry) | OtherValue(truthy: bool)

  /** The property lookup `codeStore[key]`, own properties first, then along the prototype chain. */
  function Lookup(store: Store, key: string): (f: Found)
    ensures f.Entry? <==> (key == ProtoKey && store.proto.Some?) || (key != ProtoKey && key in store.own)
    ensures f.Absent? ==> key !in ObjectPrototypeMembers
  {
    if key == ProtoKey then
      (if store.proto.Some? then Entry(store.proto.value) else OtherValue(true))
    else if key in store.own then Entry(store.own[key])
    else if store.proto.Some? && key == "code" then OtherValue(store.proto.value.code != "")
    else if store.proto.Some? && key == "timestamp" then OtherValue(store.proto.value.timestamp != 0)
    else if key in ObjectPrototypeMembers then OtherValue(true)
    else Absent
  }

  predicate Truthy(f: Found)
  {
    match f
    case Absent => false
    case Entry(_) => true
    case OtherValue(t) => t
  }

  /** `found.code`: the stored code of an entry, `undefined` (`None`) for anything else. */
  function CodeOf(f: Found): Option<string>
  {
    if f.Entry? then Some(f.entry.code) else None
  }

  /** `codeStore[key] = entry`: for `"__proto__"` the prototype is replaced, otherwise an own property is set. */
  function Assign(store: Store, key: string, entry: CodeEntry): (r: Store)
    ensures Lookup(r, key) == Entry(entry)
    ensures key != ProtoKey ==> forall k :: k != key ==> Lookup(r, k) == Lookup(store, k)
    ensures key == ProtoKey ==> r.own == store.own
  {
    if key == ProtoKey then Store(store.own, Some(entry)) else Store(store.own[key := entry], store.proto)
  }

  /** `delete codeStore[key]`: removes an own property; an inherited one, or `"__proto__"`, stays. */
  function Delete(store: Store, key: string): (r: Store)
    ensures key != ProtoKey ==> key !in r.own
    ensures forall k :: k != key ==> Lookup(r, k) == Lookup(store, k)
    ensures key == ProtoKey || key !in store.own ==> r == store
  {
    if key == ProtoKey then store else Store(store.own - {key}, store.proto)
  }

  /**
   * The send handler: without an e-mail address a 400 and no change;
   * otherwise the new code replaces any earlier one for that address, and
   * is kept even when the mail cannot be sent.
   */
  function SendStep(store: Store, email: Option<string>, random: real, now: int, mailSent: bool): (r: (Reply, Store))
    requires 0.0 <= random < 1.0
    ensures email.None? || email.value == "" ==> r == (Reply(400, Failure(EmailRequired)), store)
    ensures email.Some? && email.value != "" ==>
      && r.1 == Assign(store, email.value, CodeEntry(DecimalText(CodeNumber(random)), now))
      && r.0 == (if mailSent then Reply(200, Success) else Reply(500, Failure(SendFailed)))
  {
    if email.None? || email.value == "" then (Reply(400, Failure(EmailRequired)), store)
    else
      var stored := Assign(store, email.value, CodeEntry(DecimalText(CodeNumber(random)), now));
      (if mailSent then Reply(200, Success) else Reply(500, Failure(SendFailed)), stored)
  }

  /** Whether the verify handler accepts: the value found is truthy and its `.code` is `===` the submitted code. */
  predicate Accepts(store: Store, email: Option<string>, code: Option<string>)
  {
    var found := Lookup(store, Key(email));
    Truthy(found) && CodeOf(found) == code
  }

  /** The verify handler: an accepted code succeeds and its property is deleted; anything else is a 400 and changes nothing. */
  function VerifyStep(store: Store, email: Option<string>, code: Option<string>): (r: (Reply, Store))
    ensures r.0.status == 200 <==> Accepts(store, email, code)
    ensures Accepts(store, email, code) ==> r == (Reply(200, Success), Delete(store, Key(email)))
    ensures !Accepts(store, email, code) ==> r == (Reply(400, Failure(InvalidCode)), store)
  {
    var found := Lookup(store, Key(email));
    if !Truthy(found) || CodeOf(found) != code then (Reply(400, Failure(InvalidCode)), store)
    else (Reply(200, Success), Delete(store, Key(email)))
  }

  /** For an address with a code of its own, exactly that code is accepted. */
  lemma OwnCodeAccepted(store: Store, email: Option<string>, code: Option<string>)
    requires Key(email) != ProtoKey && Key(email) in store.own
    ensures Accepts(store, email, code) <==> code == Some(store.own[Key(email)].code)
  {
  }

  /** An address with no code, and no name inherited by the store, is always refused. */
  lemma UnknownAddressRefused(store: Store, email: Option<string>, code: Option<string>)
    requires Key(email) !in store.own && Key(email) !in ObjectPrototypeMembers
    requires store.proto.None? || (Key(email) != "code" && Key(email) != "timestamp")
    ensures !Accepts(store, email, code)
  {
  }

  /**
   * An address that names an inherited member of `Object.prototype` is
   * accepted exactly when no code is submitted, since the member's `.code`
   * is `undefined` too.
   */
  lemma InheritedNameAccepted(store: Store, email: Option<string>, code: Option<string>)
    requires Key(email) in ObjectPrototypeMembers && Key(email) != ProtoKey && Key(email) !in store.own
    requires store.proto.None? || (Key(email) != "code" && Key(email) != "timestamp")
    ensures Accepts(store, email, code) <==> code.None?
    ensures Accepts(store, email, code) ==> VerifyStep(store, email, code).1 == store
  {
  }

  /** On a fresh store, `{ "email": "toString" }` with no code is accepted, and again on every later try. */
  lemma ToStringAccepted()
    ensures VerifyStep(EmptyStore, Some("toString"), None) == (Reply(200, Success), EmptyStore)
  {
    InheritedNameAccepted(EmptyStore, Some("toString"), None);
  }

  /** After a code is sent to `"__proto__"` it keeps verifying, because the delete cannot remove it. */
  lemma ProtoCodeReusable(store: Store, random: real, now: int, mailSent: bool)
    requires 0.0 <= random < 1.0
    ensures var after := SendStep(store, Some(ProtoKey), random, now, mailSent).1;
      var code := Some(DecimalText(CodeNumber(random)));
      && VerifyStep(after, Some(ProtoKey), code) == (Reply(200, Success), after)
      && VerifyStep(VerifyStep(after, Some(ProtoKey), code).1, Some(ProtoKey), code).0 == Reply(200, Success)
  {
  }

  /** Sending makes the code just sent verify; for any address but `"__proto__"` nothing else is looked up differently. */
  lemma SendThenVerify(store: Store, email: string, random: real, now: int, mailSent: bool)
    requires 0.0 <= random < 1.0 && email != ""
    ensures var after := SendStep(store, Some(email), random, now, mailSent).1;
      && (email != ProtoKey ==> forall other :: other != email ==> Lookup(after, other) == Lookup(store, other))
      && VerifyStep(after, Some(email), Some(DecimalText(CodeNumber(random)))).0 == Reply(200, Success)
  {
  }

  /**
   * A success is repeatable exactly when it was not a code stored as an own
   * property: when no code was submitted (an inherited member), or the
   * address was `"__proto__"`. Otherwise the same request right after it fails.
   */
  lemma OneTimeUse(store: Store, email: Option<string>, code: Option<string>)
    requires VerifyStep(store, email, code).0.status == 200
    ensures VerifyStep(VerifyStep(store, email, code).1, email, code).0 == Reply(400, Failure(InvalidCode))
      <==> code.Some? && Key(email) != ProtoKey
  {
    var key := Key(email);
    var after := VerifyStep(store, email, code).1;
    if code.Some? && key != ProtoKey {
      assert key in store.own;
      assert !Lookup(after, key).Entry?;
    } else {
      assert key == ProtoKey || key !in store.own;
      assert after == store;
    }
  }

  /** A new code makes the earlier one for that address stop working, unless the two happen to be equal. */
  lemma SendReplacesOldCode(store: Store, email: string, earlier: string, random: real, now: int, mailSent: bool)
    requires 0.0 <= random < 1.0 && email != ""
    requires earlier != DecimalText(CodeNumber(random))
    ensures !Accepts(SendStep(store, Some(email), random, now, mailSent).1, Some(email), Some(earlier))
  {
  }

  /**
   * No expiry: verifying looks only at the codes, never at when they were
   * stored; only a timestamp reached through `"timestamp"` is looked at,
   * for its truthiness.
   */
  lemma NoExpiry(a: Store, b: Store, email: Option<string>, code: Option<string>)
    requires a.own.Keys == b.own.Keys && forall k :: k in a.own ==> a.own[k].code == b.own[k].code
    requires a.proto.Some? <==> b.proto.Some?
    requires a.proto.Some? ==> a.proto.value.code == b.proto.value.code
    requires a.proto.Some? ==> (a.proto.value.timestamp == 0 <==> b.proto.value.timestamp == 0)
    ensures VerifyStep(a, email, code).0 == VerifyStep(b, email, code).0
  {
  }

  // ---------------------------------------------------------------------
  // The store as evidently intended: a map looked up by own keys only

  type CodeMap = map<string, CodeEntry>

  /** Sending with a map: the code is stored under the address, whatever the address is. */
  function MapSendStep(store: CodeMap, email: Option<string>, random: real, now: int, mailSent: bool): (r: (Reply, CodeMap))
    requires 0.0 <= random < 1.0
    ensures email.None? || email.value == "" ==> r == (Reply(400, Failure(EmailRequired)), store)
    ensures email.Some? && email.value != "" ==>
      && r.1 == store[email.value := CodeEntry(DecimalText(CodeNumber(random)), now)]
      && r.0 == (if mailSent then Reply(200, Success) else Reply(500, Failure(SendFailed)))
  {
    if email.None? || email.value == "" then (Reply(400, Failure(EmailRequired)), store)
    else
      var stored := store[email.value := CodeEntry(DecimalText(CodeNumber(random)), now)];
      (if mailSent then Reply(200, Success) else Reply(500, Failure(SendFailed)), stored)
  }

  /** Whether a submitted code is the one stored under the address; a missing code never is. */
  predicate Matches(store: CodeMap, email: Option<string>, code: Option<string>)
  {
    Key(email) in store && code.Some? && store[Key(email)].code == code.value
  }

  /** Verifying with a map: only the code stored under the address succeeds, and it is removed. */
  function MapVerifyStep(store: CodeMap, email: Option<string>, code: Option<string>): (r: (Reply, CodeMap))
    ensures r.0.status == 200 <==> Matches(store, email, code)
    ensures Matches(store, email, code) ==> r == (Reply(200, Success), store - {Key(email)})
    ensures !Matches(store, email, code) ==> r == (Reply(400, Failure(InvalidCode)), store)
  {
    if Key(email) !in store || code.None? || store[Key(email)].code != code.value then (Reply(400, Failure(InvalidCode)), store)
    else (Reply(200, Success), store - {Key(email)})
  }

  /** With a map every code works once: the same request right after a success fails, for every address. */
  lemma MapOneTimeUse(store: CodeMap, email: Option<string>, code: Option<string>)
    requires MapVerifyStep(store, email, code).0.status == 200
    ensures MapVerifyStep(MapVerifyStep(store, email, code).1, email, code).0 == Reply(400, Failure(InvalidCode))
  {
  }

  /** With a map the code just sent verifies for every address, `"toString"` and `"__proto__"` included. */
  lemma MapSendThenVerify(store: CodeMap, email: string, random: real, now: int, mailSent: bool)
    requires 0.0 <= random < 1.0 && email != ""
    ensures var after := MapSendStep(store, Some(email), random, now, mailSent).1;
      && (forall other :: other != email ==> (other in after <==> other in store) && (other in store ==> after[other] == store[other]))
      && MapVerifyStep(after, Some(email), Some(DecimalText(CodeNumber(random)))).0 == Reply(200, Success)
  {
  }

  /**
   * The two agree on ordinary addresses: while nothing was sent to
   * `"__proto__"`, an address that no object inherits is verified the same way.
   */
  lemma MapAgreesOnOrdinaryAddresses(m: CodeMap, email: Option<string>, code: Option<string>)
    requires Key(email) !in ObjectPrototypeMembers
    ensures var r := VerifyStep(Store(m, None), email, code);
      var q := MapVerifyStep(m, email, code);
      r.0 == q.0 && r.1 == Store(q.1, None)
  {
  }

  /** The module-level `codeStore` object and the two request handlers. */
  class CodeService {
    var store: Store

    constructor ()
      ensures store == EmptyStore
    {
      store := EmptyStore;
    }

    method SendCode(email: Option<string>, random: real, now: int, mailSent: bool) returns (reply: Reply)
      requires 0.0 <= random < 1.0
      modifies this
      ensures (reply, store) == SendStep(old(store), email, random, now, mailSent)
    {
      if email.None? || email.value == "" {
        return Reply(400, Failure(EmailRequired));
      }
      var entry := CodeEntry(DecimalText(CodeNumber(random)), now);
      if email.value == ProtoKey {
        store := Store(store.own, Some(entry));
      } else {
        store := Store(store.own[email.value := entry], store.proto);
      }
      if mailSent {
        reply := Reply(200, Success);
      } else {
        reply := Reply(500, Failure(SendFailed));
      }
    }

    method VerifyCode(email: Option<string>, code: Option<string>) returns (reply: Reply)
      modifies this
      ensures (reply, store) == VerifyStep(old(store), email, code)
    {
      var key := Key(email);
      var found := Lookup(store, key);
      if !Truthy(found) || CodeOf(found) != code {
        return Reply(400, Failure(InvalidCode));
      }
      if key != ProtoKey {
        store := Store(store.own - {key}, store.proto);
      }
      reply := Reply(200, Success);
    }
  }
}
