/**
 * The player example's single-slot authorization cache: the module-level
 * `XBLAuthorization` is empty or holds the last token; a held token is reused
 * until it expires, otherwise `authenticate` is awaited and its result
 * replaces the slot.
 *
 * The clock (`now`) and what `authenticate` would produce are inputs.
 */
module XblAuthorization {

  import opened Wrappers

  /** A token as `authenticate` returns it; `expiresOn` is `None` for `null`. */
  datatype Token = Token(userHash: string, xstsToken: string, expiresOn: Option<int>)

  /** What awaiting `authenticate` gives, had it been called. */
  datatype AuthOutcome = Authenticated(token: Token) | AuthenticationFailed

  /** The returned `{ userHash, XSTSToken }`, or the rejection. */
  datatype Resolution = Resolved(userHash: string, xstsToken: string) | Failed

  /** `expiresOn !== null && new Date(expiresOn) <= new Date()`: the expiry instant itself counts as expired. */
  predicate HasExpired(t: Token, now: int) {
    t.expiresOn.Some? && t.expiresOn.value <= now
  }

  predicate CanReuse(slot: Option<Token>, now: int) {
    slot.Some? && !HasExpired(slot.value, now)
  }

  /** The slot after one call. A failed `authenticate` rejects before the assignment, leaving the slot. */
  function NextSlot(slot: Option<Token>, now: int, authenticate: AuthOutcome): Option<Token> {
    if CanReuse(slot, now) then slot
    else match authenticate
      case Authenticated(t) => Some(t)
      case AuthenticationFailed => slot
  }

  function CredentialsOf(t: Token): Resolution {
    Resolved(t.userHash, t.xstsToken)
  }

  /** What one call returns. */
  function ResolutionOf(slot: Option<Token>, now: int, authenticate: AuthOutcome): Resolution {
    if CanReuse(slot, now) then CredentialsOf(slot.value)
    else match authenticate
      case Authenticated(t) => CredentialsOf(t)
      case AuthenticationFailed => Failed
  }

  /** A reusable token is returned whatever `authenticate` would have done, and the slot stays as it was. */
  lemma ReuseIgnoresAuthenticator(slot: Option<Token>, now: int, a1: AuthOutcome, a2: AuthOutcome)
    requires CanReuse(slot, now)
    ensures NextSlot(slot, now, a1) == slot
    ensures ResolutionOf(slot, now, a1) == ResolutionOf(slot, now, a2) == CredentialsOf(slot.value)
  {
  }

  /** A token without expiry never expires; one with expiry is expired from that instant on. */
  lemma ExpiryBoundary(t: Token, now: int, later: int)
    ensures t.expiresOn.None? ==> !HasExpired(t, now)
    ensures t.expiresOn.Some? ==> HasExpired(t, t.expiresOn.value) && !HasExpired(t, t.expiresOn.value - 1)
    ensures HasExpired(t, now) && now <= later ==> HasExpired(t, later)
  {
  }

  /** From an empty or expired slot, a successful `authenticate` replaces the slot with exactly its result. */
  lemma RefreshReplacesSlot(slot: Option<Token>, now: int, t: Token)
    requires !CanReuse(slot, now)
    ensures NextSlot(slot, now, Authenticated(t)) == Some(t)
    ensures ResolutionOf(slot, now, Authenticated(t)) == CredentialsOf(t)
  {
  }

  /** A failed `authenticate` leaves the slot as it was and the call fails. */
  lemma FailedRefreshKeepsSlot(slot: Option<Token>, now: int)
    requires !CanReuse(slot, now)
    ensures NextSlot(slot, now, AuthenticationFailed) == slot
    ensures ResolutionOf(slot, now, AuthenticationFailed) == Failed
  {
  }

  /** Whatever is returned is the `userHash` and `XSTSToken` of the slot after the call. */
  lemma ReturnsSlotAfterCall(slot: Option<Token>, now: int, authenticate: AuthOutcome)
    ensures ResolutionOf(slot, now, authenticate).Resolved? <==> NextSlot(slot, now, authenticate).Some? && (CanReuse(slot, now) || authenticate.Authenticated?)
    ensures ResolutionOf(slot, now, authenticate).Resolved? ==>
      ResolutionOf(slot, now, authenticate) == CredentialsOf(NextSlot(slot, now, authenticate).value)
  {
  }

  /**
   * After a refresh, later calls reuse the new token without authenticating
   * until it expires. For example, on a slot that starts as `null`, a call at
   * `now` that authenticates with `t` and a second call at `later`, before `t`
   * expires, return the same credentials, and the second call does not
   * authenticate again.
   */
  lemma RefreshedTokenIsReused(slot: Option<Token>, now: int, t: Token, later: int, next: AuthOutcome)
    requires !CanReuse(slot, now) && !HasExpired(t, later)
    ensures NextSlot(NextSlot(slot, now, Authenticated(t)), later, next) == Some(t)
    ensures ResolutionOf(NextSlot(slot, now, Authenticated(t)), later, next) == CredentialsOf(t)
  {
  }

  /** The module-level slot. */
  class AuthorizationSlot {
    var held: Option<Token>
    /** How many times `authenticate` has been called; bookkeeping for the proofs only. */
    ghost var authenticateCalls: nat

    constructor ()
      ensures held == None && authenticateCalls == 0
    {
      held := None;
      authenticateCalls := 0;
    }

    /** `getOrResolveXBLAuthorization`. */
    method GetOrResolve(now: int, authenticate: AuthOutcome) returns (r: Resolution)
      modifies this
      ensures held == NextSlot(old(held), now, authenticate)
      ensures r == ResolutionOf(old(held), now, authenticate)
      ensures authenticateCalls == old(authenticateCalls) + (if CanReuse(old(held), now) then 0 else 1)
    {
      if held.Some? {
        var hasExpired := held.value.expiresOn.Some? && held.value.expiresOn.value <= now;
        if !hasExpired {
          return Resolved(held.value.userHash, held.value.xstsToken);
        }
      }
      authenticateCalls := authenticateCalls + 1;
      match authenticate {
        case AuthenticationFailed =>
          return Failed;
        case Authenticated(t) =>
          held := Some(t);
      }
      r := Resolved(held.value.userHash, held.value.xstsToken);
    }
  }
}
