/**
 * The other example application's copy of the authorization cache (its
 * default export). Its slot has the same shape, so it is an
 * `AuthorizationSlot`; only the credentials handed to `authenticate` differ,
 * and those are not part of this model.
 */
module ExampleAuthenticate {

  import opened Wrappers
  import opened XblAuthorization

  /**
   * The default export, written out on its own. Its contract is the one of
   * `AuthorizationSlot.GetOrResolve`: on every slot, clock and `authenticate`
   * outcome both copies return the same value and leave the same slot.
   */
  method Authenticate(slot: AuthorizationSlot, now: int, authenticate: AuthOutcome) returns (r: Resolution)
    modifies slot
    ensures slot.held == NextSlot(old(slot.held), now, authenticate)
    ensures r == ResolutionOf(old(slot.held), now, authenticate)
    ensures slot.authenticateCalls == old(slot.authenticateCalls) + (if CanReuse(old(slot.held), now) then 0 else 1)
  {
    var current := slot.held;
    if current != None {
      var hasExpired := current.value.expiresOn != None && current.value.expiresOn.value <= now;
      if hasExpired == false {
        r := Resolved(current.value.userHash, current.value.xstsToken);
        return;
      }
    }
    slot.authenticateCalls := slot.authenticateCalls + 1;
    if authenticate == AuthenticationFailed {
      r := Failed;
      return;
    }
    slot.held := Some(authenticate.token);
    r := Resolved(slot.held.value.userHash, slot.held.value.xstsToken);
  }
}
