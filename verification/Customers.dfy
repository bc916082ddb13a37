// The tenant registry's PATCH: permanent fields first, then the guarded timezone, then the switches.
// Each repository call commits on its own, so a refused timezone leaves the permanent fields written.

module Customers {

  import opened Results
  import opened TimezoneGuard

  datatype Customer = Customer(
    permanent: map<string, string>,    // name, description, environment
    timezone: Option<Zone>,
    active: bool,
    notificationsEnabled: bool)

  datatype UpdateRequest = UpdateRequest(
    permanent: map<string, string>,
    timezone: Option<string>,
    active: Option<bool>,
    notificationsEnabled: Option<bool>)

  datatype UpdateError =
    | NothingToUpdate
    | UnknownCustomer
    | InvalidZone
    | ZoneConflict(reason: Reason)

  predicate AsksNothing(body: UpdateRequest) {
    body.permanent == map[] && body.timezone.None? && body.active.None? && body.notificationsEnabled.None?
  }

  function Or<T>(asked: Option<T>, current: T): T {
    if asked.Some? then asked.value else current
  }

  function Switched(c: Customer, active: Option<bool>, notificationsEnabled: Option<bool>): Customer {
    c.(active := Or(active, c.active), notificationsEnabled := Or(notificationsEnabled, c.notificationsEnabled))
  }

  class Registry {
    const world: World
    const zones: string -> Option<Zone>     // the IANA zone a request names, if any
    var customers: map<string, Customer>

    constructor (world: World, zones: string -> Option<Zone>)
      ensures this.world == world && this.zones == zones && customers == map[]
    {
      this.world := world;
      this.zones := zones;
      customers := map[];
    }

    /** Why a requested zone must not be written, if it must not. */
    function Refusal(stored: Option<Zone>, requested: string, allowMixed: bool, hasEntries: bool): Option<UpdateError>
    {
      match zones(requested)
      case None => Some(InvalidZone)
      case Some(zone) =>
        var reason := BlockingReason(world, stored, Some(zone), hasEntries);
        if reason.Some? && !allowMixed then Some(ZoneConflict(reason.value)) else None
    }

    method SetTimezoneGuarded(code: string, requested: string, allowMixed: bool, hasEntries: bool)
      returns (refused: Option<UpdateError>)
      requires code in customers
      modifies this
      ensures refused == Refusal(old(customers)[code].timezone, requested, allowMixed, hasEntries)
      ensures customers == if refused.Some? then old(customers)
                           else old(customers)[code := old(customers)[code].(timezone := zones(requested))]
      ensures refused == Some(InvalidZone) <==> zones(requested).None?
      ensures zones(requested).Some? && allowMixed ==> refused.None?
    {
      var cust := customers[code];
      var zone := zones(requested);
      if zone.None? {
        return Some(InvalidZone);
      }
      var reason := BlockingReason(world, cust.timezone, zone, hasEntries);
      if reason.Some? && !allowMixed {
        return Some(ZoneConflict(reason.value));
      }
      customers := customers[code := cust.(timezone := zone)];
      return None;
    }

    method SetSwitches(code: string, active: Option<bool>, notificationsEnabled: Option<bool>)
      requires code in customers
      modifies this
      ensures customers == old(customers)[code := Switched(old(customers)[code], active, notificationsEnabled)]
    {
      if active.Some? {
        customers := customers[code := customers[code].(active := active.value)];
      }
      if notificationsEnabled.Some? {
        customers := customers[code := customers[code].(notificationsEnabled := notificationsEnabled.value)];
      }
    }

    function AfterUpdate(was: Customer, body: UpdateRequest, refused: bool): Customer {
      var renamed := was.(permanent := was.permanent + body.permanent);
      if refused then renamed
      else if body.timezone.None? then Switched(renamed, body.active, body.notificationsEnabled)
      else Switched(renamed.(timezone := zones(body.timezone.value)), body.active, body.notificationsEnabled)
    }

    method UpdateCustomer(code: string, body: UpdateRequest, allowMixed: bool, hasEntries: bool)
      returns (refused: Option<UpdateError>)
      modifies this
      ensures refused == Some(NothingToUpdate) <==> AsksNothing(body)
      ensures refused == Some(UnknownCustomer) <==> !AsksNothing(body) && code !in old(customers)
      ensures AsksNothing(body) || code !in old(customers) ==> customers == old(customers)
      ensures !AsksNothing(body) && code in old(customers) ==>
        && refused == (if body.timezone.None? then None
                       else Refusal(old(customers)[code].timezone, body.timezone.value, allowMixed, hasEntries))
        && customers == old(customers)[code := AfterUpdate(old(customers)[code], body, refused.Some?)]
    {
      if AsksNothing(body) {
        return Some(NothingToUpdate);
      }
      if code !in customers {
        return Some(UnknownCustomer);
      }
      ghost var was := customers[code];
      if body.permanent != map[] {
        customers := customers[code := customers[code].(permanent := customers[code].permanent + body.permanent)];
      }
      assert was.permanent + map[] == was.permanent;
      assert customers == old(customers)[code := was.(permanent := was.permanent + body.permanent)];
      if body.timezone.Some? {
        refused := SetTimezoneGuarded(code, body.timezone.value, allowMixed, hasEntries);
        if refused.Some? {
          return;
        }
      }
      SetSwitches(code, body.active, body.notificationsEnabled);
      refused := None;
    }
  }

  /** What a PATCH writes, field by field: the permanent fields it names in any case, and unless the zone is refused the
      zone and each switch it gives; nothing else. */
  lemma UpdateWrites(registry: Registry, was: Customer, body: UpdateRequest, refused: bool, k: string)
    ensures var next := registry.AfterUpdate(was, body, refused);
      && (k in next.permanent <==> k in was.permanent || k in body.permanent)
      && (k in body.permanent ==> next.permanent[k] == body.permanent[k])
      && (k in was.permanent && k !in body.permanent ==> next.permanent[k] == was.permanent[k])
      && (next.timezone == if body.timezone.Some? && !refused then registry.zones(body.timezone.value) else was.timezone)
      && (next.active == if body.active.Some? && !refused then body.active.value else was.active)
      && (next.notificationsEnabled ==
            if body.notificationsEnabled.Some? && !refused then body.notificationsEnabled.value
            else was.notificationsEnabled)
  {
  }

  predicate NamesNothingNew(was: Customer, body: UpdateRequest) {
    forall k | k in body.permanent :: k in was.permanent && was.permanent[k] == body.permanent[k]
  }

  /** The route decides as the guard's own step does: the write is refused exactly when asking ends the change. */
  lemma RouteDecidesAsTheGuard(registry: Registry, s: State, id: nat, requested: string)
    requires Enabled(s, Ask(id)) && registry.zones(requested) == Some(s.changes[id].zone)
    ensures var c := s.changes[id];
      (registry.Refusal(c.stored, requested, c.allowMixed, HasEntries(s.rows, c.customer)).None? <==>
       id in Apply(registry.world, s, Ask(id)).changes)
  {
  }

  /** A PATCH whose timezone is refused leaves the tenant as it was exactly when the permanent fields it names hold
      those values already: they are committed before the guard is asked. */
  lemma RefusedPatchChangesNothingIff(registry: Registry, was: Customer, body: UpdateRequest)
    ensures registry.AfterUpdate(was, body, true) == was <==> NamesNothingNew(was, body)
  {
    var merged := was.permanent + body.permanent;
    if merged == was.permanent {
      forall k | k in body.permanent ensures k in was.permanent && was.permanent[k] == body.permanent[k] {
        assert k in merged && merged[k] == body.permanent[k];
      }
    }
    if NamesNothingNew(was, body) {
      assert merged == was.permanent;
    }
  }
}
