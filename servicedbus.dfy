/** The systemd service entity backed by D-Bus (system/service_dbus.go). */
module DbusService {
  import opened Base
  import opened GoStrings

  /** The borrowed connection to the service manager.  The entity only
      remembers which one it was given. */
  datatype Conn = Conn(id: nat)

  /** GetUnitProperty(unit, property) on the connection at the time of the
      call: the property value rendered as text, or the IPC error. */
  type PropertyQuery = (string, string) -> Result<string>

  /** ServiceDbus.  No method writes a field after construction. */
  datatype ServiceDbus = ServiceDbus(service: string, enabled: bool, running: bool, dbus: Conn)

  /** NewServiceDbus: the name and the connection, nothing cached. */
  function NewServiceDbus(service: string, dbus: Conn): (s: ServiceDbus)
    ensures Service(s) == service && s.dbus == dbus
    ensures !s.enabled && !s.running
  {
    ServiceDbus(service, false, false, dbus)
  }

  function Service(s: ServiceDbus): (name: string)
    ensures name == s.service
  {
    s.service
  }

  /** The unit's name: the service name followed by `.service`. */
  function UnitName(s: ServiceDbus): (u: string)
    ensures HasPrefix(u, s.service) && u[|s.service|..] == ".service"
  {
    s.service + ".service"
  }

  /** True exactly when the property could be read and, with every leading
      and trailing '"' stripped, equals `expected`; an IPC error comes back
      with false. */
  function StateIs(s: ServiceDbus, getUnitProperty: PropertyQuery, property: string,
                   expected: string): (r: Reply<bool>)
    ensures getUnitProperty(UnitName(s), property).Err? ==>
              r == Reply(false, Some(getUnitProperty(UnitName(s), property).error))
    ensures getUnitProperty(UnitName(s), property).Ok? ==> r.err == None
    ensures getUnitProperty(UnitName(s), property).Ok? && Unwrapped(expected, '"') ==>
              (r.value <==> WrappedIn(getUnitProperty(UnitName(s), property).value, expected, '"'))
  {
    match getUnitProperty(UnitName(s), property)
    case Err(e) => Reply(false, Some(e))
    case Ok(raw) =>
      TrimEqualsWhenUnwrapped(raw, expected, '"');
      Reply(Trim(raw, '"') == expected, None)
  }

  /** Enabled: the unit file state is "enabled". */
  function Enabled(s: ServiceDbus, getUnitProperty: PropertyQuery): (r: Reply<bool>)
    ensures r.value ==> r.err == None
    ensures r.err.Some? ==> !r.value
  {
    StateIs(s, getUnitProperty, "UnitFileState", "enabled")
  }

  /** Running: the active state is "active". */
  function Running(s: ServiceDbus, getUnitProperty: PropertyQuery): (r: Reply<bool>)
    ensures r.value ==> r.err == None
    ensures r.err.Some? ==> !r.value
  {
    StateIs(s, getUnitProperty, "ActiveState", "active")
  }

  /** Enabled asks for UnitFileState of `<service>.service`, fails exactly
      when that query fails (with false and the query's error), and is true
      exactly when the value is "enabled" wrapped in any number of '"' on
      each side; every other value, recognised or not, is (false, nil). */
  lemma EnabledSpec(s: ServiceDbus, getUnitProperty: PropertyQuery)
    ensures var q := getUnitProperty(s.service + ".service", "UnitFileState");
            && (q.Err? ==> Enabled(s, getUnitProperty) == Reply(false, Some(q.error)))
            && (q.Ok? ==> Enabled(s, getUnitProperty).err == None)
            && (q.Ok? ==> (Enabled(s, getUnitProperty).value <==> WrappedIn(q.value, "enabled", '"')))
  {
    var q := getUnitProperty(s.service + ".service", "UnitFileState");
    if q.Ok? {
      TrimEqualsIff(q.value, "enabled", '"');
    }
  }

  /** Running asks for ActiveState of `<service>.service`, fails exactly
      when that query fails, and is true exactly when the value is "active"
      wrapped in any number of '"' on each side. */
  lemma RunningSpec(s: ServiceDbus, getUnitProperty: PropertyQuery)
    ensures var q := getUnitProperty(s.service + ".service", "ActiveState");
            && (q.Err? ==> Running(s, getUnitProperty) == Reply(false, Some(q.error)))
            && (q.Ok? ==> Running(s, getUnitProperty).err == None)
            && (q.Ok? ==> (Running(s, getUnitProperty).value <==> WrappedIn(q.value, "active", '"')))
  {
    var q := getUnitProperty(s.service + ".service", "ActiveState");
    if q.Ok? {
      TrimEqualsIff(q.value, "active", '"');
    }
  }

  /** `"enabled"`, `enabled` and `""enabled"` all count as enabled. */
  lemma EnabledQuoted(s: ServiceDbus, getUnitProperty: PropertyQuery, a: nat, b: nat)
    requires getUnitProperty(s.service + ".service", "UnitFileState") ==
               Ok(Repeat('"', a) + "enabled" + Repeat('"', b))
    ensures Enabled(s, getUnitProperty) == Reply(true, None)
  {
    TrimWrapped(a, "enabled", b, '"');
  }
}
