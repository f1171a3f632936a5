/**
 * The GemFire distributed-system properties that `SpringBootGemFireServer`
 * hands to its cache: the application's name, the manager defaults and the
 * `gemfireProperties` builder.
 */
module ServerConfig {
  import opened Wrappers
  import opened JavaLang
  import opened StringUtils

  /** Default JMX manager port, used when `spring.gemfire.manager.port` is not set. */
  const DefaultManagerPort: Int32 := 1099

  /** Default GemFire log level, used when `spring.gemfire.log-level` is not set. */
  const DefaultLogLevel: string := "config"

  /** The server's class, `org.example.SpringBootGemFireServer`. */
  const QualifiedClassName: string := "org.example.SpringBootGemFireServer"
  const PackagePrefix: string := "org.example."

  /** `applicationName()`: the simple name of the server's class, its name without the package. */
  function ApplicationName(): (name: string)
    ensures PackagePrefix + name == QualifiedClassName
    ensures |name| > 0 && '.' !in name
  {
    "SpringBootGemFireServer"
  }

  /**
   * The defaults as `gemfireProperties` would write them: the manager port as
   * "1099", and a log level that has text.
   */
  lemma DefaultSettings()
    ensures DecimalString(DefaultManagerPort) == "1099"
    ensures DefaultLogLevel == "config" && HasText(Some(DefaultLogLevel))
  {
  }

  /** The seven properties `gemfireProperties` sets whatever its arguments. */
  const AlwaysSetKeys: set<string> :=
    {"name", "mcast-port", "log-level", "locators", "jmx-manager", "jmx-manager-port", "jmx-manager-start"}

  const StartLocatorKey: string := "start-locator"

  /** A `java.util.Properties` table of string keys to string values. */
  class Properties {
    var entries: map<string, string>

    constructor ()
      ensures entries == map[]
    {
      entries := map[];
    }

    /** `setProperty`: binds `key` to `value` and returns the value it replaced, if any. */
    method SetProperty(key: string, value: string) returns (previous: Option<string>)
      modifies this
      ensures entries == old(entries)[key := value]
      ensures key in old(entries) ==> previous == Some(old(entries)[key])
      ensures key !in old(entries) ==> previous == None
    {
      previous := if key in entries then Some(entries[key]) else None;
      entries := entries[key := value];
    }
  }

  /**
   * The `gemfireProperties` bean: the seven fixed properties, and
   * `start-locator` exactly when the configured value has text.
   */
  method GemfireProperties(logLevel: string, locators: string, managerPort: Int32,
                           jmxManagerStart: bool, startLocator: Option<string>)
    returns (p: Properties)
    ensures fresh(p)
    ensures p.entries.Keys == AlwaysSetKeys + (if HasText(startLocator) then {StartLocatorKey} else {})
    ensures |p.entries| == if HasText(startLocator) then 8 else 7
    ensures p.entries["name"] == ApplicationName()
    ensures p.entries["mcast-port"] == "0"
    ensures p.entries["log-level"] == logLevel
    ensures p.entries["locators"] == locators
    ensures p.entries["jmx-manager"] == "true"
    ensures p.entries["jmx-manager-port"] == DecimalString(managerPort)
    ensures DecimalValue(p.entries["jmx-manager-port"]) == Some(managerPort as int)
    ensures p.entries["jmx-manager-start"] == BooleanString(jmxManagerStart)
    ensures HasText(startLocator) ==> p.entries[StartLocatorKey] == startLocator.value
  {
    p := new Properties();
    var previous := p.SetProperty("name", ApplicationName());
    previous := p.SetProperty("mcast-port", "0");
    previous := p.SetProperty("log-level", logLevel);
    previous := p.SetProperty("locators", locators);
    previous := p.SetProperty("jmx-manager", "true");
    previous := p.SetProperty("jmx-manager-port", DecimalString(managerPort));
    previous := p.SetProperty("jmx-manager-start", BooleanString(jmxManagerStart));
    ghost var fixed := p.entries;
    if HasText(startLocator) {
      previous := p.SetProperty(StartLocatorKey, startLocator.value);
    }
    PropertiesKeys(p.entries, fixed, logLevel, locators, managerPort, jmxManagerStart, startLocator);
    PropertiesValues(p.entries, fixed, logLevel, locators, managerPort, jmxManagerStart, startLocator);
  }

  /** The table the seven unconditional `setProperty` calls build. */
  ghost predicate IsFixedTable(fixed: map<string, string>, logLevel: string, locators: string,
                               managerPort: Int32, jmxManagerStart: bool)
  {
    fixed == map["name" := ApplicationName(), "mcast-port" := "0", "log-level" := logLevel,
                 "locators" := locators, "jmx-manager" := "true",
                 "jmx-manager-port" := DecimalString(managerPort),
                 "jmx-manager-start" := BooleanString(jmxManagerStart)]
  }

  /** The table after the conditional `start-locator` insert. */
  ghost predicate IsFinalTable(m: map<string, string>, fixed: map<string, string>, startLocator: Option<string>)
  {
    m == if HasText(startLocator) then fixed[StartLocatorKey := startLocator.value] else fixed
  }

  lemma PropertiesKeys(m: map<string, string>, fixed: map<string, string>, logLevel: string, locators: string,
                       managerPort: Int32, jmxManagerStart: bool, startLocator: Option<string>)
    requires IsFixedTable(fixed, logLevel, locators, managerPort, jmxManagerStart)
    requires IsFinalTable(m, fixed, startLocator)
    ensures m.Keys == AlwaysSetKeys + (if HasText(startLocator) then {StartLocatorKey} else {})
    ensures |m| == if HasText(startLocator) then 8 else 7
  {
    assert fixed.Keys == AlwaysSetKeys;
    AlwaysSetKeysCount();
  }

  lemma PropertiesValues(m: map<string, string>, fixed: map<string, string>, logLevel: string, locators: string,
                         managerPort: Int32, jmxManagerStart: bool, startLocator: Option<string>)
    requires IsFixedTable(fixed, logLevel, locators, managerPort, jmxManagerStart)
    requires IsFinalTable(m, fixed, startLocator)
    ensures AlwaysSetKeys <= m.Keys
    ensures m["name"] == ApplicationName()
    ensures m["mcast-port"] == "0"
    ensures m["log-level"] == logLevel
    ensures m["locators"] == locators
    ensures m["jmx-manager"] == "true"
    ensures m["jmx-manager-port"] == DecimalString(managerPort)
    ensures DecimalValue(m["jmx-manager-port"]) == Some(managerPort as int)
    ensures m["jmx-manager-start"] == BooleanString(jmxManagerStart)
    ensures HasText(startLocator) ==> StartLocatorKey in m && m[StartLocatorKey] == startLocator.value
  {
    DecimalRoundTrip(managerPort);
  }

  /** The seven fixed keys are distinct, and `start-locator` is not among them. */
  lemma AlwaysSetKeysCount()
    ensures |AlwaysSetKeys| == 7
    ensures StartLocatorKey !in AlwaysSetKeys
  {
  }
}
