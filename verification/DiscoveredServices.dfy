/** Services, their keys, and how configured overrides change what was discovered. */
module DiscoveredServices {
  import opened Common

  /** NameInstance: what identifies a service in every map of the discovery. */
  datatype Key = Key(name: string, instance: string)

  datatype Address = Address(network: string, address: string, port: int)

  datatype ContainerState = Running | Stopped | Unknown

  datatype Container = Container(state: ContainerState, pid: int)

  /** The configured part of a service; settings stands for everything but its identity. */
  datatype Config = Config(serviceType: string, instance: string, settings: int)

  datatype Service = Service(
    name: string, instance: string, serviceType: string, config: Config,
    listen: seq<Address>, ipAddress: string, containerID: string, containerName: string, exePath: string,
    active: bool, checkIgnored: bool, metricsIgnored: bool,
    hasNetstatInfo: bool, lastNetstatInfo: int, container: Option<Container>)
  {
    function OwnKey(): Key {
      Key(name, instance)
    }
  }

  type Services = map<Key, Service>

  /** The map keys are the services' own names. */
  ghost predicate KeysMatch(services: Services) {
    forall k | k in services :: services[k].OwnKey() == k
  }

  const NO_SERVICE := Service("", "", "", Config("", "", 0), [], "", "", "", "", false, false, false, false, 0, None)

  // ---------------------------------------------------------------------------
  // Overrides
  // ---------------------------------------------------------------------------

  const CUSTOM_SERVICE := "__custom__"

  /** Merging with override: non-empty fields of the override win. */
  function MergeConfig(c: Config, v: Config): Config {
    Config(if v.serviceType != "" then v.serviceType else c.serviceType,
           if v.instance != "" then v.instance else c.instance,
           if v.settings != 0 then v.settings else c.settings)
  }

  /** Overrides are stored under the type and instance they name; the type is mandatory. */
  ghost predicate ValidOverrides(overrides: map<Key, Config>) {
    forall k | k in overrides :: k == Key(overrides[k].serviceType, overrides[k].instance) && k.name != ""
  }

  function WithOverrides(services: Services, overrides: map<Key, Config>): Services {
    map k | k in services.Keys + overrides.Keys ::
      var s := if k in services then services[k] else NO_SERVICE;
      if k in overrides then s.(config := MergeConfig(s.config, overrides[k])) else s
  }

  /** What applying the merged configuration does to the identity of a service. */
  function Identified(s: Service, known: set<string>): Service {
    var renamed := if s.config.serviceType != "" && s.config.serviceType != s.name
                   then s.(name := s.config.serviceType, serviceType := "") else s;
    if renamed.serviceType != "" then renamed
    else
      renamed.(serviceType := if renamed.name in known then renamed.name else CUSTOM_SERVICE,
      instance := if s.config.instance != "" then s.config.instance else s.instance,
      active := true)
  }

  /** The published services: discovered ones and overrides, less those dropped as invalid
      custom services or as ignored. Entries keep the key they had before they were renamed. */
  function Published(discovered: Services, overrides: map<Key, Config>, known: set<string>, dropped: set<Key>): Services {
    var merged := WithOverrides(discovered, overrides);
    map k | k in merged && k !in dropped :: Identified(merged[k], known)
  }

  /** The configuration names the service differently from how it was discovered. */
  predicate Renames(s: Service) {
    || (s.config.serviceType != "" && s.config.serviceType != s.name)
    || (s.serviceType == "" && s.config.instance != "" && s.config.instance != s.instance)
  }

  /** Entries are published under their own names exactly when no published entry that was
      discovered is renamed by its merged configuration. */
  lemma PublishedKeysMatchIff(discovered: Services, overrides: map<Key, Config>, known: set<string>, dropped: set<Key>)
    requires KeysMatch(discovered) && ValidOverrides(overrides)
    ensures KeysMatch(Published(discovered, overrides, known, dropped)) <==>
            forall k | k in discovered && k !in dropped :: !Renames(WithOverrides(discovered, overrides)[k])
  {
    var merged := WithOverrides(discovered, overrides);
    var published := Published(discovered, overrides, known, dropped);
    forall k | k in published
      ensures published[k].OwnKey() == k <==> (k in discovered ==> !Renames(merged[k]))
    {
      if k in discovered {
        assert discovered[k].OwnKey() == k;
      }
    }
  }

  /** Anything discovered or configured is published unless dropped, with the configured settings where
      there are any. */
  lemma PublishedConfig(discovered: Services, overrides: map<Key, Config>, known: set<string>, dropped: set<Key>, k: Key)
    ensures var published := Published(discovered, overrides, known, dropped);
            && (k in published <==> (k in discovered || k in overrides) && k !in dropped)
            && (k in published ==>
                  var r, s := published[k].config, if k in discovered then discovered[k].config else Config("", "", 0);
                  var v := if k in overrides then overrides[k] else Config("", "", 0);
                  && r.serviceType == (if v.serviceType != "" then v.serviceType else s.serviceType)
                  && r.instance == (if v.instance != "" then v.instance else s.instance)
                  && r.settings == (if v.settings != 0 then v.settings else s.settings))
  {
  }

  /** A service whose type is configured has it for its name. Unless it keeps the name and type it was
      discovered with, it is active, has its name for its type if that is a known one, and takes a
      configured instance. Nothing else about it changes. */
  lemma PublishedIdentity(discovered: Services, overrides: map<Key, Config>, known: set<string>, dropped: set<Key>, k: Key)
    requires k in Published(discovered, overrides, known, dropped)
    ensures var r := Published(discovered, overrides, known, dropped)[k];
            var s := if k in discovered then discovered[k] else NO_SERVICE;
            && r.name == (if r.config.serviceType != "" then r.config.serviceType else s.name)
            && (if r.name == s.name && s.serviceType != "" then
                  r.serviceType == s.serviceType && r.instance == s.instance && r.active == s.active
                else
                  && r.serviceType == (if r.name in known then r.name else "__custom__") && r.active
                  && r.instance == (if r.config.instance != "" then r.config.instance else s.instance))
            && r == s.(name := r.name, instance := r.instance, serviceType := r.serviceType, config := r.config,
                       active := r.active)
  {
    var merged := WithOverrides(discovered, overrides)[k];
    assert Published(discovered, overrides, known, dropped)[k] == Identified(merged, known);
  }
}
