/**
 Two translations of a controller-manager configuration file into manager options: one fills the gaps of
 options that are already set, the other starts from nothing.
 */
module ManagerOptions {
  import opened Text

  type Duration = int

  // ----- configuration files -----

  datatype LeaderConfig = LeaderConfig(
    leaderElect: Option<bool>, resourceLock: string, resourceNamespace: string, resourceName: string,
    leaseDuration: Option<Duration>, renewDeadline: Option<Duration>, retryPeriod: Option<Duration>)

  datatype ControllerConfig = ControllerConfig(
    cacheSyncTimeout: Option<Duration>, groupKindConcurrency: map<string, int>, recoverPanic: Option<bool>)

  datatype WebhookConfig = WebhookConfig(port: Option<int>, host: string, certDir: string)

  datatype Config = Config(
    syncPeriod: Option<Duration>, cacheNamespace: string, gracefulShutdown: Option<Duration>, metricsAddress: string,
    leaderElection: Option<LeaderConfig>, health: Health, webhook: WebhookConfig, controller: Option<ControllerConfig>)

  // ----- manager options, in the groups that the helpers deal with -----

  datatype Leader = Leader(
    enabled: bool, lock: string, namespace: string, id: string,
    leaseDuration: Option<Duration>, renewDeadline: Option<Duration>, retryPeriod: Option<Duration>)

  datatype General = General(syncPeriod: Option<Duration>, namespaces: set<string>, gracefulShutdown: Option<Duration>,
      metricsAddress: string)

  datatype Health = Health(probe: string, readiness: string, liveness: string)

  /** A webhook server, by the parameters it is made from. */
  datatype Webhook = Webhook(port: int, host: string, certDir: string)

  /** An empty map and a missing one are not told apart. */
  datatype Controller = Controller(cacheSyncTimeout: Duration, groupKindConcurrency: map<string, int>,
      recoverPanic: Option<bool>)

  datatype Options = Options(
    scheme: string, leader: Leader, general: General, health: Health, webhook: Option<Webhook>, controller: Controller)

  function SchemeOnly(scheme: string): Options
  {
    Options(scheme, Leader(false, "", "", "", None, None, None), General(None, {}, None, ""), Health("", "", ""), None,
            Controller(0, map[], None))
  }

  // ----- filling the gaps -----

  function OverlayIdentity(o: Leader, cfg: LeaderConfig): Leader
  {
    var o := if !o.enabled && cfg.leaderElect.Some? then o.(enabled := cfg.leaderElect.value) else o;
    var o := if o.lock == "" && cfg.resourceLock != "" then o.(lock := cfg.resourceLock) else o;
    var o := if o.namespace == "" && cfg.resourceNamespace != "" then o.(namespace := cfg.resourceNamespace) else o;
    if o.id == "" && cfg.resourceName != "" then o.(id := cfg.resourceName) else o
  }

  function OverlayDurations(o: Leader, cfg: LeaderConfig): Leader
  {
    var o := if o.leaseDuration.None? && cfg.leaseDuration.Some? then o.(leaseDuration := cfg.leaseDuration) else o;
    var o := if o.renewDeadline.None? && cfg.renewDeadline.Some? then o.(renewDeadline := cfg.renewDeadline) else o;
    if o.retryPeriod.None? && cfg.retryPeriod.Some? then o.(retryPeriod := cfg.retryPeriod) else o
  }

  function OverlayLeader(o: Leader, cfg: Option<LeaderConfig>): Leader
  {
    if cfg.None? then o else OverlayDurations(OverlayIdentity(o, cfg.value), cfg.value)
  }

  function OverlayGeneral(o: General, cfg: Config): General
  {
    var o := if o.syncPeriod.None? && cfg.syncPeriod.Some? then o.(syncPeriod := cfg.syncPeriod) else o;
    var o := if o.namespaces == {} && cfg.cacheNamespace != "" then o.(namespaces := {cfg.cacheNamespace}) else o;
    var o := if o.gracefulShutdown.None? && cfg.gracefulShutdown.Some? then o.(gracefulShutdown := cfg.gracefulShutdown)
        else o;
    if o.metricsAddress == "" && cfg.metricsAddress != "" then o.(metricsAddress := cfg.metricsAddress) else o
  }

  function OverlayHealth(o: Health, cfg: Health): Health
  {
    var o := if o.probe == "" && cfg.probe != "" then o.(probe := cfg.probe) else o;
    var o := if o.readiness == "" && cfg.readiness != "" then o.(readiness := cfg.readiness) else o;
    if o.liveness == "" && cfg.liveness != "" then o.(liveness := cfg.liveness) else o
  }

  function IntValue(value: Option<int>): int
  {
    if value.Some? then value.value else 0
  }

  function OverlayWebhook(o: Option<Webhook>, cfg: WebhookConfig): Option<Webhook>
  {
    if o.Some? then o else Some(Webhook(IntValue(cfg.port), cfg.host, cfg.certDir))
  }

  function OverlayController(o: Controller, cfg: ControllerConfig): Controller
  {
    var o := if o.cacheSyncTimeout == 0 && cfg.cacheSyncTimeout.Some?
        then o.(cacheSyncTimeout := cfg.cacheSyncTimeout.value) else o;
    var o := if |o.groupKindConcurrency| == 0 && |cfg.groupKindConcurrency| > 0
             then o.(groupKindConcurrency := cfg.groupKindConcurrency) else o;
    if o.recoverPanic.None? && cfg.recoverPanic.Some? then o.(recoverPanic := cfg.recoverPanic) else o
  }

  /** `applyManagerConfigOverlay`. */
  function Overlay(o: Options, cfg: Config): Options
  {
    Options(
      o.scheme, OverlayLeader(o.leader, cfg.leaderElection), OverlayGeneral(o.general, cfg),
          OverlayHealth(o.health, cfg.health),
      OverlayWebhook(o.webhook, cfg.webhook),
      if cfg.controller.Some? then OverlayController(o.controller, cfg.controller.value) else o.controller)
  }

  // ----- starting from nothing -----

  /** `applyLeaderElectionConfig`: overwrite with whatever the file gives. */
  method ApplyLeaderElection(o: Leader, cfg: LeaderConfig) returns (r: Leader)
    ensures r.enabled == if cfg.leaderElect.Some? then cfg.leaderElect.value else o.enabled
    ensures r.lock == if cfg.resourceLock != "" then cfg.resourceLock else o.lock
    ensures r.namespace == if cfg.resourceNamespace != "" then cfg.resourceNamespace else o.namespace
    ensures r.id == if cfg.resourceName != "" then cfg.resourceName else o.id
    ensures r.leaseDuration == if cfg.leaseDuration.Some? then cfg.leaseDuration else o.leaseDuration
    ensures r.renewDeadline == if cfg.renewDeadline.Some? then cfg.renewDeadline else o.renewDeadline
    ensures r.retryPeriod == if cfg.retryPeriod.Some? then cfg.retryPeriod else o.retryPeriod
  {
    r := o;
    if cfg.leaderElect.Some? {
      r := r.(enabled := cfg.leaderElect.value);
    }
    if cfg.resourceLock != "" {
      r := r.(lock := cfg.resourceLock);
    }
    if cfg.resourceNamespace != "" {
      r := r.(namespace := cfg.resourceNamespace);
    }
    if cfg.resourceName != "" {
      r := r.(id := cfg.resourceName);
    }
    if cfg.leaseDuration.Some? {
      r := r.(leaseDuration := cfg.leaseDuration);
    }
    if cfg.renewDeadline.Some? {
      r := r.(renewDeadline := cfg.renewDeadline);
    }
    if cfg.retryPeriod.Some? {
      r := r.(retryPeriod := cfg.retryPeriod);
    }
  }

  /** The cache, shutdown and metrics part of `toOptions`. */
  method GeneralOptions(cfg: Config) returns (o: General)
    ensures o == OverlayGeneral(SchemeOnly("").general, cfg)
  {
    hide OverlayGeneral;
    o := SchemeOnly("").general.(metricsAddress := cfg.metricsAddress);
    if cfg.syncPeriod.Some? {
      o := o.(syncPeriod := cfg.syncPeriod);
    }
    if cfg.cacheNamespace != "" {
      o := o.(namespaces := {cfg.cacheNamespace});
    }
    if cfg.gracefulShutdown.Some? {
      o := o.(gracefulShutdown := cfg.gracefulShutdown);
    }
    GeneralFields(cfg);
  }

  /** The health part of `toOptions`. */
  method HealthOptions(cfg: Health) returns (o: Health)
    ensures o == OverlayHealth(SchemeOnly("").health, cfg)
  {
    hide OverlayHealth;
    o := SchemeOnly("").health;
    if cfg.probe != "" {
      o := o.(probe := cfg.probe);
    }
    if cfg.readiness != "" {
      o := o.(readiness := cfg.readiness);
    }
    if cfg.liveness != "" {
      o := o.(liveness := cfg.liveness);
    }
    HealthFields(cfg);
  }

  /** The controller part of `toOptions`. */
  method ControllerOptions(cfg: ControllerConfig) returns (o: Controller)
    ensures o == OverlayController(SchemeOnly("").controller, cfg)
  {
    hide OverlayController;
    o := Controller(0, cfg.groupKindConcurrency, cfg.recoverPanic);
    if cfg.cacheSyncTimeout.Some? {
      o := o.(cacheSyncTimeout := cfg.cacheSyncTimeout.value);
    }
    ControllerFields(cfg);
  }

  /** `toOptions`: on a fresh start the two translations agree. */
  method ToOptions(cfg: Config, scheme: string) returns (o: Options)
    ensures o == Overlay(SchemeOnly(scheme), cfg)
  {
    hide OverlayLeader, OverlayGeneral, OverlayHealth, OverlayController;
    var general := GeneralOptions(cfg);
    var webhook := Some(Webhook(IntValue(cfg.webhook.port), cfg.webhook.host, cfg.webhook.certDir));
    var health := HealthOptions(cfg.health);
    var controller := SchemeOnly("").controller;
    if cfg.controller.Some? {
      controller := ControllerOptions(cfg.controller.value);
    }
    var leader := SchemeOnly("").leader;
    LeaderFields(leader, if cfg.leaderElection.Some? then cfg.leaderElection.value
        else LeaderConfig(None, "", "", "", None, None, None));
    if cfg.leaderElection.Some? {
      leader := ApplyLeaderElection(leader, cfg.leaderElection.value);
    }
    o := Options(scheme, leader, general, health, webhook, controller);
  }

  lemma IdentityFields(o: Leader, cfg: LeaderConfig)
    ensures OverlayIdentity(o, cfg) ==
            Leader(o.enabled || cfg.leaderElect == Some(true), if o.lock == "" then cfg.resourceLock else o.lock,
                   if o.namespace == "" then cfg.resourceNamespace else o.namespace, if o.id == "" then cfg.resourceName
                       else o.id,
                   o.leaseDuration, o.renewDeadline, o.retryPeriod)
  {
  }

  lemma DurationFields(o: Leader, cfg: LeaderConfig)
    ensures OverlayDurations(o, cfg) ==
            Leader(o.enabled, o.lock, o.namespace, o.id, if o.leaseDuration.None? then cfg.leaseDuration
                else o.leaseDuration,
                   if o.renewDeadline.None? then cfg.renewDeadline else o.renewDeadline,
                   if o.retryPeriod.None? then cfg.retryPeriod else o.retryPeriod)
  {
  }

  lemma LeaderFields(o: Leader, cfg: LeaderConfig)
    ensures OverlayLeader(o, Some(cfg)) ==
            Leader(o.enabled || cfg.leaderElect == Some(true), if o.lock == "" then cfg.resourceLock else o.lock,
                   if o.namespace == "" then cfg.resourceNamespace else o.namespace, if o.id == "" then cfg.resourceName
                       else o.id,
                   if o.leaseDuration.None? then cfg.leaseDuration else o.leaseDuration,
                   if o.renewDeadline.None? then cfg.renewDeadline else o.renewDeadline,
                   if o.retryPeriod.None? then cfg.retryPeriod else o.retryPeriod)
    ensures OverlayLeader(o, None) == o
  {
    hide OverlayIdentity, OverlayDurations;
    IdentityFields(o, cfg);
    DurationFields(OverlayIdentity(o, cfg), cfg);
  }

  lemma GeneralFields(cfg: Config)
    ensures OverlayGeneral(SchemeOnly("").general, cfg) ==
            General(cfg.syncPeriod, if cfg.cacheNamespace != "" then {cfg.cacheNamespace}
                else {}, cfg.gracefulShutdown, cfg.metricsAddress)
  {
  }

  lemma HealthFields(cfg: Health)
    ensures OverlayHealth(SchemeOnly("").health, cfg) == cfg
  {
  }

  lemma ControllerFields(cfg: ControllerConfig)
    ensures OverlayController(SchemeOnly("").controller, cfg) ==
            Controller(IntValue(cfg.cacheSyncTimeout), cfg.groupKindConcurrency, cfg.recoverPanic)
  {
    assert |cfg.groupKindConcurrency| == 0 <==> cfg.groupKindConcurrency == map[];
  }

  // ----- several files -----

  function First<T(==)>(zero: T, a: T, b: T): T
  {
    if a == zero then b else a
  }

  function MergeLeader(a: Leader, b: Leader): Leader
  {
    Leader(First(false, a.enabled, b.enabled), First("", a.lock, b.lock), First("", a.namespace, b.namespace),
        First("", a.id, b.id),
           First(None, a.leaseDuration, b.leaseDuration), First(None, a.renewDeadline, b.renewDeadline),
           First(None, a.retryPeriod, b.retryPeriod))
  }

  function MergeGeneral(a: General, b: General): General
  {
    General(First(None, a.syncPeriod, b.syncPeriod), First({}, a.namespaces, b.namespaces),
            First(None, a.gracefulShutdown, b.gracefulShutdown), First("", a.metricsAddress, b.metricsAddress))
  }

  function MergeHealth(a: Health, b: Health): Health
  {
    Health(First("", a.probe, b.probe), First("", a.readiness, b.readiness), First("", a.liveness, b.liveness))
  }

  function MergeController(a: Controller, b: Controller): Controller
  {
    Controller(First(0, a.cacheSyncTimeout, b.cacheSyncTimeout),
        First(map[], a.groupKindConcurrency, b.groupKindConcurrency),
               First(None, a.recoverPanic, b.recoverPanic))
  }

  /** Field by field, the value that is set first. */
  function Merge(a: Options, b: Options): Options
  {
    Options(a.scheme, MergeLeader(a.leader, b.leader), MergeGeneral(a.general, b.general),
        MergeHealth(a.health, b.health),
            First(None, a.webhook, b.webhook), MergeController(a.controller, b.controller))
  }

  /** What a file gives on a fresh start. */
  function Contribution(cfg: Config): Options
  {
    Overlay(SchemeOnly(""), cfg)
  }

  lemma LeaderMerges(o: Leader, cfg: Option<LeaderConfig>)
    ensures OverlayLeader(o, cfg) == MergeLeader(o, OverlayLeader(SchemeOnly("").leader, cfg))
  {
    hide OverlayLeader;
    var c := if cfg.Some? then cfg.value else LeaderConfig(None, "", "", "", None, None, None);
    LeaderFields(o, c);
    LeaderFields(SchemeOnly("").leader, c);
  }

  lemma GeneralMerges(o: General, cfg: Config)
    ensures OverlayGeneral(o, cfg) == MergeGeneral(o, OverlayGeneral(SchemeOnly("").general, cfg))
  {
  }

  lemma HealthMerges(o: Health, cfg: Health)
    ensures OverlayHealth(o, cfg) == MergeHealth(o, OverlayHealth(SchemeOnly("").health, cfg))
  {
  }

  lemma ControllerMerges(o: Controller, cfg: ControllerConfig)
    ensures OverlayController(o, cfg) == MergeController(o, OverlayController(SchemeOnly("").controller, cfg))
    ensures MergeController(o, SchemeOnly("").controller) == o
  {
    assert |o.groupKindConcurrency| == 0 <==> o.groupKindConcurrency == map[];
    assert |cfg.groupKindConcurrency| == 0 <==> cfg.groupKindConcurrency == map[];
  }

  /** Overlaying a file merges in what it gives on a fresh start. */
  lemma OverlayIsMerge(o: Options, cfg: Config)
    ensures Overlay(o, cfg) == Merge(o, Contribution(cfg))
  {
    hide OverlayLeader, OverlayGeneral, OverlayHealth, OverlayController, MergeLeader, MergeGeneral, MergeHealth,
         MergeController;
    LeaderMerges(o.leader, cfg.leaderElection);
    GeneralMerges(o.general, cfg);
    HealthMerges(o.health, cfg.health);
    ControllerMerges(o.controller, if cfg.controller.Some? then cfg.controller.value
        else ControllerConfig(None, map[], None));
  }

  function OverlayAll(o: Options, files: seq<Config>): Options
    decreases |files|
  {
    if files == [] then o else OverlayAll(Overlay(o, files[0]), files[1..])
  }

  /** The first value that is not `zero`. */
  function FirstSet<T(==)>(zero: T, xs: seq<T>): T
  {
    if xs == [] then zero else First(zero, xs[0], FirstSet(zero, xs[1..]))
  }

  /** The values of one field: the option's own, then what each file gives. */
  function Values<T>(field: Options -> T, o: Options, files: seq<Config>): (xs: seq<T>)
    decreases |files|
  {
    if files == [] then [field(o)] else [field(o)] + Values(field, Contribution(files[0]), files[1..])
  }

  /** A field that merging treats as `First`. */
  ghost predicate FirstWins<T(!new)>(field: Options -> T, zero: T) {
    forall a, b :: field(Merge(a, b)) == First(zero, field(a), field(b))
  }

  /** Overlaying any number of files leaves such a field at its first value that is set. */
  lemma {:induction false} OverlaysKeepFirst<T(!new)>(field: Options -> T, zero: T, o: Options, files: seq<Config>)
    requires FirstWins(field, zero)
    ensures field(OverlayAll(o, files)) == FirstSet(zero, Values(field, o, files))
    decreases |files|
  {
    hide Merge, Overlay, Contribution;
    if files == [] {
      assert [field(o)][1..] == [];
    } else {
      var c := Contribution(files[0]);
      OverlayIsMerge(o, files[0]);
      OverlaysKeepFirst(field, zero, Overlay(o, files[0]), files[1..]);
      var rest := Values(field, c, files[1..]);
      assert ([field(o)] + rest)[1..] == rest;
      ValuesHead(field, Overlay(o, files[0]), files[1..]);
      ValuesHead(field, c, files[1..]);
    }
  }

  /** Only the first value depends on the options that the files are laid over. */
  lemma ValuesHead<T>(field: Options -> T, o: Options, files: seq<Config>)
    ensures Values(field, o, files) != [] && Values(field, o, files)[0] == field(o)
    ensures Values(field, o, files)[1..] == Values(field, SchemeOnly(""), files)[1..]
  {
  }

  /** Every field of the options is of that kind, the scheme apart, which is never touched. */
  lemma FieldsKeepFirst()
    ensures FirstWins((o: Options) => o.leader.enabled, false) && FirstWins((o: Options) => o.leader.lock, "")
    ensures FirstWins((o: Options) => o.leader.namespace, "") && FirstWins((o: Options) => o.leader.id, "")
    ensures FirstWins((o: Options) => o.leader.leaseDuration, None)
            && FirstWins((o: Options) => o.leader.renewDeadline, None)
    ensures FirstWins((o: Options) => o.leader.retryPeriod, None)
    ensures FirstWins((o: Options) => o.general.syncPeriod, None) && FirstWins((o: Options) => o.general.namespaces, {})
    ensures FirstWins((o: Options) => o.general.gracefulShutdown, None)
            && FirstWins((o: Options) => o.general.metricsAddress, "")
    ensures FirstWins((o: Options) => o.health.probe, "") && FirstWins((o: Options) => o.health.readiness, "")
    ensures FirstWins((o: Options) => o.health.liveness, "") && FirstWins((o: Options) => o.webhook, None)
    ensures FirstWins((o: Options) => o.controller.cacheSyncTimeout, 0)
            && FirstWins((o: Options) => o.controller.groupKindConcurrency, map[])
    ensures FirstWins((o: Options) => o.controller.recoverPanic, None)
  {
  }

  lemma {:induction false} SchemeKept(o: Options, files: seq<Config>)
    ensures OverlayAll(o, files).scheme == o.scheme
    decreases |files|
  {
    if files != [] {
      SchemeKept(Overlay(o, files[0]), files[1..]);
    }
  }
}
