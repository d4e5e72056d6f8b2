/** The step lists that the deploy command builds, provider by provider, and what they are run to. */
module BootstrapSteps {
  import opened Text
  import opened BootstrapService
  import opened BootstrapRuns
  import opened BootstrapHonesty
  import opened BootstrapOrder
  import opened Sequences

  /** What the lists depend on; the flags say whether a lookup made on the way succeeds. */
  datatype StepConfig = StepConfig(
    provider: string, clusterDirKnown: bool, openTofuEnabled: bool, openTofuFound: bool, networkPluginKnown: bool,
    tokenProvider: Option<string>, gitURL: string, fluxParametersKnown: bool)

  predicate BootstrapsFlux(cfg: StepConfig) {
    cfg.tokenProvider.Some? && !Blank(cfg.tokenProvider.value) && cfg.gitURL != ""
  }

  const TERRAFORM_STEPS := ["make-terraform", "terraform-init", "terraform-apply"]

  const KIND_STEPS := [
    "kind-create", "kind-export-kubeconfig", "gitea-attach-kind", "flux-bootstrap", "reconcile-base-repo-secret",
    "gitea-rebase", "gitops-push", "flux-verify"]

  const OPENTOFU_STEPS := [
    "preflight", "opentofu-init", "opentofu-apply", "openstack-normalize-kubeconfig",
    "openstack-install-network-plugin"]

  const FLUX_STEPS := ["openstack-flux-bootstrap", "reconcile-base-repo-secret"]

  function StepIds(cfg: StepConfig): Option<seq<string>> {
    var provider := if Blank(cfg.provider) then "openstack" else ToLower(TrimSpace(cfg.provider));
    if provider in ["aws", "gcp", "azure"] then
      if cfg.clusterDirKnown then Some(TERRAFORM_STEPS) else None
    else if provider == "kind" then Some(KIND_STEPS)
    else if provider in ["openstack", "vmware", "vsphere", "baremetal"] then OpenTofuIds(cfg)
    else None
  }

  function OpenTofuIds(cfg: StepConfig): Option<seq<string>> {
    if !cfg.clusterDirKnown || !cfg.openTofuEnabled || !cfg.openTofuFound || !cfg.networkPluginKnown then None
    else if !BootstrapsFlux(cfg) then Some(OPENTOFU_STEPS)
    else if cfg.fluxParametersKnown then Some(OPENTOFU_STEPS + FLUX_STEPS)
    else None
  }

  method BuildSteps(cfg: StepConfig) returns (steps: Option<seq<string>>)
    ensures steps == OpenTofuIds(cfg)
  {
    if !cfg.clusterDirKnown || !cfg.openTofuEnabled || !cfg.openTofuFound { return None; }
    var ids := ["preflight", "opentofu-init", "opentofu-apply"];
    ids := ids + ["openstack-normalize-kubeconfig"];
    if !cfg.networkPluginKnown { return None; }
    ids := ids + ["openstack-install-network-plugin"];
    assert ids == OPENTOFU_STEPS;
    if cfg.tokenProvider.Some? && !Blank(cfg.tokenProvider.value) && cfg.gitURL != "" {
      if !cfg.fluxParametersKnown { return None; }
      ids := ids + ["openstack-flux-bootstrap"];
      ids := ids + ["reconcile-base-repo-secret"];
      assert ids == OPENTOFU_STEPS + FLUX_STEPS;
    }
    steps := Some(ids);
  }

  lemma ListsAreDistinct(cfg: StepConfig)
    ensures StepIds(cfg).Some? ==> Distinct(StepIds(cfg).value)
  {
    hide ToLower, TrimSpace;
    assert Distinct(TERRAFORM_STEPS) && Distinct(KIND_STEPS) && Distinct(OPENTOFU_STEPS + FLUX_STEPS);
  }

  /**
   * Deploys of one configuration, restarted or not, with any failures and crashes: the saved state is
   * a prefix of the built list, and no step starts before every earlier one has succeeded.
   */
  lemma DeploysFollowTheList(w: World, cfg: StepConfig, calls: seq<Call>)
    requires w.primary == Absent && w.legacy == Absent
    requires forall c :: c in calls ==> Unfiltered(c.opts) && (c.build == None || c.build == StepIds(cfg))
    ensures var w', ids := RunAll(w, calls), if StepIds(cfg).Some? then StepIds(cfg).value else [];
      Shape(w'.primary, ids, w'.log) && StartsInOrder(ids, |w.log|, w'.log)
  {
    hide StepIds, Shape, StartsInOrder, RunAll;
    ListsAreDistinct(cfg);
    SavedStateIsAPrefix(w, if StepIds(cfg).Some? then StepIds(cfg).value else [], calls);
  }

  /** In particular Flux is never started before the network plugin has been installed. */
  lemma FluxWaitsForTheNetwork(w: World, cfg: StepConfig, calls: seq<Call>, p: nat)
    requires w.primary == Absent && w.legacy == Absent && w.log == []
    requires forall c :: c in calls ==> Unfiltered(c.opts) && (c.build == None || c.build == StepIds(cfg))
    requires var log := RunAll(w, calls).log; p < |log| && log[p] == Started("openstack-flux-bootstrap")
    requires StepIds(cfg) == Some(OPENTOFU_STEPS + FLUX_STEPS)
    ensures FreshOk(RunAll(w, calls).log[..p], "openstack-install-network-plugin")
    ensures FreshOk(RunAll(w, calls).log[..p], "opentofu-apply")
  {
    hide StepIds, Shape, RunAll, FreshOk;
    DeploysFollowTheList(w, cfg, calls);
    var ids := OPENTOFU_STEPS + FLUX_STEPS;
    assert ids[5] == "openstack-flux-bootstrap" && ids[4] == "openstack-install-network-plugin";
    assert ids[2] == "opentofu-apply";
    assert PrefixOk(ids, 5, RunAll(w, calls).log[..p]);
  }

  /** The steps of a provider in the order in which they must run. */
  predicate RunInOrder(cfg: StepConfig, order: seq<string>) {
    var provider := ToLower(TrimSpace(cfg.provider));
    && (provider in ["aws", "gcp", "azure"] ==> order == ["make-terraform", "terraform-init", "terraform-apply"])
    && (provider == "kind" ==>
          order == ["kind-create", "kind-export-kubeconfig", "gitea-attach-kind", "flux-bootstrap",
                    "reconcile-base-repo-secret", "gitea-rebase", "gitops-push", "flux-verify"])
    && (Blank(cfg.provider) || provider in ["openstack", "vmware", "vsphere", "baremetal"] ==>
          order == ["preflight", "opentofu-init", "opentofu-apply", "openstack-normalize-kubeconfig",
                    "openstack-install-network-plugin", "openstack-flux-bootstrap", "reconcile-base-repo-secret"])
  }

  /** When there is a list for the provider, and that it is these steps, the Flux ones on request. */
  lemma ListsRunInOrder(cfg: StepConfig, order: seq<string>)
    requires RunInOrder(cfg, order)
    ensures var provider := ToLower(TrimSpace(cfg.provider));
      var flux := cfg.tokenProvider.Some? && !Blank(cfg.tokenProvider.value) && cfg.gitURL != "";
      if provider == "kind" then StepIds(cfg) == Some(order)
      else if provider in ["aws", "gcp", "azure"] then StepIds(cfg) == if cfg.clusterDirKnown then Some(order) else None
      else if Blank(cfg.provider) || provider in ["openstack", "vmware", "vsphere", "baremetal"] then
        StepIds(cfg) ==
          if cfg.clusterDirKnown && cfg.openTofuEnabled && cfg.openTofuFound && cfg.networkPluginKnown
             && (flux ==> cfg.fluxParametersKnown)
          then Some(if flux then order else order[..5]) else None
      else StepIds(cfg).None?
    ensures StepIds(cfg).Some? ==> StepIds(cfg).value <= order
  {
    hide ToLower, TrimSpace, Blank;
    BlankLowers(cfg.provider);
    assert OPENTOFU_STEPS + FLUX_STEPS == ["preflight", "opentofu-init", "opentofu-apply",
      "openstack-normalize-kubeconfig", "openstack-install-network-plugin", "openstack-flux-bootstrap",
      "reconcile-base-repo-secret"];
  }

  lemma BlankLowers(s: string)
    ensures Blank(s) ==> ToLower(TrimSpace(s)) == ""
  {
    BlankTrimsToNothing(s);
  }

  /** In deploys of one configuration, a step starts only when those before it have succeeded since the last reset. */
  lemma StepsWaitForEarlier(w: World, cfg: StepConfig, calls: seq<Call>, order: seq<string>, p: nat, j: nat, k: nat)
    requires w.primary == Absent && w.legacy == Absent && w.log == []
    requires forall c :: c in calls ==> Unfiltered(c.opts) && (c.build == None || c.build == StepIds(cfg))
    requires j < k < |order| && RunInOrder(cfg, order) && StepIds(cfg).Some? && k < |StepIds(cfg).value|
    requires var log := RunAll(w, calls).log; p < |log| && log[p] == Started(order[k])
    ensures FreshOk(RunAll(w, calls).log[..p], order[j])
  {
    hide StepIds, Shape, RunAll, FreshOk, RunInOrder, Unfiltered, ToLower, TrimSpace, Blank;
    var ids := StepIds(cfg).value;
    assert ids <= order by { ListsRunInOrder(cfg, order); }
    DeploysFollowTheList(w, cfg, calls);
    assert ids[k] == order[k] && ids[j] == order[j];
    assert PrefixOk(ids, k, RunAll(w, calls).log[..p]);
  }

  // ---------------------------------------------------------------- which deploys stay honest

  /** The lists that deploys of these configurations build. */
  ghost function ListsOf(cfgs: iset<StepConfig>): Lists {
    iset cfg | cfg in cfgs && StepIds(cfg).Some? :: StepIds(cfg).value
  }

  lemma StepsAreNamed(cfg: StepConfig)
    ensures StepIds(cfg).Some? ==> forall id :: id in StepIds(cfg).value ==> !Blank(id)
  {
    hide ToLower, TrimSpace, Blank;
    if StepIds(cfg).Some? {
      forall id | id in StepIds(cfg).value ensures !Blank(id) { NamedByLetter(id); }
    }
  }

  lemma NamedByLetter(id: string)
    requires id != "" && 'a' <= id[0] <= 'z'
    ensures !Blank(id)
  {
  }

  /**
   * Deploys of any of these configurations, in any sequence: what the next run would take for done was last
   * attempted with success after all of them exactly when everything the legacy file records as done was
   * last attempted with success and is a step that none of the configurations has.
   */
  lemma DeploysHonestExactlyWhen(w: World, cfgs: iset<StepConfig>)
    requires AtRest(w) && Honest(Effective(w), w.log)
    ensures AlwaysHonest(w, ListsOf(cfgs)) <==> OutOfReach(w.legacy, w.log, ListsOf(cfgs))
  {
    hide AtRest, Honest, AlwaysHonest, OutOfReach, StepIds, Blank;
    forall ids, id | ids in ListsOf(cfgs) && id in ids ensures !Blank(id) {
      var cfg :| cfg in cfgs && StepIds(cfg) == Some(ids);
      StepsAreNamed(cfg);
    }
    HonestExactlyOutOfReach(w, ListsOf(cfgs));
  }
}
