/** What the two webhooks and the workers guarantee together: the pod that leaves the mutator refers to what the
    validator asks for and the workers create. */
module Agreement {
  import opened Wrappers
  import opened Base64
  import opened Metadata
  import opened Owners
  import opened Pods
  import opened Injection
  import opened Mutator
  import opened MutationLaws
  import opened Workers
  import opened StoreLaws
  import opened Validator
  import opened Pipeline
  import opened PipelineLaws
  import opened Names
  import opened Delivery

  /** The validator is set up with the extractor and the CA secret of the mutator, and with the collected data. */
  function SettingsFor(cfg: Config, data: Data): Settings {
    Settings(cfg.extractor, cfg.caSecret, data)
  }

  // ------------------------------------------------------------------ references and requests

  /** The default sources of a volume all name this secret and one of its keys. */
  ghost predicate ProjectsFrom(cfg: Config, volume: Volume, req: CreationRequest) {
    && volume.source.Projected?
    && |cfg.caSecret.keys| <= |volume.source.sources|
    && forall i :: 0 <= i < |cfg.caSecret.keys| ==>
         var source := volume.source.sources[i];
         source.secret == req.name && |source.items| == 1 && source.items[0].key in req.kvs
  }

  /** What the validator answers and sends for a mutated pod, when it looks up the owners itself. */
  lemma MutatedIsPlanned(cfg: Config, data: Data, review: Review, first: Cluster, second: Cluster, third: Cluster,
                         pod: PodValue, after: PodValue)
    requires review.operation == Create && !review.dryRun
    requires Admit(cfg, review, first, second, pod) == (Mutated, after)
    ensures !review.cancelled && review.isPod && RootOf(first, AsObject(pod.meta)).Root?
    ensures WantsJvm(cfg, pod) ==> RootOf(second, AsObject(pod.meta)).Root?
    ensures var (verdict, script) := Plan(SettingsFor(cfg, data), review, third, after.meta);
            match RootOf(third, AsObject(pod.meta))
            case Root(root) =>
              verdict == Valid && script == CreationPlan(SettingsFor(cfg, data), review, pod.meta, root)
            case _ => verdict != Valid && script == []
  {
    MutatedIsComplete(cfg, first, second, pod);
  }

  /** The volumes of a mutated pod that refer to secrets. */
  lemma MutatedVolumes(cfg: Config, review: Review, first: Cluster, second: Cluster, pod: PodValue, after: PodValue)
    requires Admit(cfg, review, first, second, pod) == (Mutated, after)
    ensures WellFormedExtras(cfg, pod.meta)
    ensures |after.volumes| == |pod.volumes| + if WantsJvm(cfg, pod) then 3 else 2
    ensures after.volumes[|pod.volumes|] == CaVolumes(cfg, pod.meta, RootName(first, pod))[0]
    ensures WantsJvm(cfg, pod) ==>
              after.volumes[|pod.volumes| + 2] == TruststoreVolume(cfg, pod.meta, RootName(second, pod))
  {
    MutatedIsComplete(cfg, first, second, pod);
    assert after.volumes == pod.volumes + AddedVolumes(cfg, pod, RootName(first, pod), RootName(second, pod));
  }

  /** A mutated pod is accepted exactly when the validator finds a root too. Its first request is then for the secret
      and the keys that the CA volume projects exactly when this root is called like the one that the mutator found
      first, if any keys are configured; and the truststore volume, which is added only together with a request for
      a certificate, names the secret of that certificate exactly when the root is called like the one that the
      mutator found second. */
  lemma ReferencesAreRequested(cfg: Config, data: Data, issuerName: string, review: Review, first: Cluster,
                               second: Cluster, third: Cluster, pod: PodValue, after: PodValue, verdict: Verdict,
                               script: seq<Send>)
    requires forall key :: key in data <==> key in cfg.caSecret.keys
    requires review.operation == Create && !review.dryRun
    requires Admit(cfg, review, first, second, pod) == (Mutated, after)
    requires Plan(SettingsFor(cfg, data), review, third, after.meta) == (verdict, script)
    ensures !review.cancelled && review.isPod && RootOf(first, AsObject(pod.meta)).Root?
    ensures verdict == Valid <==> RootOf(third, AsObject(pod.meta)).Root?
    ensures |script| == if verdict != Valid then 0 else if cfg.extractor.IsJvmEnabled(pod.meta) then 2 else 1
    ensures |after.volumes| == |pod.volumes| + if WantsJvm(cfg, pod) then 3 else 2
    ensures after.volumes[|pod.volumes|].name == cfg.extractor.SecretVolumeName(pod.meta)
    ensures verdict == Valid ==>
              && script[0].ToCreator? && script[0].req.kvs == data && script[0].req.namespace == review.namespace
              && script[0].req.name == CaSecretName(cfg.caSecret, RootName(third, pod))
              && (ProjectsFrom(cfg, after.volumes[|pod.volumes|], script[0].req) <==>
                    cfg.caSecret.keys == [] || RootName(first, pod) == RootName(third, pod))
    ensures |script| == 2 ==>
              && script[1].ToCertCreator?
              && script[1].info.namespace == review.namespace && script[1].info.podName == RootName(third, pod)
    ensures WantsJvm(cfg, pod) ==>
              var volume := after.volumes[|pod.volumes| + 2];
              && volume.name == TRUSTSTORE_VOLUME_NAME
              && volume.source.FromSecret?
              && (verdict == Valid ==>
                    && |script| == 2
                    && (volume.source.secret == CertificateFor(issuerName, script[1].info).secretName <==>
                          RootName(second, pod) == RootName(third, pod)))
  {
    MutatedIsPlanned(cfg, data, review, first, second, third, pod, after);
    MutatedVolumes(cfg, review, first, second, pod, after);
    if verdict == Valid {
      CaVolumeProjects(cfg, data, pod, RootName(first, pod), RootName(third, pod), script[0].req);
    }
    TruststoreNames(RootName(second, pod), RootName(third, pod));
  }

  lemma CaVolumeProjects(cfg: Config, data: Data, pod: PodValue, rootName: string, otherName: string,
                         req: CreationRequest)
    requires WellFormedExtras(cfg, pod.meta)
    requires forall key :: key in data <==> key in cfg.caSecret.keys
    requires req.kvs == data && req.name == CaSecretName(cfg.caSecret, otherName)
    ensures ProjectsFrom(cfg, CaVolumes(cfg, pod.meta, rootName)[0], req) <==>
              cfg.caSecret.keys == [] || rootName == otherName
  {
    SourcesAreComplete(cfg, pod.meta, rootName);
    CaNames(cfg.caSecret, rootName, otherName);
    var sources := CaVolumes(cfg, pod.meta, rootName)[0].source.sources;
    forall i | 0 <= i < |cfg.caSecret.keys|
      ensures sources[i].secret == CaSecretName(cfg.caSecret, rootName) && |sources[i].items| == 1
      ensures sources[i].items[0].key in req.kvs
    {
      assert cfg.caSecret.keys[i] in cfg.caSecret.keys;
    }
    if cfg.caSecret.keys != [] {
      assert sources[0].secret == CaSecretName(cfg.caSecret, rootName);
    }
  }

  /** The pod that the validator gets: the mutated one if a mutation was reported. */
  function Seen(cfg: Config, review: Review, first: Cluster, second: Cluster, pod: PodValue): PodValue {
    var (outcome, after) := Admit(cfg, review, first, second, pod);
    if outcome == Mutated then after else pod
  }

  /** Which enabled pods get past both webhooks without their CA container, whatever each of the three owner lookups
      finds: unless the mutator panicked or did not end, a pod is accepted exactly when the validator finds its root,
      and it is then without the container exactly if it came without one and was created in kube-system or lost one
      of the lookups of the mutator. */
  lemma SlipsThroughExactly(cfg: Config, data: Data, review: Review, first: Cluster, second: Cluster, third: Cluster,
                            pod: PodValue)
    requires !review.cancelled && review.isPod && review.operation == Create
    requires cfg.extractor.IsInjectionEnabled(pod.meta)
    requires var outcome := Admit(cfg, review, first, second, pod).0; !outcome.Panicked? && !outcome.Overflowed?
    ensures var seen := Seen(cfg, review, first, second, pod);
            var accepted := Plan(SettingsFor(cfg, data), review, third, seen.meta).0 == Valid;
            && (accepted <==> RootOf(third, AsObject(pod.meta)).Root?)
            && (accepted && !HasInitContainer(seen) <==>
                  && accepted && !HasInitContainer(pod)
                  && (|| review.namespace == "kube-system"
                      || !RootOf(first, AsObject(pod.meta)).Root?
                      || (WantsJvm(cfg, pod) && !RootOf(second, AsObject(pod.meta)).Root?)))
  {
    MutatedUnlessLost(cfg, review, first, second, pod);
    if Admit(cfg, review, first, second, pod).0 == Mutated {
      MutatedHasInitContainer(cfg, first, second, pod);
    }
  }

  /** No enabled pod gets past both webhooks without its CA container on a cluster that does not change, except in
      kube-system: unless the mutator panicked, a pod is accepted exactly when everything it reaches can be fetched
      and holds no cycle, and it is then without the container exactly in kube-system, if it came without one. */
  lemma NothingSlipsThrough(cfg: Config, data: Data, review: Review, c: Cluster, pod: PodValue, after: PodValue)
    requires !review.cancelled && review.isPod && review.operation == Create
    requires cfg.extractor.IsInjectionEnabled(pod.meta) && Terminates(c, AsObject(pod.meta))
    requires var (outcome, result) := Admit(cfg, review, c, c, pod); !outcome.Panicked? && after == result
    ensures var accepted := Plan(SettingsFor(cfg, data), review, c, after.meta).0 == Valid;
            && (accepted <==> Fetchable(c, AsObject(pod.meta)) && Acyclic(c, AsObject(pod.meta)))
            && (accepted && !HasInitContainer(after) <==>
                  accepted && review.namespace == "kube-system" && !HasInitContainer(pod))
  {
    SucceedsExactly(c, AsObject(pod.meta));
    DepthSuffices(c, AsObject(pod.meta));
    StableOutcome(cfg, review, c, pod);
    SlipsThroughExactly(cfg, data, review, c, c, c, pod);
  }

  /** A JVM pod whose owner the mutator fails to get, and the validator does not, slips through. */
  lemma LookupFailsInMutator(cfg: Config, data: Data, review: Review)
    requires Applies(cfg, review, JvmPod(cfg.extractor).meta) && review.operation == Create
    ensures var pod := JvmPod(cfg.extractor);
            && Admit(cfg, review, map[], map[], pod) == (Warned(WARN_CA), pod)
            && Plan(SettingsFor(cfg, data), review, map[Target(JOB_A) := Object("a", [])], pod.meta).0 == Valid
            && !HasInitContainer(pod)
  {
    var pod := JvmPod(cfg.extractor);
    var without: Cluster, with: Cluster := map[], map[Target(JOB_A) := Object("a", [])];
    assert AsObject(pod.meta).owners[1..] == [];
    assert RootOf(without, AsObject(pod.meta)) == Failed(GetFailed(JOB_A));
    assert Resolve(with, with[Target(JOB_A)], Some(JOB_A), |with|) == Root(JOB_A);
    assert Scan(with, [JOB_A], None, |with|) == Root(JOB_A);
    assert RootOf(with, AsObject(pod.meta)) == Root(JOB_A);
  }

  /** In kube-system the mutator leaves every pod alone, yet the validator still asks for its secret. */
  lemma KubeSystemIsStillAskedFor(cfg: Config, data: Data, review: Review, first: Cluster, second: Cluster, c: Cluster,
                                  pod: PodValue)
    requires review.namespace == "kube-system" && !review.cancelled && review.isPod
    requires review.operation == Create && !review.dryRun
    requires cfg.extractor.IsInjectionEnabled(pod.meta)
    requires Fetchable(c, AsObject(pod.meta)) && Acyclic(c, AsObject(pod.meta))
    ensures Admit(cfg, review, first, second, pod) == (Untouched, pod)
    ensures var script := Plan(SettingsFor(cfg, data), review, c, pod.meta).1;
            && |script| > 0
            && script[0].ToCreator?
            && script[0].req.name == CaSecretName(cfg.caSecret, RootName(c, pod))
            && script[0].req.namespace == "kube-system"
            && script[0].req.kvs == data
  {
    SucceedsExactly(c, AsObject(pod.meta));
  }

  // ------------------------------------------------------------------ lifecycle

  /** The reviews of one pod's creation and deletion. */
  predicate SameLife(create: Review, delete: Review) {
    && create.operation == Create && delete.operation == Delete
    && create.namespace == delete.namespace
    && !create.cancelled && !delete.cancelled && create.isPod && delete.isPod
    && !create.dryRun && !delete.dryRun
  }

  /** How the removal of a pod's secret is provided for when the pod is created and deleted. For a pod without
      owners, the deletion asks for exactly the secret that the creation asked for, which has no owner; a pod with
      owners never asks for a deletion, and its secret is owned by the root exactly when the root reference has a
      UID. So at least one of the two is provided for exactly when the pod has no owners or its root reference has
      a UID, and for one pod never both. */
  lemma CleanupIsAskedFor(settings: Settings, create: Review, delete: Review, c: Cluster, meta: Meta)
    requires SameLife(create, delete)
    requires settings.extractor.IsInjectionEnabled(meta) && RootOf(c, AsObject(meta)).Root?
    ensures var root := RootOf(c, AsObject(meta)).ref;
            var created, deleted := Plan(settings, create, c, meta).1, Plan(settings, delete, c, meta).1;
            && |created| > 0 && created[0].ToCreator?
            && var req := created[0].req;
               && (|meta.owners| == 0 ==>
                     && deleted == [ToDeleter(DeletionRequest(req.name, req.namespace))]
                     && SecretFor(req).owners == [])
               && (|meta.owners| > 0 ==>
                     deleted == [] && SecretFor(req).owners == if root.uid != "" then [root] else [])
               && (|meta.owners| > 0 && AllHaveUid(c, AsObject(meta)) ==> SecretFor(req).owners == [root])
               && (deleted != [] || SecretFor(req).owners != [] <==> |meta.owners| == 0 || root.uid != "")
               && !(deleted != [] && SecretFor(req).owners != [])
  {
    RootUid(c, AsObject(meta));
  }

  /** A reference as the owners of an object: only with a UID. */
  function OwnersOf(root: OwnerRef): seq<OwnerRef> {
    if root.uid != "" then [root] else []
  }

  /** The three objects of a JVM pod have the same owners: the root that the validator found, if its reference has a
      UID, and otherwise none. */
  lemma JvmObjectsShareOwner(settings: Settings, issuerName: string, review: Review, c: Cluster, meta: Meta)
    requires review.operation == Create && !review.dryRun && !review.cancelled && review.isPod
    requires settings.extractor.IsInjectionEnabled(meta) && settings.extractor.IsJvmEnabled(meta)
    requires RootOf(c, AsObject(meta)).Root?
    ensures var script := Plan(settings, review, c, meta).1;
            var owners := OwnersOf(RootOf(c, AsObject(meta)).ref);
            && |script| == 2 && script[0].ToCreator? && script[1].ToCertCreator?
            && SecretFor(script[0].req).owners == owners
            && SecretFor(PasswordRequest(script[1].info)).owners == owners
            && CertificateFor(issuerName, script[1].info).owners == owners
  {
  }

  /** Two pods share a secret exactly when their roots have the same name in the same namespace. */
  lemma SharedSecretExactly(settings: Settings, one: Review, other: Review, root: OwnerRef, otherRoot: OwnerRef)
    ensures KeyOf(CaRequest(settings, one, root)) == KeyOf(CaRequest(settings, other, otherRoot)) <==>
              root.name == otherRoot.name && one.namespace == other.namespace
  {
    CaNames(settings.caSecret, root.name, otherRoot.name);
  }

  /** Across pods a secret can be both owned and asked to be deleted: the deletion of a pod without owners asks for
      that of the secret of another pod exactly when it is called like that pod's root, in the same namespace; kinds
      and UIDs do not enter the name. */
  lemma DeletionHitsOthersExactly(settings: Settings, delete: Review, meta: Meta, create: Review, c: Cluster,
                                  other: Meta)
    requires SameLife(create.(namespace := delete.namespace), delete)
    requires settings.extractor.IsInjectionEnabled(meta) && settings.extractor.IsInjectionEnabled(other)
    requires |meta.owners| == 0 && RootOf(c, AsObject(other)).Root?
    ensures var root := RootOf(c, AsObject(other)).ref;
            var created, deleted := Plan(settings, create, c, other).1, Plan(settings, delete, c, meta).1;
            && |created| > 0 && created[0].ToCreator?
            && var req := created[0].req;
               && (deleted == [ToDeleter(DeletionRequest(req.name, req.namespace))] <==>
                     meta.name == root.name && delete.namespace == create.namespace)
               && SecretFor(req).owners == if root.uid != "" then [root] else []
  {
    var root := RootOf(c, AsObject(other)).ref;
    SharedSecretExactly(settings, delete, create, OwnerRef("", meta.name, ""), root);
    assert Plan(settings, delete, c, meta).1
        == [ToDeleter(DeletionRequest(CaSecretName(settings.caSecret, meta.name), delete.namespace))];
  }

  /** Dry runs send nothing. */
  lemma DryRunsSendNothing(settings: Settings, review: Review, c: Cluster, meta: Meta)
    requires review.dryRun
    ensures Plan(settings, review, c, meta).1 == []
    ensures Plan(settings, review, c, meta).0 == Plan(settings, review.(dryRun := false), c, meta).0
  {
  }

  // ------------------------------------------------------------------ end to end

  /** The messages of one call of Validate. */
  ghost predicate Planned(settings: Settings, script: seq<Send>) {
    exists review, c, meta :: script == Plan(settings, review, c, meta).1
  }

  ghost predicate AllPlanned(settings: Settings, s: State) {
    forall h :: 0 <= h < |s.handlers| ==> Planned(settings, s.handlers[h].script)
  }

  lemma PlannedRequests(settings: Settings, script: seq<Send>)
    requires Planned(settings, script)
    ensures forall i :: 0 <= i < |script| && script[i].ToCreator? ==> script[i].req.kvs == settings.caSecretData
  {
    var review, c, meta :| script == Plan(settings, review, c, meta).1;
  }

  /** The call for this job was carried out, nobody removed the object afterwards, and nobody but the workers stored
      one of that name. */
  ghost predicate Settled(s: State, job: Job, kind: Kind, key: ObjectKey) {
    && (forall k: nat :: k < |s.log| && s.log[k].Done? && s.log[k].job == job ==>
          Writes(s.log[k].act, kind, key) && KeptFrom(Acts(s.log), kind, key, k))
    && NotPlanted(s, kind, key)
  }

  ghost predicate NotPlanted(s: State, kind: Kind, key: ObjectKey) {
    forall k :: 0 <= k < |s.log| ==> !Plants(ActOf(s.log[k]), kind, key)
  }

  /** Nobody but the workers touches the object, and their calls for it are carried out. */
  ghost predicate Untroubled(s: State, kind: Kind, key: ObjectKey) {
    forall k :: 0 <= k < |s.log| ==> Spares(ActOf(s.log[k]), kind, key)
  }

  predicate Spares(act: Act, kind: Kind, key: ObjectKey) {
    match act
    case CreateSecret(req, fault) => kind.SecretKind? && KeyOf(req) == key ==> Applied(fault)
    case DeleteSecret(del, fault) =>
      kind.SecretKind? && ObjectKey(del.namespace, del.name) == key ==> Applied(fault)
    case CreateCertificate(_, info, fault) =>
      kind.CertificateKind? && ObjectKey(info.namespace, info.podName) == key ==> Applied(fault)
    case Foreign(SecretChange(changed, _)) => kind.SecretKind? ==> changed != key
    case Foreign(CertificateChange(changed, _)) => kind.CertificateKind? ==> changed != key
    case Nothing => true
  }

  /** No message asks for the deletion of this secret. */
  ghost predicate NoDeletionNamed(s: State, key: ObjectKey) {
    forall h, i :: 0 <= h < |s.handlers| && 0 <= i < |s.handlers[h].script|
                   && s.handlers[h].script[i].ToDeleter? ==>
      ObjectKey(s.handlers[h].script[i].del.namespace, s.handlers[h].script[i].del.name) != key
  }

  /** No certificate message asks for a password secret of this name. */
  ghost predicate NoPasswordNamed(s: State, key: ObjectKey) {
    forall h, i :: 0 <= h < |s.handlers| && 0 <= i < |s.handlers[h].script|
                   && s.handlers[h].script[i].ToCertCreator? ==>
      KeyOf(PasswordRequest(s.handlers[h].script[i].info)) != key
  }

  /** No message asks for a CA secret of this name. */
  ghost predicate NoCaNamed(s: State, key: ObjectKey) {
    forall h, i :: 0 <= h < |s.handlers| && 0 <= i < |s.handlers[h].script|
                   && s.handlers[h].script[i].ToCreator? ==>
      KeyOf(s.handlers[h].script[i].req) != key
  }

  /** At rest, the object of a settled job is stored, as the first write of its name since the last removal asked
      for; n is the position of that write. */
  lemma SettledIsStored(issuerName: string, steps: seq<Step>, s: State, h: nat, i: nat, job: Job, kind: Kind,
                        key: ObjectKey) returns (n: nat)
    requires AtRest(issuerName, steps, s)
    requires h < |s.handlers| && i < |s.handlers[h].script| && job in JobsOf(s.handlers[h].script[i], h, i)
    requires Settled(s, job, kind, key)
    ensures FirstWrite(Acts(s.log), kind, key, n)
    ensures Entry(s.api, kind, key) == Some(Asks(Acts(s.log)[n]))
    ensures s.log[n].Done? && Asked(s, s.log[n].job, s.log[n].act) && Acts(s.log)[n] == s.log[n].act
  {
    var acts := Acts(s.log);
    var k := EverythingOnce(issuerName, steps, h, i, job);
    assert acts[k] == s.log[k].act;
    n := EarliestKeptWrite(acts, kind, key, k);
    FirstWriterWins(acts, kind, key);
    InvReached(issuerName, steps);
    assert acts[n] == ActOf(s.log[n]);
  }

  /** At rest, a secret of the name of a planned request is stored, and it holds the CA data exactly when the first
      write of the name was for a CA secret, or for a password whose secret would be that data; n is the position of
      that write. It was for a CA secret if no password request of this run bears the name. */
  lemma CaSecretExactly(settings: Settings, issuerName: string, steps: seq<Step>, s: State, h: nat, i: nat)
    returns (n: nat)
    requires AtRest(issuerName, steps, s)
    requires h < |s.handlers| && i < |s.handlers[h].script| && s.handlers[h].script[i].ToCreator?
    requires AllPlanned(settings, s)
    requires Settled(s, CaJob(h, i), SecretKind, KeyOf(s.handlers[h].script[i].req))
    ensures var key := KeyOf(s.handlers[h].script[i].req);
            && FirstWrite(Acts(s.log), SecretKind, key, n) && s.log[n].Done?
            && key in s.api.secrets
            && var job := s.log[n].job;
               && Sent(s, job.h, job.i)
               && (s.api.secrets[key].data == settings.caSecretData <==>
                     (match Message(s, job.h, job.i)
                      case ToCreator(_) => true
                      case ToCertCreator(info) => PasswordRequest(info).kvs == settings.caSecretData
                      case ToDeleter(_) => false))
               && (NoPasswordNamed(s, key) ==> Message(s, job.h, job.i).ToCreator?)
  {
    var key := KeyOf(s.handlers[h].script[i].req);
    n := SettledIsStored(issuerName, steps, s, h, i, CaJob(h, i), SecretKind, key);
    var job := s.log[n].job;
    if job.CaJob? {
      PlannedRequests(settings, s.handlers[job.h].script);
    }
  }

  /** The secret and the key of a projection are in the store, and the secret holds this data. */
  predicate Resolves(api: Api, namespace: string, source: Projection, data: Data) {
    var key := ObjectKey(namespace, source.secret);
    && |source.items| == 1
    && key in api.secrets
    && api.secrets[key].data == data
    && source.items[0].key in data
  }

  lemma StoredBundleResolves(cfg: Config, volume: Volume, req: CreationRequest, api: Api)
    requires ProjectsFrom(cfg, volume, req)
    requires KeyOf(req) in api.secrets && api.secrets[KeyOf(req)].data == req.kvs
    ensures forall i :: 0 <= i < |cfg.caSecret.keys| ==>
              Resolves(api, req.namespace, volume.source.sources[i], req.kvs)
  {
  }

  /** The promise of the injector: once the program has come to rest after admitting a mutated pod, among any
      other admissions, every secret and key that the CA volume of the pod projects by default is in the store,
      with the collected CA data, if the validator found a root of the name that the mutator found first, the call
      for this pod was carried out, nobody removed the secret afterwards or stored one of that name, and no password
      request of the run bears it. */
  lemma ProjectionsResolve(cfg: Config, data: Data, issuerName: string, steps: seq<Step>, s: State, h: nat,
                           review: Review, first: Cluster, second: Cluster, third: Cluster, pod: PodValue,
                           after: PodValue)
    requires forall key :: key in data <==> key in cfg.caSecret.keys
    requires review.operation == Create && !review.dryRun
    requires Admit(cfg, review, first, second, pod) == (Mutated, after)
    requires RootOf(third, AsObject(pod.meta)).Root? && RootName(first, pod) == RootName(third, pod)
    requires AtRest(issuerName, steps, s) && h < |s.handlers|
    requires s.handlers[h].script == Plan(SettingsFor(cfg, data), review, third, after.meta).1
    requires AllPlanned(SettingsFor(cfg, data), s)
    requires var key := ObjectKey(review.namespace, CaSecretName(cfg.caSecret, RootName(first, pod)));
             Settled(s, CaJob(h, 0), SecretKind, key) && NoPasswordNamed(s, key)
    ensures |after.volumes| > |pod.volumes|
    ensures var source := after.volumes[|pod.volumes|].source;
            && source.Projected?
            && |cfg.caSecret.keys| <= |source.sources|
            && forall i :: 0 <= i < |cfg.caSecret.keys| ==>
                 Resolves(s.api, review.namespace, source.sources[i], data)
  {
    var (verdict, script) := Plan(SettingsFor(cfg, data), review, third, after.meta);
    ReferencesAreRequested(cfg, data, issuerName, review, first, second, third, pod, after, verdict, script);
    var n := CaSecretExactly(SettingsFor(cfg, data), issuerName, steps, s, h, 0);
    StoredBundleResolves(cfg, after.volumes[|pod.volumes|], script[0].req, s.api);
  }

  /** At rest, a certificate of the requested name is stored that refers to the truststore secret and the password
      secret that were planned for it, under the conditions of a settled job. */
  lemma CertificateIsStored(issuerName: string, steps: seq<Step>, s: State, h: nat, i: nat)
    requires AtRest(issuerName, steps, s)
    requires h < |s.handlers| && i < |s.handlers[h].script| && s.handlers[h].script[i].ToCertCreator?
    requires var info := s.handlers[h].script[i].info;
             Settled(s, CertificateJob(h, i), CertificateKind, ObjectKey(info.namespace, info.podName))
    ensures var info := s.handlers[h].script[i].info;
            var key := ObjectKey(info.namespace, info.podName);
            && key in s.api.certificates
            && s.api.certificates[key].secretName == CertificateFor(issuerName, info).secretName
            && s.api.certificates[key].passwordSecretName == CertificateFor(issuerName, info).passwordSecretName
            && s.api.certificates[key].passwordKey == CertificateFor(issuerName, info).passwordKey
  {
    var info := s.handlers[h].script[i].info;
    var key := ObjectKey(info.namespace, info.podName);
    var n := SettledIsStored(issuerName, steps, s, h, i, CertificateJob(h, i), CertificateKind, key);
  }

  /** And a certificate for the root that the validator found is in the store, if the call for this pod was carried
      out, nobody removed the certificate afterwards and nobody else stored one; the truststore volume of the pod
      names its secret exactly when the mutator found a root of the same name in its second lookup. */
  lemma TruststoreResolves(cfg: Config, data: Data, issuerName: string, steps: seq<Step>, s: State, h: nat,
                           review: Review, first: Cluster, second: Cluster, third: Cluster, pod: PodValue,
                           after: PodValue)
    requires forall key :: key in data <==> key in cfg.caSecret.keys
    requires review.operation == Create && !review.dryRun
    requires Admit(cfg, review, first, second, pod) == (Mutated, after) && WantsJvm(cfg, pod)
    requires RootOf(third, AsObject(pod.meta)).Root?
    requires AtRest(issuerName, steps, s) && h < |s.handlers|
    requires s.handlers[h].script == Plan(SettingsFor(cfg, data), review, third, after.meta).1
    requires Settled(s, CertificateJob(h, 1), CertificateKind, ObjectKey(review.namespace, RootName(third, pod)))
    ensures |after.volumes| == |pod.volumes| + 3
    ensures var key := ObjectKey(review.namespace, RootName(third, pod));
            var volume := after.volumes[|pod.volumes| + 2];
            && key in s.api.certificates
            && volume.source.FromSecret?
            && (volume.source.secret == s.api.certificates[key].secretName <==>
                  RootName(second, pod) == RootName(third, pod))
  {
    var (verdict, script) := Plan(SettingsFor(cfg, data), review, third, after.meta);
    ReferencesAreRequested(cfg, data, issuerName, review, first, second, third, pod, after, verdict, script);
    CertificateIsStored(issuerName, steps, s, h, 1);
  }

  /** What the password reference of a certificate resolves to at rest, if the call was carried out, nobody removed
      the secret afterwards and nobody else stored one of that name: what the first write of the name since the last
      removal asked for, at position n of the log. That was a password request for the same root or a request for a
      CA secret of this name; the former if there is none such in the run. A password is this message's own exactly
      when the two are the same. A CA secret holds the collected data, so if that has no key "password", the
      reference finds its key exactly when the first write was for a password. */
  lemma PasswordResolves(settings: Settings, issuerName: string, steps: seq<Step>, s: State, h: nat, i: nat)
    returns (n: nat)
    requires AtRest(issuerName, steps, s)
    requires h < |s.handlers| && i < |s.handlers[h].script| && s.handlers[h].script[i].ToCertCreator?
    requires Settled(s, PasswordJob(h, i), SecretKind, KeyOf(PasswordRequest(s.handlers[h].script[i].info)))
    ensures var info := s.handlers[h].script[i].info;
            var cert := CertificateFor(issuerName, info);
            var key := ObjectKey(cert.key.namespace, cert.passwordSecretName);
            && key in s.api.secrets
            && FirstWrite(Acts(s.log), SecretKind, key, n)
            && s.log[n].Done?
            && var job, data := s.log[n].job, s.api.secrets[key].data;
               && Sent(s, job.h, job.i)
               && (match Message(s, job.h, job.i)
                   case ToCertCreator(first) =>
                     && job.PasswordJob?
                     && first.podName == info.podName && first.namespace == info.namespace
                     && data == PasswordRequest(first).kvs
                     && cert.passwordKey in data
                     && Decode(data[cert.passwordKey]) == Some(BytesOf(first.truststorePassword))
                     && (data == PasswordRequest(info).kvs <==>
                           BytesOf(first.truststorePassword) == BytesOf(info.truststorePassword))
                   case ToCreator(req) =>
                     job.CaJob? && KeyOf(req) == key && data == req.kvs && !NoCaNamed(s, key)
                   case ToDeleter(_) => false)
               && (AllPlanned(settings, s) && job.CaJob? ==> data == settings.caSecretData)
               && (AllPlanned(settings, s) && cert.passwordKey !in settings.caSecretData ==>
                     (cert.passwordKey in data <==> job.PasswordJob?))
  {
    var info := s.handlers[h].script[i].info;
    var key := KeyOf(PasswordRequest(info));
    n := SettledIsStored(issuerName, steps, s, h, i, PasswordJob(h, i), SecretKind, key);
    var job := s.log[n].job;
    if job.PasswordJob? {
      var first := Message(s, job.h, job.i).info;
      SuffixInjective(first.podName, info.podName);
      SamePasswordExactly(first, info);
      DecodeOfEncode(BytesOf(first.truststorePassword));
    } else if AllPlanned(settings, s) {
      PlannedRequests(settings, s.handlers[job.h].script);
    }
  }

  lemma SamePasswordExactly(one: CertInfo, other: CertInfo)
    ensures PasswordRequest(one).kvs == PasswordRequest(other).kvs <==>
              BytesOf(one.truststorePassword) == BytesOf(other.truststorePassword)
  {
    EncodeInjective(BytesOf(one.truststorePassword), BytesOf(other.truststorePassword));
    assert PasswordRequest(one).kvs["password"] == Encode(BytesOf(one.truststorePassword));
    assert PasswordRequest(other).kvs["password"] == Encode(BytesOf(other.truststorePassword));
  }

  // ------------------------------------------------------------------ the store in every run

  /** The counters in every state of every interleaving, under all faults and interference. */
  lemma CountersInEveryRun(issuerName: string, steps: seq<Step>, s: State, worker: Worker, namespace: string)
    requires Reached(issuerName, steps, s)
    ensures |SecretsIn(s.api, namespace)|
         == SecretCounter(s.api, Created, namespace) - SecretCounter(s.api, Deleted, namespace)
            + TotalDrift(EMPTY_API, Acts(s.log), namespace)
    ensures (forall k :: 0 <= k < |s.log| ==> Honest(ActOf(s.log[k]))) ==>
              TotalDrift(EMPTY_API, Acts(s.log), namespace) == 0
    ensures CounterSum(worker, s.api.metrics, namespace) == ItemsOf(worker, Acts(s.log), namespace)
    ensures forall counter, kind ::
              Reading(s.api.metrics, Series(counter, namespace, kind))
              == Tally(EMPTY_API, Acts(s.log), counter, namespace, kind)
  {
    InvReached(issuerName, steps);
    Conservation(EMPTY_API, Acts(s.log), namespace);
    assert SecretsIn(EMPTY_API, namespace) == {};
    CountersTellTheStore(Acts(s.log), namespace);
    CountersCountItems(worker, Acts(s.log), namespace);
    forall counter, kind
      ensures Reading(s.api.metrics, Series(counter, namespace, kind))
           == Tally(EMPTY_API, Acts(s.log), counter, namespace, kind)
    {
      CountersAreExact(Acts(s.log), counter, namespace, kind);
    }
  }

  /** And the objects: each holds what the first request for it since its last removal asked for, and it is gone
      exactly when every creation that was carried out is followed by a removal. */
  lemma ObjectsInEveryRun(issuerName: string, steps: seq<Step>, s: State, kind: Kind, key: ObjectKey)
    requires Reached(issuerName, steps, s) && NotPlanted(s, kind, key)
    ensures Entry(s.api, kind, key).Some? <==> exists n: nat :: FirstWrite(Acts(s.log), kind, key, n)
    ensures forall n: nat :: FirstWrite(Acts(s.log), kind, key, n) ==>
              Entry(s.api, kind, key) == Some(Asks(Acts(s.log)[n]))
    ensures Entry(s.api, kind, key).None? <==>
              forall n: nat :: n < |s.log| && Writes(Acts(s.log)[n], kind, key) ==>
                RemovedAfter(Acts(s.log), kind, key, n)
  {
    InvReached(issuerName, steps);
    FirstWriterWins(Acts(s.log), kind, key);
    GoneExactly(Acts(s.log), kind, key);
  }

  // ------------------------------------------------------------------ certificates

  /** The certificate that a run with this issuer makes for a JVM pod: issued by it, named like the root, for one DNS
      name of at most 63 characters, with the truststore and the password in the secrets of the root, and owned by the
      root. The DNS name is the end of the annotated one, or of the name made of root, namespace and domain. */
  ghost predicate CertificateOfPod(cert: Certificate, settings: Settings, issuerName: string, review: Review,
                                   root: OwnerRef, meta: Meta) {
    var e := settings.extractor;
    var full := Note(e, meta, "jvm-common-name",
                     root.name + "." + review.namespace + "." + if e.dnsDomain != "" then e.dnsDomain else e.domain);
    && cert.key == ObjectKey(review.namespace, root.name)
    && cert.issuerName == issuerName
    && cert.secretName == root.name + "-truststore-cert"
    && cert.passwordSecretName == root.name + "-truststore-password" && cert.passwordKey == "password"
    && cert.owners == OwnersOf(root)
    && cert.dnsNames == [cert.commonName]
    && |cert.commonName| == (if |full| < 63 then |full| else 63)
    && cert.commonName == full[|full| - |cert.commonName|..]
  }

  lemma PlannedCertificate(settings: Settings, issuerName: string, review: Review, c: Cluster, meta: Meta)
    requires |Plan(settings, review, c, meta).1| == 2
    ensures var info := Plan(settings, review, c, meta).1[1];
            && RootOf(c, AsObject(meta)).Root?
            && info.ToCertCreator?
            && CertificateOfPod(CertificateFor(issuerName, info.info), settings, issuerName, review,
                                RootOf(c, AsObject(meta)).ref, meta)
  {
  }

  /** In every state of every interleaving, a stored certificate that nobody else has stored was asked for by the
      message of the first write of its name since the last removal, at position n of the log. Issuer and DNS names are
      those of the run and of this message; if a validator planned it, the certificate is that of a JVM pod. */
  lemma CertificatesInEveryRun(settings: Settings, issuerName: string, steps: seq<Step>, s: State, key: ObjectKey)
    returns (n: nat)
    requires Reached(issuerName, steps, s) && NotPlanted(s, CertificateKind, key)
    requires key in s.api.certificates
    ensures FirstWrite(Acts(s.log), CertificateKind, key, n)
    ensures s.log[n].Done? && s.log[n].job.CertificateJob? && Sent(s, s.log[n].job.h, s.log[n].job.i)
    ensures var cert, message := s.api.certificates[key], Message(s, s.log[n].job.h, s.log[n].job.i);
            && message.ToCertCreator?
            && cert.issuerName == issuerName
            && cert.dnsNames == message.info.dnsNames && cert.commonName == cert.dnsNames[0]
            && (Planned(settings, s.handlers[s.log[n].job.h].script) ==>
                  exists review, c, meta ::
                    && s.handlers[s.log[n].job.h].script == Plan(settings, review, c, meta).1
                    && RootOf(c, AsObject(meta)).Root?
                    && CertificateOfPod(cert, settings, issuerName, review, RootOf(c, AsObject(meta)).ref, meta))
  {
    InvReached(issuerName, steps);
    IssuerKept(Init(issuerName), steps);
    FirstWriterWins(Acts(s.log), CertificateKind, key);
    n :| FirstWrite(Acts(s.log), CertificateKind, key, n);
    assert Acts(s.log)[n] == ActOf(s.log[n]);
    var job, act := s.log[n].job, s.log[n].act;
    assert Asked(s, job, act);
    var script := s.handlers[job.h].script;
    if Planned(settings, script) {
      var review, c, meta :| script == Plan(settings, review, c, meta).1;
      SecondIsForJvm(settings, review, c, meta, job.i);
      PlannedCertificate(settings, issuerName, review, c, meta);
    }
  }

  lemma SecondIsForJvm(settings: Settings, review: Review, c: Cluster, meta: Meta, i: nat)
    requires i < |Plan(settings, review, c, meta).1| && Plan(settings, review, c, meta).1[i].ToCertCreator?
    ensures i == 1 && |Plan(settings, review, c, meta).1| == 2
  {
  }

  /** No other message asks for a certificate of this name. */
  ghost predicate OnlyCertificate(s: State, key: ObjectKey, h: nat, i: nat) {
    forall g: nat, j: nat :: g < |s.handlers| && j < |s.handlers[g].script| && s.handlers[g].script[j].ToCertCreator? ==>
      var info := s.handlers[g].script[j].info;
      ObjectKey(info.namespace, info.podName) == key ==> g == h && j == i
  }

  /** At rest, the certificate of a JVM pod is stored with everything that was planned for the pod, its owner included,
      if the call was carried out, nobody removed or planted it and no other message asks for one of that name. */
  lemma OwnCertificateIsStored(settings: Settings, issuerName: string, steps: seq<Step>, s: State, h: nat,
                               review: Review, c: Cluster, meta: Meta)
    requires AtRest(issuerName, steps, s) && h < |s.handlers|
    requires s.handlers[h].script == Plan(settings, review, c, meta).1 && |s.handlers[h].script| == 2
    requires RootOf(c, AsObject(meta)).Root?
    requires var key := ObjectKey(review.namespace, RootOf(c, AsObject(meta)).ref.name);
             Settled(s, CertificateJob(h, 1), CertificateKind, key) && OnlyCertificate(s, key, h, 1)
    ensures var root := RootOf(c, AsObject(meta)).ref;
            var key := ObjectKey(review.namespace, root.name);
            && key in s.api.certificates
            && CertificateOfPod(s.api.certificates[key], settings, issuerName, review, root, meta)
  {
    PlannedCertificate(settings, issuerName, review, c, meta);
    OnlyCertificateIsStored(issuerName, steps, s, h, 1);
  }

  lemma OnlyCertificateIsStored(issuerName: string, steps: seq<Step>, s: State, h: nat, i: nat)
    requires AtRest(issuerName, steps, s)
    requires h < |s.handlers| && i < |s.handlers[h].script| && s.handlers[h].script[i].ToCertCreator?
    requires var key := CertificateFor(issuerName, s.handlers[h].script[i].info).key;
             Settled(s, CertificateJob(h, i), CertificateKind, key) && OnlyCertificate(s, key, h, i)
    ensures var cert := CertificateFor(issuerName, s.handlers[h].script[i].info);
            cert.key in s.api.certificates && s.api.certificates[cert.key] == cert
  {
    var key := CertificateFor(issuerName, s.handlers[h].script[i].info).key;
    var n := SettledIsStored(issuerName, steps, s, h, i, CertificateJob(h, i), CertificateKind, key);
    IssuerKept(Init(issuerName), steps);
    var job := s.log[n].job;
    assert s.handlers[job.h].script[job.i] == ToCertCreator(s.log[n].act.info);
  }

  // ------------------------------------------------------------------ what is never removed

  /** A job whose calls are carried out settles its object, if nobody else touches it and, for a secret, no message
      asks for its deletion. */
  lemma UntroubledSettles(issuerName: string, steps: seq<Step>, s: State, h: nat, i: nat)
    requires Reached(issuerName, steps, s)
    requires h < |s.handlers| && i < |s.handlers[h].script| && s.handlers[h].script[i].ToCertCreator?
    ensures var key := ObjectKey(s.handlers[h].script[i].info.namespace, s.handlers[h].script[i].info.podName);
            Untroubled(s, CertificateKind, key) ==> Settled(s, CertificateJob(h, i), CertificateKind, key)
    ensures var key := KeyOf(PasswordRequest(s.handlers[h].script[i].info));
            Untroubled(s, SecretKind, key) && NoDeletionNamed(s, key) ==>
              Settled(s, PasswordJob(h, i), SecretKind, key)
  {
    InvReached(issuerName, steps);
    forall k: nat | k < |s.log|
      ensures s.log[k].Done? ==> Asked(s, s.log[k].job, s.log[k].act)
    {
    }
  }

  /** The certificate and the password secret of a JVM pod without owners stay behind when the pod is deleted: they
      have no owner, and at rest after its creation and its deletion, among any other admissions, the certificate is
      stored if nobody else touches it and the calls for it are carried out, and so is the password secret if in
      addition the CA secret of the pod is called differently and no other handler asks for its deletion. */
  lemma JvmObjectsStayBehind(settings: Settings, issuerName: string, steps: seq<Step>, s: State, h: nat, d: nat,
                             create: Review, delete: Review, c: Cluster, meta: Meta)
    requires SameLife(create, delete) && |meta.owners| == 0
    requires settings.extractor.IsInjectionEnabled(meta) && settings.extractor.IsJvmEnabled(meta)
    requires AtRest(issuerName, steps, s) && h < |s.handlers| && d < |s.handlers|
    requires s.handlers[h].script == Plan(settings, create, c, meta).1
    requires s.handlers[d].script == Plan(settings, delete, c, meta).1
    ensures |s.handlers[h].script| == 2 && s.handlers[h].script[1].ToCertCreator?
    ensures var info := s.handlers[h].script[1].info;
            var certificate, password := ObjectKey(info.namespace, info.podName), KeyOf(PasswordRequest(info));
            && SecretFor(PasswordRequest(info)).owners == []
            && CertificateFor(issuerName, info).owners == []
            && (Untroubled(s, CertificateKind, certificate) ==> certificate in s.api.certificates)
            && (Untroubled(s, SecretKind, password)
                && !OwnNamesClash(settings.caSecret.name, meta.name)
                && NoOtherDeletes(s, password, d) ==>
                  password in s.api.secrets)
  {
    RootUid(c, AsObject(meta));
    var info := s.handlers[h].script[1].info;
    var certificate, password := ObjectKey(info.namespace, info.podName), KeyOf(PasswordRequest(info));
    UntroubledSettles(issuerName, steps, s, h, 1);
    if Untroubled(s, CertificateKind, certificate) {
      CertificateIsStored(issuerName, steps, s, h, 1);
    }
    if Untroubled(s, SecretKind, password) && !OwnNamesClash(settings.caSecret.name, meta.name)
       && NoOtherDeletes(s, password, d) {
      OwnNamesClashExactly(settings.caSecret, meta.name);
      var n := SettledIsStored(issuerName, steps, s, h, 1, PasswordJob(h, 1), SecretKind, password);
    }
  }

  ghost predicate NoOtherDeletes(s: State, key: ObjectKey, d: nat) {
    forall h, i :: 0 <= h < |s.handlers| && h != d && 0 <= i < |s.handlers[h].script|
                   && s.handlers[h].script[i].ToDeleter? ==>
      ObjectKey(s.handlers[h].script[i].del.namespace, s.handlers[h].script[i].del.name) != key
  }

  // ------------------------------------------------------------------ creation against deletion

  /** The two messages are the only ones that concern this secret. */
  ghost predicate OnlyPair(s: State, key: ObjectKey, g: nat, i: nat, d: nat, j: nat) {
    && NoPasswordNamed(s, key)
    && forall h: nat, e: nat :: h < |s.handlers| && e < |s.handlers[h].script| ==>
         && (s.handlers[h].script[e].ToCreator? && KeyOf(s.handlers[h].script[e].req) == key ==> h == g && e == i)
         && (s.handlers[h].script[e].ToDeleter?
             && ObjectKey(s.handlers[h].script[e].del.namespace, s.handlers[h].script[e].del.name) == key ==>
               h == d && e == j)
  }

  lemma {:induction false} DoneAtTwoPlaces(log: seq<Event>, job: Job, k: nat, l: nat)
    requires k < l < |log| && log[k].Done? && log[k].job == job && log[l].Done? && log[l].job == job
    ensures DoneCount(log, job) >= 2
  {
    var n := |log| - 1;
    if l < n {
      DoneAtTwoPlaces(log[..n], job, k, l);
    } else {
      DoneSomewhere(log[..n], job, k);
    }
  }

  lemma {:induction false} DoneSomewhere(log: seq<Event>, job: Job, k: nat)
    requires k < |log| && log[k].Done? && log[k].job == job
    ensures DoneCount(log, job) >= 1
  {
    if k < |log| - 1 {
      DoneSomewhere(log[..|log| - 1], job, k);
    }
  }

  /** The calls that write or remove the secret are those of the two messages. */
  lemma PairJobs(s: State, key: ObjectKey, g: nat, i: nat, d: nat, j: nat, n: nat)
    requires OnlyAsked(s) && OnlyPair(s, key, g, i, d, j) && Untroubled(s, SecretKind, key) && n < |s.log|
    ensures Writes(ActOf(s.log[n]), SecretKind, key) ==> s.log[n].Done? && s.log[n].job == CaJob(g, i)
    ensures Removes(ActOf(s.log[n]), SecretKind, key) ==> s.log[n].Done? && s.log[n].job == DeletionJob(d, j)
  {
    if s.log[n].Done? {
      var job, act := s.log[n].job, s.log[n].act;
      assert Asked(s, job, act);
      if act.CreateSecret? && KeyOf(act.req) == key {
        assert !job.PasswordJob?;
        assert s.handlers[job.h].script[job.i] == ToCreator(act.req);
      } else if act.DeleteSecret? && ObjectKey(act.del.namespace, act.del.name) == key {
        assert s.handlers[job.h].script[job.i] == ToDeleter(act.del);
      }
    }
  }

  /** A job that is done at most once is done at one place. */
  lemma OnePlace(log: seq<Event>, job: Job, k: nat, l: nat)
    requires DoneCount(log, job) <= 1
    requires k < |log| && l < |log| && log[k].Done? && log[k].job == job && log[l].Done? && log[l].job == job
    ensures k == l
  {
    if k < l {
      DoneAtTwoPlaces(log, job, k, l);
    } else if l < k {
      DoneAtTwoPlaces(log, job, l, k);
    }
  }

  /** At rest, the secret that one handler asked to create and another to delete is gone exactly when the API call
      for the creation came before that for the deletion; nothing orders the two calls. */
  lemma PairGoneExactly(issuerName: string, steps: seq<Step>, s: State, key: ObjectKey, g: nat, i: nat, d: nat, j: nat)
    returns (created: nat, deleted: nat)
    requires AtRest(issuerName, steps, s) && OnlyPair(s, key, g, i, d, j) && Untroubled(s, SecretKind, key)
    requires g < |s.handlers| && i < |s.handlers[g].script| && s.handlers[g].script[i].ToCreator?
    requires d < |s.handlers| && j < |s.handlers[d].script| && s.handlers[d].script[j].ToDeleter?
    requires KeyOf(s.handlers[g].script[i].req) == key
    requires s.handlers[d].script[j].del == DeletionRequest(key.name, key.namespace)
    ensures created < |s.log| && s.log[created].Done? && s.log[created].job == CaJob(g, i)
    ensures deleted < |s.log| && s.log[deleted].Done? && s.log[deleted].job == DeletionJob(d, j)
    ensures key !in s.api.secrets <==> created < deleted
  {
    InvReached(issuerName, steps);
    NothingTwice(issuerName, steps);
    created := EverythingOnce(issuerName, steps, g, i, CaJob(g, i));
    deleted := EverythingOnce(issuerName, steps, d, j, DeletionJob(d, j));
    var acts := Acts(s.log);
    assert acts[created] == ActOf(s.log[created]) && acts[deleted] == ActOf(s.log[deleted]);
    assert Writes(acts[created], SecretKind, key) && Removes(acts[deleted], SecretKind, key);
    forall n: nat | n < |s.log|
      ensures Writes(acts[n], SecretKind, key) <==> n == created
      ensures Removes(acts[n], SecretKind, key) <==> n == deleted
    {
      PairJobs(s, key, g, i, d, j, n);
      if s.log[n].Done? && s.log[n].job == s.log[created].job {
        OnePlace(s.log, CaJob(g, i), n, created);
      } else if s.log[n].Done? && s.log[n].job == s.log[deleted].job {
        OnePlace(s.log, DeletionJob(d, j), n, deleted);
      }
    }
    ObjectsInEveryRun(issuerName, steps, s, SecretKind, key);
    assert RemovedAfter(acts, SecretKind, key, created) <==> created < deleted;
  }
}
