/** Runs in which what one might expect of the program does not hold. Each is given for all messages or pods of its
    kind; the laws of PipelineLaws and Agreement say exactly when such a thing happens. */
module Scenarios {
  import opened Wrappers
  import opened Metadata
  import opened Owners
  import opened Pods
  import opened Injection
  import opened Mutator
  import opened MutationLaws
  import opened Workers
  import opened Validator
  import opened Pipeline
  import opened PipelineLaws
  import opened Agreement

  // ------------------------------------------------------------------ building runs

  /** No fault, and nobody else. */
  predicate Regular(act: Act) {
    match act
    case CreateSecret(_, fault) => fault.NoFault?
    case DeleteSecret(_, fault) => fault.NoFault?
    case CreateCertificate(_, _, fault) => fault.NoFault?
    case Foreign(_) => false
    case Nothing => true
  }

  ghost predicate Undisturbed(s: State) {
    forall k :: 0 <= k < |s.log| ==> Regular(ActOf(s.log[k]))
  }

  /** The steps lead from the start to this state, without faults and interference. */
  ghost predicate Calmly(issuerName: string, steps: seq<Step>, s: State) {
    Reached(issuerName, steps, s) && Undisturbed(s) && s.issuerName == issuerName
  }

  lemma Take(issuerName: string, steps: seq<Step>, s: State, step: Step) returns (longer: seq<Step>, after: State)
    requires Calmly(issuerName, steps, s) && Enabled(s, step) && Calm(step)
    ensures longer == steps + [step] && after == Next(s, step)
    ensures Calmly(issuerName, longer, after)
  {
    longer, after := steps + [step], Next(s, step);
    RunsFurther(Init(issuerName), steps, step);
  }

  lemma Start(issuerName: string)
    ensures Calmly(issuerName, [], Init(issuerName))
  {
  }

  predicate Idle(s: State) {
    s.creator.CreatorReady? && s.deleter.DeleterReady? && s.cert.CertReady?
  }

  /** The API after a message has been served with nothing in between. */
  function ServeMessage(api: Api, issuerName: string, message: Send): Api {
    match message
    case ToCreator(req) => Perform(api, CreateSecret(req, NoFault))
    case ToDeleter(del) => Perform(api, DeleteSecret(del, NoFault))
    case ToCertCreator(info) =>
      Perform(Perform(api, CreateSecret(PasswordRequest(info), NoFault)), CreateCertificate(issuerName, info, NoFault))
  }

  /** The API after the messages from position i on have been served in order. */
  function ServeFrom(api: Api, issuerName: string, script: seq<Send>, i: nat): Api
    requires i <= |script|
    decreases |script| - i
  {
    if i == |script| then api else ServeFrom(ServeMessage(api, issuerName, script[i]), issuerName, script, i + 1)
  }

  lemma ServesMessage(issuerName: string, steps: seq<Step>, s: State, h: nat) returns (longer: seq<Step>, after: State)
    requires Calmly(issuerName, steps, s) && Idle(s)
    requires h < |s.handlers| && s.handlers[h].pc < |s.handlers[h].script|
    ensures Calmly(issuerName, longer, after) && Idle(after)
    ensures after.handlers == s.handlers[h := s.handlers[h].(pc := s.handlers[h].pc + 1)]
    ensures after.api == ServeMessage(s.api, issuerName, s.handlers[h].script[s.handlers[h].pc])
  {
    longer, after := Take(issuerName, steps, s, SendNext(h));
    match s.handlers[h].script[s.handlers[h].pc]
    case ToCreator(req) =>
      longer, after := Take(issuerName, longer, after, CallCreate(NoFault));
    case ToDeleter(del) =>
      longer, after := Take(issuerName, longer, after, CallDelete(NoFault));
    case ToCertCreator(info) =>
      longer, after := Take(issuerName, longer, after, ForwardPassword);
      longer, after := Take(issuerName, longer, after, CallCreate(NoFault));
      longer, after := Take(issuerName, longer, after, CallCertify(NoFault));
  }

  lemma {:induction false} ServesScript(issuerName: string, steps: seq<Step>, s: State, h: nat)
    returns (longer: seq<Step>, after: State)
    requires Calmly(issuerName, steps, s) && Idle(s)
    requires h < |s.handlers| && s.handlers[h].pc <= |s.handlers[h].script|
    ensures Calmly(issuerName, longer, after) && Idle(after)
    ensures after.handlers == s.handlers[h := s.handlers[h].(pc := |s.handlers[h].script|)]
    ensures after.api == ServeFrom(s.api, issuerName, s.handlers[h].script, s.handlers[h].pc)
    decreases |s.handlers[h].script| - s.handlers[h].pc
  {
    if s.handlers[h].pc == |s.handlers[h].script| {
      longer, after := steps, s;
    } else {
      longer, after := ServesMessage(issuerName, steps, s, h);
      longer, after := ServesScript(issuerName, longer, after, h);
    }
  }

  /** Two handlers served one after the other. */
  lemma ServedInTurn(issuerName: string, first: seq<Send>, second: seq<Send>) returns (steps: seq<Step>, s: State)
    ensures AtRest(issuerName, steps, s) && Undisturbed(s)
    ensures s.handlers == [Handler(first, |first|), Handler(second, |second|)]
    ensures s.api == ServeFrom(ServeFrom(EMPTY_API, issuerName, first, 0), issuerName, second, 0)
  {
    Start(issuerName);
    steps, s := Take(issuerName, [], Init(issuerName), Arrive(first));
    steps, s := ServesScript(issuerName, steps, s, 0);
    assert s.handlers == [Handler(first, |first|)];
    steps, s := Take(issuerName, steps, s, Arrive(second));
    steps, s := ServesScript(issuerName, steps, s, 1);
  }

  /** What is stored stays stored as long as nobody asks for a deletion. */
  lemma {:induction false} ServingKeeps(api: Api, issuerName: string, script: seq<Send>, i: nat, key: ObjectKey)
    requires i <= |script| && key in api.secrets
    requires forall j :: 0 <= j < |script| ==> !script[j].ToDeleter?
    ensures var after := ServeFrom(api, issuerName, script, i);
            key in after.secrets && after.secrets[key] == api.secrets[key]
    decreases |script| - i
  {
    if i < |script| {
      ServingKeeps(ServeMessage(api, issuerName, script[i]), issuerName, script, i + 1, key);
    }
  }

  // ------------------------------------------------------------------ runs

  /** A deletion request that is received after the creation request can reach the API before it: the secret is
      then stored at rest, although both calls were carried out. */
  lemma DeletionOvertaken(issuerName: string, req: CreationRequest) returns (steps: seq<Step>, s: State)
    ensures AtRest(issuerName, steps, s) && Undisturbed(s)
    ensures s.handlers == [Handler([ToCreator(req)], 1), Handler([ToDeleter(DeletionRequest(req.name, req.namespace))], 1)]
    ensures |s.log| == 4
    ensures s.log[0] == Received(CaJob(0, 0)) && s.log[1] == Received(DeletionJob(1, 0))
    ensures KeyOf(req) in s.api.secrets
  {
    var del := DeletionRequest(req.name, req.namespace);
    Start(issuerName);
    steps, s := Take(issuerName, [], Init(issuerName), Arrive([ToCreator(req)]));
    steps, s := Take(issuerName, steps, s, SendNext(0));
    assert s.handlers == [Handler([ToCreator(req)], 1)];
    steps, s := Take(issuerName, steps, s, Arrive([ToDeleter(del)]));
    steps, s := Take(issuerName, steps, s, SendNext(1));
    steps, s := Take(issuerName, steps, s, CallDelete(NoFault));
    steps, s := Take(issuerName, steps, s, CallCreate(NoFault));
  }

  /** A certificate can be in the store while the password secret that it refers to is not. */
  lemma CertificateBeforePassword(issuerName: string, req: CreationRequest, info: CertInfo)
    returns (steps: seq<Step>, s: State)
    requires KeyOf(req) != KeyOf(PasswordRequest(info))
    ensures Reached(issuerName, steps, s) && Undisturbed(s)
    ensures s.handlers == [Handler([ToCreator(req), ToCertCreator(info)], 2)]
    ensures s.api.certificates == map[ObjectKey(info.namespace, info.podName) := CertificateFor(issuerName, info)]
    ensures ObjectKey(info.namespace, CertificateFor(issuerName, info).passwordSecretName) !in s.api.secrets
  {
    Start(issuerName);
    steps, s := Take(issuerName, [], Init(issuerName), Arrive([ToCreator(req), ToCertCreator(info)]));
    steps, s := ServesMessage(issuerName, steps, s, 0);
    assert s.api.secrets.Keys == {KeyOf(req)};
    steps, s := Take(issuerName, steps, s, SendNext(0));
    steps, s := Take(issuerName, steps, s, ForwardPassword);
    steps, s := Take(issuerName, steps, s, CallCertify(NoFault));
  }

  /** Two messages for one root with different passwords: the second certificate refers to the password of the
      first. */
  lemma SecondPasswordIsLost(issuerName: string, one: CertInfo, other: CertInfo) returns (steps: seq<Step>, s: State)
    requires one.podName == other.podName && one.namespace == other.namespace
    requires BytesOf(one.truststorePassword) != BytesOf(other.truststorePassword)
    ensures AtRest(issuerName, steps, s) && Undisturbed(s)
    ensures s.handlers == [Handler([ToCertCreator(one)], 1), Handler([ToCertCreator(other)], 1)]
    ensures var key := KeyOf(PasswordRequest(other));
            && key in s.api.secrets
            && s.api.secrets[key].data == PasswordRequest(one).kvs
            && s.api.secrets[key].data != PasswordRequest(other).kvs
  {
    steps, s := ServedInTurn(issuerName, [ToCertCreator(one)], [ToCertCreator(other)]);
    var between := ServeFrom(EMPTY_API, issuerName, [ToCertCreator(one)], 0);
    assert between == ServeMessage(EMPTY_API, issuerName, ToCertCreator(one));
    ServingKeeps(between, issuerName, [ToCertCreator(other)], 0, KeyOf(PasswordRequest(other)));
    SamePasswordExactly(one, other);
  }

  /** A JVM pod served first stores its password, and what is served after it without a deletion leaves it there. */
  lemma PasswordIsFirst(issuerName: string, req: CreationRequest, info: CertInfo, second: seq<Send>)
    returns (steps: seq<Step>, s: State)
    requires KeyOf(req) != KeyOf(PasswordRequest(info))
    requires forall j :: 0 <= j < |second| ==> !second[j].ToDeleter?
    ensures AtRest(issuerName, steps, s) && Undisturbed(s)
    ensures s.handlers == [Handler([ToCreator(req), ToCertCreator(info)], 2), Handler(second, |second|)]
    ensures var key := KeyOf(PasswordRequest(info));
            key in s.api.secrets && s.api.secrets[key].data == PasswordRequest(info).kvs
  {
    var first := [ToCreator(req), ToCertCreator(info)];
    steps, s := ServedInTurn(issuerName, first, second);
    var one := ServeMessage(EMPTY_API, issuerName, first[0]);
    var two := ServeMessage(one, issuerName, first[1]);
    assert two == ServeFrom(two, issuerName, first, 2) == ServeFrom(one, issuerName, first, 1);
    ServingKeeps(two, issuerName, second, 0, KeyOf(PasswordRequest(info)));
  }

  /** The secret of a projection is there, but the only key that it has is "password". */
  predicate FindsOnlyPassword(api: Api, namespace: string, source: Projection, data: Data) {
    var key := ObjectKey(namespace, source.secret);
    && |source.items| == 1
    && key in api.secrets
    && api.secrets[key].data.Keys == {"password"}
    && (source.items[0].key != "password" ==> !Resolves(api, namespace, source, data))
  }

  lemma BundleIsHidden(cfg: Config, volume: Volume, req: CreationRequest, api: Api)
    requires ProjectsFrom(cfg, volume, req)
    requires KeyOf(req) in api.secrets && api.secrets[KeyOf(req)].data.Keys == {"password"}
    ensures forall i :: 0 <= i < |cfg.caSecret.keys| ==>
              FindsOnlyPassword(api, req.namespace, volume.source.sources[i], req.kvs)
  {
  }

  /** What an earlier JVM pod asks for. */
  lemma JvmScript(settings: Settings, review: Review, c: Cluster, meta: Meta) returns (req: CreationRequest, info: CertInfo)
    requires review.operation == Create && !review.dryRun && !review.cancelled && review.isPod
    requires settings.extractor.IsInjectionEnabled(meta) && settings.extractor.IsJvmEnabled(meta)
    requires RootOf(c, AsObject(meta)).Root?
    ensures Plan(settings, review, c, meta).1 == [ToCreator(req), ToCertCreator(info)]
    ensures KeyOf(req) == ObjectKey(review.namespace, CaSecretName(settings.caSecret, RootOf(c, AsObject(meta)).ref.name))
    ensures info.namespace == review.namespace && info.podName == RootOf(c, AsObject(meta)).ref.name
    ensures KeyOf(PasswordRequest(info))
         == ObjectKey(review.namespace, PasswordSecretName(RootOf(c, AsObject(meta)).ref.name))
  {
    var root := RootOf(c, AsObject(meta)).ref;
    req, info := CaRequest(settings, review, root), InfoFor(settings, review, meta, root);
  }

  /** What a mutated pod asks for and projects. */
  lemma MutatedScript(cfg: Config, data: Data, review: Review, c: Cluster, pod: PodValue, after: PodValue)
    returns (script: seq<Send>, req: CreationRequest, volume: Volume)
    requires forall key :: key in data <==> key in cfg.caSecret.keys
    requires review.operation == Create && !review.dryRun
    requires Admit(cfg, review, c, c, pod) == (Mutated, after)
    ensures !review.cancelled && review.isPod
    ensures script == Plan(SettingsFor(cfg, data), review, c, after.meta).1
    ensures forall j :: 0 <= j < |script| ==> !script[j].ToDeleter?
    ensures KeyOf(req) == ObjectKey(review.namespace, CaSecretName(cfg.caSecret, RootName(c, pod))) && req.kvs == data
    ensures |after.volumes| > |pod.volumes| && volume == after.volumes[|pod.volumes|]
    ensures ProjectsFrom(cfg, volume, req)
  {
    var plan := Plan(SettingsFor(cfg, data), review, c, after.meta);
    script := plan.1;
    ReferencesAreRequested(cfg, data, "", review, c, c, c, pod, after, plan.0, script);
    req, volume := script[0].req, after.volumes[|pod.volumes|];
  }

  /** A pod whose CA secret is called like the password secret of an earlier JVM pod gets that password instead of
      its CA bundle: of all its default projections at most the one of the key "password" finds its key. */
  lemma ClashHidesTheBundle(cfg: Config, data: Data, issuerName: string, review: Review, c: Cluster,
                            earlier: Meta, pod: PodValue, after: PodValue)
    returns (steps: seq<Step>, s: State)
    requires forall key :: key in data <==> key in cfg.caSecret.keys
    requires review.operation == Create && !review.dryRun
    requires Admit(cfg, review, c, c, pod) == (Mutated, after)
    requires cfg.extractor.IsInjectionEnabled(earlier) && cfg.extractor.IsJvmEnabled(earlier)
    requires RootOf(c, AsObject(earlier)).Root? && RootOf(c, AsObject(earlier)).ref.name != RootName(c, pod)
    requires PasswordSecretName(RootOf(c, AsObject(earlier)).ref.name) == CaSecretName(cfg.caSecret, RootName(c, pod))
    ensures AtRest(issuerName, steps, s) && Undisturbed(s) && |s.handlers| == 2
    ensures s.handlers[0].script == Plan(SettingsFor(cfg, data), review, c, earlier).1
    ensures s.handlers[1].script == Plan(SettingsFor(cfg, data), review, c, after.meta).1
    ensures |after.volumes| > |pod.volumes| && after.volumes[|pod.volumes|].source.Projected?
    ensures var sources := after.volumes[|pod.volumes|].source.sources;
            && |cfg.caSecret.keys| <= |sources|
            && forall i :: 0 <= i < |cfg.caSecret.keys| ==>
                 FindsOnlyPassword(s.api, review.namespace, sources[i], data)
  {
    var script, req, volume := MutatedScript(cfg, data, review, c, pod, after);
    var earlierReq, info := JvmScript(SettingsFor(cfg, data), review, c, earlier);
    var root := RootOf(c, AsObject(earlier)).ref;
    SharedSecretExactly(SettingsFor(cfg, data), review, review, root, OwnerRef("", RootName(c, pod), ""));
    steps, s := PasswordInsteadOfCa(cfg, issuerName, earlierReq, info, script, req, volume);
  }

  lemma PasswordInsteadOfCa(cfg: Config, issuerName: string, earlierReq: CreationRequest, info: CertInfo,
                            script: seq<Send>, req: CreationRequest, volume: Volume)
    returns (steps: seq<Step>, s: State)
    requires KeyOf(earlierReq) != KeyOf(PasswordRequest(info)) == KeyOf(req)
    requires forall j :: 0 <= j < |script| ==> !script[j].ToDeleter?
    requires ProjectsFrom(cfg, volume, req)
    ensures AtRest(issuerName, steps, s) && Undisturbed(s)
    ensures s.handlers == [Handler([ToCreator(earlierReq), ToCertCreator(info)], 2), Handler(script, |script|)]
    ensures forall i :: 0 <= i < |cfg.caSecret.keys| ==>
              FindsOnlyPassword(s.api, req.namespace, volume.source.sources[i], req.kvs)
  {
    steps, s := PasswordIsFirst(issuerName, earlierReq, info, script);
    BundleIsHidden(cfg, volume, req, s.api);
  }

  /** A CA secret served first stays what is stored, as long as no deletion is served. */
  lemma CaIsFirst(issuerName: string, first: seq<Send>, second: seq<Send>) returns (steps: seq<Step>, s: State)
    requires |first| > 0 && first[0].ToCreator?
    requires forall j :: 0 <= j < |first| ==> !first[j].ToDeleter?
    requires forall j :: 0 <= j < |second| ==> !second[j].ToDeleter?
    ensures AtRest(issuerName, steps, s) && Undisturbed(s)
    ensures s.handlers == [Handler(first, |first|), Handler(second, |second|)]
    ensures var key := KeyOf(first[0].req); key in s.api.secrets && s.api.secrets[key].data == first[0].req.kvs
  {
    var key := KeyOf(first[0].req);
    steps, s := ServedInTurn(issuerName, first, second);
    ServingKeeps(ServeMessage(EMPTY_API, issuerName, first[0]), issuerName, first, 1, key);
    ServingKeeps(ServeFrom(EMPTY_API, issuerName, first, 0), issuerName, second, 0, key);
  }

  lemma UndisturbedSpares(s: State, kind: Kind, key: ObjectKey)
    requires Undisturbed(s)
    ensures Untroubled(s, kind, key)
  {
    forall k | 0 <= k < |s.log|
      ensures Spares(ActOf(s.log[k]), kind, key)
    {
      assert Regular(ActOf(s.log[k]));
    }
  }

  /** A certificate whose password secret is called like a CA secret served before it. */
  lemma CaInsteadOfPassword(issuerName: string, first: seq<Send>, req: CreationRequest, info: CertInfo)
    returns (steps: seq<Step>, s: State)
    requires |first| > 0 && first[0].ToCreator? && KeyOf(first[0].req) == KeyOf(PasswordRequest(info))
    requires forall j :: 0 <= j < |first| ==> !first[j].ToDeleter?
    ensures AtRest(issuerName, steps, s) && Undisturbed(s)
    ensures s.handlers == [Handler(first, |first|), Handler([ToCreator(req), ToCertCreator(info)], 2)]
    ensures ObjectKey(info.namespace, info.podName) in s.api.certificates
    ensures var cert := s.api.certificates[ObjectKey(info.namespace, info.podName)];
            var key := ObjectKey(info.namespace, cert.passwordSecretName);
            && cert.passwordKey == "password"
            && key in s.api.secrets && s.api.secrets[key].data == first[0].req.kvs
  {
    steps, s := CaIsFirst(issuerName, first, [ToCreator(req), ToCertCreator(info)]);
    UndisturbedSpares(s, CertificateKind, ObjectKey(info.namespace, info.podName));
    UntroubledSettles(issuerName, steps, s, 1, 1);
    CertificateIsStored(issuerName, steps, s, 1, 1);
  }

  lemma CaScript(settings: Settings, review: Review, c: Cluster, meta: Meta) returns (script: seq<Send>)
    requires review.operation == Create && !review.dryRun && !review.cancelled && review.isPod
    requires settings.extractor.IsInjectionEnabled(meta) && RootOf(c, AsObject(meta)).Root?
    ensures script == Plan(settings, review, c, meta).1
    ensures |script| > 0 && script[0].ToCreator? && script[0].req.kvs == settings.caSecretData
    ensures KeyOf(script[0].req)
         == ObjectKey(review.namespace, CaSecretName(settings.caSecret, RootOf(c, AsObject(meta)).ref.name))
    ensures forall j :: 0 <= j < |script| ==> !script[j].ToDeleter?
  {
    script := CreationPlan(settings, review, meta, RootOf(c, AsObject(meta)).ref);
  }

  /** And the other way round: the certificate of a JVM pod whose password secret is called like the CA secret of an
      earlier pod refers to the CA data, and to no key at all unless that data has a key "password". */
  lemma ClashHidesThePassword(settings: Settings, issuerName: string, review: Review, c: Cluster, earlier: Meta,
                              meta: Meta)
    returns (steps: seq<Step>, s: State)
    requires review.operation == Create && !review.dryRun && !review.cancelled && review.isPod
    requires settings.extractor.IsInjectionEnabled(earlier) && settings.extractor.IsInjectionEnabled(meta)
    requires settings.extractor.IsJvmEnabled(meta)
    requires RootOf(c, AsObject(earlier)).Root? && RootOf(c, AsObject(meta)).Root?
    requires CaSecretName(settings.caSecret, RootOf(c, AsObject(earlier)).ref.name)
          == PasswordSecretName(RootOf(c, AsObject(meta)).ref.name)
    ensures AtRest(issuerName, steps, s) && Undisturbed(s) && |s.handlers| == 2
    ensures s.handlers[0].script == Plan(settings, review, c, earlier).1
    ensures s.handlers[1].script == Plan(settings, review, c, meta).1
    ensures var certificate := ObjectKey(review.namespace, RootOf(c, AsObject(meta)).ref.name);
            && certificate in s.api.certificates
            && var key := ObjectKey(review.namespace, s.api.certificates[certificate].passwordSecretName);
               && key in s.api.secrets
               && s.api.secrets[key].data == settings.caSecretData
               && (s.api.certificates[certificate].passwordKey in s.api.secrets[key].data <==>
                     "password" in settings.caSecretData)
  {
    var first := CaScript(settings, review, c, earlier);
    var req, info := JvmScript(settings, review, c, meta);
    steps, s := CaInsteadOfPassword(issuerName, first, req, info);
  }

  /** The deletion of a pod without owners takes the secret of a pod whose root is called like it, whoever owns the
      secret. */
  lemma DeletionTakesOthersSecret(settings: Settings, issuerName: string, create: Review, delete: Review, c: Cluster,
                                  other: Meta, meta: Meta)
    returns (steps: seq<Step>, s: State)
    requires SameLife(create, delete) && |meta.owners| == 0
    requires settings.extractor.IsInjectionEnabled(other) && settings.extractor.IsInjectionEnabled(meta)
    requires RootOf(c, AsObject(other)).Root? && RootOf(c, AsObject(other)).ref.name == meta.name
    ensures AtRest(issuerName, steps, s) && Undisturbed(s) && |s.handlers| == 2
    ensures s.handlers[0].script == Plan(settings, create, c, other).1
    ensures s.handlers[1].script == Plan(settings, delete, c, meta).1
    ensures ObjectKey(create.namespace, CaSecretName(settings.caSecret, RootOf(c, AsObject(other)).ref.name))
         !in s.api.secrets
  {
    var first, second := Plan(settings, create, c, other).1, Plan(settings, delete, c, meta).1;
    steps, s := ServedInTurn(issuerName, first, second);
    var created := ServeFrom(EMPTY_API, issuerName, first, 0);
    var deleted := ServeMessage(created, issuerName, second[0]);
    assert deleted == ServeFrom(deleted, issuerName, second, 1) == ServeFrom(created, issuerName, second, 0);
  }

  /** Take for steps that may meet a fault or come from somebody else. */
  lemma TakeAny(issuerName: string, steps: seq<Step>, s: State, step: Step) returns (longer: seq<Step>, after: State)
    requires Reached(issuerName, steps, s) && Enabled(s, step)
    ensures longer == steps + [step] && after == Next(s, step)
    ensures Reached(issuerName, longer, after)
  {
    longer, after := steps + [step], Next(s, step);
    RunsFurther(Init(issuerName), steps, step);
  }

  /** Every call can be answered in every way, and the store and the counters then are what that answer makes of
      them. */
  lemma AnyAnswerCanHappen(issuerName: string, req: CreationRequest, del: DeletionRequest, a: Fault, b: Fault)
    returns (steps: seq<Step>, s: State)
    ensures AtRest(issuerName, steps, s)
    ensures s.handlers == [Handler([ToCreator(req), ToDeleter(del)], 2)]
    ensures s.api == Perform(Perform(EMPTY_API, CreateSecret(req, a)), DeleteSecret(del, b))
  {
    steps, s := TakeAny(issuerName, [], Init(issuerName), Arrive([ToCreator(req), ToDeleter(del)]));
    steps, s := TakeAny(issuerName, steps, s, SendNext(0));
    steps, s := TakeAny(issuerName, steps, s, CallCreate(a));
    steps, s := TakeAny(issuerName, steps, s, SendNext(0));
    steps, s := TakeAny(issuerName, steps, s, CallDelete(b));
  }

  lemma AnyCertificateAnswerCanHappen(issuerName: string, info: CertInfo, a: Fault, b: Fault)
    returns (steps: seq<Step>, s: State)
    ensures AtRest(issuerName, steps, s)
    ensures s.handlers == [Handler([ToCertCreator(info)], 1)]
    ensures s.api
         == Perform(Perform(EMPTY_API, CreateSecret(PasswordRequest(info), a)), CreateCertificate(issuerName, info, b))
  {
    steps, s := TakeAny(issuerName, [], Init(issuerName), Arrive([ToCertCreator(info)]));
    steps, s := TakeAny(issuerName, steps, s, SendNext(0));
    steps, s := TakeAny(issuerName, steps, s, ForwardPassword);
    steps, s := TakeAny(issuerName, steps, s, CallCreate(a));
    steps, s := TakeAny(issuerName, steps, s, CallCertify(b));
  }

  /** A deletion that breaks off: at rest the secret is stored, and by the counters there is none. */
  lemma BrokenDeletionInRun(issuerName: string, req: CreationRequest) returns (steps: seq<Step>, s: State)
    ensures AtRest(issuerName, steps, s)
    ensures s.handlers == [Handler([ToCreator(req), ToDeleter(DeletionRequest(req.name, req.namespace))], 2)]
    ensures s.api.secrets == map[KeyOf(req) := SecretFor(req)]
    ensures s.api.metrics == map[Series(Created, req.namespace, SecretKind) := 1,
                                 Series(Deleted, req.namespace, SecretKind) := 1]
  {
    steps, s := AnyAnswerCanHappen(issuerName, req, DeletionRequest(req.name, req.namespace), NoFault, Transport(false));
  }

  /** Somebody else can take a secret that was stored, or put another one in its place. */
  lemma OthersCanChange(issuerName: string, req: CreationRequest, secret: Secret)
    returns (steps: seq<Step>, s: State, gone: State)
    ensures AtRest(issuerName, steps, s) && s.handlers == [Handler([ToCreator(req)], 1)]
    ensures s.api.secrets == map[KeyOf(req) := secret]
    ensures AtRest(issuerName, steps + [Interfere(SecretChange(KeyOf(req), None))], gone)
    ensures gone.handlers == s.handlers && gone.api.secrets == map[]
  {
    steps, s := TakeAny(issuerName, [], Init(issuerName), Arrive([ToCreator(req)]));
    steps, s := TakeAny(issuerName, steps, s, SendNext(0));
    steps, s := TakeAny(issuerName, steps, s, CallCreate(NoFault));
    steps, s := TakeAny(issuerName, steps, s, Interfere(SecretChange(KeyOf(req), Some(secret))));
    var longer;
    longer, gone := TakeAny(issuerName, steps, s, Interfere(SecretChange(KeyOf(req), None)));
  }

  // ------------------------------------------------------------------ pods for them

  function PlainPod(extractor: Extractor, name: string): PodValue {
    PodValue(Meta(name, map[extractor.Tag("enabled") := "true"], map[], []), [], [], [])
  }

  function FreeJvmMeta(extractor: Extractor, name: string): Meta {
    Meta(name, map[extractor.Tag("enabled") := "true"], map[extractor.Tag("jvm") := "true"], [])
  }

  /** For every configuration, two pods without owners whose secrets clash in both ways, one of which is mutated. */
  lemma ClashCanHappen(cfg: Config, review: Review, c: Cluster) returns (earlier: Meta, pod: PodValue)
    requires !review.cancelled && review.isPod && review.namespace != "kube-system"
    ensures earlier == FreeJvmMeta(cfg.extractor, cfg.caSecret.name + "-y")
    ensures pod == PlainPod(cfg.extractor, PasswordSecretName("y"))
    ensures Admit(cfg, review, c, c, pod).0 == Mutated
    ensures cfg.extractor.IsInjectionEnabled(earlier) && cfg.extractor.IsJvmEnabled(earlier)
    ensures RootOf(c, AsObject(earlier)) == Root(OwnerRef("", earlier.name, ""))
    ensures RootOf(c, AsObject(pod.meta)) == Root(OwnerRef("", pod.meta.name, ""))
    ensures earlier.name != pod.meta.name
    ensures PasswordSecretName(earlier.name) == CaSecretName(cfg.caSecret, pod.meta.name)
  {
    earlier := FreeJvmMeta(cfg.extractor, cfg.caSecret.name + "-y");
    pod := PlainPod(cfg.extractor, PasswordSecretName("y"));
    assert earlier.name[|earlier.name| - 1] == 'y';
    assert pod.meta.name[|pod.meta.name| - 1] == 'd';
    assert PasswordSecretName(earlier.name) == cfg.caSecret.name + "-" + pod.meta.name;
    assert Applies(cfg, review, pod.meta);
  }

  /** A pod owned by the job "a" and a pod without owners called "a" share their secret. */
  lemma NamesakeCanHappen(extractor: Extractor, c: Cluster)
    requires c == map[Target(JOB_A) := Object("a", [])]
    ensures var other, meta := JvmPod(extractor).meta, PlainPod(extractor, "a").meta;
            && extractor.IsInjectionEnabled(other) && extractor.IsInjectionEnabled(meta)
            && |other.owners| > 0 && |meta.owners| == 0
            && RootOf(c, AsObject(other)) == Root(JOB_A) && JOB_A.name == meta.name && JOB_A.uid != ""
  {
    var other := JvmPod(extractor).meta;
    assert AsObject(other).owners[1..] == [];
    assert Resolve(c, c[Target(JOB_A)], Some(JOB_A), |c|) == Root(JOB_A);
    assert Scan(c, [JOB_A], None, |c|) == Root(JOB_A);
  }
}
