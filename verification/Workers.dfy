/** The three workers and the part of the Kubernetes API that they act on: secrets/creator.go,
    secrets/deleter.go, certificates/certcreator.go and the counters of metrics/prometheus.go. */
module Workers {
  import opened Wrappers
  import opened Owners
  import opened Base64
  import Injection

  // ------------------------------------------------------------------ messages and objects

  type Data = map<string, Bytes>

  datatype CreationRequest = CreationRequest(name: string, namespace: string, kvs: Data, ctlrRef: Option<OwnerRef>)

  datatype DeletionRequest = DeletionRequest(name: string, namespace: string)

  /** The certificate creator indexes the first DNS name of what it receives. */
  type DnsNames = names: seq<string> | |names| > 0 witness [""]

  datatype CertInfo = CertInfo(
    podName: string,
    namespace: string,
    dnsNames: DnsNames,
    truststorePassword: string,
    ctlrRef: Option<OwnerRef>)

  datatype ObjectKey = ObjectKey(namespace: string, name: string)

  datatype Secret = Secret(key: ObjectKey, data: Data, owners: seq<OwnerRef>)

  datatype Certificate = Certificate(
    key: ObjectKey,
    commonName: string,
    dnsNames: seq<string>,
    secretName: string,
    issuerName: string,
    passwordSecretName: string,
    passwordKey: string,
    owners: seq<OwnerRef>)

  // ------------------------------------------------------------------ building objects

  /** The reference is set on the object only when it has a UID. */
  function OwnersFor(ctlrRef: Option<OwnerRef>): seq<OwnerRef> {
    if ctlrRef.Some? && ctlrRef.value.uid != "" then [ctlrRef.value] else []
  }

  function KeyOf(req: CreationRequest): ObjectKey {
    ObjectKey(req.namespace, req.name)
  }

  function SecretFor(req: CreationRequest): Secret {
    Secret(KeyOf(req), req.kvs, OwnersFor(req.ctlrRef))
  }

  function PasswordSecretName(rootName: string): string {
    rootName + "-truststore-password"
  }

  /** The bytes of a Go string whose characters stand for its bytes. */
  function BytesOf(s: string): Bytes {
    seq(|s|, i requires 0 <= i < |s| => s[i] as int % 256)
  }

  /** What the certificate creator sends to the secret creator. */
  function PasswordRequest(info: CertInfo): CreationRequest {
    CreationRequest(
      PasswordSecretName(info.podName), info.namespace,
      map["password" := Encode(BytesOf(info.truststorePassword))], info.ctlrRef)
  }

  function CertificateFor(issuerName: string, info: CertInfo): Certificate {
    Certificate(
      ObjectKey(info.namespace, info.podName), info.dnsNames[0], info.dnsNames,
      Injection.TruststoreSecretName(info.podName), issuerName,
      PasswordSecretName(info.podName), "password", OwnersFor(info.ctlrRef))
  }

  // ------------------------------------------------------------------ the API

  /** How an API call is answered: as the store demands, with a StatusError, or with another error such as a
      broken connection. `applied` says whether the store carried out a call that it answered with an error. */
  datatype Fault = NoFault | Status(applied: bool) | Transport(applied: bool)

  datatype Kind = SecretKind | CertificateKind

  datatype Counter = AlreadyExists | CreateError | Created | NotFound | Deleted | DeleteError

  datatype Series = Series(counter: Counter, namespace: string, kind: Kind)

  type Metrics = map<Series, nat>

  function Reading(metrics: Metrics, series: Series): nat {
    if series in metrics then metrics[series] else 0
  }

  function Inc(metrics: Metrics, series: Series): Metrics {
    metrics[series := Reading(metrics, series) + 1]
  }

  datatype Api = Api(secrets: map<ObjectKey, Secret>, certificates: map<ObjectKey, Certificate>, metrics: Metrics)

  const EMPTY_API := Api(map[], map[], map[])

  /** A change of the store by somebody else, such as the garbage collector: the object of this name is replaced,
      or removed. */
  datatype Change =
    | SecretChange(key: ObjectKey, secret: Option<Secret>)
    | CertificateChange(key: ObjectKey, certificate: Option<Certificate>)

  /** What happens to the API: the three workers' calls, a change by somebody else, and nothing. */
  datatype Act =
    | CreateSecret(req: CreationRequest, fault: Fault)
    | DeleteSecret(del: DeletionRequest, fault: Fault)
    | CreateCertificate(issuerName: string, info: CertInfo, fault: Fault)
    | Foreign(change: Change)
    | Nothing

  /** Whether the store carries out a call. */
  predicate Applied(fault: Fault) {
    fault.NoFault? || fault.applied
  }

  function Set<V>(store: map<ObjectKey, V>, key: ObjectKey, value: Option<V>): map<ObjectKey, V> {
    if value.Some? then store[key := value.value] else store - {key}
  }

  function InsertIfAbsent<V>(store: map<ObjectKey, V>, key: ObjectKey, value: V): map<ObjectKey, V> {
    if key in store then store else store[key := value]
  }

  function CreationCounter(fault: Fault, present: bool): Counter {
    match fault
    case NoFault => if present then AlreadyExists else Created
    case Status(_) => CreateError
    case Transport(_) => CreateError
  }

  /** The deleter only tells StatusErrors apart: any other error counts as a deletion. */
  function DeletionCounter(fault: Fault, present: bool): Counter {
    match fault
    case NoFault => if present then Deleted else NotFound
    case Status(_) => DeleteError
    case Transport(_) => Deleted
  }

  /** The certificate creator counts a StatusError as an existing certificate. */
  function CertificateCounter(fault: Fault, present: bool): Counter {
    match fault
    case NoFault => if present then AlreadyExists else Created
    case Status(_) => AlreadyExists
    case Transport(_) => CreateError
  }

  /** The counter that the worker bumps for the answer to its call. */
  function Bump(api: Api, act: Act): Option<Series> {
    match act
    case CreateSecret(req, fault) =>
      Some(Series(CreationCounter(fault, KeyOf(req) in api.secrets), req.namespace, SecretKind))
    case DeleteSecret(del, fault) =>
      Some(Series(DeletionCounter(fault, ObjectKey(del.namespace, del.name) in api.secrets), del.namespace, SecretKind))
    case CreateCertificate(issuerName, info, fault) =>
      var present := ObjectKey(info.namespace, info.podName) in api.certificates;
      Some(Series(CertificateCounter(fault, present), info.namespace, CertificateKind))
    case Foreign(_) => None
    case Nothing => None
  }

  /** One API call together with the counter that the worker bumps for its answer. */
  function Perform(api: Api, act: Act): Api {
    var counted := match Bump(api, act) case Some(series) => Inc(api.metrics, series) case None => api.metrics;
    match act
    case CreateSecret(req, fault) =>
      api.(secrets := if Applied(fault) then InsertIfAbsent(api.secrets, KeyOf(req), SecretFor(req)) else api.secrets,
           metrics := counted)
    case DeleteSecret(del, fault) =>
      api.(secrets := if Applied(fault) then api.secrets - {ObjectKey(del.namespace, del.name)} else api.secrets,
           metrics := counted)
    case CreateCertificate(issuerName, info, fault) =>
      var cert := CertificateFor(issuerName, info);
      api.(certificates := if Applied(fault) then InsertIfAbsent(api.certificates, cert.key, cert) else api.certificates,
           metrics := counted)
    case Foreign(SecretChange(key, secret)) => api.(secrets := Set(api.secrets, key, secret))
    case Foreign(CertificateChange(key, certificate)) =>
      api.(certificates := Set(api.certificates, key, certificate))
    case Nothing => api
  }

  /** The state after a sequence of acts. */
  function Replay(api: Api, acts: seq<Act>): Api {
    if |acts| == 0 then api else Perform(Replay(api, acts[..|acts| - 1]), acts[|acts| - 1])
  }

  // ------------------------------------------------------------------ the programs

  /** The cluster and the metrics registry that the workers share. */
  class Server {
    var secrets: map<ObjectKey, Secret>
    var certificates: map<ObjectKey, Certificate>
    var metrics: Metrics

    constructor ()
      ensures State() == EMPTY_API
    {
      secrets, certificates, metrics := map[], map[], map[];
    }

    function State(): Api
      reads this
    {
      Api(secrets, certificates, metrics)
    }

    method Count(counter: Counter, namespace: string, kind: Kind)
      modifies this`metrics
      ensures metrics == Inc(old(metrics), Series(counter, namespace, kind))
    {
      var series := Series(counter, namespace, kind);
      var before := if series in metrics then metrics[series] else 0;
      metrics := metrics[series := before + 1];
    }

    /** The Create call of the secrets client; the answer is a conflict if the secret exists. */
    method CallCreateSecret(secret: Secret, fault: Fault) returns (conflict: bool)
      modifies this`secrets
      ensures conflict <==> fault.NoFault? && secret.key in old(secrets)
      ensures secrets == if Applied(fault) then InsertIfAbsent(old(secrets), secret.key, secret) else old(secrets)
    {
      conflict := fault.NoFault? && secret.key in secrets;
      if (fault.NoFault? || fault.applied) && secret.key !in secrets {
        secrets := secrets[secret.key := secret];
      }
    }

    method CallDeleteSecret(key: ObjectKey, fault: Fault) returns (missing: bool)
      modifies this`secrets
      ensures missing <==> fault.NoFault? && key !in old(secrets)
      ensures secrets == if Applied(fault) then old(secrets) - {key} else old(secrets)
    {
      missing := fault.NoFault? && key !in secrets;
      if fault.NoFault? || fault.applied {
        secrets := secrets - {key};
      }
    }

    method CallCreateCertificate(cert: Certificate, fault: Fault) returns (conflict: bool)
      modifies this`certificates
      ensures conflict <==> fault.NoFault? && cert.key in old(certificates)
      ensures certificates ==
        if Applied(fault) then InsertIfAbsent(old(certificates), cert.key, cert) else old(certificates)
    {
      conflict := fault.NoFault? && cert.key in certificates;
      if (fault.NoFault? || fault.applied) && cert.key !in certificates {
        certificates := certificates[cert.key := cert];
      }
    }
  }

  function Creations(reqs: seq<CreationRequest>, faults: seq<Fault>): seq<Act>
    requires |reqs| == |faults|
  {
    seq(|reqs|, i requires 0 <= i < |reqs| => CreateSecret(reqs[i], faults[i]))
  }

  function Deletions(dels: seq<DeletionRequest>, faults: seq<Fault>): seq<Act>
    requires |dels| == |faults|
  {
    seq(|dels|, i requires 0 <= i < |dels| => DeleteSecret(dels[i], faults[i]))
  }

  function Certifications(issuerName: string, infos: seq<CertInfo>, faults: seq<Fault>): seq<Act>
    requires |infos| == |faults|
  {
    seq(|infos|, i requires 0 <= i < |infos| => CreateCertificate(issuerName, infos[i], faults[i]))
  }

  lemma ReplaySnoc(api: Api, acts: seq<Act>, act: Act)
    ensures Replay(api, acts + [act]) == Perform(Replay(api, acts), act)
  {
    assert (acts + [act])[..|acts|] == acts;
  }

  /** One turn of the loop of the secret creator. */
  method HandleCreation(server: Server, req: CreationRequest, fault: Fault)
    modifies server
    ensures server.State() == Perform(old(server.State()), CreateSecret(req, fault))
  {
    var newSecret := Secret(ObjectKey(req.namespace, req.name), map[], []);
    newSecret := newSecret.(data := newSecret.data + req.kvs);
    if req.ctlrRef.Some? && req.ctlrRef.value.uid != "" {
      newSecret := newSecret.(owners := [req.ctlrRef.value]);
    }
    assert newSecret == SecretFor(req);
    var conflict := server.CallCreateSecret(newSecret, fault);
    if conflict {
      server.Count(AlreadyExists, req.namespace, SecretKind);
    } else if fault.Status? {
      server.Count(CreateError, req.namespace, SecretKind);
    } else if fault.Transport? {
      server.Count(CreateError, req.namespace, SecretKind);
    } else {
      server.Count(Created, req.namespace, SecretKind);
    }
  }

  /** The secret creator on what it receives before its channel is closed. */
  method StartSecretCreator(server: Server, reqs: seq<CreationRequest>, faults: seq<Fault>)
    requires |reqs| == |faults|
    modifies server
    ensures server.State() == Replay(old(server.State()), Creations(reqs, faults))
  {
    ghost var acts := Creations(reqs, faults);
    for i := 0 to |reqs|
      invariant server.State() == Replay(old(server.State()), acts[..i])
    {
      HandleCreation(server, reqs[i], faults[i]);
      ReplaySnoc(old(server.State()), acts[..i], acts[i]);
      assert acts[..i + 1] == acts[..i] + [acts[i]];
    }
    assert acts[..|reqs|] == acts;
  }

  /** One turn of the loop of the secret deleter. */
  method HandleDeletion(server: Server, del: DeletionRequest, fault: Fault)
    modifies server
    ensures server.State() == Perform(old(server.State()), DeleteSecret(del, fault))
  {
    var missing := server.CallDeleteSecret(ObjectKey(del.namespace, del.name), fault);
    if missing {
      server.Count(NotFound, del.namespace, SecretKind);
    } else if fault.Status? {
      server.Count(DeleteError, del.namespace, SecretKind);
    } else {
      server.Count(Deleted, del.namespace, SecretKind);
    }
  }

  /** The secret deleter. */
  method StartSecretDeleter(server: Server, dels: seq<DeletionRequest>, faults: seq<Fault>)
    requires |dels| == |faults|
    modifies server
    ensures server.State() == Replay(old(server.State()), Deletions(dels, faults))
  {
    ghost var acts := Deletions(dels, faults);
    for i := 0 to |dels|
      invariant server.State() == Replay(old(server.State()), acts[..i])
    {
      HandleDeletion(server, dels[i], faults[i]);
      ReplaySnoc(old(server.State()), acts[..i], acts[i]);
      assert acts[..i + 1] == acts[..i] + [acts[i]];
    }
    assert acts[..|dels|] == acts;
  }

  /** The message that a turn of the certificate creator sends: it asks for the password secret that the
      certificate will refer to, holding one key with bytes that decode to the password. */
  method EncodePassword(info: CertInfo) returns (req: CreationRequest)
    ensures req.name == CertificateFor("", info).passwordSecretName && req.namespace == info.namespace
    ensures req.ctlrRef == info.ctlrRef
    ensures req.kvs.Keys == {CertificateFor("", info).passwordKey}
    ensures Decode(req.kvs["password"]) == Some(BytesOf(info.truststorePassword))
    ensures req == PasswordRequest(info)
  {
    var encodedPassword := Encode(BytesOf(info.truststorePassword));
    DecodeOfEncode(BytesOf(info.truststorePassword));
    req := CreationRequest(PasswordSecretName(info.podName), info.namespace, map["password" := encodedPassword],
                           info.ctlrRef);
  }

  /** The part of a turn of the certificate creator that follows its send. */
  method SubmitCertificate(server: Server, issuerName: string, info: CertInfo, fault: Fault)
    modifies server
    ensures server.State() == Perform(old(server.State()), CreateCertificate(issuerName, info, fault))
  {
    var cert := Certificate(ObjectKey(info.namespace, info.podName), info.dnsNames[0], info.dnsNames,
                            Injection.TruststoreSecretName(info.podName), issuerName,
                            PasswordSecretName(info.podName), "password", []);
    if info.ctlrRef.Some? && info.ctlrRef.value.uid != "" {
      cert := cert.(owners := [info.ctlrRef.value]);
    }
    assert cert == CertificateFor(issuerName, info);
    var conflict := server.CallCreateCertificate(cert, fault);
    if conflict {
      server.Count(AlreadyExists, info.namespace, CertificateKind);
    } else if fault.Status? {
      server.Count(AlreadyExists, info.namespace, CertificateKind);
    } else if fault.Transport? {
      server.Count(CreateError, info.namespace, CertificateKind);
    } else {
      server.Count(Created, info.namespace, CertificateKind);
    }
  }

  /** What a worker does, in order: it sends to the secret creator or calls the API. */
  datatype Emission = Emitted(req: CreationRequest) | Called(act: Act)

  /** For each message the certificate creator first sends the password request and then makes the API call. */
  ghost predicate SendsBeforeCalls(trace: seq<Emission>, issuerName: string, infos: seq<CertInfo>, faults: seq<Fault>)
    requires |infos| == |faults|
  {
    && |trace| == 2 * |infos|
    && forall i :: 0 <= i < |infos| ==>
         && trace[2 * i] == Emitted(PasswordRequest(infos[i]))
         && trace[2 * i + 1] == Called(CreateCertificate(issuerName, infos[i], faults[i]))
  }

  lemma TurnAppended(trace: seq<Emission>, issuerName: string, infos: seq<CertInfo>, faults: seq<Fault>, n: nat)
    requires n < |infos| == |faults| && SendsBeforeCalls(trace, issuerName, infos[..n], faults[..n])
    ensures SendsBeforeCalls(
              trace + [Emitted(PasswordRequest(infos[n])), Called(CreateCertificate(issuerName, infos[n], faults[n]))],
              issuerName, infos[..n + 1], faults[..n + 1])
  {
  }

  /** One turn of the loop of the certificate creator. */
  method HandleInfo(server: Server, issuerName: string, info: CertInfo, fault: Fault) returns (trace: seq<Emission>)
    modifies server
    ensures server.State() == Perform(old(server.State()), CreateCertificate(issuerName, info, fault))
    ensures trace == [Emitted(PasswordRequest(info)), Called(CreateCertificate(issuerName, info, fault))]
  {
    var req := EncodePassword(info);
    trace := [Emitted(req)];
    SubmitCertificate(server, issuerName, info, fault);
    trace := trace + [Called(CreateCertificate(issuerName, info, fault))];
  }

  /** The certificate creator on what it receives before its channel is closed. */
  method StartCertCreator(server: Server, issuerName: string, infos: seq<CertInfo>, faults: seq<Fault>)
    returns (trace: seq<Emission>)
    requires |infos| == |faults|
    modifies server
    ensures server.State() == Replay(old(server.State()), Certifications(issuerName, infos, faults))
    ensures SendsBeforeCalls(trace, issuerName, infos, faults)
  {
    ghost var acts := Certifications(issuerName, infos, faults);
    trace := [];
    for i := 0 to |infos|
      invariant server.State() == Replay(old(server.State()), acts[..i])
      invariant SendsBeforeCalls(trace, issuerName, infos[..i], faults[..i])
    {
      var turn := HandleInfo(server, issuerName, infos[i], faults[i]);
      TurnAppended(trace, issuerName, infos, faults, i);
      trace := trace + turn;
      ReplaySnoc(old(server.State()), acts[..i], acts[i]);
      assert acts[..i + 1] == acts[..i] + [acts[i]];
    }
    assert acts[..|infos|] == acts && infos[..|infos|] == infos && faults[..|faults|] == faults;
  }

  lemma BytesAre(s: string, bytes: Bytes)
    requires |bytes| == |s| && forall i :: 0 <= i < |bytes| ==> bytes[i] == s[i] as int
    ensures BytesOf(s) == bytes
  {
    forall i | 0 <= i < |s|
      ensures BytesOf(s)[i] == bytes[i]
    {
      assert 0 <= bytes[i] < 256;
    }
  }

  /** The password secret holds the base64 text of the password of the pod: it has the padded length, decodes to
      the password, and is the password itself only when that is empty. */
  lemma PasswordIsEncoded(info: CertInfo, password: Bytes)
    requires |password| == |info.truststorePassword|
    requires forall i :: 0 <= i < |password| ==> password[i] == info.truststorePassword[i] as int
    ensures "password" in PasswordRequest(info).kvs
    ensures var stored := PasswordRequest(info).kvs["password"];
            && |stored| == (|password| + 2) / 3 * 4
            && Decode(stored) == Some(password)
            && (stored == password <==> password == [])
  {
    BytesAre(info.truststorePassword, password);
    assert PasswordRequest(info).kvs["password"] == Encode(password);
    DecodeOfEncode(password);
    EncodeChanges(password);
  }
}
