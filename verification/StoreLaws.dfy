/** What the store and the counters say about each other, for every sequence of acts in whatever order the
    workers' calls reach the API. */
module StoreLaws {
  import opened Workers
  import opened Wrappers

  // ------------------------------------------------------------------ conservation

  function SecretsIn(api: Api, namespace: string): set<ObjectKey> {
    set key | key in api.secrets && key.namespace == namespace
  }

  function SecretCounter(api: Api, counter: Counter, namespace: string): nat {
    Reading(api.metrics, Series(counter, namespace, SecretKind))
  }

  /** How far the number of stored secrets is from what the counters say was created and not deleted. */
  function Imbalance(api: Api, namespace: string): int {
    |SecretsIn(api, namespace)|
    - (SecretCounter(api, Created, namespace) - SecretCounter(api, Deleted, namespace))
  }

  /** What one act contributes to the imbalance: a creation that was carried out but answered with an error
      adds a secret, a deletion that was carried out but answered with a StatusError removes one, a deletion
      that met another error is counted although nothing was removed, and others come and go uncounted. */
  function Drift(api: Api, act: Act, namespace: string): int {
    match act
    case CreateSecret(req, fault) =>
      if req.namespace == namespace && !fault.NoFault? && fault.applied && KeyOf(req) !in api.secrets then 1 else 0
    case DeleteSecret(del, fault) =>
      var present := ObjectKey(del.namespace, del.name) in api.secrets;
      if del.namespace != namespace || fault.NoFault? then 0
      else if fault.Status? then if fault.applied && present then -1 else 0
      else if fault.applied && present then 0
      else 1
    case Foreign(SecretChange(key, secret)) =>
      if key.namespace != namespace then 0
      else (if secret.Some? then 1 else 0) - (if key in api.secrets then 1 else 0)
    case Foreign(CertificateChange(_, _)) => 0
    case CreateCertificate(_, _, _) => 0
    case Nothing => 0
  }

  function TotalDrift(api: Api, acts: seq<Act>, namespace: string): int {
    if |acts| == 0 then 0
    else
      var before := acts[..|acts| - 1];
      TotalDrift(api, before, namespace) + Drift(Replay(api, before), acts[|acts| - 1], namespace)
  }

  lemma InsertedCount(api: Api, key: ObjectKey, secret: Secret, namespace: string)
    ensures |SecretsIn(api.(secrets := api.secrets[key := secret]), namespace)|
         == |SecretsIn(api, namespace)| + (if key !in api.secrets && key.namespace == namespace then 1 else 0)
  {
    var after := SecretsIn(api.(secrets := api.secrets[key := secret]), namespace);
    if key.namespace == namespace {
      assert after == SecretsIn(api, namespace) + {key};
    } else {
      assert after == SecretsIn(api, namespace);
    }
  }

  lemma RemovedCount(api: Api, key: ObjectKey, namespace: string)
    ensures |SecretsIn(api.(secrets := api.secrets - {key}), namespace)|
         == |SecretsIn(api, namespace)| - (if key in api.secrets && key.namespace == namespace then 1 else 0)
  {
    var after := SecretsIn(api.(secrets := api.secrets - {key}), namespace);
    assert after == SecretsIn(api, namespace) - {key};
  }

  lemma ChangeConserves(api: Api, key: ObjectKey, secret: Option<Secret>, namespace: string)
    ensures var act := Foreign(SecretChange(key, secret));
            Imbalance(Perform(api, act), namespace) == Imbalance(api, namespace) + Drift(api, act, namespace)
  {
    if secret.Some? {
      InsertedCount(api, key, secret.value, namespace);
    } else {
      RemovedCount(api, key, namespace);
    }
  }

  lemma ActConserves(api: Api, act: Act, namespace: string)
    ensures Imbalance(Perform(api, act), namespace) == Imbalance(api, namespace) + Drift(api, act, namespace)
  {
    match act
    case CreateSecret(req, fault) =>
      InsertedCount(api, KeyOf(req), SecretFor(req), namespace);
    case DeleteSecret(del, fault) =>
      RemovedCount(api, ObjectKey(del.namespace, del.name), namespace);
    case Foreign(SecretChange(key, secret)) =>
      ChangeConserves(api, key, secret, namespace);
    case Foreign(CertificateChange(_, _)) =>
      assert SecretsIn(Perform(api, act), namespace) == SecretsIn(api, namespace);
    case CreateCertificate(issuerName, info, fault) =>
      assert SecretsIn(Perform(api, act), namespace) == SecretsIn(api, namespace);
    case Nothing =>
  }

  /** The conservation law with its exact error term, for all acts under all faults and interference. */
  lemma {:induction false} Conservation(api: Api, acts: seq<Act>, namespace: string)
    ensures Imbalance(Replay(api, acts), namespace)
         == Imbalance(api, namespace) + TotalDrift(api, acts, namespace)
  {
    if |acts| > 0 {
      var before := acts[..|acts| - 1];
      Conservation(api, before, namespace);
      ActConserves(Replay(api, before), acts[|acts| - 1], namespace);
    }
  }

  /** An answer that tells the truth: the regular one, or a StatusError for a call that was not carried out. */
  predicate Honest(act: Act) {
    match act
    case CreateSecret(_, fault) => fault.NoFault? || fault == Status(false)
    case DeleteSecret(_, fault) => fault.NoFault? || fault == Status(false)
    case CreateCertificate(_, _, _) => true
    case Foreign(_) => false
    case Nothing => true
  }

  lemma {:induction false} HonestActsDoNotDrift(api: Api, acts: seq<Act>, namespace: string)
    requires forall i :: 0 <= i < |acts| ==> Honest(acts[i])
    ensures TotalDrift(api, acts, namespace) == 0
  {
    if |acts| > 0 {
      HonestActsDoNotDrift(api, acts[..|acts| - 1], namespace);
    }
  }

  /** Started on an empty store, created minus deleted is the number of secrets exactly when the drift is zero,
      and so it is as long as answers are honest and nobody else touches the store. */
  lemma CountersTellTheStore(acts: seq<Act>, namespace: string)
    ensures var api := Replay(EMPTY_API, acts);
            |SecretsIn(api, namespace)|
            == SecretCounter(api, Created, namespace) - SecretCounter(api, Deleted, namespace)
            <==> TotalDrift(EMPTY_API, acts, namespace) == 0
    ensures (forall i :: 0 <= i < |acts| ==> Honest(acts[i])) ==> TotalDrift(EMPTY_API, acts, namespace) == 0
  {
    Conservation(EMPTY_API, acts, namespace);
    assert SecretsIn(EMPTY_API, namespace) == {};
    if forall i :: 0 <= i < |acts| ==> Honest(acts[i]) {
      HonestActsDoNotDrift(EMPTY_API, acts, namespace);
    }
  }

  /** The deleter counts a call that broke off as a deletion: one stored secret, none by the counters. */
  lemma BrokenDeletionIsCounted(req: CreationRequest)
    ensures var acts := [CreateSecret(req, NoFault),
                         DeleteSecret(DeletionRequest(req.name, req.namespace), Transport(false))];
            var api := Replay(EMPTY_API, acts);
            && |SecretsIn(api, req.namespace)| == 1
            && SecretCounter(api, Created, req.namespace) - SecretCounter(api, Deleted, req.namespace) == 0
  {
    var create, delete := CreateSecret(req, NoFault),
                          DeleteSecret(DeletionRequest(req.name, req.namespace), Transport(false));
    ReplaySnoc(EMPTY_API, [], create);
    ReplaySnoc(EMPTY_API, [create], delete);
    assert [] + [create] == [create] && [create] + [delete] == [create, delete];
    InsertedCount(EMPTY_API, KeyOf(req), SecretFor(req), req.namespace);
    assert SecretsIn(EMPTY_API, req.namespace) == {};
  }

  // ------------------------------------------------------------------ the counters of each worker

  datatype Worker = SecretCreator | SecretDeleter | CertCreator

  predicate Handles(worker: Worker, act: Act, namespace: string) {
    match worker
    case SecretCreator => act.CreateSecret? && act.req.namespace == namespace
    case SecretDeleter => act.DeleteSecret? && act.del.namespace == namespace
    case CertCreator => act.CreateCertificate? && act.info.namespace == namespace
  }

  /** How many items of a namespace the worker has finished. */
  function ItemsOf(worker: Worker, acts: seq<Act>, namespace: string): nat {
    if |acts| == 0 then 0
    else
      ItemsOf(worker, acts[..|acts| - 1], namespace) + if Handles(worker, acts[|acts| - 1], namespace) then 1 else 0
  }

  /** The three counters of a worker. */
  function SeriesOf(worker: Worker, namespace: string): (Series, Series, Series) {
    match worker
    case SecretCreator =>
      (Series(Created, namespace, SecretKind), Series(AlreadyExists, namespace, SecretKind),
       Series(CreateError, namespace, SecretKind))
    case SecretDeleter =>
      (Series(Deleted, namespace, SecretKind), Series(NotFound, namespace, SecretKind),
       Series(DeleteError, namespace, SecretKind))
    case CertCreator =>
      (Series(Created, namespace, CertificateKind), Series(AlreadyExists, namespace, CertificateKind),
       Series(CreateError, namespace, CertificateKind))
  }

  function CounterSum(worker: Worker, metrics: Metrics, namespace: string): nat {
    var (a, b, c) := SeriesOf(worker, namespace);
    Reading(metrics, a) + Reading(metrics, b) + Reading(metrics, c)
  }

  lemma BumpIsOwn(worker: Worker, api: Api, act: Act, namespace: string)
    ensures var (a, b, c) := SeriesOf(worker, namespace);
            Handles(worker, act, namespace) <==> Bump(api, act) in {Some(a), Some(b), Some(c)}
  {
  }

  lemma IncCounts(worker: Worker, metrics: Metrics, bumped: Series, namespace: string)
    ensures var (a, b, c) := SeriesOf(worker, namespace);
            CounterSum(worker, Inc(metrics, bumped), namespace)
            == CounterSum(worker, metrics, namespace) + if bumped in {a, b, c} then 1 else 0
  {
  }

  lemma ActIsCounted(worker: Worker, api: Api, act: Act, namespace: string)
    ensures CounterSum(worker, Perform(api, act).metrics, namespace)
         == CounterSum(worker, api.metrics, namespace) + if Handles(worker, act, namespace) then 1 else 0
  {
    BumpIsOwn(worker, api, act, namespace);
    if Bump(api, act).Some? {
      IncCounts(worker, api.metrics, Bump(api, act).value, namespace);
    }
  }

  /** The three counters of each worker add up to the items it has finished, whatever the answers were. */
  lemma {:induction false} CountersCountItems(worker: Worker, acts: seq<Act>, namespace: string)
    ensures CounterSum(worker, Replay(EMPTY_API, acts).metrics, namespace) == ItemsOf(worker, acts, namespace)
  {
    if |acts| > 0 {
      CountersCountItems(worker, acts[..|acts| - 1], namespace);
      ActIsCounted(worker, Replay(EMPTY_API, acts[..|acts| - 1]), acts[|acts| - 1], namespace);
    }
  }

  /** The counter that a call earns, told from its answer and from whether it changed the store. */
  predicate Earns(api: Api, act: Act, counter: Counter, namespace: string, kind: Kind) {
    var after := Perform(api, act);
    match kind
    case SecretKind =>
      var changed := after.secrets != api.secrets;
      || (Handles(SecretCreator, act, namespace)
          && counter == if !act.fault.NoFault? then CreateError else if changed then Created else AlreadyExists)
      || (Handles(SecretDeleter, act, namespace)
          && counter == if act.fault.Status? then DeleteError
                        else if act.fault.Transport? || changed then Deleted
                        else NotFound)
    case CertificateKind =>
      var changed := after.certificates != api.certificates;
      && Handles(CertCreator, act, namespace)
      && counter == if act.fault.Transport? then CreateError
                    else if act.fault.NoFault? && changed then Created
                    else AlreadyExists
  }

  function Tally(api: Api, acts: seq<Act>, counter: Counter, namespace: string, kind: Kind): nat {
    if |acts| == 0 then 0
    else
      var before := acts[..|acts| - 1];
      Tally(api, before, counter, namespace, kind)
      + if Earns(Replay(api, before), acts[|acts| - 1], counter, namespace, kind) then 1 else 0
  }

  lemma InsertChanges<V>(store: map<ObjectKey, V>, key: ObjectKey, value: V)
    ensures InsertIfAbsent(store, key, value) != store <==> key !in store
  {
    assert key !in store ==> key in store[key := value];
  }

  lemma RemoveChanges<V>(store: map<ObjectKey, V>, key: ObjectKey)
    ensures store - {key} != store <==> key in store
  {
    assert key !in store ==> store - {key} == store;
  }

  lemma EarnedIsBumped(api: Api, act: Act, counter: Counter, namespace: string, kind: Kind)
    ensures Bump(api, act) == Some(Series(counter, namespace, kind)) <==> Earns(api, act, counter, namespace, kind)
  {
    match act
    case CreateSecret(req, fault) =>
      InsertChanges(api.secrets, KeyOf(req), SecretFor(req));
    case DeleteSecret(del, fault) =>
      RemoveChanges(api.secrets, ObjectKey(del.namespace, del.name));
    case CreateCertificate(issuerName, info, fault) =>
      InsertChanges(api.certificates, ObjectKey(info.namespace, info.podName), CertificateFor(issuerName, info));
    case _ =>
  }

  lemma CallIsTallied(api: Api, act: Act, counter: Counter, namespace: string, kind: Kind)
    ensures Reading(Perform(api, act).metrics, Series(counter, namespace, kind))
         == Reading(api.metrics, Series(counter, namespace, kind))
            + if Earns(api, act, counter, namespace, kind) then 1 else 0
  {
    EarnedIsBumped(api, act, counter, namespace, kind);
  }

  /** Every single counter is exact: it reads how many calls earned it, under all faults and interference. */
  lemma {:induction false} CountersAreExact(acts: seq<Act>, counter: Counter, namespace: string, kind: Kind)
    ensures Reading(Replay(EMPTY_API, acts).metrics, Series(counter, namespace, kind))
         == Tally(EMPTY_API, acts, counter, namespace, kind)
  {
    if |acts| > 0 {
      var before, last := acts[..|acts| - 1], acts[|acts| - 1];
      CountersAreExact(before, counter, namespace, kind);
      CallIsTallied(Replay(EMPTY_API, before), last, counter, namespace, kind);
    }
  }

  // ------------------------------------------------------------------ the first writer

  /** What the store can hold under a name. */
  datatype Item = SecretItem(secret: Secret) | CertificateItem(certificate: Certificate)

  function Entry(api: Api, kind: Kind, key: ObjectKey): Option<Item> {
    match kind
    case SecretKind => if key in api.secrets then Some(SecretItem(api.secrets[key])) else None
    case CertificateKind => if key in api.certificates then Some(CertificateItem(api.certificates[key])) else None
  }

  /** The act inserts an object of this name, should there be none. */
  predicate Writes(act: Act, kind: Kind, key: ObjectKey) {
    match kind
    case SecretKind => act.CreateSecret? && KeyOf(act.req) == key && Applied(act.fault)
    case CertificateKind =>
      act.CreateCertificate? && ObjectKey(act.info.namespace, act.info.podName) == key && Applied(act.fault)
  }

  /** The object that a creation asks for. */
  function Asks(act: Act): Item
    requires act.CreateSecret? || act.CreateCertificate?
  {
    match act
    case CreateSecret(req, _) => SecretItem(SecretFor(req))
    case CreateCertificate(issuerName, info, _) => CertificateItem(CertificateFor(issuerName, info))
  }

  /** The act leaves no object of this name; cain itself never removes a certificate. */
  predicate Removes(act: Act, kind: Kind, key: ObjectKey) {
    match kind
    case SecretKind =>
      || (act.DeleteSecret? && ObjectKey(act.del.namespace, act.del.name) == key && Applied(act.fault))
      || act == Foreign(SecretChange(key, None))
    case CertificateKind => act == Foreign(CertificateChange(key, None))
  }

  /** Somebody else stores an object of this name. */
  predicate Plants(act: Act, kind: Kind, key: ObjectKey) {
    && act.Foreign? && act.change.key == key
    && match kind
       case SecretKind => act.change.SecretChange? && act.change.secret.Some?
       case CertificateKind => act.change.CertificateChange? && act.change.certificate.Some?
  }

  /** No removal of the name from position i on. */
  ghost predicate KeptFrom(acts: seq<Act>, kind: Kind, key: ObjectKey, i: nat) {
    forall j: nat :: i <= j < |acts| ==> !Removes(acts[j], kind, key)
  }

  /** The first write of the name since its last removal. */
  ghost predicate FirstWrite(acts: seq<Act>, kind: Kind, key: ObjectKey, i: nat) {
    && i < |acts|
    && Writes(acts[i], kind, key)
    && KeptFrom(acts, kind, key, i)
    && forall j: nat :: j < i && Writes(acts[j], kind, key) ==> !KeptFrom(acts, kind, key, j)
  }

  /** What one act does to one name. */
  lemma EntryStep(api: Api, act: Act, kind: Kind, key: ObjectKey)
    requires !Plants(act, kind, key)
    ensures Entry(Perform(api, act), kind, key)
         == if Removes(act, kind, key) then None
            else if Writes(act, kind, key) && Entry(api, kind, key).None? then Some(Asks(act))
            else Entry(api, kind, key)
  {
  }

  lemma {:induction false} EarliestKeptWrite(acts: seq<Act>, kind: Kind, key: ObjectKey, j: nat) returns (i: nat)
    requires j < |acts| && Writes(acts[j], kind, key) && KeptFrom(acts, kind, key, j)
    ensures FirstWrite(acts, kind, key, i)
  {
    i := j;
    if !FirstWrite(acts, kind, key, j) {
      var k: nat :| k < j && Writes(acts[k], kind, key) && KeptFrom(acts, kind, key, k);
      i := EarliestKeptWrite(acts, kind, key, k);
    }
  }

  /** How the first write moves with one more act. */
  lemma FirstWriteStep(acts: seq<Act>, kind: Kind, key: ObjectKey, last: Act)
    ensures forall i: nat :: i < |acts| ==>
              (FirstWrite(acts + [last], kind, key, i) <==>
                 FirstWrite(acts, kind, key, i) && !Removes(last, kind, key))
    ensures FirstWrite(acts + [last], kind, key, |acts|) <==>
              Writes(last, kind, key) && !exists i: nat :: FirstWrite(acts, kind, key, i)
  {
    var longer := acts + [last];
    assert forall j: nat :: j < |acts| ==> longer[j] == acts[j];
    assert longer[|acts|] == last;
    forall i: nat | i <= |acts|
      ensures KeptFrom(longer, kind, key, i) <==> KeptFrom(acts, kind, key, i) && !Removes(last, kind, key)
    {
    }
    if Writes(last, kind, key) && !exists i: nat :: FirstWrite(acts, kind, key, i) {
      forall j: nat | j < |acts| && Writes(acts[j], kind, key)
        ensures !KeptFrom(acts, kind, key, j)
      {
        if KeptFrom(acts, kind, key, j) {
          var i := EarliestKeptWrite(acts, kind, key, j);
        }
      }
    }
  }

  /** A name is stored exactly when it was written since its last removal, and then it holds what the first
      such write asked for; this goes for secrets and for certificates. */
  lemma {:induction false} FirstWriterWins(acts: seq<Act>, kind: Kind, key: ObjectKey)
    requires forall i :: 0 <= i < |acts| ==> !Plants(acts[i], kind, key)
    ensures Entry(Replay(EMPTY_API, acts), kind, key).Some? <==> exists i: nat :: FirstWrite(acts, kind, key, i)
    ensures forall i: nat :: FirstWrite(acts, kind, key, i) ==>
              Entry(Replay(EMPTY_API, acts), kind, key) == Some(Asks(acts[i]))
  {
    if |acts| > 0 {
      var n := |acts| - 1;
      var before, last := acts[..n], acts[n];
      assert acts == before + [last];
      FirstWriterWins(before, kind, key);
      FirstWriteStep(before, kind, key, last);
      EntryStep(Replay(EMPTY_API, before), last, kind, key);
    }
  }

  ghost predicate RemovedAfter(acts: seq<Act>, kind: Kind, key: ObjectKey, i: nat) {
    exists j: nat :: i < j < |acts| && Removes(acts[j], kind, key)
  }

  lemma KeptOrRemoved(acts: seq<Act>, kind: Kind, key: ObjectKey, i: nat)
    requires i < |acts| && Writes(acts[i], kind, key)
    ensures KeptFrom(acts, kind, key, i) <==> !RemovedAfter(acts, kind, key, i)
  {
    assert !Removes(acts[i], kind, key);
  }

  /** A name is not stored exactly when every write of it is followed by a removal. */
  lemma GoneExactly(acts: seq<Act>, kind: Kind, key: ObjectKey)
    requires forall i :: 0 <= i < |acts| ==> !Plants(acts[i], kind, key)
    ensures Entry(Replay(EMPTY_API, acts), kind, key).None? <==>
              forall i: nat :: i < |acts| && Writes(acts[i], kind, key) ==> RemovedAfter(acts, kind, key, i)
  {
    FirstWriterWins(acts, kind, key);
    forall i: nat | i < |acts| && Writes(acts[i], kind, key)
      ensures FirstWrite(acts, kind, key, i) ==> !RemovedAfter(acts, kind, key, i)
      ensures !RemovedAfter(acts, kind, key, i) ==> exists first: nat :: FirstWrite(acts, kind, key, first)
    {
      KeptOrRemoved(acts, kind, key, i);
      if KeptFrom(acts, kind, key, i) {
        var first := EarliestKeptWrite(acts, kind, key, i);
      }
    }
  }
}
