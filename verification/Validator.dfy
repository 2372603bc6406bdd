/** The validating webhook: webhook/validator.go. It answers a review and sends messages to the workers. */
module Validator {
  import opened Wrappers
  import opened Metadata
  import opened Owners
  import opened Workers
  import opened CASecrets
  import opened Mutator
  import Injection

  datatype Send = ToCreator(req: CreationRequest) | ToDeleter(del: DeletionRequest) | ToCertCreator(info: CertInfo)

  datatype Settings = Settings(extractor: Extractor, caSecret: CASecret, caSecretData: Data)

  /** Valid and Denied are answers, Refused is the error return for other operations, Stopped the one for a
      context that is done. */
  datatype Verdict = Valid | NotAPod | NoRoot(error: LookupError) | Refused | Stopped | Endless

  function DeletionPlan(settings: Settings, review: Review, meta: Meta): seq<Send> {
    if |meta.owners| == 0 && !review.dryRun
    then [ToDeleter(DeletionRequest(Injection.CaSecretName(settings.caSecret, meta.name), review.namespace))]
    else []
  }

  function CaRequest(settings: Settings, review: Review, root: OwnerRef): CreationRequest {
    CreationRequest(Injection.CaSecretName(settings.caSecret, root.name), review.namespace, settings.caSecretData,
                    Some(root))
  }

  function InfoFor(settings: Settings, review: Review, meta: Meta, root: OwnerRef): CertInfo {
    CertInfo(root.name, review.namespace,
             [settings.extractor.JvmCommonName(meta, root.name, review.namespace)],
             settings.extractor.TruststorePassword(meta), Some(root))
  }

  function CreationPlan(settings: Settings, review: Review, meta: Meta, root: OwnerRef): seq<Send> {
    if review.dryRun then []
    else if settings.extractor.IsJvmEnabled(meta) then
      [ToCreator(CaRequest(settings, review, root)), ToCertCreator(InfoFor(settings, review, meta, root))]
    else [ToCreator(CaRequest(settings, review, root))]
  }

  /** Validate on values: the answer and the messages in the order in which they are sent. */
  function Plan(settings: Settings, review: Review, c: Cluster, meta: Meta): (Verdict, seq<Send>) {
    if review.cancelled then (Stopped, [])
    else if !settings.extractor.IsInjectionEnabled(meta) then (Valid, [])
    else if !review.isPod then (NotAPod, [])
    else
      match review.operation
      case Delete => (Valid, DeletionPlan(settings, review, meta))
      case Create =>
        (match RootOf(c, AsObject(meta))
         case Root(root) => (Valid, CreationPlan(settings, review, meta, root))
         case Failed(error) => (NoRoot(error), [])
         case TooDeep => (Endless, []))
      case _ => (Refused, [])
  }

  /** The sending ends of the three channels, as the sequence of what one handler has sent on them. */
  class Wire {
    var sent: seq<Send>

    constructor ()
      ensures sent == []
    {
      sent := [];
    }

    method Put(message: Send)
      modifies this
      ensures sent == old(sent) + [message]
    {
      sent := sent + [message];
    }
  }

  method Validate(settings: Settings, review: Review, c: Cluster, meta: Meta, wire: Wire) returns (verdict: Verdict)
    requires Plan(settings, review, c, meta).0 != Endless
    modifies wire
    ensures verdict == Plan(settings, review, c, meta).0
    ensures wire.sent == old(wire.sent) + Plan(settings, review, c, meta).1
  {
    if review.cancelled {
      return Stopped;
    }
    if !settings.extractor.IsInjectionEnabled(meta) {
      return Valid;
    }
    if !review.isPod {
      return NotAPod;
    }
    match review.operation {
      case Delete =>
        DeleteOperation(settings, review, meta, wire);
        return Valid;
      case Create =>
        verdict := CreateResources(settings, review, c, meta, wire);
      case _ =>
        return Refused;
    }
  }

  method DeleteOperation(settings: Settings, review: Review, meta: Meta, wire: Wire)
    modifies wire
    ensures wire.sent == old(wire.sent) + DeletionPlan(settings, review, meta)
  {
    if |meta.owners| == 0 {
      if !review.dryRun {
        wire.Put(ToDeleter(DeletionRequest(settings.caSecret.name + "-" + meta.name, review.namespace)));
      }
    }
  }

  method CreateResources(settings: Settings, review: Review, c: Cluster, meta: Meta, wire: Wire)
    returns (verdict: Verdict)
    requires !RootOf(c, AsObject(meta)).TooDeep?
    modifies wire
    ensures RootOf(c, AsObject(meta)).Root? ==>
              && verdict == Valid
              && wire.sent == old(wire.sent) + CreationPlan(settings, review, meta, RootOf(c, AsObject(meta)).ref)
    ensures RootOf(c, AsObject(meta)).Failed? ==>
              verdict == NoRoot(RootOf(c, AsObject(meta)).error) && wire.sent == old(wire.sent)
  {
    DepthSuffices(c, AsObject(meta));
    var root := FindRoot(c, AsObject(meta));
    if root.Failed? {
      return NoRoot(root.error);
    }
    if !review.dryRun {
      wire.Put(ToCreator(CreationRequest(settings.caSecret.name + "-" + root.ref.name, review.namespace,
                                         settings.caSecretData, Some(root.ref))));
    }
    if settings.extractor.IsJvmEnabled(meta) && !review.dryRun {
      var commonName := settings.extractor.JvmCommonName(meta, root.ref.name, review.namespace);
      wire.Put(ToCertCreator(CertInfo(root.ref.name, review.namespace, [commonName],
                                      settings.extractor.TruststorePassword(meta), Some(root.ref))));
    }
    return Valid;
  }
}
