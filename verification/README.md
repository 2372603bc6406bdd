# A verified model of cain

Cain is a Kubernetes admission webhook that injects CA bundles into pods. This project models its four moving
parts and proves what they guarantee, alone and together, for every pod, configuration, cluster and interleaving.

* **Owner roots** (`Owners.dfy`). `rootOwner` walks up the owner references of a pod. A cluster is a finite map from
  kind and name to objects; a key outside it is a failing Get. `Resolve` and `Scan` are the recursion and its loop,
  cut off below a number of levels, so that clusters with ownership cycles, on which the program recurses without
  end, are part of the model. `RootOwner` is the program.
* **The mutator** (`Metadata.dfy`, `Pods.dfy`, `Injection.dfy`, `Mutator.dfy`, `MutationLaws.dfy`). `Pod` is an object
  that the methods of `Mutator.dfy` change in place, with the source's loops. They are proved against functions on
  pod values (`Admit`, `Inject`, `AddCa`, `AddJvm`, `AddPython`), about which `MutationLaws.dfy` proves what the
  mutation promises; `Complete` states there what a mutated pod looks like without reference to the steps.
* **The workers and the pipeline** (`Workers.dfy`, `StoreLaws.dfy`, `Validator.dfy`, `Pipeline.dfy`,
  `PipelineLaws.dfy`). The three workers act on a store of secrets and certificates and on counters; `Perform` is one
  API call with the counter it bumps, and the programs are proved against it. Any number of validator handlers and
  the workers run as a transition system: a rendezvous on an unbuffered channel is one step, an API call another. API
  calls may fail with a StatusError or with another error, and in both cases may nevertheless have been carried out;
  somebody else may store, replace or remove secrets and certificates at any time.
* **Delivery** (`Delivery.dfy`). What a mutated pod is given and what both webhooks answer, in the annotations, names,
  paths and values that a cluster sees and apart from the functions of the model: the bundle reaches every container,
  the truststore can be opened with the password that the validator sends.
* **Agreement** (`Names.dfy`, `Agreement.dfy`, `Scenarios.dfy`). The theorems that need all of the above: what a
  mutated pod refers to is what the validator asks for, and once the program has come to rest it is in the store.
  `Scenarios.dfy` gives runs, among them those in which an expectation fails.

`Text.dfy` holds the string functions, `CASecrets.dfy` the CA_SECRET setting, `Base64.dfy` the encoding of section 4
of RFC 4648.

## Where the code does something its callers may not expect

Each of these is proved for all inputs, with the condition under which it happens; a lemma with an input or a run that
shows it is named where there is one.

* An extra-secrets entry without a slash makes the mutator index out of range (`StableOutcome` has the exact
  condition). Printing an empty list in the documented format yields such an entry (`ExtrasRoundTrip`), and
  `EmptyAnnotationPanics` is an input.
* The in-memory pod is left half mutated exactly when the second owner lookup fails after the first one succeeded
  (`AllOrNothing`); `JobVanishes` is an input.
* The owner recursion is endless exactly when a walk that the loop gets to follow meets an object twice; where
  everything can be fetched, exactly when an ownership cycle is reachable (`EndlessExactly`). Two jobs that own each
  other are an input (`TwoJobsOwnEachOther`); a missing owner in front of the cycle hides it
  (`MissingOwnerHidesCycle`).
* The deleter counts a deletion that broke off with an error other than a StatusError as done, so created minus
  deleted can differ from the number of secrets; `Conservation` has the exact error term and
  `BrokenDeletionIsCounted` an example and `BrokenDeletionInRun` a run.
* A certificate can be submitted before its password secret was tried: only the receipt of the password request is
  ordered before it (`CertificateComesAfter`). It happens exactly when the secret creator still holds that request
  (`PasswordMayBePending`), and then a stored certificate can refer to a secret that is not there
  (`CertificateBeforePassword`).
* The password secret holds the base64 text of the password, never the password itself unless it is empty
  (`PasswordIsEncoded`). Unless a CA secret of its name was written first, it belongs to the first request for the root
  since the last removal, and is that of a later pod exactly when the two passwords are the same (`PasswordResolves`);
  `SecondPasswordIsLost` is a run.
* A CA secret can bear the name of a password secret exactly when its name ends in `-truststore-password`
  (`NamesClashExactly`). Of the two, the one that is written first decides, and the other pod gets the wrong data:
  `CaSecretExactly` and `PasswordResolves` say exactly what is then stored, and whether the key that is referred to is
  there. `ClashHidesTheBundle` and `ClashHidesThePassword` are runs for the two orders, for any pods with such names,
  and `ClashCanHappen` has such pods for every configuration. Without a password request of the name the projections
  of a pod resolve (`ProjectionsResolve`).
* The two secrets of one root bear the same name exactly if the CA secret is configured as `truststore-password` or
  `password-truststore` and the name of the root repeats that (`OwnNamesClashExactly`).
* The mutator only warns when it cannot get an owner, and the validator looks again. So a pod that comes
  without the CA container can be accepted without it outside kube-system, exactly if the validator finds the root and
  the mutator lost one of its lookups (`SlipsThroughExactly`); `LookupFailsInMutator` is an input. And a mutated pod refers to what is requested
  for it exactly when the lookups find roots of the same name (`ReferencesAreRequested`).
* In kube-system the validator asks for secrets of pods that the mutator leaves alone
  (`KubeSystemIsStillAskedFor`).
* A deletion can reach the API before the creation that was received earlier, and the secret stays: it is gone at rest
  exactly when the call for the creation came first (`PairGoneExactly`); `DeletionOvertaken` is a run.
* Two pods share a secret exactly when their roots have the same name and namespace (`SharedSecretExactly`), so the
  deletion of a pod without owners asks for the deletion of the secret of any pod whose root is called like it
  (`DeletionHitsOthersExactly`); in the run of `DeletionTakesOthersSecret` that secret is gone, and
  `NamesakeCanHappen` has two such pods.
* The certificate and the password secret of a JVM pod without owners have no owner and stay when the pod is deleted,
  the secret unless the two secrets of the pod bear the same name or another handler asks for its deletion
  (`JvmObjectsStayBehind`).

## Model

| member | source | states |
|---|---|---|
| Owners.RootOwner | webhook/utils.go:135-221 | the recursion with its loop, early return, error wrapping and last-one-wins accumulator computes `Resolve` for any levels that suffice |
| Owners.FindRoot | webhook/validator.go:131-138 | the call without a reference returns a root or a failure on every cluster on which the recursion ends |
| Owners.DepthSuffices | webhook/utils.go:135-221 | on every finite cluster, cyclic or not, the recursion ends within one level more than there are objects or never, and the answer does not depend on the levels |
| Owners.AcyclicTerminates | webhook/utils.go:195-214 | without a reachable ownership cycle the recursion ends, by the pigeonhole on walks |
| Owners.SucceedsExactly | webhook/utils.go:193-220 | a root is returned exactly when everything reached through looked-up references can be fetched and no cycle is reached |
| Owners.EndlessExactly | webhook/utils.go:193-214 | the recursion is endless exactly when a walk that the loop gets to follow, past owners that can be fetched and lead to no missing object or cycle, meets an object twice; where everything can be fetched, exactly when a cycle is reachable |
| Owners.TwoJobsOwnEachOther | webhook/utils.go:195-209 | a pod whose owner is one of two jobs that own each other makes the recursion endless |
| Owners.MissingOwnerHidesCycle | webhook/utils.go:201-209 | a missing owner in front of the same cycle makes the lookup fail with the wrapped error instead |
| Owners.FailureNamesMissing | webhook/utils.go:201-218 | every failure wraps a failing Get at the end of a walk of looked-up references; ErrNoRootOwnerFound is never returned |
| Owners.ResolveIsWalk | webhook/utils.go:142-220 | a success agrees with the walk that follows one reference per object: the first of another kind, or else the last |
| Owners.RootUid | webhook/utils.go:143-152 | an object without owners is its own root, by name only; where references carry UIDs the root of an owned object has one |
| Owners.OneOwnerLookedUp | webhook/utils.go:154-214 | an owner of one of the six kinds is looked up: the lookup fails for it exactly when it is missing, and otherwise its own answer is passed on, or it is the root if it has no owners |
| Owners.OneOwnerOfOtherKind | webhook/utils.go:196-199 | an owner of any other kind is the root on every cluster |
| Metadata.Extractor.Family | metadata/extractor.go:106-123 | redhat exactly when the annotation says so, and debian for all else |
| Metadata.Extractor.JvmCommonName | metadata/extractor.go:195-224 | the longest tail of at most 63 characters of the annotation, or of the name made of root, namespace and domain where there is none |
| CASecrets.Setting.UnmarshalText | webhook/utils.go:101-118 | succeeds exactly on texts with one slash, then holds at least one key and prints as the text; leaves the setting alone otherwise |
| CASecrets.ParseExact | webhook/utils.go:101-118 | an accepted text is given back by printing, and name and keys hold no separators that would be cut |
| CASecrets.ParseOfPrint | README.md:78-78 | printing a separator-free setting in the documented format and parsing it gives the setting back |
| CASecrets.CollectData | cain.go:332-341 | collects exactly the configured keys with their data, or fails exactly when one is missing |
| Mutator.Mutate | webhook/mutator.go:117-156 | outcome and new pod are those of `Admit`, for all inputs on which the owner recursion ends |
| Mutator.InjectCa | webhook/mutator.go:159-208 | the idempotency check, the three additions and their warnings compute `Inject` |
| Mutator.AddCaSecretVolumes | webhook/mutator.go:306-349 | adds the CA volumes, the init container and the bundle mounts, or leaves the pod alone when the root is not found or an entry has no slash |
| Mutator.MountBundle | webhook/mutator.go:362-383 | the loops add the mount at the end of every container's mounts and put the CA container first |
| Mutator.GetCaSecretVolumes | webhook/mutator.go:229-304 | builds the projected and the empty volume, or runs out of range exactly when an entry has no slash |
| Mutator.ShouldAddJvmCa | webhook/mutator.go:211-227 | true exactly for JVM pods without a truststore volume |
| Mutator.AddJvmSecretAndEnv | webhook/mutator.go:388-464 | adds the truststore volume, mount and options everywhere, or leaves the pod alone when the root is not found |
| Mutator.AddJvmToContainer | webhook/mutator.go:433-461 | the search with its flag and break updates the first variable of the name or appends one, in this container only |
| Mutator.AddPythonEnv | webhook/mutator.go:466-491 | never fails, and appends the two variables to every container |
| Delivery.MutatorAnswers | webhook/mutator.go:117-208 | the answer to every call, by label, namespace, object, init containers, annotations and what the two lookups find |
| Delivery.VolumesDelivered | webhook/mutator.go:282-303 | old volumes, then a projection of the raw secrets, an empty directory for the bundle and the truststore if it is wanted, with names, modes and items |
| Delivery.FilesDelivered | webhook/mutator.go:240-275 | projected files are numbered in decimal from zero in each of the two groups and end in .crt |
| Delivery.BundleDelivered | webhook/mutator.go:325-383 | every old container gains first a writable mount, where its family looks for certificates, of the empty directory that the CA container mounts at the path in TMP_CERTS_DIR; the raw secrets are mounted read-only by the CA container and by no added mount elsewhere, unless both volumes have one name; image and paths by family |
| Delivery.PythonDelivered | webhook/mutator.go:466-491 | environments grow by exactly the JVM variable, if wanted and new, and the two Python variables, which name a file where the bundle of the family is mounted |
| Delivery.TruststoreDelivered | webhook/mutator.go:400-461 | in every container the first variable of the JVM name ends in options that name the file of the mounted truststore and the password of the certificate message that the validator plans for the pod |
| MutationLaws.MutatedIsComplete | webhook/mutator.go:320-488 | a reported mutation has the exact frame: metadata and old volumes kept, CA container first, init containers gain one mount, containers gain mounts at the end and have their environment updated, nothing else changes |
| MutationLaws.AllOrNothing | webhook/mutator.go:175-207 | without a reported mutation the pod is unchanged except exactly when the second lookup is lost; the Python warning never occurs |
| MutationLaws.JobVanishes | webhook/mutator.go:188-194 | a JVM pod whose owning job is gone at the second lookup is changed although only a warning is returned |
| MutationLaws.MutatedUnlessLost | webhook/mutator.go:159-208 | under any two snapshots of the cluster, unless it panics or does not end, the mutator mutates the pod exactly when it looks for the root and neither lookup that it makes is lost |
| MutationLaws.StableOutcome | webhook/mutator.go:117-208 | on a stable cluster, exactly when the mutation happens and exactly when the index panic does, in terms of the cluster graph and the annotation |
| MutationLaws.EmptyAnnotationPanics | webhook/mutator.go:256-262 | an empty annotation makes the mutator index out of range on a pod without owners, in every cluster |
| MutationLaws.MutationIsIdempotent | webhook/mutator.go:164-173 | after a success no further calls under any clusters change the pod, and each that reaches it only warns |
| MutationLaws.MountsResolveExactly | webhook/mutator.go:320-383 | all mounts are declared afterwards exactly when every old mount names an old or an added volume |
| MutationLaws.UniqueNamesExactly | webhook/mutator.go:211-227 | volume names are unique afterwards exactly when the old ones and the two CA names were, with no assumption on the truststore |
| MutationLaws.SourcesAreComplete | webhook/mutator.go:238-280 | sources are the default keys and then the extra entries, complete and in order, at pairwise distinct paths; an extra entry gives its first two slash-free parts as name and key |
| MutationLaws.ExtrasRoundTrip | README.md:31-33 | separator-free pairs printed in the documented format come back exactly and in order, exactly when there is at least one |
| MutationLaws.EnvironmentLaw | webhook/mutator.go:428-460 | the first variable of the JVM name carries the options after its old value, all other old entries keep place and value, and the count of the name is exact even if it is one of the Python names |
| MutationLaws.JvmEnvLaw | webhook/mutator.go:440-460 | the same for the update of one environment |
| Workers.HandleCreation | secrets/creator.go:75-114 | one turn of the secret creator builds the secret, inserts it if absent and bumps the counter of the answer |
| Workers.StartSecretCreator | secrets/creator.go:72-118 | the loop carries out what it receives in order |
| Workers.HandleDeletion | secrets/deleter.go:77-97 | one turn of the deleter removes the secret if present and bumps the counter of the answer |
| Workers.StartSecretDeleter | secrets/deleter.go:74-100 | the loop carries out what it receives in order |
| Workers.EncodePassword | certificates/certcreator.go:111-123 | the message names the password secret that the certificate refers to, in its namespace and with its owner, and under the one key that the certificate refers to holds bytes that decode to the password |
| Workers.HandleInfo | certificates/certcreator.go:108-181 | one turn sends the password request and only then makes the API call |
| Workers.SubmitCertificate | certificates/certcreator.go:125-181 | builds the certificate, inserts it if absent and bumps the counter of the answer |
| Workers.StartCertCreator | certificates/certcreator.go:105-185 | the loop carries out what it receives in order; for each message, the send of the password request comes directly before the API call |
| Workers.PasswordIsEncoded | certificates/certcreator.go:111-121 | the stored bytes have the padded length, decode to the password of the pod, and equal it only if it is empty |
| Base64.DecodeOfEncode | certificates/certcreator.go:111-112 | decoding recovers every byte string, and the length is that of EncodedLen |
| StoreLaws.Conservation | secrets/creator.go:94-114 | stored secrets minus (created minus deleted) changes by exactly the drift of the acts, under all faults and interference |
| StoreLaws.CountersTellTheStore | secrets/deleter.go:80-96 | from an empty store, the counters give the number of secrets exactly when the drift is zero, which honest answers guarantee |
| StoreLaws.BrokenDeletionIsCounted | secrets/deleter.go:82-96 | a concrete run in which the counters say none and one secret is stored |
| StoreLaws.CountersCountItems | metrics/prometheus.go:82-104 | the three counters of each worker sum to the items it has finished, per namespace |
| StoreLaws.CountersAreExact | secrets/creator.go:95-114 | each single counter reads how many calls earned it, by the kind of answer and by whether the store changed |
| StoreLaws.FirstWriterWins | secrets/creator.go:79-95 | where nobody else stores an object of the name, a secret or certificate is stored exactly when it was written since its last removal, with what the first such request asked for |
| StoreLaws.GoneExactly | secrets/deleter.go:80-82 | where nobody else stores an object of the name, a secret or certificate is not stored exactly when every write of its name is followed by a removal |
| Validator.Validate | webhook/validator.go:56-100 | answer and messages, in order, are those of `Plan` |
| Validator.DeleteOperation | webhook/validator.go:106-124 | asks for the deletion of the pod's own secret only for pods without owners and outside dry runs |
| Validator.CreateResources | webhook/validator.go:126-164 | sends the secret request and then, for JVM pods, the certificate request, or nothing in a dry run or without a root |
| Delivery.ValidatorAnswers | webhook/validator.go:56-138 | exactly when each answer is given, and exactly when anything is sent |
| Pipeline.StepTakesOne | cain.go:221-247 | every program step takes exactly one off the remaining work, whatever the answers are |
| Pipeline.NoDeadlock | webhook/validator.go:140-159 | in every state with work left some program step is enabled, one that meets no fault among them, and in no other |
| Pipeline.WorkIsConserved | secrets/creator.go:56-57 | over every interleaving, steps taken plus work left is the work admitted, so every run drains in a number of steps fixed by its admissions |
| Pipeline.Drains | cain.go:139-161 | from every state there is a run to quiescence without admissions, faults and interference, in as many steps as there is work |
| PipelineLaws.CertificateComesAfter | certificates/certcreator.go:108-159 | in every interleaving, before a certificate is submitted its password request was received, and before that all secrets that the handler had asked for were tried exactly once |
| PipelineLaws.PasswordMayBePending | certificates/certcreator.go:116-159 | in every reachable state with a certificate about to be submitted, its password secret was tried once, or not at all exactly when the secret creator still holds the request |
| PipelineLaws.NothingTwice | secrets/creator.go:72-95 | in every interleaving nothing is carried out twice or differently from what a handler asked for |
| PipelineLaws.EverythingOnce | secrets/deleter.go:74-81 | at rest every message of every handler has been carried out exactly once, as it was sent |
| Agreement.ReferencesAreRequested | webhook/validator.go:140-159 | whatever the three owner lookups find, a mutated pod is accepted exactly when the validator finds a root; its default projections then name the secret and keys requested for it exactly when the first and the third root have the same name, if keys are configured, and its truststore volume the secret of the requested certificate exactly when the second and the third have |
| Agreement.SlipsThroughExactly | webhook/mutator.go:182-194 | whatever the three owner lookups find, unless the mutator panicked or did not end, a pod is accepted exactly when the validator finds its root, and it is then without the CA container exactly if it came without one and is in kube-system or the mutator lost one of its lookups |
| Agreement.NothingSlipsThrough | webhook/validator.go:131-163 | on a cluster that is the same for all lookups and unless the mutator panicked, a pod is accepted exactly when its root is found, and it is then without the CA container exactly in kube-system, if it came without one |
| Agreement.LookupFailsInMutator | webhook/mutator.go:182-186 | a JVM pod whose job the mutator fails to get and the validator gets is unchanged and accepted |
| Agreement.KubeSystemIsStillAskedFor | webhook/mutator.go:134-145 | in kube-system the pod is untouched and the CA secret of its root requested there with the collected data |
| Agreement.CleanupIsAskedFor | webhook/validator.go:106-147 | the deletion of a pod without owners asks for exactly the unowned secret that its creation asked for; a pod with owners asks for no deletion and its secret carries exactly the root reference if that has a UID; so removal is provided for exactly in these cases, never doubly for one pod |
| Agreement.JvmObjectsShareOwner | webhook/validator.go:140-159 | CA secret, password secret and certificate of a JVM pod are owned by the root exactly when its reference has a UID, and by nothing else |
| Agreement.SharedSecretExactly | webhook/validator.go:102-104 | two requests are for one secret exactly when the roots have the same name and namespace |
| Agreement.DeletionHitsOthersExactly | webhook/validator.go:106-114 | the deletion of a pod without owners asks for that of the secret requested for another pod, owned or not, exactly when it is called like that pod's root and is in the same namespace |
| Agreement.DryRunsSendNothing | webhook/validator.go:109-149 | dry runs get the same answer and send nothing |
| Names.NamesClashExactly | certificates/certcreator.go:193-195 | a name is that of some password secret exactly when it ends like one |
| Names.OwnNamesClashExactly | webhook/validator.go:102-104 | the CA secret and the password secret of one root bear the same name exactly for two settings of the CA secret and roots whose names repeat the setting |
| Agreement.CaSecretExactly | secrets/creator.go:75-95 | at rest, the secret of a request that was carried out, and that nobody removed or planted, is stored, and it holds the collected data exactly when the first write of its name was for a CA secret or for a password whose secret is that data; the former if no password request of the run bears the name |
| Agreement.ProjectionsResolve | webhook/mutator.go:235-254 | at rest, every default projection of a mutated pod names a stored secret that holds the collected data and the projected key, if the validator found a root of the same name, the call was carried out, nobody removed or planted the secret, and no password request of the run bears its name |
| Agreement.CertificateIsStored | certificates/certcreator.go:126-159 | at rest, a certificate with the planned secret names is stored for a message whose call was carried out, if nobody removed or planted it |
| Agreement.CertificatesInEveryRun | certificates/certcreator.go:126-155 | in every state of every interleaving, a stored certificate that nobody planted names the issuer of the run and the DNS names of the message that first asked for it, the first as its common name; for a planned message there is one, the end of at most 63 characters of the annotation or of root, namespace and domain, and names and owners are those of the root |
| Agreement.OwnCertificateIsStored | certificates/certcreator.go:126-159 | at rest, the certificate of a JVM pod is stored with all of this for its own root, if the call was carried out, nobody removed or planted it and no other message asks for one of its name |
| Agreement.TruststoreResolves | certificates/certcreator.go:126-136 | at rest, the certificate of a mutated pod's validated root is stored, if the call was carried out and nobody removed or planted it, and the truststore volume names its secret exactly when the second lookup of the mutator found a root of that name |
| Agreement.PasswordResolves | certificates/certcreator.go:137-148 | at rest, if the call was carried out and nobody removed or planted the secret, the password reference of the certificate leads to what the first write of its name since the last removal asked for, at its position in the log: the password of a message for the same root, which is this pod's exactly when the two are the same, or the collected data of a CA secret of the name; where that data has no key "password", the key is there exactly in the first case |
| Agreement.CountersInEveryRun | metrics/prometheus.go:82-104 | the conservation law, the counter sums and the value of every counter in every state of every interleaving |
| Agreement.ObjectsInEveryRun | secrets/creator.go:75-95 | in every state of every interleaving in which nobody else stored an object of the name, a stored secret or certificate is that of the first request since its last removal, and it is gone exactly when every creation that was carried out is followed by a removal |
| Agreement.JvmObjectsStayBehind | certificates/certcreator.go:116-155 | certificate and password secret of a JVM pod without owners have no owner; at rest after its creation and deletion the certificate is stored, if nobody else touches it and the calls for it are carried out, and likewise the password secret, unless the two secrets of the pod bear the same name or another handler asks for its deletion |
| Agreement.PairGoneExactly | secrets/deleter.go:77-82 | at rest, the secret that one handler asked to create and another to delete is gone exactly when the call for the creation came before that for the deletion, if no third message concerns it, nobody else touches it and the calls for it are carried out |
| Scenarios.ServedInTurn | cain.go:221-247 | any two handlers can be served one after the other, and the API is then what their messages make of it in order |
| Scenarios.AnyAnswerCanHappen | secrets/deleter.go:81-96 | runs to rest in which a creation and a deletion are answered in any two ways, with the store and the counters that these answers make |
| Scenarios.AnyCertificateAnswerCanHappen | certificates/certcreator.go:158-181 | the same for the two calls that a certificate message leads to |
| Scenarios.BrokenDeletionInRun | secrets/deleter.go:81-96 | a run after which one secret is stored while the counters say that one was created and one deleted |
| Scenarios.OthersCanChange | secrets/creator.go:94-98 | runs in which somebody else replaces a stored secret, and then removes it |
| Scenarios.DeletionOvertaken | secrets/deleter.go:77-82 | a run without faults in which the deletion request is received after the creation request and the secret is stored at rest |
| Scenarios.CertificateBeforePassword | certificates/certcreator.go:116-159 | a run without faults to a state in which the certificate is stored and the secret it refers to is not |
| Scenarios.SecondPasswordIsLost | certificates/certcreator.go:116-148 | for any two messages for one root with different passwords, a run without faults after which the secret holds the first password |
| Scenarios.ClashHidesTheBundle | webhook/validator.go:102-104 | for any mutated pod whose CA secret is called like the password secret of another JVM pod, a run without faults after which no default projection but one of the key "password" resolves |
| Scenarios.ClashHidesThePassword | certificates/certcreator.go:137-148 | for any JVM pod whose password secret is called like the CA secret of an earlier pod, a run without faults after which its stored certificate refers to a secret that holds the collected data, with the key "password" only if that has it |
| Scenarios.ClashCanHappen | webhook/validator.go:102-104 | for every configuration two pods without owners, one mutated and one for the JVM, to which the two runs apply |
| Scenarios.DeletionTakesOthersSecret | webhook/validator.go:106-114 | for any pod without owners called like the root of another, a run without faults after which the secret of the other is gone |
| Scenarios.NamesakeCanHappen | webhook/validator.go:106-114 | two such pods, one of them owned by a job |

## Left out

- HTTP and TLS servers, signals, certificate watching, environment and namespace reading of cain.go: input and output only.
- The cancelled-context branch of `Validate` closes the channels; the model returns its error and stops there, so that all runs are before any close.
- `path/filepath`: Dir, Base and Join are arbitrary functions of the configuration (`Metadata.Paths`), and the results hold for all of them; the joined paths of the CA bundle are written out.
- The Kubernetes client: owner lookups read a snapshot of the cluster, and the two lookups of one mutation may read different ones.
- Error texts, logging and the registration of the counters.
- Resource quantities and the fields of pods that cain copies along are opaque texts.
- Strings are sequences of characters that stand for bytes; text beyond that (normalisation, runes) is not modelled.
- The order between the secret creator's and the deleter's API calls: the source does not order them, and neither does the model.
- Mutator.Mutate: requires that the owner recursion ends, because the program has no other outcome to specify where it does not.
