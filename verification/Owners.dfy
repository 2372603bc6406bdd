/** Owner-root resolution: rootOwner in webhook/utils.go.

    A cluster is what the Get calls of one namespace can see: a finite map from kind and name to the object;
    a key outside the map is a Get that returns an error. */
module Owners {
  import opened Wrappers

  datatype OwnerRef = OwnerRef(kind: string, name: string, uid: string)

  datatype Object = Object(name: string, owners: seq<OwnerRef>)

  datatype Key = Key(kind: string, name: string)

  type Cluster = map<Key, Object>

  const BUILTIN_KINDS: set<string> := {"Deployment", "StatefulSet", "ReplicaSet", "DaemonSet", "CronJob", "Job"}

  /** GetFailed is the innermost error of a failing Get; Within is one level of error wrapping. */
  datatype LookupError = NoRootOwnerFound | GetFailed(ref: OwnerRef) | Within(ref: OwnerRef, cause: LookupError)

  /** TooDeep stands for a recursion that needs more levels than it was given. */
  datatype Lookup = Root(ref: OwnerRef) | Failed(error: LookupError) | TooDeep

  predicate Builtin(ref: OwnerRef) {
    ref.kind in BUILTIN_KINDS
  }

  function Target(ref: OwnerRef): Key {
    Key(ref.kind, ref.name)
  }

  /** rootOwner cut off below a number of levels. `via` is the reference that led to the object. */
  function Resolve(c: Cluster, obj: Object, via: Option<OwnerRef>, depth: nat): Lookup
    decreases depth, 0
  {
    if |obj.owners| == 0 then Root(if via.None? then OwnerRef("", obj.name, "") else via.value)
    else if depth == 0 then TooDeep
    else Scan(c, obj.owners, None, depth - 1)
  }

  /** The loop of rootOwner over the references that are left, with the root found last. */
  function Scan(c: Cluster, refs: seq<OwnerRef>, last: Option<OwnerRef>, depth: nat): Lookup
    decreases depth, |refs| + 1
  {
    if |refs| == 0 then
      if last.None? then Failed(NoRootOwnerFound) else Root(last.value)
    else if !Builtin(refs[0]) then Root(refs[0])
    else if Target(refs[0]) !in c then Failed(GetFailed(refs[0]))
    else
      match Resolve(c, c[Target(refs[0])], Some(refs[0]), depth)
      case Root(root) => Scan(c, refs[1..], Some(root), depth)
      case Failed(error) => Failed(Within(refs[0], error))
      case TooDeep => TooDeep
  }

  /** The recursion ends at some depth; otherwise the program would recurse without bound. */
  ghost predicate Terminates(c: Cluster, obj: Object) {
    exists depth: nat :: !Resolve(c, obj, None, depth).TooDeep?
  }

  /** rootOwner as its callers see it; TooDeep is reported for the recursions that never end. */
  function RootOf(c: Cluster, obj: Object): Lookup {
    Resolve(c, obj, None, |c| + 1)
  }

  // ------------------------------------------------------------------ the program

  /** The recursion with its loop. `depth` only bounds the levels and is not part of the program. */
  method RootOwner(c: Cluster, obj: Object, via: Option<OwnerRef>, ghost depth: nat) returns (result: Lookup)
    requires !Resolve(c, obj, via, depth).TooDeep?
    ensures result == Resolve(c, obj, via, depth)
    decreases depth
  {
    if |obj.owners| == 0 {
      if via.None? {
        return Root(OwnerRef("", obj.name, ""));
      }
      return Root(via.value);
    }
    var rootOwnerRef: Option<OwnerRef> := None;
    assert obj.owners[0..] == obj.owners;
    for i := 0 to |obj.owners|
      invariant Scan(c, obj.owners[i..], rootOwnerRef, depth - 1) == Resolve(c, obj, via, depth)
    {
      var ownRef := obj.owners[i];
      assert obj.owners[i..][1..] == obj.owners[i + 1..];
      if !Builtin(ownRef) {
        return Root(ownRef);
      }
      if Target(ownRef) !in c {
        return Failed(GetFailed(ownRef));
      }
      var above := RootOwner(c, c[Target(ownRef)], Some(ownRef), depth - 1);
      if above.Failed? {
        return Failed(Within(ownRef, above.error));
      }
      rootOwnerRef := Some(above.ref);
    }
    if rootOwnerRef.None? {
      return Failed(NoRootOwnerFound);
    }
    return Root(rootOwnerRef.value);
  }

  /** The call that both webhooks make. */
  method FindRoot(c: Cluster, obj: Object) returns (result: Lookup)
    requires Terminates(c, obj)
    ensures result == RootOf(c, obj) && !result.TooDeep?
  {
    DepthSuffices(c, obj);
    result := RootOwner(c, obj, None, |c| + 1);
  }

  // ------------------------------------------------------------------ depth

  /** More levels do not change an answer. */
  lemma {:induction false} ResolveMonotone(c: Cluster, obj: Object, via: Option<OwnerRef>, m: nat, n: nat)
    requires m <= n && !Resolve(c, obj, via, m).TooDeep?
    ensures Resolve(c, obj, via, n) == Resolve(c, obj, via, m)
    decreases m, 0
  {
    if |obj.owners| > 0 {
      ScanMonotone(c, obj.owners, None, m - 1, n - 1);
    }
  }

  lemma {:induction false} ScanMonotone(c: Cluster, refs: seq<OwnerRef>, last: Option<OwnerRef>, m: nat, n: nat)
    requires m <= n && !Scan(c, refs, last, m).TooDeep?
    ensures Scan(c, refs, last, n) == Scan(c, refs, last, m)
    decreases m, |refs| + 1
  {
    if |refs| > 0 && Builtin(refs[0]) && Target(refs[0]) in c {
      ResolveMonotone(c, c[Target(refs[0])], Some(refs[0]), m, n);
      var above := Resolve(c, c[Target(refs[0])], Some(refs[0]), m);
      if above.Root? {
        ScanMonotone(c, refs[1..], Some(above.ref), m, n);
      }
    }
  }

  /** The object of a key needs more levels than n. */
  ghost predicate Deep(c: Cluster, key: Key, n: nat)
    requires key in c
  {
    Resolve(c, c[key], None, n).TooDeep?
  }

  ghost predicate AllDeep(c: Cluster, keys: set<Key>, n: nat)
    requires keys <= c.Keys
  {
    forall key :: key in keys ==> Deep(c, key, n)
  }

  lemma AllDeepBelow(c: Cluster, keys: set<Key>, n: nat)
    requires keys <= c.Keys && n > 0 && AllDeep(c, keys, n)
    ensures AllDeep(c, keys, n - 1)
  {
    forall key | key in keys
      ensures Deep(c, key, n - 1)
    {
      if !Deep(c, key, n - 1) {
        ResolveMonotone(c, c[key], None, n - 1, n);
      }
    }
  }

  /** An object that answers within n levels answers within one level per object that is not on the stack:
      an object on the stack that answered at all would already have answered in fewer levels. */
  lemma {:induction false} ObjectBound(c: Cluster, key: Key, n: nat, stack: set<Key>)
    requires key in c && !Deep(c, key, n)
    requires stack <= c.Keys && AllDeep(c, stack, n)
    ensures key !in stack && !Deep(c, key, |c.Keys - stack|)
    decreases n, 0
  {
    var left := c.Keys - stack;
    assert key in left;
    if |c[key].owners| == 0 {
    } else if !Deep(c, key, n - 1) {
      AllDeepBelow(c, stack, n);
      ObjectBound(c, key, n - 1, stack);
    } else {
      AllDeepBelow(c, stack, n);
      ScanBound(c, c[key].owners, None, n - 1, stack + {key});
      assert c.Keys - (stack + {key}) == left - {key};
    }
  }

  lemma {:induction false} ScanBound(c: Cluster, refs: seq<OwnerRef>, last: Option<OwnerRef>, n: nat,
                                     stack: set<Key>)
    requires !Scan(c, refs, last, n).TooDeep?
    requires stack <= c.Keys && AllDeep(c, stack, n)
    ensures Scan(c, refs, last, |c.Keys - stack|) == Scan(c, refs, last, n)
    decreases n, |refs| + 1
  {
    if |refs| > 0 && Builtin(refs[0]) && Target(refs[0]) in c {
      var key := Target(refs[0]);
      var bound := |c.Keys - stack|;
      ObjectBound(c, key, n, stack);
      ResolveMonotone(c, c[key], Some(refs[0]), bound, if bound < n then n else bound);
      ResolveMonotone(c, c[key], Some(refs[0]), n, if bound < n then n else bound);
      var above := Resolve(c, c[key], Some(refs[0]), n);
      if above.Root? {
        ScanBound(c, refs[1..], Some(above.ref), n, stack);
      }
    }
  }

  /** On every finite cluster, with or without ownership cycles, the recursion either ends within one level
      more than there are objects or never ends, and where it ends the answer does not depend on the levels. */
  lemma DepthSuffices(c: Cluster, obj: Object)
    ensures Terminates(c, obj) <==> !RootOf(c, obj).TooDeep?
    ensures forall depth: nat :: !Resolve(c, obj, None, depth).TooDeep? ==>
              Resolve(c, obj, None, depth) == RootOf(c, obj)
  {
    forall depth: nat | !Resolve(c, obj, None, depth).TooDeep?
      ensures Resolve(c, obj, None, depth) == RootOf(c, obj)
    {
      if |obj.owners| > 0 {
        ScanBound(c, obj.owners, None, depth - 1, {});
        assert c.Keys - {} == c.Keys;
      }
    }
  }

  // ------------------------------------------------------------------ reachability

  /** The references that the loop looks up: those before the first one of another kind. */
  function Scanned(refs: seq<OwnerRef>): seq<OwnerRef> {
    if |refs| == 0 || !Builtin(refs[0]) then [] else [refs[0]] + Scanned(refs[1..])
  }

  ghost predicate Owns(obj: Object, key: Key) {
    exists ref :: ref in Scanned(obj.owners) && Target(ref) == key
  }

  /** The keys of an upward walk along looked-up references; only the last one may be missing. */
  ghost predicate IsPath(c: Cluster, obj: Object, path: seq<Key>)
    decreases |path|
  {
    |path| > 0 ==>
      && Owns(obj, path[0])
      && (|path| > 1 ==> path[0] in c && IsPath(c, c[path[0]], path[1..]))
  }

  ghost predicate Distinct(path: seq<Key>) {
    forall i, j :: 0 <= i < j < |path| ==> path[i] != path[j]
  }

  /** Every object that an upward walk meets can be fetched. */
  ghost predicate Fetchable(c: Cluster, obj: Object) {
    forall path, key :: IsPath(c, obj, path) && key in path ==> key in c
  }

  /** No upward walk meets an object twice. */
  ghost predicate Acyclic(c: Cluster, obj: Object) {
    forall path :: IsPath(c, obj, path) ==> Distinct(path)
  }

  // ------------------------------------------------------------------ success implies reachability facts

  lemma {:induction false} ScannedRefAnswers(c: Cluster, refs: seq<OwnerRef>, last: Option<OwnerRef>, depth: nat,
                                             ref: OwnerRef)
    requires Scan(c, refs, last, depth).Root? && ref in Scanned(refs)
    ensures Target(ref) in c && Resolve(c, c[Target(ref)], None, depth).Root?
    decreases |refs|
  {
    var above := Resolve(c, c[Target(refs[0])], Some(refs[0]), depth);
    if ref != refs[0] {
      ScannedRefAnswers(c, refs[1..], Some(above.ref), depth, ref);
    }
  }

  lemma OwnedAnswers(c: Cluster, obj: Object, depth: nat, key: Key)
    requires Resolve(c, obj, None, depth).Root? && Owns(obj, key)
    ensures depth > 0 && key in c && Resolve(c, c[key], None, depth - 1).Root?
  {
    var ref :| ref in Scanned(obj.owners) && Target(ref) == key;
    ScannedRefAnswers(c, obj.owners, None, depth - 1, ref);
  }

  /** Each object on a walk from an answering object answers, with a level less. */
  lemma {:induction false} PathAnswers(c: Cluster, obj: Object, depth: nat, path: seq<Key>, key: Key)
    requires Resolve(c, obj, None, depth).Root? && IsPath(c, obj, path) && key in path
    ensures depth > 0 && key in c && Resolve(c, c[key], None, depth - 1).Root?
    decreases |path|
  {
    OwnedAnswers(c, obj, depth, path[0]);
    if key != path[0] {
      PathAnswers(c, c[path[0]], depth - 1, path[1..], key);
      ResolveMonotone(c, c[key], None, depth - 2, depth - 1);
    }
  }

  /** A walk from an answering object does not come back to it: the levels would descend forever. */
  lemma {:induction false} NoReturn(c: Cluster, key: Key, depth: nat, path: seq<Key>)
    requires key in c && Resolve(c, c[key], None, depth).Root?
    requires IsPath(c, c[key], path)
    ensures key !in path
    decreases depth
  {
    if key in path {
      PathAnswers(c, c[key], depth, path, key);
      NoReturn(c, key, depth - 1, path);
    }
  }

  lemma {:induction false} AnswerMeansDistinct(c: Cluster, obj: Object, depth: nat, path: seq<Key>)
    requires Resolve(c, obj, None, depth).Root? && IsPath(c, obj, path)
    ensures Distinct(path)
    decreases |path|
  {
    if |path| > 1 {
      OwnedAnswers(c, obj, depth, path[0]);
      NoReturn(c, path[0], depth - 1, path[1..]);
      AnswerMeansDistinct(c, c[path[0]], depth - 1, path[1..]);
      assert forall j :: 1 <= j < |path| ==> path[j] == path[1..][j - 1];
    }
  }

  // ------------------------------------------------------------------ acyclicity implies termination

  /** Every walk stays off the stack and meets no object twice. */
  ghost predicate Clear(c: Cluster, obj: Object, stack: set<Key>) {
    forall path :: IsPath(c, obj, path) ==> Distinct(path) && forall key :: key in path ==> key !in stack
  }

  lemma ClearAbove(c: Cluster, obj: Object, stack: set<Key>, key: Key)
    requires Clear(c, obj, stack) && Owns(obj, key)
    ensures key !in stack
    ensures key in c ==> Clear(c, c[key], stack + {key})
  {
    assert IsPath(c, obj, [key]) && key in [key];
    if key in c {
      forall path | IsPath(c, c[key], path)
        ensures Distinct(path) && forall k :: k in path ==> k !in stack + {key}
      {
        var longer := [key] + path;
        assert longer[1..] == path;
        assert IsPath(c, obj, longer);
        forall i, j | 0 <= i < j < |path|
          ensures path[i] != path[j]
        {
          assert longer[i + 1] == path[i] && longer[j + 1] == path[j];
        }
        forall k | k in path
          ensures k !in stack + {key}
        {
          var i :| 0 <= i < |path| && path[i] == k;
          assert longer[i + 1] == k && longer[0] == key;
          assert k in longer;
        }
      }
    }
  }

  /** The pigeonhole: every level adds an object to the stack, and the stack holds each object once. */
  lemma {:induction false} ClearEnds(c: Cluster, obj: Object, via: Option<OwnerRef>, stack: set<Key>)
    requires stack <= c.Keys && Clear(c, obj, stack)
    ensures !Resolve(c, obj, via, |c.Keys - stack| + 1).TooDeep?
    decreases |c.Keys - stack|, 0
  {
    if |obj.owners| > 0 {
      ClearScanEnds(c, obj, obj.owners, None, stack);
    }
  }

  lemma {:induction false} ClearScanEnds(c: Cluster, obj: Object, refs: seq<OwnerRef>, last: Option<OwnerRef>,
                                         stack: set<Key>)
    requires stack <= c.Keys && Clear(c, obj, stack)
    requires forall ref :: ref in Scanned(refs) ==> ref in Scanned(obj.owners)
    ensures !Scan(c, refs, last, |c.Keys - stack|).TooDeep?
    decreases |c.Keys - stack|, 0, |refs|
  {
    if |refs| > 0 && Builtin(refs[0]) && Target(refs[0]) in c {
      var key := Target(refs[0]);
      assert refs[0] in Scanned(refs);
      ClearAbove(c, obj, stack, key);
      var left := c.Keys - stack;
      assert key in left && c.Keys - (stack + {key}) == left - {key};
      ClearEnds(c, c[key], Some(refs[0]), stack + {key});
      var above := Resolve(c, c[key], Some(refs[0]), |left|);
      if above.Root? {
        ClearScanEnds(c, obj, refs[1..], Some(above.ref), stack);
      }
    }
  }

  /** On a finite cluster, without a reachable ownership cycle the recursion ends. */
  lemma AcyclicTerminates(c: Cluster, obj: Object)
    requires Acyclic(c, obj)
    ensures Terminates(c, obj) && !RootOf(c, obj).TooDeep?
  {
    assert c.Keys - {} == c.Keys;
    ClearEnds(c, obj, None, {});
  }

  // ------------------------------------------------------------------ failures

  /** The error at the bottom of the wrapping. */
  function Cause(error: LookupError): LookupError {
    match error
    case Within(_, cause) => Cause(cause)
    case _ => error
  }

  /** An upward walk whose last step follows a reference that the cluster cannot resolve. */
  ghost predicate LeadsToMissing(c: Cluster, refs: seq<OwnerRef>, path: seq<Key>, ref: OwnerRef) {
    |path| > 0 && IsPath(c, Object("", refs), path) && path[|path| - 1] == Target(ref) && Target(ref) !in c
  }

  /** A failure is never ErrNoRootOwnerFound: it names a looked-up reference that cannot be fetched. */
  lemma {:induction false} FailureNamesMissing(c: Cluster, obj: Object, via: Option<OwnerRef>, depth: nat)
    requires Resolve(c, obj, via, depth).Failed?
    ensures var cause := Cause(Resolve(c, obj, via, depth).error);
            cause.GetFailed? && exists path :: LeadsToMissing(c, obj.owners, path, cause.ref)
    decreases depth, 0
  {
    FailureInScan(c, obj.owners, None, depth - 1);
  }

  lemma {:induction false} FailureInScan(c: Cluster, refs: seq<OwnerRef>, last: Option<OwnerRef>, depth: nat)
    requires Scan(c, refs, last, depth).Failed? && (|refs| > 0 || last.Some?)
    ensures var cause := Cause(Scan(c, refs, last, depth).error);
            cause.GetFailed? && exists path :: LeadsToMissing(c, refs, path, cause.ref)
    decreases depth, |refs| + 1
  {
    var key := Target(refs[0]);
    var cause := Cause(Scan(c, refs, last, depth).error);
    assert Owns(Object("", refs), key) by {
      assert refs[0] in Scanned(refs);
    }
    if key !in c {
      assert LeadsToMissing(c, refs, [key], refs[0]);
    } else {
      var above := Resolve(c, c[key], Some(refs[0]), depth);
      if above.Failed? {
        FailureNamesMissing(c, c[key], Some(refs[0]), depth);
        var path :| LeadsToMissing(c, c[key].owners, path, cause.ref);
        assert ([key] + path)[1..] == path;
        assert LeadsToMissing(c, refs, [key] + path, cause.ref);
      } else {
        FailureInScan(c, refs[1..], Some(above.ref), depth);
        var path :| LeadsToMissing(c, refs[1..], path, cause.ref);
        assert forall ref :: ref in Scanned(refs[1..]) ==> ref in Scanned(refs);
        assert LeadsToMissing(c, refs, path, cause.ref);
      }
    }
  }

  lemma FailureMeansUnfetchable(c: Cluster, obj: Object)
    ensures RootOf(c, obj).Failed? ==> !Fetchable(c, obj)
  {
    if RootOf(c, obj).Failed? {
      FailureNamesMissing(c, obj, None, |c| + 1);
      var ref := Cause(RootOf(c, obj).error).ref;
      var path :| LeadsToMissing(c, obj.owners, path, ref);
      assert IsPath(c, obj, path) && path[|path| - 1] in path;
    }
  }

  /** rootOwner returns a root exactly when every object reached through looked-up references can be fetched
      and no ownership cycle is reached. */
  lemma SucceedsExactly(c: Cluster, obj: Object)
    ensures RootOf(c, obj).Root? <==> Fetchable(c, obj) && Acyclic(c, obj)
  {
    if RootOf(c, obj).Root? {
      forall path | IsPath(c, obj, path)
        ensures Distinct(path) && forall key :: key in path ==> key in c
      {
        AnswerMeansDistinct(c, obj, |c| + 1, path);
        forall key | key in path
          ensures key in c
        {
          PathAnswers(c, obj, |c| + 1, path, key);
        }
      }
    }
    if Fetchable(c, obj) && Acyclic(c, obj) {
      AcyclicTerminates(c, obj);
      FailureMeansUnfetchable(c, obj);
    }
  }

  // ------------------------------------------------------------------ when the recursion ends

  /** The lookup of an object succeeds, by what can be reached from it. */
  ghost predicate Sound(c: Cluster, obj: Object) {
    Fetchable(c, obj) && Acyclic(c, obj)
  }

  /** The loop gets to this key: it can be fetched, and the references before it are of looked-up kinds, can be
      fetched, and lead to no missing object and into no cycle. */
  ghost predicate Enters(c: Cluster, refs: seq<OwnerRef>, key: Key)
    ensures Enters(c, refs, key) ==> key in c
  {
    && |refs| > 0 && Builtin(refs[0]) && Target(refs[0]) in c
    && (Target(refs[0]) == key || (Sound(c, c[Target(refs[0])]) && Enters(c, refs[1..], key)))
  }

  /** A walk that the recursion gets to follow. */
  ghost predicate EntryPath(c: Cluster, obj: Object, path: seq<Key>)
    decreases |path|
  {
    |path| > 0 ==> Enters(c, obj.owners, path[0]) && EntryPath(c, c[path[0]], path[1..])
  }

  lemma SoundAnswers(c: Cluster, obj: Object, n: nat)
    requires !Resolve(c, obj, None, n).TooDeep?
    ensures Sound(c, obj) <==> Resolve(c, obj, None, n).Root?
  {
    SucceedsExactly(c, obj);
    DepthSuffices(c, obj);
  }

  /** A loop that runs too deep does so in an object that it gets to. */
  lemma {:induction false} DeepScanEnters(c: Cluster, refs: seq<OwnerRef>, last: Option<OwnerRef>, n: nat)
    returns (key: Key)
    requires Scan(c, refs, last, n).TooDeep?
    ensures Enters(c, refs, key) && Deep(c, key, n)
    decreases |refs|
  {
    key := Target(refs[0]);
    if !Deep(c, key, n) {
      SoundAnswers(c, c[key], n);
      var above := Resolve(c, c[key], Some(refs[0]), n);
      key := DeepScanEnters(c, refs[1..], Some(above.ref), n);
    }
  }

  /** A recursion that exceeds n levels follows a walk of n objects. */
  lemma {:induction false} DeepPath(c: Cluster, obj: Object, n: nat) returns (path: seq<Key>)
    requires Resolve(c, obj, None, n).TooDeep?
    ensures |path| == n && EntryPath(c, obj, path)
    ensures forall key :: key in path ==> key in c
    decreases n
  {
    if n == 0 {
      path := [];
    } else {
      var key := DeepScanEnters(c, obj.owners, None, n - 1);
      var rest := DeepPath(c, c[key], n - 1);
      path := [key] + rest;
      assert path[1..] == rest;
    }
  }

  lemma {:induction false} Pigeonhole(path: seq<Key>, keys: set<Key>)
    requires Distinct(path) && forall key :: key in path ==> key in keys
    ensures |path| <= |keys|
    decreases |path|
  {
    if |path| > 0 {
      var rest := path[1..];
      forall key | key in rest
        ensures key in keys - {path[0]}
      {
        var i :| 0 <= i < |rest| && rest[i] == key;
        assert path[i + 1] == key;
      }
      Pigeonhole(rest, keys - {path[0]});
    }
  }

  lemma {:induction false} EnteredEnds(c: Cluster, refs: seq<OwnerRef>, last: Option<OwnerRef>, n: nat, key: Key)
    requires !Scan(c, refs, last, n).TooDeep? && Enters(c, refs, key)
    ensures !Deep(c, key, n)
    decreases |refs|
  {
    if Target(refs[0]) != key {
      SoundAnswers(c, c[Target(refs[0])], n);
      var above := Resolve(c, c[Target(refs[0])], Some(refs[0]), n);
      EnteredEnds(c, refs[1..], Some(above.ref), n, key);
    }
  }

  /** Each object on a followed walk ends, with a level less. */
  lemma {:induction false} EntryPathEnds(c: Cluster, obj: Object, n: nat, path: seq<Key>, key: Key)
    requires !Resolve(c, obj, None, n).TooDeep? && EntryPath(c, obj, path) && key in path
    ensures n > 0 && key in c && !Deep(c, key, n - 1)
    decreases |path|
  {
    EnteredEnds(c, obj.owners, None, n - 1, path[0]);
    if key != path[0] {
      EntryPathEnds(c, c[path[0]], n - 1, path[1..], key);
      ResolveMonotone(c, c[key], None, n - 2, n - 1);
    }
  }

  lemma {:induction false} NoComeBack(c: Cluster, key: Key, n: nat, path: seq<Key>)
    requires key in c && !Deep(c, key, n) && EntryPath(c, c[key], path)
    ensures key !in path
    decreases n
  {
    if key in path {
      EntryPathEnds(c, c[key], n, path, key);
      NoComeBack(c, key, n - 1, path);
    }
  }

  lemma {:induction false} EndingMeansDistinct(c: Cluster, obj: Object, n: nat, path: seq<Key>)
    requires !Resolve(c, obj, None, n).TooDeep? && EntryPath(c, obj, path)
    ensures Distinct(path)
    decreases |path|
  {
    if |path| > 1 {
      EntryPathEnds(c, obj, n, path, path[0]);
      NoComeBack(c, path[0], n - 1, path[1..]);
      EndingMeansDistinct(c, c[path[0]], n - 1, path[1..]);
      assert forall j :: 1 <= j < |path| ==> path[j] == path[1..][j - 1];
    }
  }

  /** The recursion is endless exactly when a walk that it gets to follow meets an object twice: the cycle must
      be reached before any missing object. Where everything can be fetched, that is any reachable cycle. */
  lemma EndlessExactly(c: Cluster, obj: Object)
    ensures !Terminates(c, obj) <==> exists path :: EntryPath(c, obj, path) && !Distinct(path)
    ensures Fetchable(c, obj) ==> (Terminates(c, obj) <==> Acyclic(c, obj))
  {
    DepthSuffices(c, obj);
    SucceedsExactly(c, obj);
    FailureMeansUnfetchable(c, obj);
    if Terminates(c, obj) {
      forall path | EntryPath(c, obj, path)
        ensures Distinct(path)
      {
        EndingMeansDistinct(c, obj, |c| + 1, path);
      }
    } else {
      var path := DeepPath(c, obj, |c| + 1);
      if Distinct(path) {
        Pigeonhole(path, c.Keys);
      }
    }
  }

  const JOB_A := OwnerRef("Job", "a", "uid-a")
  const JOB_B := OwnerRef("Job", "b", "uid-b")
  const GHOST := OwnerRef("Job", "missing", "uid-m")

  /** Two jobs that own each other; the first one may have a further owner in front. */
  function TwoJobs(front: seq<OwnerRef>): Cluster {
    map[Target(JOB_A) := Object("a", front + [JOB_B]), Target(JOB_B) := Object("b", [JOB_A])]
  }

  lemma TwoJobsOwnEachOther()
    ensures !Terminates(TwoJobs([]), Object("pod", [JOB_A]))
  {
    var c := TwoJobs([]);
    var a, b := Target(JOB_A), Target(JOB_B);
    assert c[a].owners == [JOB_B] && c[b].owners == [JOB_A];
    assert EntryPath(c, c[b], [a]) by {
      assert [a][1..] == [];
    }
    assert EntryPath(c, c[a], [b, a]) by {
      assert [b, a][1..] == [a];
    }
    var path := [a, b, a];
    assert path[1..] == [b, a] && path[0] == path[2];
    assert EntryPath(c, Object("pod", [JOB_A]), path) && !Distinct(path);
    EndlessExactly(c, Object("pod", [JOB_A]));
  }

  /** The same cycle behind a missing owner is never reached: the lookup fails. */
  lemma MissingOwnerHidesCycle()
    ensures RootOf(TwoJobs([GHOST]), Object("pod", [JOB_A])) == Failed(Within(JOB_A, GetFailed(GHOST)))
    ensures !Acyclic(TwoJobs([GHOST]), Object("pod", [JOB_A]))
  {
    var c, pod := TwoJobs([GHOST]), Object("pod", [JOB_A]);
    var a, b := Target(JOB_A), Target(JOB_B);
    assert Target(GHOST) !in c;
    assert c[a].owners == [GHOST, JOB_B] && c[a].owners[0] == GHOST;
    assert Resolve(c, c[a], Some(JOB_A), |c|) == Failed(GetFailed(GHOST));
    assert Scan(c, [JOB_A], None, |c|) == Failed(Within(JOB_A, GetFailed(GHOST)));
    assert Owns(c[a], b) by {
      assert c[a].owners[1..] == [JOB_B];
      assert JOB_B in Scanned([JOB_B]);
      assert JOB_B in Scanned(c[a].owners);
    }
    assert Owns(c[b], a) && Owns(pod, a) by {
      assert JOB_A in Scanned([JOB_A]);
    }
    var path := [a, b, a];
    assert path[1..] == [b, a] && path[1..][1..] == [a] && path[0] == path[2];
    assert IsPath(c, c[b], [a]);
    assert IsPath(c, c[a], [b, a]);
    assert IsPath(c, pod, path) && !Distinct(path);
  }

  // ------------------------------------------------------------------ which kinds are looked up

  /** An owner of one of the six kinds is looked up: the lookup fails for it exactly when it is missing, and otherwise
      its own root is the answer, or the reference itself if it has no owners. */
  lemma OneOwnerLookedUp(c: Cluster, name: string, ref: OwnerRef)
    requires ref.kind in {"Deployment", "StatefulSet", "ReplicaSet", "DaemonSet", "CronJob", "Job"}
    ensures var found, key := RootOf(c, Object(name, [ref])), Key(ref.kind, ref.name);
            && (found == Failed(GetFailed(ref)) <==> key !in c)
            && (key in c && c[key].owners == [] ==> found == Root(ref))
            && (key in c && c[key].owners != [] ==>
                  match RootOf(c, c[key])
                  case Root(root) => found == Root(root)
                  case Failed(error) => found == Failed(Within(ref, error))
                  case TooDeep => found == TooDeep)
  {
    var obj, key := Object(name, [ref]), Key(ref.kind, ref.name);
    assert obj.owners[1..] == [];
    assert Builtin(ref);
    assert RootOf(c, obj) == Scan(c, [ref], None, |c|);
    if key in c {
      DepthSuffices(c, obj);
      DepthSuffices(c, c[key]);
      var above := Resolve(c, c[key], Some(ref), |c|);
      assert above.Root? ==> Scan(c, [], Some(above.ref), |c|) == above;
      if c[key].owners != [] {
        assert above == Resolve(c, c[key], None, |c|);
        if !RootOf(c, c[key]).TooDeep? {
          OneLevelUp(c, obj, ref);
        }
        if !above.TooDeep? {
          ResolveMonotone(c, c[key], None, |c|, |c| + 1);
        }
      }
    }
  }

  lemma OneLevelUp(c: Cluster, obj: Object, ref: OwnerRef)
    requires obj.owners == [ref] && Builtin(ref) && Target(ref) in c && c[Target(ref)].owners != []
    requires !RootOf(c, c[Target(ref)]).TooDeep?
    ensures !RootOf(c, obj).TooDeep?
  {
    var above := Resolve(c, c[Target(ref)], Some(ref), |c| + 1);
    assert above == RootOf(c, c[Target(ref)]);
    assert obj.owners[1..] == [];
    assert above.Root? ==> Scan(c, [], Some(above.ref), |c| + 1) == above;
    assert !Resolve(c, obj, None, |c| + 2).TooDeep?;
    DepthSuffices(c, obj);
  }

  /** An owner of any other kind is the root, without a lookup. */
  lemma OneOwnerOfOtherKind(c: Cluster, name: string, ref: OwnerRef)
    requires ref.kind !in {"Deployment", "StatefulSet", "ReplicaSet", "DaemonSet", "CronJob", "Job"}
    ensures RootOf(c, Object(name, [ref])) == Root(ref)
  {
    assert RootOf(c, Object(name, [ref])) == Scan(c, [ref], None, |c|);
    assert !Builtin(ref);
  }

  // ------------------------------------------------------------------ the chain walk

  /** The one reference of an object that decides its root: the first of another kind, or else the last. */
  function Deciding(refs: seq<OwnerRef>): OwnerRef
    requires |refs| > 0
  {
    if !Builtin(refs[0]) || |refs| == 1 then refs[0] else Deciding(refs[1..])
  }

  /** The simple form of rootOwner: follow one reference per object. */
  function Walk(c: Cluster, obj: Object, via: Option<OwnerRef>, depth: nat): Lookup
    decreases depth, 0
  {
    if |obj.owners| == 0 then Root(if via.None? then OwnerRef("", obj.name, "") else via.value)
    else if depth == 0 then TooDeep
    else Climb(c, Deciding(obj.owners), depth - 1)
  }

  function Climb(c: Cluster, ref: OwnerRef, depth: nat): Lookup
    decreases depth, 1
  {
    if !Builtin(ref) then Root(ref)
    else if Target(ref) !in c then Failed(GetFailed(ref))
    else Walk(c, c[Target(ref)], Some(ref), depth)
  }

  lemma {:induction false} ScanIsClimb(c: Cluster, refs: seq<OwnerRef>, last: Option<OwnerRef>, depth: nat)
    requires Scan(c, refs, last, depth).Root? && |refs| > 0
    ensures Scan(c, refs, last, depth) == Climb(c, Deciding(refs), depth)
    decreases depth, |refs| + 1
  {
    if Builtin(refs[0]) {
      ResolveIsWalk(c, c[Target(refs[0])], Some(refs[0]), depth);
      if |refs| > 1 {
        var above := Resolve(c, c[Target(refs[0])], Some(refs[0]), depth);
        ScanIsClimb(c, refs[1..], Some(above.ref), depth);
      }
    }
  }

  /** Where it succeeds, the recursion over all references agrees with the walk along one chain. */
  lemma {:induction false} ResolveIsWalk(c: Cluster, obj: Object, via: Option<OwnerRef>, depth: nat)
    requires Resolve(c, obj, via, depth).Root?
    ensures Resolve(c, obj, via, depth) == Walk(c, obj, via, depth)
    decreases depth, 0
  {
    if |obj.owners| > 0 {
      ScanIsClimb(c, obj.owners, None, depth - 1);
    }
  }

  // ------------------------------------------------------------------ the reference found

  /** Every reference in the cluster and in the object carries a UID. */
  ghost predicate AllHaveUid(c: Cluster, obj: Object) {
    && (forall ref :: ref in obj.owners ==> ref.uid != "")
    && (forall key, ref :: key in c && ref in c[key].owners ==> ref.uid != "")
  }

  lemma {:induction false} WalkKeepsUid(c: Cluster, obj: Object, via: Option<OwnerRef>, depth: nat)
    requires AllHaveUid(c, obj) && Walk(c, obj, via, depth).Root?
    requires via.Some? ==> via.value.uid != ""
    requires |obj.owners| > 0 || via.Some?
    ensures Walk(c, obj, via, depth).ref.uid != ""
    decreases depth
  {
    if |obj.owners| > 0 {
      var ref := Deciding(obj.owners);
      DecidingIsOwner(obj.owners);
      if Builtin(ref) {
        WalkKeepsUid(c, c[Target(ref)], Some(ref), depth - 1);
      }
    }
  }

  lemma {:induction false} DecidingIsOwner(refs: seq<OwnerRef>)
    requires |refs| > 0
    ensures Deciding(refs) in refs
  {
    if Builtin(refs[0]) && |refs| > 1 {
      DecidingIsOwner(refs[1..]);
    }
  }

  /** The root of an object without owners is a reference with only its name; where references carry UIDs, the
      root of an object with owners has one. */
  lemma RootUid(c: Cluster, obj: Object)
    requires RootOf(c, obj).Root?
    ensures |obj.owners| == 0 ==> RootOf(c, obj).ref == OwnerRef("", obj.name, "")
    ensures |obj.owners| > 0 && AllHaveUid(c, obj) ==> RootOf(c, obj).ref.uid != ""
  {
    ResolveIsWalk(c, obj, None, |c| + 1);
    if |obj.owners| > 0 && AllHaveUid(c, obj) {
      WalkKeepsUid(c, obj, None, |c| + 1);
    }
  }
}
