/**
 * Classification of transaction errors: the walk along `cause` links of an error object,
 * which may be cyclic, and the decisions the transaction runner takes from it.
 */
module TransactionRetry {
  import opened Prelude

  type Ref = nat

  // What a `cause` property (or a thrown value) can be.
  datatype Value = NotAnObject | Object(ref: Ref)

  datatype Code = NoCode | NumericCode(number: int) | TextCode(text: string)

  datatype ErrorObject = ErrorObject(labels: Option<seq<string>>, code: Code, codeName: Option<string>, cause: Value)

  // The objects alive when an error is inspected.
  type Heap = map<Ref, ErrorObject>

  const UNKNOWN_COMMIT := "UnknownTransactionCommitResult"
  const TRANSIENT := "TransientTransactionError"

  datatype Flag = UnknownCommit | Transient | MaxTimeExpired

  datatype Evidence = Evidence(unknown: bool, transient: bool, maxTime: bool) {
    predicate Has(flag: Flag) {
      match flag
      case UnknownCommit => unknown
      case Transient => transient
      case MaxTimeExpired => maxTime
    }
  }

  // Whether one object carries the mark by itself.
  predicate Shows(o: ErrorObject, flag: Flag) {
    match flag
    case UnknownCommit => o.labels.Some? && UNKNOWN_COMMIT in o.labels.value
    case Transient => o.labels.Some? && TRANSIENT in o.labels.value
    case MaxTimeExpired => o.code == NumericCode(50) || o.codeName == Some("MaxTimeMSExpired")
  }

  // No dangling references: every object mentioned exists.
  ghost predicate Closed(h: Heap, v: Value) {
    && (v.Object? ==> v.ref in h)
    && forall r :: r in h && h[r].cause.Object? ==> h[r].cause.ref in h
  }

  // The n-th value along the cause chain.
  ghost function Chain(h: Heap, v: Value, n: nat): (c: Value)
    requires Closed(h, v)
    ensures Closed(h, c)
  {
    if n == 0 then v
    else
      var p := Chain(h, v, n - 1);
      if p.Object? then h[p.ref].cause else NotAnObject
  }

  // Some error reachable through `cause` carries the mark.
  ghost predicate Found(h: Heap, v: Value, flag: Flag)
    requires Closed(h, v)
  {
    exists n: nat :: Chain(h, v, n).Object? && Shows(h[Chain(h, v, n).ref], flag)
  }

  ghost predicate FoundBefore(h: Heap, v: Value, flag: Flag, bound: nat)
    requires Closed(h, v)
  {
    exists n: nat :: n < bound && Chain(h, v, n).Object? && Shows(h[Chain(h, v, n).ref], flag)
  }

  // Once the chain repeats a position it only repeats earlier ones.
  lemma {:induction false} RepeatsStayInside(h: Heap, v: Value, i: nat, n: nat, m: nat) returns (k: nat)
    requires Closed(h, v) && i < n && Chain(h, v, n) == Chain(h, v, i)
    ensures k < n && Chain(h, v, k) == Chain(h, v, m)
    decreases m
  {
    if m < n {
      k := m;
    } else {
      var j := RepeatsStayInside(h, v, i, n, m - 1);
      k := if j + 1 < n then j + 1 else i;
      assert Chain(h, v, j + 1) == Chain(h, v, m);
    }
  }

  lemma {:induction false} EndStaysEnd(h: Heap, v: Value, n: nat, m: nat)
    requires Closed(h, v) && n <= m && Chain(h, v, n).NotAnObject?
    ensures Chain(h, v, m).NotAnObject?
    decreases m
  {
    if n < m {
      EndStaysEnd(h, v, n, m - 1);
    }
  }

  // Stopping at the end of the chain or at a revisited object loses no evidence.
  lemma PrefixIsEnough(h: Heap, v: Value, n: nat, flag: Flag)
    requires Closed(h, v)
    requires Chain(h, v, n).NotAnObject? || exists i: nat :: i < n && Chain(h, v, i) == Chain(h, v, n)
    ensures FoundBefore(h, v, flag, n) <==> Found(h, v, flag)
  {
    if Found(h, v, flag) {
      var m: nat :| Chain(h, v, m).Object? && Shows(h[Chain(h, v, m).ref], flag);
      if Chain(h, v, n).NotAnObject? {
        if n <= m {
          EndStaysEnd(h, v, n, m);
        }
      } else {
        var i: nat :| i < n && Chain(h, v, i) == Chain(h, v, n);
        var k := RepeatsStayInside(h, v, i, n, m);
      }
    }
  }

  // The objects among the first n positions of the chain.
  ghost function Seen(h: Heap, v: Value, n: nat): (s: set<Ref>)
    requires Closed(h, v)
    ensures s <= h.Keys
  {
    if n == 0 then {}
    else if Chain(h, v, n - 1).Object? then Seen(h, v, n - 1) + {Chain(h, v, n - 1).ref}
    else Seen(h, v, n - 1)
  }

  lemma {:induction false} SeenAt(h: Heap, v: Value, n: nat, r: Ref) returns (i: nat)
    requires Closed(h, v) && r in Seen(h, v, n)
    ensures i < n && Chain(h, v, i) == Object(r)
  {
    if Chain(h, v, n - 1) == Object(r) {
      i := n - 1;
    } else {
      i := SeenAt(h, v, n - 1, r);
    }
  }

  lemma FoundNext(h: Heap, v: Value, flag: Flag, n: nat)
    requires Closed(h, v) && Chain(h, v, n).Object?
    ensures FoundBefore(h, v, flag, n + 1) <==> FoundBefore(h, v, flag, n) || Shows(h[Chain(h, v, n).ref], flag)
  {
    if FoundBefore(h, v, flag, n + 1) {
      var k: nat :| k < n + 1 && Chain(h, v, k).Object? && Shows(h[Chain(h, v, k).ref], flag);
      assert k < n || k == n;
    }
  }

  // ---- evidence, over the errors alone ----

  // Errors each of which is the cause of the one before.
  ghost predicate Causes(h: Heap, v: Value, path: seq<Ref>) {
    && path != [] && v == Object(path[0]) && (forall r :: r in path ==> r in h)
    && forall i :: 0 < i < |path| ==> h[path[i - 1]].cause == Object(path[i])
  }

  // The last of such errors.
  function Last(h: Heap, path: seq<Ref>): ErrorObject
    requires path != [] && path[|path| - 1] in h
  {
    h[path[|path| - 1]]
  }

  // Some error reached through causes has this label.
  ghost predicate Labelled(h: Heap, v: Value, mark: string) {
    exists path :: Causes(h, v, path) && Last(h, path).labels.Some? && mark in Last(h, path).labels.value
  }

  // Some error reached through causes has the code of an exceeded time limit, or its name.
  ghost predicate OutOfTime(h: Heap, v: Value) {
    exists path :: Causes(h, v, path) &&
      (Last(h, path).code == NumericCode(50) || Last(h, path).codeName == Some("MaxTimeMSExpired"))
  }

  lemma {:induction false} ChainIsCauses(h: Heap, v: Value, n: nat) returns (path: seq<Ref>)
    requires Closed(h, v) && Chain(h, v, n).Object?
    ensures Causes(h, v, path) && path[|path| - 1] == Chain(h, v, n).ref
  {
    if n == 0 {
      path := [v.ref];
    } else {
      var before := ChainIsCauses(h, v, n - 1);
      path := before + [Chain(h, v, n).ref];
    }
  }

  lemma {:induction false} CausesAreChain(h: Heap, v: Value, path: seq<Ref>)
    requires Closed(h, v) && Causes(h, v, path)
    ensures Chain(h, v, |path| - 1) == Object(path[|path| - 1])
  {
    if |path| > 1 {
      CausesAreChain(h, v, path[..|path| - 1]);
    }
  }

  /** What is found along the chain is what some error reached through causes shows. */
  lemma FoundMeans(h: Heap, v: Value)
    requires Closed(h, v)
    ensures Found(h, v, UnknownCommit) <==> Labelled(h, v, "UnknownTransactionCommitResult")
    ensures Found(h, v, Transient) <==> Labelled(h, v, "TransientTransactionError")
    ensures Found(h, v, MaxTimeExpired) <==> OutOfTime(h, v)
  {
    forall flag ensures Found(h, v, flag) <==> exists path :: Causes(h, v, path) && Shows(Last(h, path), flag) {
      if n: nat :| Chain(h, v, n).Object? && Shows(h[Chain(h, v, n).ref], flag) {
        var path := ChainIsCauses(h, v, n);
        assert Shows(Last(h, path), flag);
      }
      if path :| Causes(h, v, path) && Shows(Last(h, path), flag) {
        CausesAreChain(h, v, path);
      }
    }
  }

  /** The cause-chain walk. It ends on every finite heap, cyclic or not. */
  method InspectCauseChain(h: Heap, error: Value) returns (evidence: Evidence)
    requires Closed(h, error)
    ensures forall flag :: evidence.Has(flag) <==> Found(h, error, flag)
  {
    evidence := Evidence(false, false, false);
    var visited: set<Ref> := {};
    var current := error;
    ghost var n: nat := 0;
    while current.Object?
      invariant current == Chain(h, error, n)
      invariant visited == Seen(h, error, n)
      invariant forall flag :: evidence.Has(flag) <==> FoundBefore(h, error, flag, n)
      decreases h.Keys - visited
    {
      if current.ref in visited {
        var i := SeenAt(h, error, n, current.ref);
        break;
      }
      visited := visited + {current.ref};
      var o := h[current.ref];
      if o.labels.Some? && UNKNOWN_COMMIT in o.labels.value {
        evidence := evidence.(unknown := true);
      }
      if o.labels.Some? && TRANSIENT in o.labels.value {
        evidence := evidence.(transient := true);
      }
      if o.code == NumericCode(50) || o.codeName == Some("MaxTimeMSExpired") {
        evidence := evidence.(maxTime := true);
      }
      FoundNext(h, error, UnknownCommit, n);
      FoundNext(h, error, Transient, n);
      FoundNext(h, error, MaxTimeExpired, n);
      current := o.cause;
      n := n + 1;
    }
    forall flag ensures evidence.Has(flag) <==> Found(h, error, flag) {
      PrefixIsEnough(h, error, n, flag);
    }
  }

  method IsUnknownCommitResult(h: Heap, error: Value) returns (b: bool)
    requires Closed(h, error)
    ensures b <==> Labelled(h, error, "UnknownTransactionCommitResult")
  {
    FoundMeans(h, error);
    var evidence := InspectCauseChain(h, error);
    b := evidence.Has(UnknownCommit);
  }

  method IsTransientError(h: Heap, error: Value) returns (b: bool)
    requires Closed(h, error)
    ensures b <==> Labelled(h, error, "TransientTransactionError")
  {
    FoundMeans(h, error);
    var evidence := InspectCauseChain(h, error);
    b := evidence.Has(Transient);
  }

  method IsMaxTimeExpired(h: Heap, error: Value) returns (b: bool)
    requires Closed(h, error)
    ensures b <==> OutOfTime(h, error)
  {
    FoundMeans(h, error);
    var evidence := InspectCauseChain(h, error);
    b := evidence.Has(MaxTimeExpired);
  }

  // A body may be run again only on transient evidence that no unknown commit result taints.
  method IsRetryableBodyError(h: Heap, error: Value) returns (b: bool)
    requires Closed(h, error)
    ensures b <==> Labelled(h, error, "TransientTransactionError")
                   && !Labelled(h, error, "UnknownTransactionCommitResult")
  {
    FoundMeans(h, error);
    var evidence := InspectCauseChain(h, error);
    b := !evidence.unknown && evidence.transient;
  }

  // Wrapping an error under a fresh object keeps all the evidence beneath it,
  // and adds exactly what the wrapper itself shows.
  lemma {:induction false} ChainUnderWrapper(h: Heap, wrapper: ErrorObject, r: Ref, n: nat)
    requires r !in h && Closed(h, wrapper.cause)
    ensures Closed(h[r := wrapper], Object(r))
    ensures Chain(h[r := wrapper], Object(r), n + 1) == Chain(h, wrapper.cause, n)
  {
    if n > 0 {
      ChainUnderWrapper(h, wrapper, r, n - 1);
    } else {
      assert Chain(h[r := wrapper], Object(r), 0) == Object(r);
    }
  }

  lemma WrappingKeepsEvidence(h: Heap, wrapper: ErrorObject, r: Ref, flag: Flag)
    requires r !in h && Closed(h, wrapper.cause)
    ensures Closed(h[r := wrapper], Object(r))
    ensures Found(h[r := wrapper], Object(r), flag) <==> Shows(wrapper, flag) || Found(h, wrapper.cause, flag)
  {
    var g := h[r := wrapper];
    ChainUnderWrapper(h, wrapper, r, 0);
    assert Chain(g, Object(r), 0) == Object(r);
    if Found(g, Object(r), flag) && !Shows(wrapper, flag) {
      var n: nat :| Chain(g, Object(r), n).Object? && Shows(g[Chain(g, Object(r), n).ref], flag);
      ChainUnderWrapper(h, wrapper, r, n - 1);
      assert Chain(h, wrapper.cause, n - 1).Object?;
    }
    if Found(h, wrapper.cause, flag) {
      var n: nat :| Chain(h, wrapper.cause, n).Object? && Shows(h[Chain(h, wrapper.cause, n).ref], flag);
      ChainUnderWrapper(h, wrapper, r, n);
      assert Chain(g, Object(r), n + 1).Object?;
    }
  }
}
