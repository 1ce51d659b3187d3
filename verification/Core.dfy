/** Shared vocabulary: optional values, results and the error sentinels of internal/delivery/errors.go. */
module Core {

  datatype Option<+T> = None | Some(value: T)

  datatype Error =
    | NotFound
    | Corrupt                 // a log that replay rejects (unknown or out-of-place event)
    | RevisionConflict
    | InvalidState
    | ScopeMismatch
    | ProjectInactive
    | Cycle
    | EvidenceRequired
    | UnsafeCrossProjectEdge
    | LaneNotRunnable
    | ProjectAtConcurrencyLimit
    | GlobalConcurrencyLimit
    | LeaseTokenMismatch
    | RoleStageOutOfOrder
    | RoleStagesIncomplete
    | WorkLogRequired
    | LaneTerminal
    | IndependenceRequired
    | RepairCyclesExhausted
    | ProjectHasActiveLanes
    | BadRequest              // rejected before any transaction starts
    | UniqueViolation         // a UNIQUE constraint of the schema
    | NothingToDo             // success without opening a transaction

  datatype Result<+T> = Ok(value: T) | Err(error: Error) {
    predicate IsFailure() {
      Err?
    }

    function PropagateFailure<U>(): Result<U>
      requires Err?
    {
      Err(error)
    }

    function Extract(): T
      requires Ok?
    {
      value
    }
  }

  /** No two positions of `s` hold the same element. */
  ghost predicate NoDup<T>(s: seq<T>) {
    forall i, j :: 0 <= i < j < |s| ==> s[i] != s[j]
  }

  /** The elements of `s`. */
  function Elems<T>(s: seq<T>): set<T> {
    set x | x in s
  }

  lemma NonemptyHas<T>(s: seq<T>)
    ensures s == [] || exists x :: x in s
  {
    if s != [] {
      assert s[0] in s;
    }
  }

  /** The next prefix is the last one and one element. */
  lemma TakeSnoc<T>(s: seq<T>, i: nat)
    requires i < |s|
    ensures s[..i + 1] == s[..i] + [s[i]]
    ensures Elems(s[..i + 1]) == Elems(s[..i]) + {s[i]}
  {
    ElemsSnoc(s[..i], s[i]);
  }

  lemma TakeAll<T>(s: seq<T>)
    ensures s[..|s|] == s
  {
  }

  lemma ElemsHead<T>(s: seq<T>)
    requires s != []
    ensures Elems(s) == {s[0]} + Elems(s[1..])
  {
    assert s == [s[0]] + s[1..];
  }

  lemma ElemsEmpty<T>(s: seq<T>)
    ensures Elems(s) == {} <==> s == []
  {
    assert s == [] || s[0] in Elems(s);
  }

  lemma ElemsSnoc<T>(s: seq<T>, x: T)
    ensures Elems(s + [x]) == Elems(s) + {x}
  {
  }

  lemma {:induction false} NoDupCard<T>(s: seq<T>)
    requires NoDup(s)
    ensures |Elems(s)| == |s|
  {
    if s == [] {
    } else {
      var n := |s| - 1;
      NoDupCard(s[..n]);
      assert s == s[..n] + [s[n]];
      assert Elems(s) == Elems(s[..n]) + {s[n]};
      assert s[n] !in Elems(s[..n]);
    }
  }

  lemma {:induction false} ElemsCard<T>(s: seq<T>)
    ensures |Elems(s)| <= |s|
    ensures |Elems(s)| == |s| ==> NoDup(s)
  {
    if s == [] {
    } else {
      var n := |s| - 1;
      ElemsCard(s[..n]);
      assert s == s[..n] + [s[n]];
      assert Elems(s) == Elems(s[..n]) + {s[n]};
      if |Elems(s)| == |s| {
        assert s[n] !in Elems(s[..n]);
        assert forall i :: 0 <= i < n ==> s[i] == s[..n][i];
      }
    }
  }

  /** Cutting out one occurrence. */
  lemma CutOut<T>(s: seq<T>, x: T) returns (front: seq<T>, back: seq<T>)
    requires x in s
    ensures s == front + [x] + back && multiset(s) == multiset(front + back) + multiset{x}
  {
    var k :| 0 <= k < |s| && s[k] == x;
    front, back := s[..k], s[k + 1..];
    assert s == front + [x] + back;
  }

  lemma {:induction false} NoDupCount<T>(s: seq<T>, x: T)
    requires NoDup(s)
    ensures multiset(s)[x] == if x in s then 1 else 0
  {
    if s != [] {
      var n := |s| - 1;
      NoDupCount(s[..n], x);
      assert s == s[..n] + [s[n]];
      assert s[n] !in s[..n];
    }
  }

  /** Two lists without repetitions that have the same elements are permutations of each other. */
  lemma SameElems<T>(a: seq<T>, b: seq<T>)
    requires NoDup(a) && NoDup(b) && Elems(a) == Elems(b)
    ensures multiset(a) == multiset(b)
  {
    forall x ensures multiset(a)[x] == multiset(b)[x] {
      NoDupCount(a, x);
      NoDupCount(b, x);
      assert x in a <==> x in Elems(a);
      assert x in b <==> x in Elems(b);
    }
  }

  /** Marking more of a finite universe leaves less of it unmarked. */
  lemma RemainderShrinks<T>(universe: set<T>, marked: set<T>, marked': set<T>)
    requires marked <= marked' <= universe
    ensures |universe - marked'| <= |universe - marked|
    ensures |universe - marked'| == |universe - marked| ==> marked' == marked
  {
    SubsetCard(universe - marked', universe - marked);
    assert marked' - marked == (universe - marked) - (universe - marked');
  }

  lemma SubsetCard<T>(a: set<T>, b: set<T>)
    requires a <= b
    ensures |a| <= |b| && |b - a| == |b| - |a|
    ensures |a| == |b| ==> a == b
  {
    assert b == a + (b - a);
    assert |b| == |a| + |b - a|;
  }

  // ---------------------------------------------------------------- string order

  /** Lexicographic order, the order of Go's < on strings. */
  predicate StrLess(a: string, b: string) {
    if b == "" then false
    else if a == "" then true
    else if a[0] != b[0] then a[0] < b[0]
    else StrLess(a[1..], b[1..])
  }

  lemma {:induction false} StrLessTotal(a: string, b: string)
    ensures a == b || StrLess(a, b) || StrLess(b, a)
    ensures !(StrLess(a, b) && StrLess(b, a))
    ensures a == b ==> !StrLess(a, b)
  {
    if a != "" && b != "" {
      StrLessTotal(a[1..], b[1..]);
      if a[0] == b[0] && a[1..] == b[1..] {
        assert a == [a[0]] + a[1..] == [b[0]] + b[1..] == b;
      }
    }
  }

  lemma {:induction false} StrLessTrans(a: string, b: string, c: string)
    requires StrLess(a, b) && StrLess(b, c)
    ensures StrLess(a, c)
  {
    if a != "" && a[0] == b[0] == c[0] {
      StrLessTrans(a[1..], b[1..], c[1..]);
    }
  }
}
