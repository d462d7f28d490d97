/** Id-keyed list operations that the store and the canvas apply to notes,
    connections, strokes and cursors: append, merge-by-id (`map`),
    remove-by-id (`filter`), replace-or-append by key, and the
    keep-first-occurrence filter applied before rendering. Each is stated
    against an independent characterisation. */
module SeqOps {
  import opened Types

  /** Number of elements whose key is k. */
  function Count<T>(s: seq<T>, key: T -> string, k: string): nat
  {
    if |s| == 0 then 0 else (if key(s[0]) == k then 1 else 0) + Count(s[1..], key, k)
  }

  /** `s.some(x => key(x) === k)`. */
  predicate HasKey<T>(s: seq<T>, key: T -> string, k: string)
  {
    |s| > 0 && (key(s[0]) == k || HasKey(s[1..], key, k))
  }

  /** The set of keys occurring in s. */
  function KeysOf<T>(s: seq<T>, key: T -> string): set<string>
  {
    if |s| == 0 then {} else {key(s[0])} + KeysOf(s[1..], key)
  }

  /** t is obtained from s by deleting elements, keeping the order. */
  predicate IsSubseq<T(==)>(t: seq<T>, s: seq<T>)
    decreases |s|
  {
    if |t| == 0 then true
    else if |s| == 0 then false
    else (t[0] == s[0] && IsSubseq(t[1..], s[1..])) || IsSubseq(t, s[1..])
  }

  /** No two elements share a key. */
  predicate NoDuplicateKeys<T>(s: seq<T>, key: T -> string)
  {
    forall i, j :: 0 <= i < j < |s| ==> key(s[i]) != key(s[j])
  }

  lemma {:induction false} CountSplit<T>(a: seq<T>, b: seq<T>, key: T -> string, k: string)
    ensures Count(a + b, key, k) == Count(a, key, k) + Count(b, key, k)
  {
    if |a| == 0 {
      assert a + b == b;
    } else {
      assert (a + b)[1..] == a[1..] + b;
      CountSplit(a[1..], b, key, k);
    }
  }

  lemma {:induction false} HasKeyIffCount<T>(s: seq<T>, key: T -> string, k: string)
    ensures HasKey(s, key, k) <==> Count(s, key, k) > 0
  {
    if |s| > 0 {
      HasKeyIffCount(s[1..], key, k);
    }
  }

  lemma {:induction false} KeysOfMember<T>(s: seq<T>, key: T -> string, k: string)
    ensures k in KeysOf(s, key) <==> exists j :: 0 <= j < |s| && key(s[j]) == k
  {
    if |s| > 0 {
      KeysOfMember(s[1..], key, k);
      if k in KeysOf(s[1..], key) {
        var j :| 0 <= j < |s| - 1 && key(s[1..][j]) == k;
        assert key(s[j + 1]) == k;
      }
      if exists j :: 0 <= j < |s| && key(s[j]) == k {
        var j :| 0 <= j < |s| && key(s[j]) == k;
        if j > 0 {
          assert key(s[1..][j - 1]) == k;
        }
      }
    }
  }

  lemma {:induction false} CountZeroNoKey<T>(s: seq<T>, key: T -> string, k: string)
    ensures Count(s, key, k) == 0 <==> forall i :: 0 <= i < |s| ==> key(s[i]) != k
  {
    if |s| > 0 {
      CountZeroNoKey(s[1..], key, k);
      assert forall i :: 1 <= i < |s| ==> s[i] == s[1..][i - 1];
    }
  }

  // ---------------------------------------------------------------- append

  /** `[...s, x]`: grows by one at the end, earlier elements untouched. */
  function Append<T>(s: seq<T>, x: T): (r: seq<T>)
    ensures |r| == |s| + 1 && r[|s|] == x
    ensures forall i :: 0 <= i < |s| ==> r[i] == s[i]
  {
    s + [x]
  }

  /** Appending never de-duplicates: the key's count grows by exactly one. */
  lemma AppendCount<T>(s: seq<T>, x: T, key: T -> string)
    ensures Count(Append(s, x), key, key(x)) == Count(s, key, key(x)) + 1
    ensures forall k :: k != key(x) ==> Count(Append(s, x), key, k) == Count(s, key, k)
  {
    forall k ensures Count(s + [x], key, k) == Count(s, key, k) + Count([x], key, k) {
      CountSplit(s, [x], key, k);
    }
    forall k ensures Count([x], key, k) == if key(x) == k then 1 else 0 {
      CountSingleton(x, key, k);
    }
  }

  lemma CountSingleton<T>(x: T, key: T -> string, k: string)
    ensures Count([x], key, k) == if key(x) == k then 1 else 0
  {
    assert [x][1..] == [];
  }

  lemma {:induction false} CountBound<T>(s: seq<T>, key: T -> string, k: string)
    ensures Count(s, key, k) <= |s|
  {
    if |s| > 0 {
      CountBound(s[1..], key, k);
    }
  }

  // ------------------------------------------------------- merge by key

  /** `s.map(x => key(x) === k ? merge(x, u) : x)`. */
  function MapWhere<T, P>(s: seq<T>, key: T -> string, k: string, merge: (T, P) -> T, u: P): (r: seq<T>)
    ensures |r| == |s|
    ensures forall i :: 0 <= i < |s| ==> r[i] == if key(s[i]) == k then merge(s[i], u) else s[i]
  {
    if |s| == 0 then []
    else [if key(s[0]) == k then merge(s[0], u) else s[0]] + MapWhere(s[1..], key, k, merge, u)
  }

  /** Merging into a key that does not occur is a no-op. */
  lemma MapWhereAbsent<T, P>(s: seq<T>, key: T -> string, k: string, merge: (T, P) -> T, u: P)
    requires Count(s, key, k) == 0
    ensures MapWhere(s, key, k, merge, u) == s
  {
    CountZeroNoKey(s, key, k);
  }

  /** Applying the same merge twice gives the same list as applying it once,
      provided the merge itself is idempotent (object spread is). This holds
      even when the patch changes the key. */
  lemma MapWhereIdempotent<T, P>(s: seq<T>, key: T -> string, k: string, merge: (T, P) -> T, u: P)
    requires forall x :: merge(merge(x, u), u) == merge(x, u)
    ensures MapWhere(MapWhere(s, key, k, merge, u), key, k, merge, u) == MapWhere(s, key, k, merge, u)
  {
    var once := MapWhere(s, key, k, merge, u);
    var twice := MapWhere(once, key, k, merge, u);
    forall i | 0 <= i < |s| ensures twice[i] == once[i] {
      if key(s[i]) == k {
        assert merge(merge(s[i], u), u) == merge(s[i], u);
      }
    }
  }

  // ------------------------------------------------------ remove by key

  /** `s.filter(x => key(x) !== k)`. */
  function RemoveWhere<T(==)>(s: seq<T>, key: T -> string, k: string): (r: seq<T>)
    ensures forall i :: 0 <= i < |r| ==> key(r[i]) != k
    ensures |r| == |s| - Count(s, key, k)
    ensures IsSubseq(r, s)
    ensures forall x :: x in s && key(x) != k ==> x in r
  {
    if |s| == 0 then []
    else if key(s[0]) == k then RemoveWhere(s[1..], key, k)
    else
      var rest := RemoveWhere(s[1..], key, k);
      assert ([s[0]] + rest)[1..] == rest;
      [s[0]] + rest
  }

  /** A subsequence avoiding key k is at most as long as s without its k-elements. */
  lemma {:induction false} SubseqAvoidingBound<T>(t: seq<T>, s: seq<T>, key: T -> string, k: string)
    requires IsSubseq(t, s)
    requires forall i :: 0 <= i < |t| ==> key(t[i]) != k
    ensures |t| <= |s| - Count(s, key, k)
    decreases |s|
  {
    CountBound(s, key, k);
    if |t| == 0 {
    } else if t[0] == s[0] && IsSubseq(t[1..], s[1..]) {
      assert key(s[0]) != k;
      assert forall i :: 0 <= i < |t| - 1 ==> t[1..][i] == t[i + 1];
      SubseqAvoidingBound(t[1..], s[1..], key, k);
    } else {
      SubseqAvoidingBound(t, s[1..], key, k);
    }
  }

  /** Reference characterisation of removal: the only order-preserving
      subsequence of s that avoids k and keeps every other element is
      RemoveWhere(s, key, k). */
  lemma {:induction false} RemoveWhereUnique<T>(t: seq<T>, s: seq<T>, key: T -> string, k: string)
    requires IsSubseq(t, s)
    requires forall i :: 0 <= i < |t| ==> key(t[i]) != k
    requires |t| == |s| - Count(s, key, k)
    ensures t == RemoveWhere(s, key, k)
    decreases |s|
  {
    if |s| == 0 {
    } else if key(s[0]) == k {
      assert |t| > 0 ==> key(t[0]) != key(s[0]);
      assert |t| == 0 || IsSubseq(t, s[1..]);
      RemoveWhereUnique(t, s[1..], key, k);
    } else {
      CountBound(s[1..], key, k);
      assert |t| > 0;
      if t[0] == s[0] && IsSubseq(t[1..], s[1..]) {
        assert forall i :: 0 <= i < |t| - 1 ==> t[1..][i] == t[i + 1];
        RemoveWhereUnique(t[1..], s[1..], key, k);
        assert t == [t[0]] + t[1..];
      } else {
        SubseqAvoidingBound(t, s[1..], key, k);
        assert false;
      }
    }
  }

  /** Removing a key that does not occur is a no-op; in particular removal is idempotent. */
  lemma RemoveWhereAbsent<T>(s: seq<T>, key: T -> string, k: string)
    requires Count(s, key, k) == 0
    ensures RemoveWhere(s, key, k) == s
  {
    CountZeroNoKey(s, key, k);
    SubseqRefl(s);
    RemoveWhereUnique(s, s, key, k);
  }

  lemma RemoveWhereIdempotent<T>(s: seq<T>, key: T -> string, k: string)
    ensures RemoveWhere(RemoveWhere(s, key, k), key, k) == RemoveWhere(s, key, k)
  {
    var r := RemoveWhere(s, key, k);
    CountZeroNoKey(r, key, k);
    RemoveWhereAbsent(r, key, k);
  }

  lemma {:induction false} SubseqRefl<T>(s: seq<T>)
    ensures IsSubseq(s, s)
  {
    if |s| > 0 {
      SubseqRefl(s[1..]);
    }
  }

  // ------------------------------------------- replace or append by key

  /** `s.map(x => key(x) === key(y) ? y : x)`. */
  function ReplaceWhere<T>(s: seq<T>, key: T -> string, y: T): (r: seq<T>)
    ensures |r| == |s|
    ensures forall i :: 0 <= i < |s| ==> r[i] == if key(s[i]) == key(y) then y else s[i]
  {
    if |s| == 0 then []
    else [if key(s[0]) == key(y) then y else s[0]] + ReplaceWhere(s[1..], key, y)
  }

  /** Replace every element with y's key by y if one exists, else append y. */
  function Upsert<T>(s: seq<T>, key: T -> string, y: T): seq<T>
  {
    if HasKey(s, key, key(y)) then ReplaceWhere(s, key, y) else Append(s, y)
  }

  lemma {:induction false} ReplaceWhereCount<T>(s: seq<T>, key: T -> string, y: T, k: string)
    ensures Count(ReplaceWhere(s, key, y), key, k) == Count(s, key, k)
  {
    if |s| > 0 {
      var r := ReplaceWhere(s, key, y);
      ReplaceWhereCount(s[1..], key, y, k);
      assert r[1..] == ReplaceWhere(s[1..], key, y);
    }
  }

  /** After an upsert exactly as many entries carry y's key as before, or
      one if there were none; every entry with that key is y; counts of all
      other keys are unchanged; nothing is ever removed. */
  lemma UpsertSpec<T>(s: seq<T>, key: T -> string, y: T)
    ensures var r := Upsert(s, key, y);
      && Count(r, key, key(y)) == (if Count(s, key, key(y)) == 0 then 1 else Count(s, key, key(y)))
      && (forall i :: 0 <= i < |r| && key(r[i]) == key(y) ==> r[i] == y)
      && (forall k :: k != key(y) ==> Count(r, key, k) == Count(s, key, k))
      && |r| == (if Count(s, key, key(y)) == 0 then |s| + 1 else |s|)
  {
    HasKeyIffCount(s, key, key(y));
    forall k ensures Count(Upsert(s, key, y), key, k) == if HasKey(s, key, key(y)) then Count(s, key, k) else Count(s, key, k) + Count([y], key, k) {
      if HasKey(s, key, key(y)) {
        ReplaceWhereCount(s, key, y, k);
      } else {
        CountSplit(s, [y], key, k);
      }
    }
    forall k ensures Count([y], key, k) == if key(y) == k then 1 else 0 {
      CountSingleton(y, key, k);
    }
    var r := Upsert(s, key, y);
    if !HasKey(s, key, key(y)) {
      CountZeroNoKey(s, key, key(y));
    }
  }

  // ------------------------------------------- keep first occurrence only

  /** `s.findIndex(x => key(x) === k)`: -1 when absent. */
  function FindIndex<T>(s: seq<T>, key: T -> string, k: string): (r: int)
    ensures -1 <= r < |s|
    ensures r == -1 <==> forall j :: 0 <= j < |s| ==> key(s[j]) != k
    ensures r >= 0 ==> key(s[r]) == k && forall j :: 0 <= j < r ==> key(s[j]) != k
  {
    if |s| == 0 then -1
    else if key(s[0]) == k then 0
    else var r := FindIndex(s[1..], key, k); if r == -1 then -1 else r + 1
  }

  /** `s.find(x => key(x) === k)`: the first element with key k, if any. */
  function Find<T>(s: seq<T>, key: T -> string, k: string): (r: Option<T>)
    ensures r.None? <==> forall j :: 0 <= j < |s| ==> key(s[j]) != k
    ensures r.Some? ==> key(r.value) == k && r.value in s
    ensures r.Some? ==> exists j :: 0 <= j < |s| && s[j] == r.value && forall i :: 0 <= i < j ==> key(s[i]) != k
  {
    var j := FindIndex(s, key, k);
    if j < 0 then None else Some(s[j])
  }

  /** `s.filter((x, i, self) => i === self.findIndex(y => key(y) === key(x)))`,
      from index i on. */
  function FirstOccurrencesFrom<T>(s: seq<T>, key: T -> string, i: nat): seq<T>
    requires i <= |s|
    decreases |s| - i
  {
    if i == |s| then []
    else (if FindIndex(s, key, key(s[i])) == i then [s[i]] else []) + FirstOccurrencesFrom(s, key, i + 1)
  }

  function FirstOccurrences<T>(s: seq<T>, key: T -> string): seq<T>
  {
    FirstOccurrencesFrom(s, key, 0)
  }

  /** Independent reference: a scan that remembers the keys seen so far. */
  function Dedup<T>(s: seq<T>, key: T -> string, seen: set<string>): seq<T>
  {
    if |s| == 0 then []
    else if key(s[0]) in seen then Dedup(s[1..], key, seen)
    else [s[0]] + Dedup(s[1..], key, seen + {key(s[0])})
  }

  lemma {:induction false} DedupSpec<T>(s: seq<T>, key: T -> string, seen: set<string>)
    ensures var r := Dedup(s, key, seen);
      && NoDuplicateKeys(r, key)
      && KeysOf(r, key) == KeysOf(s, key) - seen
      && IsSubseq(r, s)
  {
    if |s| > 0 {
      var r := Dedup(s, key, seen);
      if key(s[0]) in seen {
        DedupSpec(s[1..], key, seen);
        SubseqDropHead(r, s);
      } else {
        var seen' := seen + {key(s[0])};
        var rest := Dedup(s[1..], key, seen');
        DedupSpec(s[1..], key, seen');
        assert r == [s[0]] + rest && r[1..] == rest;
        forall j | 0 <= j < |rest| ensures key(rest[j]) != key(s[0]) {
          KeysOfMember(rest, key, key(rest[j]));
        }
        forall i, j | 0 <= i < j < |r| ensures key(r[i]) != key(r[j]) {
          if i > 0 {
            assert r[i] == rest[i - 1] && r[j] == rest[j - 1];
          } else {
            assert r[j] == rest[j - 1];
          }
        }
      }
    }
  }

  lemma SubseqDropHead<T>(t: seq<T>, s: seq<T>)
    requires |s| > 0 && IsSubseq(t, s[1..])
    ensures IsSubseq(t, s)
  {
  }

  lemma {:induction false} KeysOfAppend<T>(s: seq<T>, x: T, key: T -> string)
    ensures KeysOf(s + [x], key) == KeysOf(s, key) + {key(x)}
  {
    if |s| == 0 {
      assert s + [x] == [x];
    } else {
      assert (s + [x])[1..] == s[1..] + [x];
      KeysOfAppend(s[1..], x, key);
    }
  }

  /** The filter from index i equals the reference scan over s[i..] that has
      already seen the keys of s[..i]. */
  lemma {:induction false} FirstOccurrencesFromIsDedup<T>(s: seq<T>, key: T -> string, i: nat)
    requires i <= |s|
    ensures FirstOccurrencesFrom(s, key, i) == Dedup(s[i..], key, KeysOf(s[..i], key))
    decreases |s| - i
  {
    if i < |s| {
      FirstOccurrencesFromIsDedup(s, key, i + 1);
      assert s[..i + 1] == s[..i] + [s[i]];
      KeysOfAppend(s[..i], s[i], key);
      assert s[i..][1..] == s[i + 1..];
      assert s[i..][0] == s[i];
      KeysOfMember(s[..i], key, key(s[i]));
      var f := FindIndex(s, key, key(s[i]));
      if key(s[i]) in KeysOf(s[..i], key) {
        var j :| 0 <= j < i && key(s[..i][j]) == key(s[i]);
        assert key(s[j]) == key(s[i]);
        assert f != i;
        assert KeysOf(s[..i + 1], key) == KeysOf(s[..i], key);
        assert FirstOccurrencesFrom(s, key, i) == FirstOccurrencesFrom(s, key, i + 1);
        assert Dedup(s[i..], key, KeysOf(s[..i], key)) == Dedup(s[i + 1..], key, KeysOf(s[..i], key));
      } else {
        assert forall j :: 0 <= j < i ==> key(s[j]) != key(s[i]) by {
          forall j | 0 <= j < i ensures key(s[j]) != key(s[i]) {
            assert s[..i][j] == s[j];
          }
        }
        assert f == i;
      }
    }
  }

  /** The pre-render filter keeps exactly one element per key: the result has
      no duplicate keys, loses no key, preserves order, and each kept element
      is the first occurrence of its key in s. */
  lemma FirstOccurrencesSpec<T>(s: seq<T>, key: T -> string)
    ensures var r := FirstOccurrences(s, key);
      && NoDuplicateKeys(r, key)
      && KeysOf(r, key) == KeysOf(s, key)
      && IsSubseq(r, s)
      && r == Dedup(s, key, {})
  {
    FirstOccurrencesFromIsDedup(s, key, 0);
    assert s[..0] == [] && s[0..] == s;
    DedupSpec(s, key, {});
  }

  lemma {:induction false} FirstOccurrencesFromKeepsFirst<T>(s: seq<T>, key: T -> string, i: nat)
    requires i <= |s|
    ensures forall x :: x in FirstOccurrencesFrom(s, key, i) ==> 0 <= FindIndex(s, key, key(x)) && s[FindIndex(s, key, key(x))] == x
    decreases |s| - i
  {
    if i < |s| {
      FirstOccurrencesFromKeepsFirst(s, key, i + 1);
    }
  }

  /** Each element that survives is the first element of s with its key. */
  lemma FirstOccurrencesKeepsFirst<T>(s: seq<T>, key: T -> string)
    ensures forall x :: x in FirstOccurrences(s, key) ==> 0 <= FindIndex(s, key, key(x)) && s[FindIndex(s, key, key(x))] == x
  {
    FirstOccurrencesFromKeepsFirst(s, key, 0);
  }

  lemma {:induction false} DedupDistinct<T>(s: seq<T>, key: T -> string, seen: set<string>)
    requires NoDuplicateKeys(s, key)
    requires KeysOf(s, key) !! seen
    ensures Dedup(s, key, seen) == s
  {
    if |s| > 0 {
      assert key(s[0]) in KeysOf(s, key);
      forall j | 0 <= j < |s| - 1 ensures key(s[1..][j]) != key(s[0]) {
        assert s[1..][j] == s[j + 1];
      }
      KeysOfMember(s[1..], key, key(s[0]));
      assert NoDuplicateKeys(s[1..], key) by {
        forall i, j | 0 <= i < j < |s| - 1 ensures key(s[1..][i]) != key(s[1..][j]) {
          assert s[1..][i] == s[i + 1] && s[1..][j] == s[j + 1];
        }
      }
      DedupDistinct(s[1..], key, seen + {key(s[0])});
    }
  }

  /** A list that already has distinct keys passes through unchanged, so the
      filter is idempotent. */
  lemma FirstOccurrencesIdempotent<T>(s: seq<T>, key: T -> string)
    ensures NoDuplicateKeys(s, key) ==> FirstOccurrences(s, key) == s
    ensures FirstOccurrences(FirstOccurrences(s, key), key) == FirstOccurrences(s, key)
  {
    var r := FirstOccurrences(s, key);
    FirstOccurrencesSpec(s, key);
    FirstOccurrencesSpec(r, key);
    DedupDistinct(r, key, {});
    if NoDuplicateKeys(s, key) {
      DedupDistinct(s, key, {});
    }
  }
}
