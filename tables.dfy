/**
 * The rows of one repository, in the order the repository returns them
 * from `findAll`. Each row is found by its primary key (`key`), and the
 * derived queries of the repositories are selections by a named predicate
 * over the rows.
 */
module Tables {
  import opened Wrappers

  /** Every row has a key, and no two rows share one: a table indexed by its primary key. */
  ghost predicate Keyed<T>(s: seq<T>, key: T -> Option<string>) {
    && (forall i | 0 <= i < |s| :: key(s[i]).Some?)
    && (forall i, j | 0 <= i < j < |s| :: key(s[i]) != key(s[j]))
  }

  /** The position of the first row whose key is `k`, or -1 when there is none. */
  function IndexOf<T>(s: seq<T>, key: T -> Option<string>, k: string): (i: int)
    ensures -1 <= i < |s|
    ensures 0 <= i ==> key(s[i]) == Some(k)
    ensures 0 <= i ==> forall j | 0 <= j < i :: key(s[j]) != Some(k)
    ensures i == -1 ==> forall j | 0 <= j < |s| :: key(s[j]) != Some(k)
  {
    if s == [] then -1
    else if key(s[0]) == Some(k) then 0
    else
      var i := IndexOf(s[1..], key, k);
      if i == -1 then -1 else i + 1
  }

  /** `existsById`: some row has key `k`. */
  predicate Has<T>(s: seq<T>, key: T -> Option<string>, k: string) {
    IndexOf(s, key, k) >= 0
  }

  /** `findById`: the row with key `k`, if any. */
  function Find<T>(s: seq<T>, key: T -> Option<string>, k: string): (r: Option<T>)
    ensures r.Some? <==> Has(s, key, k)
    ensures r.Some? ==> r.value in s && key(r.value) == Some(k)
  {
    var i := IndexOf(s, key, k);
    if i >= 0 then Some(s[i]) else None
  }

  /** In a keyed table the row with a key is the only row with that key. */
  lemma FindUnique<T>(s: seq<T>, key: T -> Option<string>, y: T)
    requires Keyed(s, key)
    requires y in s
    ensures key(y).Some? && Find(s, key, key(y).value) == Some(y)
  {
    var j :| 0 <= j < |s| && s[j] == y;
    var i := IndexOf(s, key, key(y).value);
    assert i >= 0 && i <= j;
    assert i == j;
  }

  /** `Has` is membership of a row with that key. */
  lemma HasMember<T>(s: seq<T>, key: T -> Option<string>, k: string)
    ensures Has(s, key, k) <==> exists y | y in s :: key(y) == Some(k)
  {
    if Has(s, key, k) {
      assert key(s[IndexOf(s, key, k)]) == Some(k);
    }
  }

  /** Appending a row changes what a key finds only when no earlier row had that key. */
  lemma FindSnoc<T>(s: seq<T>, key: T -> Option<string>, x: T, k: string)
    ensures Find(s + [x], key, k) ==
      if Has(s, key, k) then Find(s, key, k) else if key(x) == Some(k) then Some(x) else None
  {
    var t := s + [x];
    var i, j := IndexOf(s, key, k), IndexOf(t, key, k);
    if i >= 0 {
      assert t[i] == s[i];
      assert j == i;
    } else if key(x) == Some(k) {
      assert t[|s|] == x;
      assert forall n | 0 <= n < |s| :: t[n] == s[n];
      assert j == |s|;
    } else {
      assert forall n | 0 <= n < |s| :: t[n] == s[n];
      assert j == -1;
    }
  }

  /**
   * `save`, which the repositories run as a merge: the row with the key of
   * `x` is replaced in place, or `x` is appended when the key is new.
   */
  function Upsert<T>(s: seq<T>, key: T -> Option<string>, x: T): (r: seq<T>)
    requires key(x).Some?
    ensures x in r
    ensures forall y | y in r :: y == x || y in s
    ensures forall y | y in s && key(y) != key(x) :: y in r
    ensures |r| == if Has(s, key, key(x).value) then |s| else |s| + 1
  {
    var i := IndexOf(s, key, key(x).value);
    if i >= 0 then
      var r := s[i := x];
      assert r[i] == x;
      assert forall y | y in s && key(y) != key(x) :: y in r by {
        forall y | y in s && key(y) != key(x) ensures y in r {
          var j :| 0 <= j < |s| && s[j] == y;
          assert r[j] == y;
        }
      }
      r
    else s + [x]
  }

  /** A keyed table without its first row is keyed and does not hold the first row's key. */
  lemma KeyedTail<T>(s: seq<T>, key: T -> Option<string>)
    requires Keyed(s, key) && s != []
    ensures Keyed(s[1..], key)
    ensures forall y | y in s[1..] :: key(y) != key(s[0])
  {
    forall y | y in s[1..] ensures key(y) != key(s[0]) {
      var j :| 0 <= j < |s[1..]| && s[1..][j] == y;
      assert s[j + 1] == y;
    }
  }

  /** A row put in front of a keyed table whose keys differ from its own keeps it keyed. */
  lemma KeyedCons<T>(x: T, rest: seq<T>, key: T -> Option<string>)
    requires Keyed(rest, key) && key(x).Some?
    requires forall y | y in rest :: key(y) != key(x)
    ensures Keyed([x] + rest, key)
  {
    var r := [x] + rest;
    forall j | 1 <= j < |r| ensures key(r[j]) != key(x) {
      assert r[j] == rest[j - 1];
    }
  }

  /** Saving into a keyed table leaves it keyed. */
  lemma {:induction false} UpsertKeyed<T>(s: seq<T>, key: T -> Option<string>, x: T)
    requires Keyed(s, key) && key(x).Some?
    ensures Keyed(Upsert(s, key, x), key)
  {
    var r := Upsert(s, key, x);
    var i := IndexOf(s, key, key(x).value);
    if i >= 0 {
      assert r == s[i := x];
    } else {
      assert r == s + [x];
      assert forall j | 0 <= j < |s| :: key(r[j]) != key(x);
    }
  }

  /** A merge keeps every key the table had, and adds the key of `x`. */
  lemma UpsertHas<T>(s: seq<T>, key: T -> Option<string>, x: T, k: string)
    requires key(x).Some?
    ensures Has(Upsert(s, key, x), key, k) <==> Has(s, key, k) || key(x) == Some(k)
  {
    var r := Upsert(s, key, x);
    HasMember(s, key, k);
    HasMember(r, key, k);
    if Has(s, key, k) && key(x) != Some(k) {
      var y :| y in s && key(y) == Some(k);
      assert y in r;
    }
  }

  /** After saving `x`, looking up its key gives `x`; every other key finds what it found before. */
  lemma UpsertFind<T>(s: seq<T>, key: T -> Option<string>, x: T, k: string)
    requires Keyed(s, key) && key(x).Some?
    ensures Find(Upsert(s, key, x), key, key(x).value) == Some(x)
    ensures k != key(x).value ==> Find(Upsert(s, key, x), key, k) == Find(s, key, k)
  {
    var r := Upsert(s, key, x);
    UpsertKeyed(s, key, x);
    FindUnique(r, key, x);
    if k != key(x).value {
      var f := Find(s, key, k);
      if f.Some? {
        FindUnique(r, key, f.value);
      } else if Has(r, key, k) {
        var g := Find(r, key, k);
        assert g.value in s;
        FindUnique(s, key, g.value);
      }
    }
  }

  /** `deleteById`: every row with key `k` is dropped; the others keep their order. */
  function Remove<T>(s: seq<T>, key: T -> Option<string>, k: string): (r: seq<T>)
    ensures forall y | y in r :: y in s && key(y) != Some(k)
    ensures forall y | y in s && key(y) != Some(k) :: y in r
    ensures |r| <= |s|
  {
    if s == [] then []
    else (if key(s[0]) == Some(k) then [] else [s[0]]) + Remove(s[1..], key, k)
  }

  /** A deletion drops exactly the key it names. */
  lemma RemoveHas<T>(s: seq<T>, key: T -> Option<string>, k: string, j: string)
    ensures Has(Remove(s, key, k), key, j) <==> Has(s, key, j) && j != k
  {
    var r := Remove(s, key, k);
    HasMember(s, key, j);
    HasMember(r, key, j);
    if Has(s, key, j) && j != k {
      var y :| y in s && key(y) == Some(j);
      assert y in r;
    }
  }

  /** Deleting from a keyed table leaves it keyed. */
  lemma {:induction false} RemoveKeyed<T>(s: seq<T>, key: T -> Option<string>, k: string)
    requires Keyed(s, key)
    ensures Keyed(Remove(s, key, k), key)
  {
    if s != [] {
      KeyedTail(s, key);
      RemoveKeyed(s[1..], key, k);
      if key(s[0]) != Some(k) {
        KeyedCons(s[0], Remove(s[1..], key, k), key);
      }
    }
  }

  /** Deleting by key from a keyed table removes one row when the key was there and none otherwise. */
  lemma {:induction false} RemoveCount<T>(s: seq<T>, key: T -> Option<string>, k: string)
    requires Keyed(s, key)
    ensures |Remove(s, key, k)| == if Has(s, key, k) then |s| - 1 else |s|
  {
    if s != [] {
      KeyedTail(s, key);
      RemoveCount(s[1..], key, k);
      if key(s[0]) == Some(k) {
        assert !Has(s[1..], key, k);
      } else {
        assert Has(s, key, k) == Has(s[1..], key, k);
      }
    }
  }

  /** A derived `findBy…` query: the rows satisfying `p` with argument `a`, in table order. */
  function Select<T, A>(s: seq<T>, p: (T, A) -> bool, a: A): (r: seq<T>)
    ensures forall y | y in r :: y in s && p(y, a)
    ensures forall y | y in s && p(y, a) :: y in r
    ensures |r| <= |s|
  {
    if s == [] then []
    else (if p(s[0], a) then [s[0]] else []) + Select(s[1..], p, a)
  }

  /** A derived `deleteBy…` query: the rows that remain, those not satisfying `p`, in table order. */
  function Reject<T, A>(s: seq<T>, p: (T, A) -> bool, a: A): (r: seq<T>)
    ensures forall y | y in r :: y in s && !p(y, a)
    ensures forall y | y in s && !p(y, a) :: y in r
    ensures |r| <= |s|
  {
    if s == [] then []
    else (if p(s[0], a) then [] else [s[0]]) + Reject(s[1..], p, a)
  }

  /** Every row is either selected or kept, so a bulk delete removes as many rows as the query finds. */
  lemma {:induction false} SelectRejectCount<T, A>(s: seq<T>, p: (T, A) -> bool, a: A)
    ensures |Select(s, p, a)| + |Reject(s, p, a)| == |s|
  {
    if s != [] {
      SelectRejectCount(s[1..], p, a);
    }
  }

  /** Selection keeps table order: selecting over two tables laid end to end selects from each in turn. */
  lemma {:induction false} SelectAppend<T, A>(s: seq<T>, t: seq<T>, p: (T, A) -> bool, a: A)
    ensures Select(s + t, p, a) == Select(s, p, a) + Select(t, p, a)
  {
    if s == [] {
      assert s + t == t;
    } else {
      assert (s + t)[0] == s[0];
      assert (s + t)[1..] == s[1..] + t;
      SelectAppend(s[1..], t, p, a);
    }
  }

  /** A bulk delete leaves a keyed table keyed. */
  lemma {:induction false} RejectKeyed<T, A>(s: seq<T>, key: T -> Option<string>, p: (T, A) -> bool, a: A)
    requires Keyed(s, key)
    ensures Keyed(Reject(s, p, a), key)
  {
    if s != [] {
      KeyedTail(s, key);
      RejectKeyed(s[1..], key, p, a);
      if !p(s[0], a) {
        KeyedCons(s[0], Reject(s[1..], p, a), key);
      }
    }
  }

  /**
   * `idx` places every row of `r` in `s`: row `k` of `r` is row `idx[k]` of
   * `s`, and the positions strictly increase.
   */
  ghost predicate Embeds<T>(r: seq<T>, s: seq<T>, idx: seq<nat>) {
    && |idx| == |r|
    && (forall k | 0 <= k < |r| :: idx[k] < |s| && r[k] == s[idx[k]])
    && (forall k, l | 0 <= k < l < |r| :: idx[k] < idx[l])
  }

  /** `r` is a subsequence of `s`: its rows are rows of `s`, in the order `s` has them. */
  ghost predicate Subsequence<T>(r: seq<T>, s: seq<T>) {
    exists idx :: Embeds(r, s, idx)
  }

  /** Every position moved one row down. */
  function Shift(idx: seq<nat>): (r: seq<nat>)
    ensures |r| == |idx| && forall k | 0 <= k < |idx| :: r[k] == idx[k] + 1
  {
    seq(|idx|, k requires 0 <= k < |idx| => idx[k] + 1)
  }

  /** A subsequence of a table's tail is one of the table, with or without the first row in front. */
  lemma EmbedsCons<T>(r: seq<T>, s: seq<T>, idx: seq<nat>)
    requires s != [] && Embeds(r, s[1..], idx)
    ensures Embeds(r, s, Shift(idx))
    ensures Embeds([s[0]] + r, s, [0] + Shift(idx))
  {
    var r', idx' := [s[0]] + r, [0] + Shift(idx);
    forall k | 1 <= k < |r'| ensures idx'[k] < |s| && r'[k] == s[idx'[k]] {
      assert r'[k] == r[k - 1] && idx'[k] == idx[k - 1] + 1;
    }
  }

  /** Where the rows a derived query selects sit in the table. */
  lemma {:induction false} SelectPositions<T, A>(s: seq<T>, p: (T, A) -> bool, a: A) returns (idx: seq<nat>)
    ensures Embeds(Select(s, p, a), s, idx)
  {
    if s == [] {
      idx := [];
    } else {
      var tail := SelectPositions(s[1..], p, a);
      EmbedsCons(Select(s[1..], p, a), s, tail);
      if p(s[0], a) {
        assert Select(s, p, a) == [s[0]] + Select(s[1..], p, a);
        idx := [0] + Shift(tail);
      } else {
        assert Select(s, p, a) == Select(s[1..], p, a);
        idx := Shift(tail);
      }
    }
  }

  /** A derived query keeps the rows it selects in table order. */
  lemma SelectInOrder<T, A>(s: seq<T>, p: (T, A) -> bool, a: A)
    ensures Subsequence(Select(s, p, a), s)
  {
    var idx := SelectPositions(s, p, a);
  }

  /** Where the rows a bulk delete keeps sit in the table. */
  lemma {:induction false} RejectPositions<T, A>(s: seq<T>, p: (T, A) -> bool, a: A) returns (idx: seq<nat>)
    ensures Embeds(Reject(s, p, a), s, idx)
  {
    if s == [] {
      idx := [];
    } else {
      var tail := RejectPositions(s[1..], p, a);
      EmbedsCons(Reject(s[1..], p, a), s, tail);
      if p(s[0], a) {
        assert Reject(s, p, a) == Reject(s[1..], p, a);
        idx := Shift(tail);
      } else {
        assert Reject(s, p, a) == [s[0]] + Reject(s[1..], p, a);
        idx := [0] + Shift(tail);
      }
    }
  }

  /** A bulk delete keeps the remaining rows in table order. */
  lemma RejectInOrder<T, A>(s: seq<T>, p: (T, A) -> bool, a: A)
    ensures Subsequence(Reject(s, p, a), s)
  {
    var idx := RejectPositions(s, p, a);
  }

  /** Where the rows `deleteById` keeps sit in the table. */
  lemma {:induction false} RemovePositions<T>(s: seq<T>, key: T -> Option<string>, k: string) returns (idx: seq<nat>)
    ensures Embeds(Remove(s, key, k), s, idx)
  {
    if s == [] {
      idx := [];
    } else {
      var tail := RemovePositions(s[1..], key, k);
      EmbedsCons(Remove(s[1..], key, k), s, tail);
      if key(s[0]) == Some(k) {
        assert Remove(s, key, k) == Remove(s[1..], key, k);
        idx := Shift(tail);
      } else {
        assert Remove(s, key, k) == [s[0]] + Remove(s[1..], key, k);
        idx := [0] + Shift(tail);
      }
    }
  }

  /** `deleteById` keeps the remaining rows in table order. */
  lemma RemoveInOrder<T>(s: seq<T>, key: T -> Option<string>, k: string)
    ensures Subsequence(Remove(s, key, k), s)
  {
    var idx := RemovePositions(s, key, k);
  }

  /** `findAll` followed by a field-by-field mapping of every row, in table order. */
  function MapAll<T, U>(s: seq<T>, f: T -> U): (r: seq<U>)
    ensures |r| == |s|
    ensures forall i | 0 <= i < |s| :: r[i] == f(s[i])
    ensures forall x | x in s :: f(x) in r
    ensures forall y | y in r :: exists x | x in s :: y == f(x)
  {
    if s == [] then [] else [f(s[0])] + MapAll(s[1..], f)
  }

  /** Mapping every row keeps a subsequence a subsequence. */
  lemma MapAllInOrder<T, U>(r: seq<T>, s: seq<T>, f: T -> U)
    requires Subsequence(r, s)
    ensures Subsequence(MapAll(r, f), MapAll(s, f))
  {
    var idx :| Embeds(r, s, idx);
    assert Embeds(MapAll(r, f), MapAll(s, f), idx);
  }
}
