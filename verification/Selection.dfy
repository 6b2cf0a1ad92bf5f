/** ORDER BY ... LIMIT: which rows a statement takes when it may lock any of them. */
module Selection {
  import opened Jobs
  import opened Statements

  /** A sort key; the three columns compare one after the other. */
  datatype Key = Key(major: int, minor: int, last: int)

  predicate Less(a: Key, b: Key) {
    || a.major < b.major
    || (a.major == b.major && a.minor < b.minor)
    || (a.major == b.major && a.minor == b.minor && a.last < b.last)
  }

  type Keys = map<Id, Key>

  /** `picks` is the first min(limit, n) of the keyed rows, in order. */
  ghost predicate IsFirst(picks: seq<Id>, keys: Keys, limit: nat) {
    && Distinct(picks)
    && (forall i | i in picks :: i in keys)
    && |picks| == (if limit < |keys| then limit else |keys|)
    && (forall a, b | 0 <= a < b < |picks| :: !Less(keys[picks[b]], keys[picks[a]]))
    && (forall p, i | p in picks && i in keys && i !in picks :: !Less(keys[i], keys[p]))
  }

  /** `picks` so far, and `rest` still to choose from. */
  ghost predicate Chosen(picks: seq<Id>, rest: Keys, keys: Keys) {
    && Distinct(picks)
    && |picks| + |rest| == |keys|
    && (forall i | i in picks :: i in keys && i !in rest)
    && (forall i | i in keys :: i in rest || i in picks)
    && (forall i | i in rest :: i in keys && rest[i] == keys[i])
    && (forall a, b | 0 <= a < b < |picks| :: !Less(keys[picks[b]], keys[picks[a]]))
    && (forall p, i | p in picks && i in rest :: !Less(keys[i], keys[p]))
  }

  lemma ChooseNext(picks: seq<Id>, rest: Keys, keys: Keys, best: Id)
    requires Chosen(picks, rest, keys) && best in rest
    requires forall i | i in rest :: !Less(rest[i], rest[best])
    ensures |rest - {best}| == |rest| - 1
    ensures Chosen(picks + [best], rest - {best}, keys)
  {
    assert rest.Keys == (rest - {best}).Keys + {best};
    var picks' := picks + [best];
    assert forall i | i in picks' :: i in picks || i == best;
    assert forall a | 0 <= a < |picks| :: picks'[a] in picks;
  }

  method FirstInOrder(keys: Keys, limit: nat) returns (picks: seq<Id>)
    ensures IsFirst(picks, keys, limit)
  {
    picks := [];
    var rest := keys;
    while |picks| < limit && rest != map[]
      invariant Chosen(picks, rest, keys) && |picks| <= limit
      decreases |rest|
    {
      var best := Least(rest);
      ChooseNext(picks, rest, keys, best);
      rest := rest - {best};
      picks := picks + [best];
    }
    assert rest == map[] ==> |rest| == 0;
  }

  method Least(keys: Keys) returns (best: Id)
    requires keys != map[]
    ensures best in keys && forall i | i in keys :: !Less(keys[i], keys[best])
  {
    assert keys.Keys != {};
    best :| best in keys;
    var left := keys.Keys - {best};
    while left != {}
      invariant best in keys && left <= keys.Keys
      invariant forall i | i in keys && i !in left :: !Less(keys[i], keys[best])
      decreases |left|
    {
      var i :| i in left;
      if Less(keys[i], keys[best]) {
        best := i;
      }
      left := left - {i};
    }
  }

  ghost predicate Strict(keys: Keys) {
    forall i, j | i in keys && j in keys && i != j :: keys[i] != keys[j]
  }

  lemma {:induction false} FirstPrefix(p: seq<Id>, q: seq<Id>, keys: Keys, limit: nat, k: nat)
    requires IsFirst(p, keys, limit) && IsFirst(q, keys, limit) && Strict(keys) && k <= |p|
    ensures p[..k] == q[..k]
  {
    if k > 0 {
      FirstPrefix(p, q, keys, limit, k - 1);
      var a, b := p[k - 1], q[k - 1];
      NotBefore(p, q, keys, limit, k - 1);
      NotBefore(q, p, keys, limit, k - 1);
      assert keys[a] == keys[b];
    }
  }

  lemma NotBefore(p: seq<Id>, q: seq<Id>, keys: Keys, limit: nat, k: nat)
    requires IsFirst(p, keys, limit) && IsFirst(q, keys, limit) && k < |p| && p[..k] == q[..k]
    ensures !Less(keys[p[k]], keys[q[k]])
  {
    forall j | 0 <= j < k ensures q[j] != p[k] {
      assert q[j] == q[..k][j];
    }
  }

  /** When no two keys tie, ORDER BY ... LIMIT has exactly one result. */
  lemma FirstUnique(p: seq<Id>, q: seq<Id>, keys: Keys, limit: nat)
    requires IsFirst(p, keys, limit) && IsFirst(q, keys, limit) && Strict(keys)
    ensures p == q
  {
    FirstPrefix(p, q, keys, limit, |p|);
    assert p[..|p|] == p && q[..|q|] == q;
  }

  lemma FirstIsPicked(picks: seq<Id>, keys: Keys, limit: nat, i: Id)
    requires IsFirst(picks, keys, limit) && limit > 0 && i in keys
    requires forall j | j in keys && j != i :: Less(keys[i], keys[j])
    ensures i in picks
  {
    assert |keys| > 0;
    assert picks[0] in picks;
  }
}
