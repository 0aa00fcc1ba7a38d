/** The evaluator: it pairs predicted lesions with reference lesions by a match
    key, measures size errors over the pairs, and aggregates per-document
    counts over two collections of extractions keyed by file name. */
module Eval {
  import opened Wrappers
  import opened Strings
  import opened JsonValue

  /** A lesion entry, or any extraction document: a decoded JSON object. */
  type Lesion = map<string, Json>

  /** A (prediction, reference) pair as `pair_lesions` returns it. */
  type Pair = (Lesion, Lesion)

  // ---------------------------------------------------------------------------
  // `_safe_get`: walking nested dictionaries
  // ---------------------------------------------------------------------------

  /** The key paths `_safe_get` can walk without raising: every value it calls
      `.get` on is a dictionary, unless it is `None`, where the walk stops. */
  predicate Walkable(d: Json, keys: seq<string>)
    decreases |keys|
  {
    keys == [] || d == Null || (d.Obj? && Walkable(Get(d.fields, keys[0]), keys[1..]))
  }

  /** What `_safe_get(d, *keys)` returns: `None` as soon as the walk meets `None`. */
  function Path(d: Json, keys: seq<string>): Json
    requires Walkable(d, keys)
    decreases |keys|
  {
    if keys == [] then d
    else if d == Null then Null
    else Path(Get(d.fields, keys[0]), keys[1..])
  }

  /** `_safe_get`, the loop that reassigns `d` once per key. */
  method SafeGet(d: Json, keys: seq<string>) returns (r: Json)
    requires Walkable(d, keys)
    ensures r == Path(d, keys)
  {
    var cur := d;
    var i := 0;
    while i < |keys|
      invariant 0 <= i <= |keys|
      invariant Walkable(cur, keys[i..]) && Path(cur, keys[i..]) == Path(d, keys)
    {
      if cur == Null {
        return Null;
      }
      assert keys[i..][1..] == keys[i + 1..];
      cur := Get(cur.fields, keys[i]);
      i := i + 1;
    }
    assert keys[i..] == [];
    return cur;
  }

  /** Walking `a + b` is walking `a`, then `b` from where `a` ended; a walk that
      reaches `None` stays there. */
  lemma {:induction false} PathConcat(d: Json, a: seq<string>, b: seq<string>)
    requires Walkable(d, a + b)
    ensures Walkable(d, a) && Walkable(Path(d, a), b)
    ensures Path(d, a + b) == Path(Path(d, a), b)
    decreases |a|
  {
    if a == [] {
      assert a + b == b;
    } else if d == Null {
      NullPath(b);
    } else {
      assert (a + b)[0] == a[0] && (a + b)[1..] == a[1..] + b;
      PathConcat(Get(d.fields, a[0]), a[1..], b);
    }
  }

  /** Every path starting from `None` ends at `None`. */
  lemma NullPath(keys: seq<string>)
    ensures Walkable(Null, keys) && Path(Null, keys) == Null
  {
  }

  // ---------------------------------------------------------------------------
  // `lesion_match_key`
  // ---------------------------------------------------------------------------

  /** Lesions whose key `lesion_match_key` can compute: body site and node
      station are strings or falsy (`(v or "").lower()`). */
  predicate KeyOk(l: Lesion) {
    TextOrFalsy(Get(l, "body_site")) && TextOrFalsy(Get(l, "node_station"))
  }

  predicate AllKeyOk(ls: seq<Lesion>) {
    forall i :: 0 <= i < |ls| ==> KeyOk(ls[i])
  }

  /** The match key: the raw finding type, and the lowercased site and station. */
  datatype Key = Key(findingType: Json, site: string, station: string)

  function MatchKey(l: Lesion): Key
    requires KeyOk(l)
  {
    Key(Get(l, "finding_type"), Lower(TextOr(Get(l, "body_site"))), Lower(TextOr(Get(l, "node_station"))))
  }

  /** The text slots of the key. */
  predicate TextSlot(slot: string) {
    slot == "body_site" || slot == "node_station"
  }

  lemma SlotsDiffer()
    ensures "body_site" != "node_station" && "body_site" != "finding_type" && "node_station" != "finding_type"
  {
    assert "body_site"[0] != "node_station"[0];
    assert "body_site"[0] != "finding_type"[0];
    assert "node_station"[0] != "finding_type"[0];
  }

  /** The key compares a text slot case-insensitively. */
  lemma {:induction false} KeyIgnoresCase(l: Lesion, slot: string, s: string)
    requires TextSlot(slot) && KeyOk(l)
    ensures KeyOk(l[slot := Str(s)]) && KeyOk(l[slot := Str(Lower(s))])
    ensures MatchKey(l[slot := Str(s)]) == MatchKey(l[slot := Str(Lower(s))])
  {
    SlotsDiffer();
    LowerIdempotent(s);
    var a, b := l[slot := Str(s)], l[slot := Str(Lower(s))];
    assert Get(a, "finding_type") == Get(b, "finding_type");
    if s == [] {
      assert Lower(s) == [];
    }
    assert Lower(TextOr(Get(a, slot))) == Lower(TextOr(Get(b, slot)));
  }

  /** The key does not distinguish a missing text slot from `None` or `""`. */
  lemma {:induction false} KeyMissingSlot(l: Lesion, slot: string)
    requires TextSlot(slot) && KeyOk(l)
    ensures KeyOk(l - {slot}) && KeyOk(l[slot := Null]) && KeyOk(l[slot := Str("")])
    ensures MatchKey(l - {slot}) == MatchKey(l[slot := Null]) == MatchKey(l[slot := Str("")])
  {
    SlotsDiffer();
    assert Get(l - {slot}, slot) == Null;
  }

  // ---------------------------------------------------------------------------
  // `pair_lesions`: greedy one-to-one pairing
  // ---------------------------------------------------------------------------

  /** The match keys of a list of lesions. */
  function Keys(ls: seq<Lesion>): (r: seq<Key>)
    requires AllKeyOk(ls)
    ensures |r| == |ls| && forall i :: 0 <= i < |ls| ==> r[i] == MatchKey(ls[i])
  {
    seq(|ls|, i requires 0 <= i < |ls| => MatchKey(ls[i]))
  }

  /** The lowest reference index at or after `i` that is not used yet and has
      the key `key`: what the inner loop of `pair_lesions` finds. */
  function FirstFree(keys: seq<Key>, used: set<nat>, key: Key, i: nat): (r: Option<nat>)
    requires i <= |keys|
    ensures r.Some? ==> i <= r.value < |keys| && r.value !in used && keys[r.value] == key
    ensures r.Some? ==> forall j :: i <= j < r.value ==> j in used || keys[j] != key
    ensures r.None? ==> forall j :: i <= j < |keys| ==> j in used || keys[j] != key
    decreases |keys| - i
  {
    if i == |keys| then None
    else if i !in used && keys[i] == key then Some(i)
    else FirstFree(keys, used, key, i + 1)
  }

  /** The used reference indices and the (prediction, reference) index pairs
      after the outer loop of `pair_lesions` has processed some predictions. */
  datatype Matching = Matching(used: set<nat>, idx: seq<(nat, nat)>)

  /** Every index pair names a prediction below `n` and a reference below
      `refCount`. */
  predicate Within(idx: seq<(nat, nat)>, n: nat, refCount: nat) {
    forall k :: 0 <= k < |idx| ==> idx[k].0 < n && idx[k].1 < refCount
  }

  predicate InRange(m: Matching, n: nat, refCount: nat) {
    Within(m.idx, n, refCount) && forall j :: j in m.used ==> j < refCount
  }

  /** The greedy matching of the first `n` prediction keys `pk` against the
      reference keys `rk`. */
  function Assign(pk: seq<Key>, rk: seq<Key>, n: nat): (m: Matching)
    requires n <= |pk|
    ensures InRange(m, n, |rk|) && |m.idx| <= n
  {
    if n == 0 then Matching({}, [])
    else
      var m := Assign(pk, rk, n - 1);
      match FirstFree(rk, m.used, pk[n - 1], 0)
      case None => m
      case Some(j) => Matching(m.used + {j}, m.idx + [(n - 1, j)])
  }

  /** The lesions an index matching designates. */
  function Pick(pred: seq<Lesion>, ref: seq<Lesion>, idx: seq<(nat, nat)>): (r: seq<Pair>)
    requires Within(idx, |pred|, |ref|)
    ensures |r| == |idx|
    ensures forall k :: 0 <= k < |idx| ==> r[k] == (pred[idx[k].0], ref[idx[k].1])
  {
    seq(|idx|, k requires 0 <= k < |idx| => (pred[idx[k].0], ref[idx[k].1]))
  }

  lemma PickSnoc(pred: seq<Lesion>, ref: seq<Lesion>, idx: seq<(nat, nat)>, n: nat, j: nat)
    requires Within(idx, |pred|, |ref|) && n < |pred| && j < |ref|
    ensures Within(idx + [(n, j)], |pred|, |ref|)
    ensures Pick(pred, ref, idx + [(n, j)]) == Pick(pred, ref, idx) + [(pred[n], ref[j])]
  {
    var idx' := idx + [(n, j)];
    assert forall k :: 0 <= k < |idx| ==> idx'[k] == idx[k];
  }

  /** The greedy matching `pair_lesions` computes. */
  function Greedy(pred: seq<Lesion>, ref: seq<Lesion>): (m: Matching)
    requires AllKeyOk(pred) && AllKeyOk(ref)
    ensures InRange(m, |pred|, |ref|)
  {
    Assign(Keys(pred), Keys(ref), |pred|)
  }

  /** What `pair_lesions(pred, ref)` returns. */
  function Pairing(pred: seq<Lesion>, ref: seq<Lesion>): seq<Pair>
    requires AllKeyOk(pred) && AllKeyOk(ref)
  {
    Pick(pred, ref, Greedy(pred, ref).idx)
  }

  /** The inner loop of `pair_lesions`: skip used references, stop at the
      first one whose key equals `key`. */
  method FindFree(ref: seq<Lesion>, used: set<nat>, key: Key) returns (best: Option<nat>)
    requires AllKeyOk(ref)
    ensures best == FirstFree(Keys(ref), used, key, 0)
  {
    ghost var rk := Keys(ref);
    var i := 0;
    while i < |ref|
      invariant 0 <= i <= |ref|
      invariant FirstFree(rk, used, key, i) == FirstFree(rk, used, key, 0)
    {
      if i in used {
        i := i + 1;
        continue;
      }
      if MatchKey(ref[i]) == key {
        return Some(i);
      }
      i := i + 1;
    }
    return None;
  }

  /** `pair_lesions`: for each prediction in order, scan the references for the
      first unused one with an equal key, and pair the two. */
  method PairLesions(pred: seq<Lesion>, ref: seq<Lesion>) returns (pairs: seq<Pair>)
    requires AllKeyOk(pred) && AllKeyOk(ref)
    ensures pairs == Pairing(pred, ref)
  {
    ghost var pk, rk := Keys(pred), Keys(ref);
    var used: set<nat> := {};
    ghost var idx: seq<(nat, nat)> := [];
    pairs := [];
    for n := 0 to |pred|
      invariant Assign(pk, rk, n) == Matching(used, idx)
      invariant Within(idx, |pred|, |ref|)
      invariant pairs == Pick(pred, ref, idx)
    {
      var key := MatchKey(pred[n]);
      var best := FindFree(ref, used, key);
      AssignNext(pk, rk, n, Matching(used, idx), best);
      if best.Some? {
        var j := best.value;
        PickSnoc(pred, ref, idx, n, j);
        used := used + {j};
        pairs := pairs + [(pred[n], ref[j])];
        idx := idx + [(n, j)];
      }
    }
  }

  /** One step of the outer loop of `pair_lesions`. */
  lemma AssignNext(pk: seq<Key>, rk: seq<Key>, n: nat, m: Matching, f: Option<nat>)
    requires n < |pk| && Assign(pk, rk, n) == m && f == FirstFree(rk, m.used, pk[n], 0)
    ensures f.Some? ==> Assign(pk, rk, n + 1) == Matching(m.used + {f.value}, m.idx + [(n, f.value)])
    ensures f.None? ==> Assign(pk, rk, n + 1) == m
  {
  }

  /** The used set is exactly the set of paired reference indices, and it has
      one element per pair. */
  lemma {:induction false} AssignUsed(pk: seq<Key>, rk: seq<Key>, n: nat)
    requires n <= |pk|
    ensures var m := Assign(pk, rk, n);
      && (forall j :: j in m.used <==> exists k :: 0 <= k < |m.idx| && m.idx[k].1 == j)
      && |m.used| == |m.idx|
  {
    if n > 0 {
      AssignUsed(pk, rk, n - 1);
      var m := Assign(pk, rk, n - 1);
      var f := FirstFree(rk, m.used, pk[n - 1], 0);
      if f.Some? {
        var j := f.value;
        var m' := Matching(m.used + {j}, m.idx + [(n - 1, j)]);
        assert Assign(pk, rk, n) == m';
        assert m'.idx[|m.idx|] == (n - 1, j);
        forall x ensures x in m'.used <==> exists k :: 0 <= k < |m'.idx| && m'.idx[k].1 == x {
          if x in m.used {
            var k :| 0 <= k < |m.idx| && m.idx[k].1 == x;
            assert m'.idx[k] == m.idx[k];
          }
          if exists k :: 0 <= k < |m'.idx| && m'.idx[k].1 == x {
            var k :| 0 <= k < |m'.idx| && m'.idx[k].1 == x;
            if k < |m.idx| { assert m.idx[k] == m'.idx[k]; }
          }
        }
      }
    }
  }

  /** No reference index occurs twice, and prediction indices increase. */
  predicate Injective(idx: seq<(nat, nat)>) {
    forall a, b :: 0 <= a < b < |idx| ==> idx[a].1 != idx[b].1 && idx[a].0 < idx[b].0
  }

  /** Every paired reference index is in the used set. */
  predicate Covers(m: Matching) {
    forall k :: 0 <= k < |m.idx| ==> m.idx[k].1 in m.used
  }

  lemma {:induction false} AssignCovers(pk: seq<Key>, rk: seq<Key>, n: nat)
    requires n <= |pk|
    ensures Covers(Assign(pk, rk, n))
  {
    if n > 0 {
      AssignCovers(pk, rk, n - 1);
      var m := Assign(pk, rk, n - 1);
      var f := FirstFree(rk, m.used, pk[n - 1], 0);
      if f.Some? {
        var m' := Matching(m.used + {f.value}, m.idx + [(n - 1, f.value)]);
        assert Assign(pk, rk, n) == m';
        forall k | 0 <= k < |m'.idx| ensures m'.idx[k].1 in m'.used {
          if k < |m.idx| {
            assert m'.idx[k] == m.idx[k];
          } else {
            assert m'.idx[k] == (n - 1, f.value);
          }
        }
      }
    }
  }

  /** Pairing a prediction past all earlier ones with an unused reference keeps
      the index list injective. */
  lemma SnocInjective(m: Matching, n: nat, refCount: nat, j: nat)
    requires InRange(m, n, refCount) && Injective(m.idx) && Covers(m) && j !in m.used
    ensures Injective(m.idx + [(n, j)])
  {
    var idx' := m.idx + [(n, j)];
    forall a, b | 0 <= a < b < |idx'| ensures idx'[a].1 != idx'[b].1 && idx'[a].0 < idx'[b].0 {
      assert idx'[a] == m.idx[a];
      if b < |m.idx| { assert idx'[b] == m.idx[b]; }
    }
  }

  /** No reference index is paired twice, and predictions are paired in list
      order. */
  lemma {:induction false} AssignInjective(pk: seq<Key>, rk: seq<Key>, n: nat)
    requires n <= |pk|
    ensures Injective(Assign(pk, rk, n).idx)
  {
    if n > 0 {
      AssignInjective(pk, rk, n - 1);
      var m := Assign(pk, rk, n - 1);
      var f := FirstFree(rk, m.used, pk[n - 1], 0);
      if f.Some? {
        AssignCovers(pk, rk, n - 1);
        SnocInjective(m, n - 1, |rk|, f.value);
        assert Assign(pk, rk, n).idx == m.idx + [(n - 1, f.value)];
      }
    }
  }

  predicate KeysAgree(pk: seq<Key>, rk: seq<Key>, idx: seq<(nat, nat)>) {
    forall k :: 0 <= k < |idx| ==> idx[k].0 < |pk| && idx[k].1 < |rk| && pk[idx[k].0] == rk[idx[k].1]
  }

  lemma {:induction false} AssignKeys(pk: seq<Key>, rk: seq<Key>, n: nat)
    requires n <= |pk|
    ensures KeysAgree(pk, rk, Assign(pk, rk, n).idx)
  {
    if n > 0 {
      AssignKeys(pk, rk, n - 1);
      var m := Assign(pk, rk, n - 1);
      var f := FirstFree(rk, m.used, pk[n - 1], 0);
      if f.Some? {
        var m' := Matching(m.used + {f.value}, m.idx + [(n - 1, f.value)]);
        assert Assign(pk, rk, n) == m';
        forall k | 0 <= k < |m'.idx| ensures m'.idx[k].0 < |pk| && m'.idx[k].1 < |rk| && pk[m'.idx[k].0] == rk[m'.idx[k].1] {
          if k < |m.idx| {
            assert m'.idx[k] == m.idx[k];
          } else {
            assert m'.idx[k] == (n - 1, f.value);
            assert rk[f.value] == pk[n - 1];
          }
        }
      }
    }
  }

  /** A subset of natural numbers below `n` has at most `n` elements. */
  lemma {:induction false} BoundedCard(s: set<nat>, n: nat)
    requires forall j :: j in s ==> j < n
    ensures |s| <= n
    decreases n
  {
    if n > 0 {
      BoundedCard(s - {n - 1}, n - 1);
    } else {
      assert s == {};
    }
  }

  /** Each reference lesion is used at most once, so there are at most
      min(|pred|, |ref|) pairs. */
  lemma PairCount(pred: seq<Lesion>, ref: seq<Lesion>)
    requires AllKeyOk(pred) && AllKeyOk(ref)
    ensures |Pairing(pred, ref)| <= |pred| && |Pairing(pred, ref)| <= |ref|
  {
    AssignUsed(Keys(pred), Keys(ref), |pred|);
    BoundedCard(Greedy(pred, ref).used, |ref|);
  }

  /** Every returned pair consists of a prediction and a reference with equal
      match keys. */
  lemma PairsMatch(pred: seq<Lesion>, ref: seq<Lesion>)
    requires AllKeyOk(pred) && AllKeyOk(ref)
    ensures forall k :: 0 <= k < |Pairing(pred, ref)| ==>
      var pr := Pairing(pred, ref)[k];
      pr.0 in pred && pr.1 in ref && KeyOk(pr.0) && KeyOk(pr.1) && MatchKey(pr.0) == MatchKey(pr.1)
  {
    var m := Greedy(pred, ref);
    AssignKeys(Keys(pred), Keys(ref), |pred|);
    var pairs := Pairing(pred, ref);
    forall k | 0 <= k < |pairs|
      ensures pairs[k].0 in pred && pairs[k].1 in ref && KeyOk(pairs[k].0) && KeyOk(pairs[k].1)
      ensures MatchKey(pairs[k].0) == MatchKey(pairs[k].1)
    {
      assert pairs[k] == (pred[m.idx[k].0], ref[m.idx[k].1]);
      assert Keys(pred)[m.idx[k].0] == Keys(ref)[m.idx[k].1];
    }
  }

  /** Reference lesions are used at most once and predictions come out in
      list order: the pairs' prediction indices increase and their reference
      indices are pairwise distinct. */
  lemma PairsOrdered(pred: seq<Lesion>, ref: seq<Lesion>)
    requires AllKeyOk(pred) && AllKeyOk(ref)
    ensures var idx := Greedy(pred, ref).idx;
      forall a, b :: 0 <= a < b < |idx| ==> idx[a].0 < idx[b].0 && idx[a].1 != idx[b].1
  {
    assert Greedy(pred, ref) == Assign(Keys(pred), Keys(ref), |pred|);
    AssignInjective(Keys(pred), Keys(ref), |pred|);
  }

  /** One step of the greedy order: the next prediction either pairs with the
      lowest-indexed unused reference that has its key, or, when every unused
      reference has a different key, stays unpaired. */
  lemma GreedyStep(pk: seq<Key>, rk: seq<Key>, n: nat)
    requires n < |pk|
    ensures var m, m' := Assign(pk, rk, n), Assign(pk, rk, n + 1);
      || (m' == m && forall j :: 0 <= j < |rk| && j !in m.used ==> rk[j] != pk[n])
      || (exists j :: 0 <= j < |rk| && j !in m.used && rk[j] == pk[n]
            && (forall i :: 0 <= i < j && i !in m.used ==> rk[i] != pk[n])
            && m' == Matching(m.used + {j}, m.idx + [(n, j)]))
  {
  }

  // ---------------------------------------------------------------------------
  // Sizes: `numeric_mae_mm` and `within_tolerance`
  // ---------------------------------------------------------------------------

  function SizeOf(l: Lesion): Json {
    Get(l, "size_mm")
  }

  /** Both sizes are present (`pv is not None and rv is not None`). */
  predicate Sized(pr: Pair) {
    SizeOf(pr.0) != Null && SizeOf(pr.1) != Null
  }

  predicate SizesNumeric(pr: Pair) {
    Sized(pr) ==> Numeric(SizeOf(pr.0)) && Numeric(SizeOf(pr.1))
  }

  /** The pairs on which `abs(pv - rv)` does not raise. */
  predicate PairsNumeric(pairs: seq<Pair>) {
    forall k :: 0 <= k < |pairs| ==> SizesNumeric(pairs[k])
  }

  function Abs(x: int): nat {
    if x < 0 then -x else x
  }

  function PairError(pr: Pair): nat
    requires Sized(pr) && SizesNumeric(pr)
  {
    Abs(NumValue(SizeOf(pr.0)) - NumValue(SizeOf(pr.1)))
  }

  /** The list `errs` that `numeric_mae_mm` builds: one absolute error per pair
      with both sizes present, in order. */
  function Errors(pairs: seq<Pair>): (e: seq<nat>)
    requires PairsNumeric(pairs)
    ensures |e| <= |pairs|
    decreases |pairs|
  {
    if pairs == [] then []
    else
      var init, last := pairs[..|pairs| - 1], pairs[|pairs| - 1];
      assert forall k :: 0 <= k < |init| ==> init[k] == pairs[k];
      Errors(init) + (if Sized(last) then [PairError(last)] else [])
  }

  function Sum(e: seq<nat>): nat
    decreases |e|
  {
    if e == [] then 0 else Sum(e[..|e| - 1]) + e[|e| - 1]
  }

  /** How many errors are within `tol` (`abs(pv - rv) <= tol_mm`). */
  function CountAtMost(e: seq<nat>, tol: int): nat
    decreases |e|
  {
    if e == [] then 0 else CountAtMost(e[..|e| - 1], tol) + (if e[|e| - 1] <= tol then 1 else 0)
  }

  /** The mean absolute error as an exact fraction `sum / count`, or NaN when
      there are no errors to average. */
  datatype Mae = NaN | Mean(sum: nat, count: nat)

  function MaeOf(pairs: seq<Pair>): Mae
    requires PairsNumeric(pairs)
  {
    var e := Errors(pairs);
    if e == [] then NaN else Mean(Sum(e), |e|)
  }

  /** `numeric_mae_mm`. */
  method NumericMaeMm(pairs: seq<Pair>) returns (m: Mae)
    requires PairsNumeric(pairs)
    ensures m == MaeOf(pairs)
  {
    var errs: seq<nat> := [];
    for k := 0 to |pairs|
      invariant PairsNumeric(pairs[..k]) && errs == Errors(pairs[..k])
    {
      assert pairs[..k + 1][..k] == pairs[..k];
      var pv, rv := SizeOf(pairs[k].0), SizeOf(pairs[k].1);
      if pv != Null && rv != Null {
        errs := errs + [Abs(NumValue(pv) - NumValue(rv))];
      }
    }
    assert pairs[..|pairs|] == pairs;
    if errs == [] {
      return NaN;
    }
    var total: nat := 0;
    for k := 0 to |errs|
      invariant total == Sum(errs[..k])
    {
      assert errs[..k + 1][..k] == errs[..k];
      total := total + errs[k];
    }
    assert errs[..|errs|] == errs;
    return Mean(total, |errs|);
  }

  /** `within_tolerance(pairs, tol_mm)`: hits and total over the sized pairs. */
  method WithinTolerance(pairs: seq<Pair>, tol: int) returns (hits: nat, total: nat)
    requires PairsNumeric(pairs)
    ensures total == |Errors(pairs)| && hits == CountAtMost(Errors(pairs), tol)
  {
    hits, total := 0, 0;
    for k := 0 to |pairs|
      invariant PairsNumeric(pairs[..k])
      invariant total == |Errors(pairs[..k])| && hits == CountAtMost(Errors(pairs[..k]), tol)
    {
      assert pairs[..k + 1][..k] == pairs[..k];
      var pv, rv := SizeOf(pairs[k].0), SizeOf(pairs[k].1);
      ghost var e := Errors(pairs[..k]);
      assert pairs[..k + 1][..k] == pairs[..k] && pairs[..k + 1][k] == pairs[k];
      if pv != Null && rv != Null {
        assert Errors(pairs[..k + 1]) == e + [Abs(NumValue(pv) - NumValue(rv))];
        assert (e + [Abs(NumValue(pv) - NumValue(rv))])[..|e|] == e;
        total := total + 1;
        hits := hits + if Abs(NumValue(pv) - NumValue(rv)) <= tol then 1 else 0;
      } else {
        assert Errors(pairs[..k + 1]) == e;
      }
    }
    assert pairs[..|pairs|] == pairs;
  }

  /** The error list is computed pair by pair: it distributes over `+`, so it
      holds one error per sized pair and nothing for the others. */
  lemma {:induction false} ErrorsConcat(a: seq<Pair>, b: seq<Pair>)
    requires PairsNumeric(a) && PairsNumeric(b)
    ensures PairsNumeric(a + b) && Errors(a + b) == Errors(a) + Errors(b)
    decreases |b|
  {
    assert forall k :: 0 <= k < |a + b| ==> (a + b)[k] == if k < |a| then a[k] else b[k - |a|];
    if b == [] {
      assert a + b == a;
    } else {
      var b0 := b[..|b| - 1];
      assert forall k :: 0 <= k < |b0| ==> b0[k] == b[k];
      ErrorsConcat(a, b0);
      assert (a + b)[..|a + b| - 1] == a + b0;
      assert (a + b)[|a + b| - 1] == b[|b| - 1];
    }
  }

  lemma ErrorsSingle(pr: Pair)
    requires SizesNumeric(pr)
    ensures PairsNumeric([pr])
    ensures Errors([pr]) == if Sized(pr) then [PairError(pr)] else []
  {
    assert [pr][..0] == [];
  }

  /** There are no errors exactly when no pair has both sizes. */
  lemma {:induction false} ErrorsEmpty(pairs: seq<Pair>)
    requires PairsNumeric(pairs)
    ensures Errors(pairs) == [] <==> forall k :: 0 <= k < |pairs| ==> !Sized(pairs[k])
    decreases |pairs|
  {
    if pairs != [] {
      var init := pairs[..|pairs| - 1];
      assert forall k :: 0 <= k < |init| ==> init[k] == pairs[k];
      ErrorsEmpty(init);
    }
  }

  /** `hits <= total`. */
  lemma {:induction false} HitsAtMostTotal(e: seq<nat>, tol: int)
    ensures CountAtMost(e, tol) <= |e|
    decreases |e|
  {
    if e != [] { HitsAtMostTotal(e[..|e| - 1], tol); }
  }

  /** `hits` does not decrease when the tolerance grows. */
  lemma {:induction false} HitsMonotone(e: seq<nat>, tol1: int, tol2: int)
    requires tol1 <= tol2
    ensures CountAtMost(e, tol1) <= CountAtMost(e, tol2)
    decreases |e|
  {
    if e != [] { HitsMonotone(e[..|e| - 1], tol1, tol2); }
  }

  /** With a tolerance at least every error, every sized pair is a hit. */
  lemma {:induction false} AllHits(e: seq<nat>, tol: int)
    requires forall t :: 0 <= t < |e| ==> e[t] <= tol
    ensures CountAtMost(e, tol) == |e|
    decreases |e|
  {
    if e != [] {
      var init := e[..|e| - 1];
      assert forall t :: 0 <= t < |init| ==> init[t] == e[t];
      AllHits(init, tol);
    }
  }

  /** The mean error is zero exactly when every sized pair is a hit at
      tolerance 0, i.e. `within_tolerance(pairs, 0)` gives `hits == total`. */
  lemma {:induction false} ZeroErrorIffExact(e: seq<nat>)
    ensures Sum(e) == 0 <==> CountAtMost(e, 0) == |e|
    decreases |e|
  {
    if e != [] {
      ZeroErrorIffExact(e[..|e| - 1]);
      HitsAtMostTotal(e[..|e| - 1], 0);
    }
  }

  // ---------------------------------------------------------------------------
  // Per-document bookkeeping
  // ---------------------------------------------------------------------------

  /** `ls.get(slot) not in (None, "", "unknown")`. */
  predicate SlotPresent(l: Lesion, slot: string) {
    var v := Get(l, slot);
    v != Null && v != Str("") && v != Str("unknown")
  }

  /** `collect_slots(lesions, slot)`: how many lesions fill the slot, out of
      how many lesions. */
  function CollectSlots(lesions: seq<Lesion>, slot: string): (r: (nat, nat))
    ensures r.0 <= r.1 == |lesions|
    decreases |lesions|
  {
    if lesions == [] then (0, 0)
    else
      var rest := CollectSlots(lesions[..|lesions| - 1], slot);
      (rest.0 + (if SlotPresent(lesions[|lesions| - 1], slot) then 1 else 0), rest.1 + 1)
  }

  /** All lesions are counted exactly when all fill the slot, and none is
      counted exactly when none fills it. */
  lemma {:induction false} SlotCounts(lesions: seq<Lesion>, slot: string)
    ensures CollectSlots(lesions, slot).0 == |lesions| <==> forall i :: 0 <= i < |lesions| ==> SlotPresent(lesions[i], slot)
    ensures CollectSlots(lesions, slot).0 == 0 <==> forall i :: 0 <= i < |lesions| ==> !SlotPresent(lesions[i], slot)
    decreases |lesions|
  {
    if lesions != [] {
      var init := lesions[..|lesions| - 1];
      SlotCounts(init, slot);
      assert forall i :: 0 <= i < |init| ==> init[i] == lesions[i];
    }
  }

  /** The values `int(x or 0)` accepts: anything falsy, a bool or an int. */
  predicate FlagOk(x: Json) {
    !Truthy(x) || x.Bool? || x.Int?
  }

  /** `int(x or 0)`. */
  function FlagValue(x: Json): (r: int)
    requires FlagOk(x)
    ensures r == 0 <==> !Truthy(x)
    ensures x.Bool? ==> r == (if x.b then 1 else 0)
    ensures x.Int? ==> r == x.i
  {
    if !Truthy(x) then 0 else if x.Bool? then 1 else x.i
  }

  const FlagPath: seq<string> := ["summary", "metastasis_present"]

  /** The lesion list of a document, as a list of dictionaries. */
  predicate LesionsOk(d: Lesion) {
    "lesions" !in d ||
      (d["lesions"].Arr? &&
       forall i :: 0 <= i < |d["lesions"].items| ==>
         d["lesions"].items[i].Obj? && KeyOk(d["lesions"].items[i].fields))
  }

  /** Documents `evaluate` processes without raising: the summary is a
      dictionary or missing, the flag is accepted by `int(x or 0)`, and the
      lesions are a list of dictionaries whose keys can be computed. */
  predicate DocOk(d: Lesion) {
    && Walkable(Obj(d), FlagPath)
    && FlagOk(Path(Obj(d), FlagPath))
    && LesionsOk(d)
  }

  /** `p.get('lesions', [])`. */
  function DocLesions(d: Lesion): (r: seq<Lesion>)
    requires LesionsOk(d)
    ensures AllKeyOk(r)
  {
    if "lesions" in d then
      var xs := d["lesions"].items;
      seq(|xs|, i requires 0 <= i < |xs| && xs[i].Obj? => xs[i].fields)
    else []
  }

  /** The document-level metastasis flag `int(_safe_get(d, 'summary', 'metastasis_present') or 0)`. */
  function Flag(d: Lesion): int
    requires DocOk(d)
  {
    FlagValue(Path(Obj(d), FlagPath))
  }

  /** A missing summary, a missing flag, `None` and `False` all count as 0. */
  lemma FlagDefaults(d: Lesion)
    ensures Get(d, "summary") == Null ==> (DocOk(d) <==> LesionsOk(d))
    ensures Get(d, "summary") == Null && LesionsOk(d) ==> Flag(d) == 0
    ensures (Get(d, "summary").Obj? && LesionsOk(d) &&
             Get(Get(d, "summary").fields, "metastasis_present") in {Null, Bool(false)})
      ==> DocOk(d) && Flag(d) == 0
  {
    assert FlagPath[0] == "summary" && FlagPath[1..] == ["metastasis_present"];
    assert ["metastasis_present"][1..] == [];
    if Get(d, "summary") == Null {
      assert Path(Obj(d), FlagPath) == Path(Null, ["metastasis_present"]) == Null;
    }
    if Get(d, "summary").Obj? {
      var v := Get(Get(d, "summary").fields, "metastasis_present");
      assert Walkable(Obj(d), FlagPath) && Path(Obj(d), FlagPath) == v;
    }
  }

  /** The counters `evaluate` accumulates in `entity_counts`. */
  datatype Counts = Counts(
    docTotal: nat, docCorrect: nat,
    bodySitePred: nat, bodySiteTrue: nat,
    nodeStationPred: nat, nodeStationTrue: nat,
    findingTypePred: nat, findingTypeTrue: nat)

  const NoCounts := Counts(0, 0, 0, 0, 0, 0, 0, 0)

  /** The counter update for one document pair. */
  function DocStep(c: Counts, p: Lesion, r: Lesion): Counts
    requires DocOk(p) && DocOk(r)
  {
    var pl, rl := DocLesions(p), DocLesions(r);
    Counts(
      c.docTotal + 1, c.docCorrect + (if Flag(p) == Flag(r) then 1 else 0),
      c.bodySitePred + CollectSlots(pl, "body_site").0, c.bodySiteTrue + CollectSlots(rl, "body_site").0,
      c.nodeStationPred + CollectSlots(pl, "node_station").0, c.nodeStationTrue + CollectSlots(rl, "node_station").0,
      c.findingTypePred + CollectSlots(pl, "finding_type").0, c.findingTypeTrue + CollectSlots(rl, "finding_type").0)
  }

  /** Both collections hold every name in `ks`, and their documents are ok. */
  predicate Ready(P: map<string, Lesion>, R: map<string, Lesion>, ks: seq<string>) {
    forall i :: 0 <= i < |ks| ==> ks[i] in P && ks[i] in R && DocOk(P[ks[i]]) && DocOk(R[ks[i]])
  }

  lemma ReadyPrefix(P: map<string, Lesion>, R: map<string, Lesion>, ks: seq<string>, n: nat)
    requires Ready(P, R, ks) && n <= |ks|
    ensures Ready(P, R, ks[..n])
  {
    assert forall i :: 0 <= i < n ==> ks[..n][i] == ks[i];
  }

  /** The counters after the documents named by `ks`, in order. */
  function CountsOf(P: map<string, Lesion>, R: map<string, Lesion>, ks: seq<string>): Counts
    requires Ready(P, R, ks)
    decreases |ks|
  {
    if ks == [] then NoCounts
    else
      ReadyPrefix(P, R, ks, |ks| - 1);
      var fn := ks[|ks| - 1];
      DocStep(CountsOf(P, R, ks[..|ks| - 1]), P[fn], R[fn])
  }

  /** `numeric_pairs_all` after the documents named by `ks`: the pairs of each
      document, document after document. */
  function AllPairs(P: map<string, Lesion>, R: map<string, Lesion>, ks: seq<string>): seq<Pair>
    requires Ready(P, R, ks)
    decreases |ks|
  {
    if ks == [] then []
    else
      ReadyPrefix(P, R, ks, |ks| - 1);
      var fn := ks[|ks| - 1];
      AllPairs(P, R, ks[..|ks| - 1]) + Pairing(DocLesions(P[fn]), DocLesions(R[fn]))
  }

  /** One document counted per name, and at most one correct flag per document. */
  lemma {:induction false} DocCounts(P: map<string, Lesion>, R: map<string, Lesion>, ks: seq<string>)
    requires Ready(P, R, ks)
    ensures CountsOf(P, R, ks).docTotal == |ks|
    ensures CountsOf(P, R, ks).docCorrect <= CountsOf(P, R, ks).docTotal
    decreases |ks|
  {
    if ks != [] {
      ReadyPrefix(P, R, ks, |ks| - 1);
      DocCounts(P, R, ks[..|ks| - 1]);
    }
  }

  /** A pair drawn from one document pair: a predicted lesion of `p` and a
      reference lesion of `r` with equal match keys. */
  predicate PairFrom(p: Lesion, r: Lesion, pr: Pair)
    requires LesionsOk(p) && LesionsOk(r)
  {
    pr.0 in DocLesions(p) && pr.1 in DocLesions(r) && KeyOk(pr.0) && KeyOk(pr.1) && MatchKey(pr.0) == MatchKey(pr.1)
  }

  /** The pair comes from the documents of one of the names in `ks`. */
  predicate FromOneFile(P: map<string, Lesion>, R: map<string, Lesion>, ks: seq<string>, pr: Pair)
    requires Ready(P, R, ks)
  {
    exists i :: 0 <= i < |ks| && PairFrom(P[ks[i]], R[ks[i]], pr)
  }

  /** Pairs are formed per file, never across files. */
  lemma {:induction false} PairsWithinFiles(P: map<string, Lesion>, R: map<string, Lesion>, ks: seq<string>)
    requires Ready(P, R, ks)
    ensures forall k :: 0 <= k < |AllPairs(P, R, ks)| ==> FromOneFile(P, R, ks, AllPairs(P, R, ks)[k])
    decreases |ks|
  {
    if ks != [] {
      var n := |ks| - 1;
      ReadyPrefix(P, R, ks, n);
      PairsWithinFiles(P, R, ks[..n]);
      var fn := ks[n];
      var before, here := AllPairs(P, R, ks[..n]), Pairing(DocLesions(P[fn]), DocLesions(R[fn]));
      PairsMatch(DocLesions(P[fn]), DocLesions(R[fn]));
      var all := AllPairs(P, R, ks);
      assert all == before + here;
      forall k | 0 <= k < |all| ensures FromOneFile(P, R, ks, all[k]) {
        if k < |before| {
          assert FromOneFile(P, R, ks[..n], before[k]);
          var i :| 0 <= i < |ks[..n]| && PairFrom(P[ks[..n][i]], R[ks[..n][i]], before[k]);
          assert ks[..n][i] == ks[i];
          assert all[k] == before[k];
          assert PairFrom(P[ks[i]], R[ks[i]], all[k]);
        } else {
          assert all[k] == here[k - |before|];
          assert PairFrom(P[ks[n]], R[ks[n]], all[k]);
        }
      }
    }
  }

  // ---------------------------------------------------------------------------
  // `evaluate`
  // ---------------------------------------------------------------------------

  /** `sorted(P.keys())`: the names in Python's string order. */
  function SortedKeys(s: set<string>): (r: seq<string>)
    ensures StrictlySorted(r) && |r| == |s|
    ensures forall x :: x in r <==> x in s
    decreases s
  {
    if s == {} then []
    else
      LeastExists(s);
      LeastUnique(s);
      var m :| m in s && Least(m, s);
      var rest := SortedKeys(s - {m});
      assert forall j :: 0 <= j < |rest| ==> Below(m, rest[j]) by {
        forall j | 0 <= j < |rest| ensures Below(m, rest[j]) {
          assert rest[j] in s && rest[j] != m;
        }
      }
      [m] + rest
  }

  predicate Least(m: string, s: set<string>) {
    forall y :: y in s ==> AtMost(m, y)
  }

  lemma {:induction false} LeastExists(s: set<string>)
    requires s != {}
    ensures exists m :: m in s && Least(m, s)
    decreases s
  {
    var x :| x in s;
    if s != {x} {
      LeastExists(s - {x});
      var m :| m in s - {x} && Least(m, s - {x});
      if Below(x, m) {
        forall y | y in s ensures AtMost(x, y) {
          if y != x { AtMostTransitive(x, m, y); }
        }
      } else {
        if x != m { BelowTotal(x, m); }
        assert Least(m, s);
      }
    }
  }

  lemma LeastUnique(s: set<string>)
    ensures forall a, b :: a in s && b in s && Least(a, s) && Least(b, s) ==> a == b
  {
    forall a, b | a in s && b in s && Least(a, s) && Least(b, s) ensures a == b {
      assert AtMost(a, b) && AtMost(b, a);
      if a != b { BelowAsymmetric(a, b); }
    }
  }

  /** Why `evaluate` stops: the name sets differ (its `assert`), or there are
      no documents (`doc_correct / doc_total` divides by zero). */
  datatype EvalError = NameMismatch | ZeroDivision

  /** An exact fraction `num / den`. */
  datatype Ratio = Ratio(num: nat, den: nat)

  /** The results dictionary. */
  datatype Report = Report(
    docAccuracy: Ratio, sizeMae: Mae, sizeWithin2mm: Option<Ratio>, counts: Counts)

  /** The size error lists of all pairs, when every sized pair is numeric. */
  predicate Measurable(P: map<string, Lesion>, R: map<string, Lesion>) {
    P.Keys == R.Keys ==>
      Ready(P, R, SortedKeys(P.Keys)) && PairsNumeric(AllPairs(P, R, SortedKeys(P.Keys)))
  }

  /** The report for matching, non-empty name sets. */
  function ReportOf(P: map<string, Lesion>, R: map<string, Lesion>): Report
    requires P.Keys == R.Keys && Measurable(P, R)
  {
    var ks := SortedKeys(P.Keys);
    var c, all := CountsOf(P, R, ks), AllPairs(P, R, ks);
    var e := Errors(all);
    Report(Ratio(c.docCorrect, c.docTotal), MaeOf(all),
      if |e| == 0 then None else Some(Ratio(CountAtMost(e, 2), |e|)), c)
  }

  lemma StepOf(P: map<string, Lesion>, R: map<string, Lesion>, ks: seq<string>, i: nat)
    requires Ready(P, R, ks) && i < |ks|
    ensures Ready(P, R, ks[..i]) && Ready(P, R, ks[..i + 1])
    ensures CountsOf(P, R, ks[..i + 1]) == DocStep(CountsOf(P, R, ks[..i]), P[ks[i]], R[ks[i]])
    ensures AllPairs(P, R, ks[..i + 1]) == AllPairs(P, R, ks[..i]) + Pairing(DocLesions(P[ks[i]]), DocLesions(R[ks[i]]))
  {
    ReadyPrefix(P, R, ks, i);
    ReadyPrefix(P, R, ks, i + 1);
    assert ks[..i + 1][..i] == ks[..i] && ks[..i + 1][i] == ks[i];
  }

  /** `int(_safe_get(d, 'summary', 'metastasis_present') or 0)`. */
  method DocFlag(d: Lesion) returns (y: int)
    requires DocOk(d)
    ensures y == Flag(d)
  {
    var f := SafeGet(Obj(d), FlagPath);
    y := FlagValue(f);
  }

  /** The body of `evaluate`'s loop for one document pair: the flag
      comparison, the pairing and the three slot counts. */
  method ScoreDocument(counts: Counts, p: Lesion, q: Lesion) returns (counts': Counts, pairs: seq<Pair>)
    requires DocOk(p) && DocOk(q)
    ensures counts' == DocStep(counts, p, q)
    ensures pairs == Pairing(DocLesions(p), DocLesions(q))
  {
    var yPred := DocFlag(p);
    var yTrue := DocFlag(q);
    var pl, ql := DocLesions(p), DocLesions(q);
    var siteP, siteR := CollectSlots(pl, "body_site").0, CollectSlots(ql, "body_site").0;
    var stationP, stationR := CollectSlots(pl, "node_station").0, CollectSlots(ql, "node_station").0;
    var typeP, typeR := CollectSlots(pl, "finding_type").0, CollectSlots(ql, "finding_type").0;
    counts' := Counts(
      counts.docTotal + 1, counts.docCorrect + (if yPred == yTrue then 1 else 0),
      counts.bodySitePred + siteP, counts.bodySiteTrue + siteR,
      counts.nodeStationPred + stationP, counts.nodeStationTrue + stationR,
      counts.findingTypePred + typeP, counts.findingTypeTrue + typeR);
    pairs := PairLesions(pl, ql);
  }

  /** The loop of `evaluate` over the names `ks`, in order. */
  method ScoreAll(P: map<string, Lesion>, R: map<string, Lesion>, ks: seq<string>) returns (counts: Counts, all: seq<Pair>)
    requires Ready(P, R, ks)
    ensures counts == CountsOf(P, R, ks) && all == AllPairs(P, R, ks)
  {
    counts := NoCounts;
    all := [];
    for i := 0 to |ks|
      invariant Ready(P, R, ks[..i])
      invariant counts == CountsOf(P, R, ks[..i])
      invariant all == AllPairs(P, R, ks[..i])
    {
      StepOf(P, R, ks, i);
      var pairs;
      counts, pairs := ScoreDocument(counts, P[ks[i]], R[ks[i]]);
      all := all + pairs;
    }
    assert ks[..|ks|] == ks;
  }

  /** `evaluate` on in-memory collections of extractions keyed by file name. */
  method Evaluate(P: map<string, Lesion>, R: map<string, Lesion>) returns (r: Result<Report, EvalError>)
    requires Measurable(P, R)
    ensures P.Keys != R.Keys ==> r == Failure(NameMismatch)
    ensures P.Keys == R.Keys && P == map[] ==> r == Failure(ZeroDivision)
    ensures P.Keys == R.Keys && P != map[] ==> r == Success(ReportOf(P, R))
  {
    if P.Keys != R.Keys {
      return Failure(NameMismatch);
    }
    var ks := SortedKeys(P.Keys);
    var counts, all := ScoreAll(P, R, ks);
    var mae := NumericMaeMm(all);
    var hits2, tot2 := WithinTolerance(all, 2);
    var hits0, tot0 := WithinTolerance(all, 0);
    DocCounts(P, R, ks);
    if counts.docTotal == 0 {
      assert P == map[] by { assert |P.Keys| == 0; }
      return Failure(ZeroDivision);
    }
    r := Success(Report(Ratio(counts.docCorrect, counts.docTotal), mae,
      if tot2 == 0 then None else Some(Ratio(hits2, tot2)), counts));
  }

  /** The report's document counts: one per file, at most one correct flag per
      file. */
  lemma ReportCounts(P: map<string, Lesion>, R: map<string, Lesion>)
    requires P.Keys == R.Keys && Measurable(P, R)
    ensures ReportOf(P, R).docAccuracy.den == |P.Keys|
    ensures ReportOf(P, R).docAccuracy.num <= ReportOf(P, R).docAccuracy.den
  {
    DocCounts(P, R, SortedKeys(P.Keys));
  }

  /** `size_within_2mm` is `None` exactly when no pair has both sizes, which is
      exactly when the mean error is NaN; otherwise its hits are at most its
      total. */
  lemma ReportSizes(P: map<string, Lesion>, R: map<string, Lesion>)
    requires P.Keys == R.Keys && Measurable(P, R)
    ensures var all := AllPairs(P, R, SortedKeys(P.Keys));
      && (ReportOf(P, R).sizeWithin2mm.None? <==> forall k :: 0 <= k < |all| ==> !Sized(all[k]))
      && (ReportOf(P, R).sizeWithin2mm.None? <==> ReportOf(P, R).sizeMae == NaN)
      && (ReportOf(P, R).sizeWithin2mm.Some? ==> ReportOf(P, R).sizeWithin2mm.value.num <= ReportOf(P, R).sizeWithin2mm.value.den)
  {
    var all := AllPairs(P, R, SortedKeys(P.Keys));
    ErrorsEmpty(all);
    HitsAtMostTotal(Errors(all), 2);
  }

  // ---------------------------------------------------------------------------
  // A worked example
  // ---------------------------------------------------------------------------

  /** A lymph-node lesion with only a type and a size. */
  function Node(size: int): Lesion {
    map["finding_type" := Str("lymph_node"), "size_mm" := Int(size)]
  }

  lemma NodeKey(size: int)
    ensures KeyOk(Node(size)) && MatchKey(Node(size)) == Key(Str("lymph_node"), "", "")
  {
    assert "body_site"[0] != "finding_type"[0] && "body_site"[0] != "size_mm"[0];
    assert "node_station"[0] != "finding_type"[0] && "node_station"[0] != "size_mm"[0];
    assert Get(Node(size), "body_site") == Null && Get(Node(size), "node_station") == Null;
  }

  /** A prediction of 28 mm against references of 25 mm and 30 mm with the same
      key pairs with the first, 25 mm. */
  lemma PairingExample()
    ensures AllKeyOk([Node(28)]) && AllKeyOk([Node(25), Node(30)])
    ensures Pairing([Node(28)], [Node(25), Node(30)]) == [(Node(28), Node(25))]
  {
    NodeKey(28);
    NodeKey(25);
    NodeKey(30);
    var pk, rk := Keys([Node(28)]), Keys([Node(25), Node(30)]);
    assert rk[0] == pk[0];
    assert FirstFree(rk, {}, pk[0], 0) == Some(0);
    AssignNext(pk, rk, 0, Matching({}, []), Some(0));
  }

  /** That pair's size error is 3 mm, so the mean error is 3 mm over one pair. */
  lemma ExampleError()
    ensures PairsNumeric([(Node(28), Node(25))])
    ensures MaeOf([(Node(28), Node(25))]) == Mean(3, 1)
  {
    var pr := (Node(28), Node(25));
    assert SizeOf(Node(28)) == Int(28) && SizeOf(Node(25)) == Int(25);
    ErrorsSingle(pr);
    assert PairError(pr) == 3;
  }
}
