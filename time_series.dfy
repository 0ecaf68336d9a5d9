/** An append-only list of (item, instant) entries and the algorithms over it:
    map, reverse, lag (with and without padding), the two-entry direction test and
    merge, the two-cursor equi-join on instants.

    The functions in the first half of the module say what each operation computes,
    on the list of entries; the class TimeSeries and the methods after it do it the
    way the library does (loops over an ArrayList, Collections.reverse, two iterators),
    and each is proved to compute the function. */
module TimeSeries {
  import opened Failures

  /** An instant, as a count of time units; only its order matters here. */
  type Instant = int

  datatype Entry<T> = Entry(item: T, instant: Instant)

  // ---------------------------------------------------------------------------
  // What the operations compute
  // ---------------------------------------------------------------------------

  /** The direction test as the library writes it: it compares only the first two
      entries, and equal instants do not count as ascending. */
  predicate HeadAscending<T>(s: seq<Entry<T>>)
  {
    |s| <= 1 || s[0].instant < s[1].instant
  }

  /** Every earlier entry is strictly before every later one (what callers keep). */
  ghost predicate StrictlyAscending<T>(s: seq<Entry<T>>)
  {
    forall i, j :: 0 <= i < j < |s| ==> s[i].instant < s[j].instant
  }

  function Reversed<E>(s: seq<E>): (r: seq<E>)
    ensures |r| == |s|
    ensures forall i :: 0 <= i < |s| ==> r[i] == s[|s| - 1 - i]
  {
    if |s| == 0 then [] else [s[|s| - 1]] + Reversed(s[..|s| - 1])
  }

  function Mapped<T, F>(s: seq<Entry<T>>, f: T -> F): (r: seq<Entry<F>>)
    ensures |r| == |s|
    ensures forall i :: 0 <= i < |s| ==> r[i] == Entry(f(s[i].item), s[i].instant)
  {
    if |s| == 0 then [] else [Entry(f(s[0].item), s[0].instant)] + Mapped(s[1..], f)
  }

  /** The items of the entries, in entry order. */
  function Items<T>(s: seq<Entry<T>>): (r: seq<T>)
    ensures |r| == |s|
    ensures forall i :: 0 <= i < |s| ==> r[i] == s[i].item
  {
    if |s| == 0 then [] else [s[0].item] + Items(s[1..])
  }

  /** The padding that lag puts in front when it is asked for one: the empty value
      at each of the first k instants. */
  function LagPadding<T>(s: seq<Entry<T>>, k: nat, pad: Option<T>): seq<Entry<T>>
    requires k <= |s|
  {
    match pad
    case None => []
    case Some(e) => seq(k, i requires 0 <= i < k => Entry(e, s[i].instant))
  }

  /** The first |s| - k items, each with the instant k positions later. */
  function LagShifted<T>(s: seq<Entry<T>>, k: nat): seq<Entry<T>>
    requires k <= |s|
  {
    seq(|s| - k, i requires 0 <= i < |s| - k => Entry(s[i].item, s[i + k].instant))
  }

  /** lag(k, addEmpty, emptyVal) with pad == Some(emptyVal) when addEmpty, None
      otherwise (lag(k) is pad == None). Both checks come first. */
  function Lagged<T>(s: seq<Entry<T>>, k: int, pad: Option<T>): Result<seq<Entry<T>>>
  {
    if !(k > 0) || !(|s| >= k) then Err(CheckFailed)
    else Ok(LagPadding(s, k, pad) + LagShifted(s, k))
  }

  function AsAscending<T>(s: seq<Entry<T>>): seq<Entry<T>>
  {
    if !HeadAscending(s) then Reversed(s) else s
  }

  function AsDescending<T>(s: seq<Entry<T>>): seq<Entry<T>>
  {
    if HeadAscending(s) then Reversed(s) else s
  }

  /** moveIteratorToMatchInstant, on an iterator whose next entry is s[k]: returns the
      position of the entry it stops on (the iterator is then just past it), or None when
      its first next() finds the iterator exhausted. Where it stops is stated by MoveStops. */
  function Move<T>(s: seq<Entry<T>>, k: nat, target: Instant): (j: Option<nat>)
    ensures j.None? <==> k >= |s|
    ensures j.Some? ==> k <= j.value < |s|
    decreases |s| - k
  {
    if k >= |s| then None
    else if k + 1 < |s| && s[k].instant < target then Move(s, k + 1, target)
    else Some(k)
  }

  /** The inner loop of merge: from the entries at positions j1 and j2, the cursor that
      is behind is moved up to the other one until both stand on the same instant.
      Returns the two positions, or None when a move finds its iterator exhausted. */
  function Align<T1, T2>(a: seq<Entry<T1>>, b: seq<Entry<T2>>, j1: nat, j2: nat): (r: Option<(nat, nat)>)
    requires j1 < |a| && j2 < |b|
    ensures r.Some? ==> j1 <= r.value.0 < |a| && j2 <= r.value.1 < |b|
    ensures r.Some? ==> a[r.value.0].instant == b[r.value.1].instant
    decreases |a| - j1 + |b| - j2
  {
    if a[j1].instant == b[j2].instant then Some((j1, j2))
    else if a[j1].instant < b[j2].instant then
      match Move(a, j1 + 1, b[j2].instant)
      case None => None
      case Some(n1) => Align(a, b, n1, j2)
    else
      match Move(b, j2 + 1, a[j1].instant)
      case None => None
      case Some(n2) => Align(a, b, j1, n2)
  }

  /** The outer loop of merge, with the iterators' next entries at positions k1 and k2.
      The only exception it can raise is the exhausted iterator's. */
  function MergeFrom<T1, T2, F>(a: seq<Entry<T1>>, b: seq<Entry<T2>>, k1: nat, k2: nat,
                                f: (T1, T2) -> F): (r: Result<seq<Entry<F>>>)
    requires k1 <= |a| && k2 <= |b|
    ensures r.Err? ==> r.fault == NoSuchElement
    decreases |a| - k1 + |b| - k2
  {
    if k1 < |a| && k2 < |b| then
      match Align(a, b, k1, k2)
      case None => Err(NoSuchElement)
      case Some((p, q)) =>
        Prefixed([Entry(f(a[p].item, b[q].item), a[p].instant)], MergeFrom(a, b, p + 1, q + 1, f))
    else
      Ok([])
  }

  /** TimeSeries.merge(t1, t2, f): both direction checks, then the two-cursor walk. It
      fails on the check exactly when an input fails the direction test. */
  function Merged<T1, T2, F>(a: seq<Entry<T1>>, b: seq<Entry<T2>>, f: (T1, T2) -> F): (r: Result<seq<Entry<F>>>)
    ensures r == Err(CheckFailed) <==> !HeadAscending(a) || !HeadAscending(b)
    ensures r.Err? ==> r.fault in {CheckFailed, NoSuchElement}
  {
    if !HeadAscending(a) || !HeadAscending(b) then Err(CheckFailed) else MergeFrom(a, b, 0, 0, f)
  }

  // ---------------------------------------------------------------------------
  // Properties
  // ---------------------------------------------------------------------------

  lemma ReversedTwice<E>(s: seq<E>)
    ensures Reversed(Reversed(s)) == s
  {
    assert forall i :: 0 <= i < |s| ==> Reversed(Reversed(s))[i] == s[i];
  }

  /** Without padding lag drops the last k items and pairs each remaining item with the
      instant k positions later. */
  lemma LagWithoutPadding<T>(s: seq<Entry<T>>, k: int)
    requires k > 0 && |s| >= k
    ensures Lagged(s, k, None).Ok? && |Lagged(s, k, None).value| == |s| - k
    ensures forall i {:trigger Lagged(s, k, None).value[i]} :: 0 <= i < |s| - k ==>
              Lagged(s, k, None).value[i] == Entry(s[i].item, s[i + k].instant)
  {
  }

  /** With padding it keeps every instant, puts the empty value at the first k of them,
      and is the unpadded result after that. */
  lemma LagWithPadding<T>(s: seq<Entry<T>>, k: int, e: T)
    requires k > 0 && |s| >= k
    ensures Lagged(s, k, Some(e)).Ok? && |Lagged(s, k, Some(e)).value| == |s|
    ensures forall i :: 0 <= i < k ==> Lagged(s, k, Some(e)).value[i] == Entry(e, s[i].instant)
    ensures Lagged(s, k, Some(e)).value[k..] == Lagged(s, k, None).value
    ensures forall i :: 0 <= i < |s| ==> Lagged(s, k, Some(e)).value[i].instant == s[i].instant
  {
    LagWithoutPadding(s, k);
    var pad := LagPadding(s, k, Some(e));
    var body: seq<Entry<T>> := Lagged(s, k, None).value;
    assert Lagged(s, k, Some(e)).value == pad + body;
    assert (pad + body)[k..] == body;
    forall i | k <= i < |s| ensures (pad + body)[i].instant == s[i].instant {
      assert (pad + body)[i] == body[i - k];
    }
  }

  lemma LagFails<T>(s: seq<Entry<T>>, k: int, pad: Option<T>)
    ensures Lagged(s, k, pad).Err? <==> k <= 0 || |s| < k
    ensures Lagged(s, k, pad).Err? ==> Lagged(s, k, pad).fault == CheckFailed
  {
  }

  lemma StrictlyAscendingHead<T>(s: seq<Entry<T>>)
    requires StrictlyAscending(s)
    ensures HeadAscending(s)
  {
  }

  /** toAscending(toDescending(s)) gives s back for a strictly ascending series of at
      least two entries. */
  lemma AscendingRoundTrip<T>(s: seq<Entry<T>>)
    requires StrictlyAscending(s) && |s| >= 2
    ensures AsDescending(s) == Reversed(s)
    ensures AsAscending(AsDescending(s)) == s
  {
    var r := Reversed(s);
    assert r[0] == s[|s| - 1] && r[1] == s[|s| - 2];
    assert !HeadAscending(r);
    ReversedTwice(s);
  }

  /** Exactly when the round trip gives the series back. Because the direction test
      looks only at the first two entries, it does not for a descending series. */
  lemma AscendingRoundTripExactly<T>(s: seq<Entry<T>>)
    ensures AsAscending(AsDescending(s)) == s
            <==> (HeadAscending(s) && !HeadAscending(Reversed(s))) || Reversed(s) == s
  {
    ReversedTwice(s);
  }

  lemma DescendingRoundTripFails<T>(x: T, y: T)
    ensures AsAscending(AsDescending([Entry(x, 2), Entry(y, 1)])) == [Entry(y, 1), Entry(x, 2)]
  {
    var s := [Entry(x, 2), Entry(y, 1)];
    assert Reversed(s)[0] == Entry(y, 1) && Reversed(s)[1] == Entry(x, 2);
    assert Reversed(s) == [Entry(y, 1), Entry(x, 2)];
  }

  /** Common instants of the suffixes a[k1..] and b[k2..]. */
  ghost predicate CommonAt<T1, T2>(a: seq<Entry<T1>>, b: seq<Entry<T2>>, k1: nat, k2: nat, i: int, j: int)
  {
    k1 <= i < |a| && k2 <= j < |b| && a[i].instant == b[j].instant
  }

  /** e combines an entry of a[k1..] with an entry of b[k2..] at the same instant. */
  ghost predicate Combines<T1, T2, F>(a: seq<Entry<T1>>, b: seq<Entry<T2>>, k1: nat, k2: nat,
                                      f: (T1, T2) -> F, e: Entry<F>)
  {
    exists i, j :: CommonAt(a, b, k1, k2, i, j) && e == Entry(f(a[i].item, b[j].item), a[i].instant)
  }

  /** Where moveIteratorToMatchInstant stops: every entry it passes is before the target,
      and it stops on the last entry or on the first one not before the target. */
  lemma {:induction false} MoveStops<T>(s: seq<Entry<T>>, k: nat, target: Instant)
    requires k < |s|
    ensures forall i :: k <= i < Move(s, k, target).value ==> s[i].instant < target
    ensures Move(s, k, target).value == |s| - 1 || target <= s[Move(s, k, target).value].instant
    decreases |s| - k
  {
    if k + 1 < |s| && s[k].instant < target {
      MoveStops(s, k + 1, target);
    }
  }

  /** Whatever inputs it is given, every entry merge produces combines two entries at a
      shared instant, and it produces no more entries than either input has. */
  lemma {:induction false} MergeFromSound<T1, T2, F>(a: seq<Entry<T1>>, b: seq<Entry<T2>>, k1: nat, k2: nat,
                                                   f: (T1, T2) -> F)
    requires k1 <= |a| && k2 <= |b|
    ensures MergeFrom(a, b, k1, k2, f).Ok? ==>
              |MergeFrom(a, b, k1, k2, f).value| <= |a| - k1 && |MergeFrom(a, b, k1, k2, f).value| <= |b| - k2
    ensures MergeFrom(a, b, k1, k2, f).Ok? ==>
              forall n :: 0 <= n < |MergeFrom(a, b, k1, k2, f).value| ==>
                Combines(a, b, k1, k2, f, MergeFrom(a, b, k1, k2, f).value[n])
    decreases |a| - k1 + |b| - k2
  {
    if k1 < |a| && k2 < |b| {
      match Align(a, b, k1, k2)
      case None =>
      case Some((p, q)) =>
        MergeFromSound(a, b, p + 1, q + 1, f);
        var rest := MergeFrom(a, b, p + 1, q + 1, f);
        if rest.Ok? {
          var e := Entry(f(a[p].item, b[q].item), a[p].instant);
          var r := [e] + rest.value;
          assert MergeFrom(a, b, k1, k2, f).value == r;
          forall n | 0 <= n < |r| ensures Combines(a, b, k1, k2, f, r[n]) {
            if n == 0 {
              assert CommonAt(a, b, k1, k2, p, q) && r[0] == e;
            } else {
              assert r[n] == rest.value[n - 1];
              assert Combines(a, b, p + 1, q + 1, f, rest.value[n - 1]);
              var i, j :| CommonAt(a, b, p + 1, q + 1, i, j)
                          && rest.value[n - 1] == Entry(f(a[i].item, b[j].item), a[i].instant);
              assert CommonAt(a, b, k1, k2, i, j);
            }
          }
        }
    }
  }

  /** On strictly ascending inputs the inner loop stops on the earliest common instant of
      the two suffixes, and it fails only when the suffixes share no instant. */
  lemma {:induction false} AlignFindsFirstCommon<T1, T2>(a: seq<Entry<T1>>, b: seq<Entry<T2>>, j1: nat, j2: nat)
    requires StrictlyAscending(a) && StrictlyAscending(b)
    requires j1 < |a| && j2 < |b|
    ensures Align(a, b, j1, j2).None? ==> forall i, j :: !CommonAt(a, b, j1, j2, i, j)
    ensures Align(a, b, j1, j2).Some? ==>
              forall i, j :: CommonAt(a, b, j1, j2, i, j) ==>
                Align(a, b, j1, j2).value.0 <= i && Align(a, b, j1, j2).value.1 <= j
    decreases |a| - j1 + |b| - j2
  {
    if a[j1].instant == b[j2].instant {
    } else if a[j1].instant < b[j2].instant {
      var t := b[j2].instant;
      var m := Move(a, j1 + 1, t);
      if j1 + 1 < |a| {
        MoveStops(a, j1 + 1, t);
      }
      forall i, j | CommonAt(a, b, j1, j2, i, j) ensures m.Some? && CommonAt(a, b, m.value, j2, i, j) {
        assert j > j2 ==> b[j2].instant < b[j].instant;
        assert a[j1].instant < a[i].instant;
      }
      if m.Some? {
        AlignFindsFirstCommon(a, b, m.value, j2);
      }
    } else {
      var t := a[j1].instant;
      var m := Move(b, j2 + 1, t);
      if j2 + 1 < |b| {
        MoveStops(b, j2 + 1, t);
      }
      forall i, j | CommonAt(a, b, j1, j2, i, j) ensures m.Some? && CommonAt(a, b, j1, m.value, i, j) {
        assert i > j1 ==> a[j1].instant < a[i].instant;
        assert b[j2].instant < b[j].instant;
      }
      if m.Some? {
        AlignFindsFirstCommon(a, b, j1, m.value);
      }
    }
  }

  /** The walk from k1 and k2 raises exactly when both suffixes are non-empty and each
      still has an entry after every instant they share (no shared instant at all counts). */
  ghost predicate Outruns<T1, T2>(a: seq<Entry<T1>>, b: seq<Entry<T2>>, k1: nat, k2: nat)
  {
    && k1 < |a| && k2 < |b|
    && forall i, j :: CommonAt(a, b, k1, k2, i, j) ==> i < |a| - 1 && j < |b| - 1
  }

  /** With (p, q) the earliest shared instant, every other shared instant lies beyond both. */
  lemma SharedBeyond<T1, T2>(a: seq<Entry<T1>>, b: seq<Entry<T2>>, k1: nat, k2: nat, p: nat, q: nat)
    requires StrictlyAscending(a) && StrictlyAscending(b)
    requires CommonAt(a, b, k1, k2, p, q)
    requires forall i, j :: CommonAt(a, b, k1, k2, i, j) ==> p <= i && q <= j
    ensures forall i, j :: CommonAt(a, b, k1, k2, i, j) ==> (i == p && j == q) || CommonAt(a, b, p + 1, q + 1, i, j)
  {
    forall i, j | CommonAt(a, b, k1, k2, i, j)
      ensures (i == p && j == q) || CommonAt(a, b, p + 1, q + 1, i, j)
    {
      assert j > q ==> b[q].instant < b[j].instant;
      assert i > p ==> a[p].instant < a[i].instant;
    }
  }

  /** Stepping past the earliest shared instant changes nothing about whether the walk raises. */
  lemma OutrunsStep<T1, T2>(a: seq<Entry<T1>>, b: seq<Entry<T2>>, k1: nat, k2: nat, p: nat, q: nat)
    requires CommonAt(a, b, k1, k2, p, q)
    requires forall i, j :: CommonAt(a, b, k1, k2, i, j) ==> (i == p && j == q) || CommonAt(a, b, p + 1, q + 1, i, j)
    ensures Outruns(a, b, k1, k2) <==> Outruns(a, b, p + 1, q + 1)
  {
    if Outruns(a, b, k1, k2) {
      forall i, j | p < i < |a| && q < j < |b| && a[i].instant == b[j].instant
        ensures i < |a| - 1 && j < |b| - 1
      {
        assert CommonAt(a, b, k1, k2, i, j);
      }
    }
  }

  /** Every entry of r combines two entries of the suffixes at a shared instant. */
  ghost predicate AllCombine<T1, T2, F>(a: seq<Entry<T1>>, b: seq<Entry<T2>>, k1: nat, k2: nat,
                                        f: (T1, T2) -> F, r: seq<Entry<F>>)
  {
    forall n :: 0 <= n < |r| ==> Combines(a, b, k1, k2, f, r[n])
  }

  /** Every shared instant of the suffixes has its combined entry in r. */
  ghost predicate Complete<T1, T2, F>(a: seq<Entry<T1>>, b: seq<Entry<T2>>, k1: nat, k2: nat,
                                      f: (T1, T2) -> F, r: seq<Entry<F>>)
  {
    forall i, j :: CommonAt(a, b, k1, k2, i, j) ==>
      exists n :: 0 <= n < |r| && r[n] == Entry(f(a[i].item, b[j].item), a[i].instant)
  }

  /** r is the inner equi-join of a[k1..] and b[k2..]: strictly ascending, no longer than
      either suffix, each entry combines two entries at a shared instant, and every shared
      instant is there. */
  ghost predicate JoinOf<T1, T2, F>(a: seq<Entry<T1>>, b: seq<Entry<T2>>, k1: nat, k2: nat,
                                    f: (T1, T2) -> F, r: seq<Entry<F>>)
  {
    && StrictlyAscending(r)
    && |r| <= |a| - k1 && |r| <= |b| - k2
    && AllCombine(a, b, k1, k2, f, r)
    && Complete(a, b, k1, k2, f, r)
  }

  lemma CombinesStep<T1, T2, F>(a: seq<Entry<T1>>, b: seq<Entry<T2>>, k1: nat, k2: nat, p: nat, q: nat,
                                f: (T1, T2) -> F, rest: seq<Entry<F>>)
    requires CommonAt(a, b, k1, k2, p, q)
    requires AllCombine(a, b, p + 1, q + 1, f, rest)
    ensures AllCombine(a, b, k1, k2, f, [Entry(f(a[p].item, b[q].item), a[p].instant)] + rest)
  {
    var e := Entry(f(a[p].item, b[q].item), a[p].instant);
    var r := [e] + rest;
    forall n | 0 <= n < |r| ensures Combines(a, b, k1, k2, f, r[n]) {
      if n == 0 {
        assert CommonAt(a, b, k1, k2, p, q) && r[0] == e;
      } else {
        assert r[n] == rest[n - 1];
        assert Combines(a, b, p + 1, q + 1, f, rest[n - 1]);
        var i, j :| CommonAt(a, b, p + 1, q + 1, i, j)
                    && rest[n - 1] == Entry(f(a[i].item, b[j].item), a[i].instant);
        assert CommonAt(a, b, k1, k2, i, j);
      }
    }
  }

  lemma AscendingStep<T1, T2, F>(a: seq<Entry<T1>>, b: seq<Entry<T2>>, p: nat, q: nat,
                                 f: (T1, T2) -> F, rest: seq<Entry<F>>)
    requires StrictlyAscending(a) && p < |a| && q < |b|
    requires AllCombine(a, b, p + 1, q + 1, f, rest) && StrictlyAscending(rest)
    ensures StrictlyAscending([Entry(f(a[p].item, b[q].item), a[p].instant)] + rest)
  {
    var e := Entry(f(a[p].item, b[q].item), a[p].instant);
    var r := [e] + rest;
    forall n | 0 <= n < |rest| ensures e.instant < rest[n].instant {
      assert Combines(a, b, p + 1, q + 1, f, rest[n]);
      var i, j :| CommonAt(a, b, p + 1, q + 1, i, j)
                  && rest[n] == Entry(f(a[i].item, b[j].item), a[i].instant);
      assert a[p].instant < a[i].instant;
    }
    forall x, y | 0 <= x < y < |r| ensures r[x].instant < r[y].instant {
      assert r[y] == rest[y - 1];
      if x > 0 {
        assert r[x] == rest[x - 1];
      }
    }
  }

  lemma CompleteStep<T1, T2, F>(a: seq<Entry<T1>>, b: seq<Entry<T2>>, k1: nat, k2: nat, p: nat, q: nat,
                                f: (T1, T2) -> F, rest: seq<Entry<F>>)
    requires p < |a| && q < |b|
    requires forall i, j :: CommonAt(a, b, k1, k2, i, j) ==> (i == p && j == q) || CommonAt(a, b, p + 1, q + 1, i, j)
    requires Complete(a, b, p + 1, q + 1, f, rest)
    ensures Complete(a, b, k1, k2, f, [Entry(f(a[p].item, b[q].item), a[p].instant)] + rest)
  {
    var r := [Entry(f(a[p].item, b[q].item), a[p].instant)] + rest;
    forall i, j | CommonAt(a, b, k1, k2, i, j)
      ensures exists n :: 0 <= n < |r| && r[n] == Entry(f(a[i].item, b[j].item), a[i].instant)
    {
      if i == p && j == q {
        assert r[0] == Entry(f(a[i].item, b[j].item), a[i].instant);
      } else {
        assert CommonAt(a, b, p + 1, q + 1, i, j);
        var n :| 0 <= n < |rest| && rest[n] == Entry(f(a[i].item, b[j].item), a[i].instant);
        assert r[n + 1] == rest[n];
      }
    }
  }

  /** The join of the suffixes is the entry at the earliest shared instant followed by
      the join of what lies beyond it. */
  lemma JoinStep<T1, T2, F>(a: seq<Entry<T1>>, b: seq<Entry<T2>>, k1: nat, k2: nat, p: nat, q: nat,
                            f: (T1, T2) -> F, rest: seq<Entry<F>>)
    requires StrictlyAscending(a) && StrictlyAscending(b)
    requires CommonAt(a, b, k1, k2, p, q)
    requires forall i, j :: CommonAt(a, b, k1, k2, i, j) ==> (i == p && j == q) || CommonAt(a, b, p + 1, q + 1, i, j)
    requires JoinOf(a, b, p + 1, q + 1, f, rest)
    ensures JoinOf(a, b, k1, k2, f, [Entry(f(a[p].item, b[q].item), a[p].instant)] + rest)
  {
    CombinesStep(a, b, k1, k2, p, q, f, rest);
    AscendingStep(a, b, p, q, f, rest);
    CompleteStep(a, b, k1, k2, p, q, f, rest);
  }

  /** One step of the walk: once the inner loop has stopped on (p, q), the walk from
      (k1, k2) raises exactly when the walk from (p + 1, q + 1) does... */
  lemma MergeFromStepRaises<T1, T2, F>(a: seq<Entry<T1>>, b: seq<Entry<T2>>, k1: nat, k2: nat, p: nat, q: nat,
                                       f: (T1, T2) -> F)
    requires StrictlyAscending(a) && StrictlyAscending(b)
    requires k1 < |a| && k2 < |b| && Align(a, b, k1, k2) == Some((p, q))
    requires forall i, j :: CommonAt(a, b, k1, k2, i, j) ==> p <= i && q <= j
    requires MergeFrom(a, b, p + 1, q + 1, f).Err? <==> Outruns(a, b, p + 1, q + 1)
    ensures MergeFrom(a, b, k1, k2, f).Err? <==> Outruns(a, b, k1, k2)
  {
    SharedBeyond(a, b, k1, k2, p, q);
    OutrunsStep(a, b, k1, k2, p, q);
    var e := Entry(f(a[p].item, b[q].item), a[p].instant);
    assert MergeFrom(a, b, k1, k2, f) == Prefixed([e], MergeFrom(a, b, p + 1, q + 1, f));
  }

  /** ... and it is the join when the walk from (p + 1, q + 1) is. */
  lemma MergeFromStepJoin<T1, T2, F>(a: seq<Entry<T1>>, b: seq<Entry<T2>>, k1: nat, k2: nat, p: nat, q: nat,
                                     f: (T1, T2) -> F)
    requires StrictlyAscending(a) && StrictlyAscending(b)
    requires k1 < |a| && k2 < |b| && Align(a, b, k1, k2) == Some((p, q))
    requires forall i, j :: CommonAt(a, b, k1, k2, i, j) ==> p <= i && q <= j
    requires MergeFrom(a, b, p + 1, q + 1, f).Ok? ==> JoinOf(a, b, p + 1, q + 1, f, MergeFrom(a, b, p + 1, q + 1, f).value)
    ensures MergeFrom(a, b, k1, k2, f).Ok? ==> JoinOf(a, b, k1, k2, f, MergeFrom(a, b, k1, k2, f).value)
  {
    var rest := MergeFrom(a, b, p + 1, q + 1, f);
    var e := Entry(f(a[p].item, b[q].item), a[p].instant);
    assert MergeFrom(a, b, k1, k2, f) == Prefixed([e], rest);
    if rest.Ok? {
      SharedBeyond(a, b, k1, k2, p, q);
      JoinStep(a, b, k1, k2, p, q, f, rest.value);
    }
  }

  /** On strictly ascending inputs the walk from (k1, k2) raises exactly when Outruns holds. */
  lemma {:induction false} MergeFromRaises<T1, T2, F>(a: seq<Entry<T1>>, b: seq<Entry<T2>>, k1: nat, k2: nat,
                                                     f: (T1, T2) -> F)
    requires StrictlyAscending(a) && StrictlyAscending(b)
    requires k1 <= |a| && k2 <= |b|
    ensures MergeFrom(a, b, k1, k2, f).Err? <==> Outruns(a, b, k1, k2)
    decreases |a| - k1 + |b| - k2
  {
    if k1 < |a| && k2 < |b| {
      AlignFindsFirstCommon(a, b, k1, k2);
      match Align(a, b, k1, k2)
      case None =>
      case Some((p, q)) =>
        MergeFromRaises(a, b, p + 1, q + 1, f);
        MergeFromStepRaises(a, b, k1, k2, p, q, f);
    }
  }

  /** On strictly ascending inputs a walk from (k1, k2) that does not raise returns the join. */
  lemma {:induction false} MergeFromJoins<T1, T2, F>(a: seq<Entry<T1>>, b: seq<Entry<T2>>, k1: nat, k2: nat,
                                                    f: (T1, T2) -> F)
    requires StrictlyAscending(a) && StrictlyAscending(b)
    requires k1 <= |a| && k2 <= |b|
    ensures MergeFrom(a, b, k1, k2, f).Ok? ==> JoinOf(a, b, k1, k2, f, MergeFrom(a, b, k1, k2, f).value)
    decreases |a| - k1 + |b| - k2
  {
    if k1 < |a| && k2 < |b| {
      AlignFindsFirstCommon(a, b, k1, k2);
      match Align(a, b, k1, k2)
      case None =>
      case Some((p, q)) =>
        MergeFromJoins(a, b, p + 1, q + 1, f);
        MergeFromStepJoin(a, b, k1, k2, p, q, f);
    }
  }

  /** merge on strictly ascending inputs: it raises (NoSuchElement) exactly when both inputs
      still have entries after their last common instant, or share none and are both
      non-empty; otherwise it returns their inner equi-join on instants. */
  lemma MergeIsInnerJoin<T1, T2, F>(a: seq<Entry<T1>>, b: seq<Entry<T2>>, f: (T1, T2) -> F)
    requires StrictlyAscending(a) && StrictlyAscending(b)
    ensures Merged(a, b, f).Err? <==> Outruns(a, b, 0, 0)
    ensures Merged(a, b, f).Err? ==> Merged(a, b, f).fault == NoSuchElement
    ensures Merged(a, b, f).Ok? ==> JoinOf(a, b, 0, 0, f, Merged(a, b, f).value)
  {
    StrictlyAscendingHead(a);
    StrictlyAscendingHead(b);
    MergeFromRaises(a, b, 0, 0, f);
    MergeFromJoins(a, b, 0, 0, f);
  }

  /** Two one-entry series at different instants already make merge raise. */
  lemma MergeRaisesWithoutCommonInstant<T1, T2, F>(x: T1, y: T2, f: (T1, T2) -> F)
    ensures Merged([Entry(x, 1)], [Entry(y, 2)], f) == Err(NoSuchElement)
  {
  }

  /** An empty input gives an empty result, once both direction checks pass. */
  lemma MergeWithEmpty<T1, T2, F>(a: seq<Entry<T1>>, b: seq<Entry<T2>>, f: (T1, T2) -> F)
    requires |a| == 0 || |b| == 0
    ensures Merged(a, b, f) == if HeadAscending(a) && HeadAscending(b) then Ok([]) else Err(CheckFailed)
  {
  }

  /** For strictly ascending a, Move stops exactly on the position whose instant it seeks. */
  lemma MoveToOwnInstant<T>(a: seq<Entry<T>>, k: nat, d: nat)
    requires StrictlyAscending(a) && k <= d < |a|
    ensures Move(a, k, a[d].instant) == Some(d)
  {
    MoveStops(a, k, a[d].instant);
  }

  /** The walk over a and b where b's instants are a's from position d on, started at
      positions k + d and k, pairs the entries position by position. */
  lemma {:induction false} MergeFromAligned<T1, T2, F>(a: seq<Entry<T1>>, b: seq<Entry<T2>>, d: nat, k: nat,
                                                      f: (T1, T2) -> F)
    requires |b| + d == |a| && k <= |b|
    requires forall i :: 0 <= i < |b| ==> b[i].instant == a[i + d].instant
    ensures MergeFrom(a, b, k + d, k, f).Ok?
    ensures |MergeFrom(a, b, k + d, k, f).value| == |b| - k
    ensures forall i :: k <= i < |b| ==>
              MergeFrom(a, b, k + d, k, f).value[i - k] == Entry(f(a[i + d].item, b[i].item), b[i].instant)
    decreases |b| - k
  {
    if k < |b| {
      MergeFromAligned(a, b, d, k + 1, f);
      assert b[k].instant == a[k + d].instant;
      assert Align(a, b, k + d, k) == Some((k + d, k));
      var rest := MergeFrom(a, b, k + 1 + d, k + 1, f).value;
      assert MergeFrom(a, b, k + d, k, f) == Ok([Entry(f(a[k + d].item, b[k].item), a[k + d].instant)] + rest);
    }
  }

  /** Merging a series with one whose instants are its own from position d on (what
      lag(d) produces) pairs the entries position by position and cannot raise. */
  lemma MergeWithShifted<T1, T2, F>(a: seq<Entry<T1>>, b: seq<Entry<T2>>, d: nat, f: (T1, T2) -> F)
    requires StrictlyAscending(a) && |b| + d == |a|
    requires forall i :: 0 <= i < |b| ==> b[i].instant == a[i + d].instant
    ensures MergeFrom(a, b, 0, 0, f).Ok?
    ensures |MergeFrom(a, b, 0, 0, f).value| == |b|
    ensures forall i :: 0 <= i < |b| ==>
              MergeFrom(a, b, 0, 0, f).value[i] == Entry(f(a[i + d].item, b[i].item), b[i].instant)
  {
    MergeFromAligned(a, b, d, 0, f);
    if d > 0 && |b| > 0 {
      MoveToOwnInstant(a, 1, d);
      assert a[0].instant < b[0].instant;
      assert Align(a, b, 0, 0) == Align(a, b, d, 0);
      assert MergeFrom(a, b, 0, 0, f) == MergeFrom(a, b, d, 0, f);
    }
  }


  // ---------------------------------------------------------------------------
  // The mutable series and the library's own algorithms
  // ---------------------------------------------------------------------------

  /** A list iterator: next() returns the entry under the cursor and moves past it. */
  class Iter<E> {
    const items: seq<E>
    var cursor: nat

    constructor (items: seq<E>)
      ensures this.items == items && cursor == 0
    {
      this.items := items;
      cursor := 0;
    }

    predicate HasNext()
      reads this
    {
      cursor < |items|
    }

    method Next() returns (r: Result<E>)
      requires cursor <= |items|
      modifies this
      ensures old(cursor) < |items| ==> r == Ok(items[old(cursor)]) && cursor == old(cursor) + 1
      ensures old(cursor) >= |items| ==> r == Err(NoSuchElement) && cursor == old(cursor)
    {
      if cursor < |items| {
        r := Ok(items[cursor]);
        cursor := cursor + 1;
      } else {
        r := Err(NoSuchElement);
      }
    }
  }

  /** Collections.reverse: swaps from both ends towards the middle. */
  method ReverseInPlace<E>(a: array<E>)
    modifies a
    ensures a[..] == Reversed(old(a[..]))
  {
    var n := a.Length;
    var i, j := 0, n - 1;
    while i < n / 2
      invariant 0 <= i <= n / 2 && j == n - 1 - i
      invariant forall m :: 0 <= m < i ==> a[m] == old(a[n - 1 - m]) && a[n - 1 - m] == old(a[m])
      invariant forall m :: i <= m < n - i ==> a[m] == old(a[m])
    {
      a[i], a[j] := a[j], a[i];
      i, j := i + 1, j - 1;
    }
    assert forall m :: 0 <= m < n ==> a[..][m] == Reversed(old(a[..]))[m];
  }

  class TimeSeries<T> {
    var data: seq<Entry<T>>

    constructor ()
      ensures data == []
    {
      data := [];
    }

    constructor FromData(d: seq<Entry<T>>)
      ensures data == d
    {
      data := d;
    }

    function Size(): nat
      reads this
    {
      |data|
    }

    /** add(Entry): appends the entry; List.add always reports a change. */
    method Add(e: Entry<T>) returns (changed: bool)
      modifies this
      ensures data == old(data) + [e] && changed
    {
      data := data + [e];
      changed := true;
    }

    /** add(item, instant) */
    method AddItem(item: T, instant: Instant)
      modifies this
      ensures data == old(data) + [Entry(item, instant)]
    {
      var _ := Add(Entry(item, instant));
    }

    method Get(index: int) returns (r: Result<Entry<T>>)
      ensures 0 <= index < |data| ==> r == Ok(data[index])
      ensures !(0 <= index < |data|) ==> r == Err(IndexOutOfBounds)
    {
      if 0 <= index < |data| {
        r := Ok(data[index]);
      } else {
        r := Err(IndexOutOfBounds);
      }
    }

    /** The entries from last to first: IntStream.range(1, size + 1) mapped to get(size - i). */
    method ReversedStream() returns (r: seq<Entry<T>>)
      ensures |r| == |data|
      ensures forall i :: 0 <= i < |data| ==> r[i] == data[|data| - 1 - i]
    {
      r := [];
      for i := 1 to |data| + 1
        invariant |r| == i - 1
        invariant forall m :: 0 <= m < i - 1 ==> r[m] == data[|data| - 1 - m]
      {
        r := r + [data[|data| - i]];
      }
    }

    method Map<F>(f: T -> F) returns (r: TimeSeries<F>)
      ensures fresh(r)
      ensures |r.data| == |data|
      ensures forall i :: 0 <= i < |data| ==> r.data[i] == Entry(f(data[i].item), data[i].instant)
      ensures r.data == Mapped(data, f)
    {
      var newEntries: seq<Entry<F>> := [];
      for i := 0 to |data|
        invariant |newEntries| == i
        invariant forall m :: 0 <= m < i ==> newEntries[m] == Entry(f(data[m].item), data[m].instant)
      {
        newEntries := newEntries + [Entry(f(data[i].item), data[i].instant)];
      }
      r := new TimeSeries.FromData(newEntries);
    }

    predicate IsAscending()
      reads this
    {
      HeadAscending(data)
    }

    /** A new series holding the entries in reverse order; this one is left as it is. */
    method Reverse() returns (r: TimeSeries<T>)
      ensures fresh(r) && r.data == Reversed(data)
    {
      var d := data;
      var entries := new Entry<T>[|d|](i requires 0 <= i < |d| => d[i]);
      assert entries[..] == d;
      ReverseInPlace(entries);
      var reversed := entries[..];
      assert reversed == Reversed(d);
      r := new TimeSeries.FromData(reversed);
    }

    /** Returns this series itself when it passes the direction test, else its reverse. */
    method ToAscending() returns (r: TimeSeries<T>)
      ensures HeadAscending(data) ==> r == this
      ensures !HeadAscending(data) ==> fresh(r) && r.data == Reversed(data)
      ensures r.data == AsAscending(data)
    {
      if !IsAscending() {
        r := Reverse();
      } else {
        r := this;
      }
    }

    /** Returns the reverse when this series passes the direction test, else this series. */
    method ToDescending() returns (r: TimeSeries<T>)
      ensures HeadAscending(data) ==> fresh(r) && r.data == Reversed(data)
      ensures !HeadAscending(data) ==> r == this
      ensures r.data == AsDescending(data)
    {
      if IsAscending() {
        r := Reverse();
      } else {
        r := this;
      }
    }

    /** lag(k, addEmpty, emptyVal), with the empty value given as pad (see Lagged). */
    method Lag(k: int, pad: Option<T>) returns (r: Result<TimeSeries<T>>)
      ensures !(k > 0 && |data| >= k) ==> r == Err(CheckFailed)
      ensures k > 0 && |data| >= k ==> r.Ok? && fresh(r.value) && r.value.data == Lagged(data, k, pad).value
    {
      if !(k > 0) { return Err(CheckFailed); }
      if !(|data| >= k) { return Err(CheckFailed); }
      var entries: seq<Entry<T>> := [];
      if pad.Some? {
        for i := 0 to k
          invariant |entries| == i
          invariant forall m :: 0 <= m < i ==> entries[m] == Entry(pad.value, data[m].instant)
        {
          entries := entries + [Entry(pad.value, data[i].instant)];
        }
      }
      ghost var front := entries;
      assert front == LagPadding(data, k, pad);
      ghost var shifted: seq<Entry<T>> := [];
      for i := k to |data|
        invariant entries == front + shifted && |shifted| == i - k
        invariant forall m {:trigger shifted[m]} :: 0 <= m < |shifted| ==>
                    shifted[m] == Entry(data[m].item, data[m + k].instant)
      {
        entries := entries + [Entry(data[i - k].item, data[i].instant)];
        shifted := shifted + [Entry(data[i - k].item, data[i].instant)];
      }
      assert shifted == LagShifted(data, k);
      var lagged := new TimeSeries.FromData(entries);
      r := Ok(lagged);
    }

    /** lag(k): lag without padding. */
    method LagBy(k: int) returns (r: Result<TimeSeries<T>>)
      ensures !(k > 0 && |data| >= k) ==> r == Err(CheckFailed)
      ensures k > 0 && |data| >= k ==> r.Ok? && fresh(r.value) && r.value.data == Lagged(data, k, None).value
    {
      r := Lag(k, None);
    }
  }

  /** moveIteratorToMatchInstant: next() at least once, then on while entries remain and
      the current one is before the target. */
  method MoveIteratorToMatchInstant<T>(it: Iter<Entry<T>>, target: Instant) returns (r: Result<Entry<T>>)
    requires it.cursor <= |it.items|
    modifies it
    ensures it.cursor <= |it.items|
    ensures Move(it.items, old(it.cursor), target).None? ==> r == Err(NoSuchElement)
    ensures Move(it.items, old(it.cursor), target).Some? ==>
              var j := Move(it.items, old(it.cursor), target).value;
              r == Ok(it.items[j]) && it.cursor == j + 1
  {
    ghost var k0 := it.cursor;
    var n := it.Next();
    if n.Err? {
      return n;
    }
    var current := n.value;
    while it.HasNext() && current.instant < target
      invariant k0 < it.cursor <= |it.items| && current == it.items[it.cursor - 1]
      invariant Move(it.items, k0, target) == Move(it.items, it.cursor - 1, target)
      decreases |it.items| - it.cursor
    {
      n := it.Next();
      current := n.value;
    }
    r := Ok(current);
  }

  /** One round of merge's outer loop: the inner loop either raises or stops on (p, q),
      and the walk then continues from just past both. */
  lemma MergeFromUnfold<T1, T2, F>(a: seq<Entry<T1>>, b: seq<Entry<T2>>, k1: nat, k2: nat, p: nat, q: nat,
                                   f: (T1, T2) -> F)
    requires k1 < |a| && k2 < |b| && Align(a, b, k1, k2) == Some((p, q))
    ensures MergeFrom(a, b, k1, k2, f) == Prefixed([Entry(f(a[p].item, b[q].item), a[p].instant)], MergeFrom(a, b, p + 1, q + 1, f))
  {
  }

  /** One round of merge's outer loop up to the combination: takes the next entry of each
      iterator, then runs the inner loop, which moves the iterator that is behind until
      both stand on the same instant. Raises NoSuchElement when a move finds its iterator
      exhausted; otherwise returns the two entries, which the iterators are just past. */
  method NextCommon<T1, T2>(i1: Iter<Entry<T1>>, i2: Iter<Entry<T2>>) returns (r: Result<(Entry<T1>, Entry<T2>)>)
    requires i1 as object != i2 as object
    requires i1.cursor < |i1.items| && i2.cursor < |i2.items|
    modifies i1, i2
    ensures i1.cursor <= |i1.items| && i2.cursor <= |i2.items|
    ensures r.Err? <==> Align(i1.items, i2.items, old(i1.cursor), old(i2.cursor)).None?
    ensures r.Err? ==> r.fault == NoSuchElement
    ensures r.Ok? ==> 0 < i1.cursor && 0 < i2.cursor
    ensures r.Ok? ==> Align(i1.items, i2.items, old(i1.cursor), old(i2.cursor)) == Some((i1.cursor - 1, i2.cursor - 1))
    ensures r.Ok? ==> r.value == (i1.items[i1.cursor - 1], i2.items[i2.cursor - 1])
  {
    ghost var a, b := i1.items, i2.items;
    ghost var k1, k2 := i1.cursor, i2.cursor;
    var x1 := i1.Next();
    var x2 := i2.Next();
    var n1, n2 := x1.value, x2.value;
    while n2.instant != n1.instant
      invariant k1 < i1.cursor <= |a| && k2 < i2.cursor <= |b|
      invariant n1 == a[i1.cursor - 1] && n2 == b[i2.cursor - 1]
      invariant Align(a, b, k1, k2) == Align(a, b, i1.cursor - 1, i2.cursor - 1)
      decreases |a| - i1.cursor + |b| - i2.cursor
    {
      ghost var j1, j2 := i1.cursor - 1, i2.cursor - 1;
      if n1.instant < n2.instant {
        var m := MoveIteratorToMatchInstant(i1, n2.instant);
        if m.Err? { return Err(m.fault); }
        n1 := m.value;
        assert Move(a, j1 + 1, b[j2].instant) == Some(i1.cursor - 1);
      } else {
        var m := MoveIteratorToMatchInstant(i2, n1.instant);
        if m.Err? { return Err(m.fault); }
        n2 := m.value;
        assert Move(b, j2 + 1, a[j1].instant) == Some(i2.cursor - 1);
      }
    }
    r := Ok((n1, n2));
  }

  /** TimeSeries.merge(t1, t2, f) with the two iterators and the nested loops. The test
      that the two instants are equal after the inner loop always holds there, so it is
      left out. */
  method Merge<T1, T2, F>(t1: TimeSeries<T1>, t2: TimeSeries<T2>, f: (T1, T2) -> F) returns (r: Result<TimeSeries<F>>)
    ensures Merged(t1.data, t2.data, f).Err? ==> r == Err(Merged(t1.data, t2.data, f).fault)
    ensures Merged(t1.data, t2.data, f).Ok? ==>
              r.Ok? && fresh(r.value) && r.value.data == Merged(t1.data, t2.data, f).value
  {
    if !t1.IsAscending() { return Err(CheckFailed); }
    if !t2.IsAscending() { return Err(CheckFailed); }
    var a, b := t1.data, t2.data;
    ghost var whole := MergeFrom(a, b, 0, 0, f);
    assert Merged(a, b, f) == whole;
    var i1 := new Iter(a);
    var i2 := new Iter(b);
    var newEntries: seq<Entry<F>> := [];
    assert Prefixed(newEntries, whole) == whole by {
      if whole.Ok? { assert [] + whole.value == whole.value; }
    }
    while i1.HasNext() && i2.HasNext()
      invariant i1.cursor <= |a| && i2.cursor <= |b|
      invariant whole == Prefixed(newEntries, MergeFrom(a, b, i1.cursor, i2.cursor, f))
      decreases |a| - i1.cursor + |b| - i2.cursor
    {
      ghost var k1, k2 := i1.cursor, i2.cursor;
      var matched := NextCommon(i1, i2);
      if matched.Err? {
        return Err(matched.fault);
      }
      var (n1, n2) := matched.value;
      var e := Entry(f(n1.item, n2.item), n1.instant);
      MergeFromUnfold(a, b, k1, k2, i1.cursor - 1, i2.cursor - 1, f);
      PrefixedTwice(newEntries, [e], MergeFrom(a, b, i1.cursor, i2.cursor, f));
      newEntries := newEntries + [e];
    }
    assert MergeFrom(a, b, i1.cursor, i2.cursor, f) == Ok([]);
    assert newEntries + [] == newEntries;
    var merged := new TimeSeries.FromData(newEntries);
    r := Ok(merged);
  }

  /** The overload for two series of one item type. */
  method MergeSame<T, F>(t1: TimeSeries<T>, t2: TimeSeries<T>, f: (T, T) -> F) returns (r: Result<TimeSeries<F>>)
    ensures Merged(t1.data, t2.data, f).Err? ==> r == Err(Merged(t1.data, t2.data, f).fault)
    ensures Merged(t1.data, t2.data, f).Ok? ==>
              r.Ok? && fresh(r.value) && r.value.data == Merged(t1.data, t2.data, f).value
  {
    r := Merge(t1, t2, f);
  }
}
