/** The ordered list of version tokens a client probes: either the locked
    version or the start month and the `MaxLookback` months before it,
    with the process-wide cached version put first and duplicates removed. */
module VersionCandidates {
  import opened Wrappers
  import opened Tokens

  /** Months to probe downward from the start month. */
  const MaxLookback: nat := 3

  predicate Distinct<T(==)>(s: seq<T>) {
    forall i, j :: 0 <= i < j < |s| ==> s[i] != s[j]
  }

  // ------------------------------------------------------------- lookback

  /** A start month whose probes all have six-character tokens. */
  predicate CanLookBack(base: YearMonth) {
    IsMonth(base) && 1000 * 12 + MaxLookback <= Index(base)
  }

  /** `[(base - relativedelta(months=i)).strftime("%Y%m") for i in range(MaxLookback + 1)]` */
  function Lookback(base: YearMonth): seq<string>
    requires CanLookBack(base)
  {
    seq(MaxLookback + 1, i requires 0 <= i <= MaxLookback => Format(SubMonths(base, i)))
  }

  /** Element `i` of the lookback list is the token of the start month minus
      `i` months, and each token is the month before the previous one. */
  lemma LookbackMonths(base: YearMonth)
    requires CanLookBack(base)
    ensures |Lookback(base)| == MaxLookback + 1
    ensures forall i :: 0 <= i <= MaxLookback ==> Parse(Lookback(base)[i]) == Some(SubMonths(base, i))
    ensures forall i :: 0 <= i < MaxLookback ==>
      Parse(Lookback(base)[i + 1]).value == SubMonths(Parse(Lookback(base)[i]).value, 1)
  {
    forall i | 0 <= i <= MaxLookback
      ensures Parse(Lookback(base)[i]) == Some(SubMonths(base, i))
    {
      ParseFormat(SubMonths(base, i));
    }
    forall i | 0 <= i < MaxLookback
      ensures Parse(Lookback(base)[i + 1]).value == SubMonths(Parse(Lookback(base)[i]).value, 1)
    {
      SubMonthsCompose(base, i, 1);
    }
  }

  /** The lookback tokens are strictly decreasing, both in time and as
      numbers, and hence pairwise distinct. */
  lemma LookbackDescending(base: YearMonth)
    requires CanLookBack(base)
    ensures forall i, j :: 0 <= i < j <= MaxLookback ==>
      Index(Parse(Lookback(base)[j]).value) < Index(Parse(Lookback(base)[i]).value)
    ensures forall i, j :: 0 <= i < j <= MaxLookback ==>
      Decimal(Lookback(base)[j]) < Decimal(Lookback(base)[i])
    ensures Distinct(Lookback(base))
  {
    var r := Lookback(base);
    LookbackMonths(base);
    forall i, j | 0 <= i < j <= MaxLookback
      ensures Decimal(r[j]) < Decimal(r[i])
    {
      FormatOrder(SubMonths(base, j), SubMonths(base, i));
    }
  }

  // -------------------------------------------------------- de-duplication

  /** The elements of `s` not in `seen`, in order, each kept at its first
      occurrence: `dict.fromkeys` after the keys `seen` are already present. */
  function DedupAfter<T(==, !new)>(s: seq<T>, seen: set<T>): (r: seq<T>)
    ensures Distinct(r)
    ensures forall x :: x in r <==> x in s && x !in seen
    decreases |s|
  {
    if s == [] then []
    else if s[0] in seen then DedupAfter(s[1..], seen)
    else
      var rest := DedupAfter(s[1..], seen + {s[0]});
      assert forall x :: x in rest ==> x != s[0];
      [s[0]] + rest
  }

  /** `list(dict.fromkeys(s))` */
  function Dedup<T(==, !new)>(s: seq<T>): seq<T> {
    DedupAfter(s, {})
  }

  /** Reference definition: the element at `i` is kept exactly when it does
      not occur in `s[..i]`, built from the back of the sequence. */
  function FirstOccurrences<T(==)>(s: seq<T>): seq<T> {
    if s == [] then []
    else
      var init := s[..|s| - 1];
      FirstOccurrences(init) + (if s[|s| - 1] in init then [] else [s[|s| - 1]])
  }

  function Elems<T(!new)>(s: seq<T>): set<T> {
    set x | x in s
  }

  lemma {:induction false} DedupAfterPrefix<T(!new)>(p: seq<T>, s: seq<T>)
    ensures FirstOccurrences(p + s) == FirstOccurrences(p) + DedupAfter(s, Elems(p))
    decreases |s|
  {
    if s == [] {
      assert p + s == p;
    } else {
      var x, s' := s[0], s[1..];
      var p' := p + [x];
      assert p' + s' == p + s;
      assert p'[..|p'| - 1] == p;
      assert FirstOccurrences(p') == FirstOccurrences(p) + (if x in p then [] else [x]);
      assert Elems(p') == Elems(p) + {x};
      DedupAfterPrefix(p', s');
      if x in p {
        assert Elems(p') == Elems(p);
        assert DedupAfter(s, Elems(p)) == DedupAfter(s', Elems(p));
      } else {
        assert DedupAfter(s, Elems(p)) == [x] + DedupAfter(s', Elems(p'));
      }
    }
  }

  /** De-duplication keeps exactly the first occurrence of each element, in
      the original order. */
  lemma DedupIsFirstOccurrences<T(!new)>(s: seq<T>)
    ensures Dedup(s) == FirstOccurrences(s)
  {
    DedupAfterPrefix([], s);
    assert [] + s == s;
    assert Elems<T>([]) == {};
  }

  /** The elements of `s` that are not in `drop`, in order. */
  function Without<T(==)>(s: seq<T>, drop: set<T>): seq<T> {
    if s == [] then []
    else (if s[0] in drop then [] else [s[0]]) + Without(s[1..], drop)
  }

  lemma {:induction false} WithoutAbsent<T>(s: seq<T>, drop: set<T>, x: T)
    requires x !in s
    ensures Without(s, drop + {x}) == Without(s, drop)
  {
    if s != [] {
      WithoutAbsent(s[1..], drop, x);
    }
  }

  lemma {:induction false} DedupAfterDistinct<T(!new)>(s: seq<T>, seen: set<T>)
    requires Distinct(s)
    ensures DedupAfter(s, seen) == Without(s, seen)
  {
    if s != [] {
      DedupAfterDistinct(s[1..], seen);
      if s[0] !in seen {
        DedupAfterDistinct(s[1..], seen + {s[0]});
        WithoutAbsent(s[1..], seen, s[0]);
      }
    }
  }

  /** Putting `c` in front of a list without duplicates and de-duplicating
      gives `c` followed by the list with `c` taken out, order unchanged. */
  lemma DedupCons<T(!new)>(c: T, s: seq<T>)
    requires Distinct(s)
    ensures Dedup([c] + s) == [c] + Without(s, {c})
  {
    assert ([c] + s)[1..] == s;
    assert {} + {c} == {c};
    DedupAfterDistinct(s, {c});
  }

  // ------------------------------------------------------- candidate list

  /** The probing start `start_version or now` can seed a lookback list. */
  predicate StartOk(first: string) {
    Parse(first).Some? && CanLookBack(Parse(first).value)
  }

  /** The probe list a client builds at construction from the version lock,
      the start month and the process-wide cache. */
  function Candidates(lock: Option<string>, first: string, cache: Option<string>): seq<string>
    requires Truthy(lock) || StartOk(first)
  {
    var probes := if Truthy(lock) then [lock.value] else Lookback(Parse(first).value);
    if Truthy(cache) then Dedup([cache.value] + probes) else probes
  }

  /** With no lock and no cache: `MaxLookback + 1` distinct tokens, the start
      month minus `i` months at position `i`, strictly decreasing. */
  lemma CandidatesLookback(lock: Option<string>, first: string, cache: Option<string>)
    requires !Truthy(lock) && !Truthy(cache) && StartOk(first)
    ensures var r := Candidates(lock, first, cache);
      && |r| == MaxLookback + 1
      && (|first| == 6 ==> r[0] == first)
      && (forall i :: 0 <= i <= MaxLookback ==> Parse(r[i]) == Some(SubMonths(Parse(first).value, i)))
      && (forall i, j :: 0 <= i < j <= MaxLookback ==> Decimal(r[j]) < Decimal(r[i]))
      && Distinct(r)
  {
    var base := Parse(first).value;
    assert Candidates(lock, first, cache) == Lookback(base);
    LookbackMonths(base);
    LookbackDescending(base);
    if |first| == 6 {
      FormatParse(first);
      IndexInjective(SubMonths(base, 0), base);
      assert Lookback(base)[0] == Format(base);
    }
  }

  /** A start with a one-digit month, "20251", is accepted, and the first
      candidate is then "202501", not the start string itself. */
  lemma OneDigitMonthStart()
    ensures StartOk("20251")
    ensures Candidates(None, "20251", None)[0] == "202501"
  {
    var base := YearMonth(2025, 1);
    ParseOneDigitMonth();
    assert CanLookBack(base);
    assert Candidates(None, "20251", None) == Lookback(base);
    IndexInjective(SubMonths(base, 0), base);
    assert Lookback(base)[0] == Format(base);
    FormatJanuary2025();
  }

  /** A lock with no cache, or a cache equal to the lock, gives just the lock;
      a different cache is put in front of it. */
  lemma CandidatesLocked(lock: Option<string>, first: string, cache: Option<string>)
    requires Truthy(lock)
    ensures !Truthy(cache) || cache.value == lock.value ==> Candidates(lock, first, cache) == [lock.value]
    ensures Truthy(cache) && cache.value != lock.value ==>
      Candidates(lock, first, cache) == [cache.value, lock.value]
  {
    if Truthy(cache) {
      DedupCons(cache.value, [lock.value]);
      assert [lock.value][1..] == [];
    }
  }

  /** A cached token is the first candidate, no token appears twice, the
      tokens are the cache and the probes, and the probes keep their order
      with the first occurrence winning. */
  lemma CandidatesCached(lock: Option<string>, first: string, cache: Option<string>)
    requires Truthy(lock) || StartOk(first)
    requires Truthy(cache)
    ensures var probes := if Truthy(lock) then [lock.value] else Lookback(Parse(first).value);
      var r := Candidates(lock, first, cache);
      && r[0] == cache.value
      && Distinct(r)
      && (forall t :: t in r <==> t == cache.value || t in probes)
      && r == FirstOccurrences([cache.value] + probes)
      && r == [cache.value] + Without(probes, {cache.value})
  {
    var probes := if Truthy(lock) then [lock.value] else Lookback(Parse(first).value);
    if !Truthy(lock) {
      LookbackDescending(Parse(first).value);
    }
    DedupIsFirstOccurrences([cache.value] + probes);
    DedupCons(cache.value, probes);
  }

  /** Every client has at least one and at most `MaxLookback + 2` candidates. */
  lemma CandidatesSize(lock: Option<string>, first: string, cache: Option<string>)
    requires Truthy(lock) || StartOk(first)
    ensures 1 <= |Candidates(lock, first, cache)| <= MaxLookback + 2
  {
    var probes := if Truthy(lock) then [lock.value] else Lookback(Parse(first).value);
    if Truthy(cache) {
      CandidatesCached(lock, first, cache);
      WithoutLength(probes, {cache.value});
    }
  }

  lemma {:induction false} WithoutLength<T>(s: seq<T>, drop: set<T>)
    ensures |Without(s, drop)| <= |s|
  {
    if s != [] {
      WithoutLength(s[1..], drop);
    }
  }
}
