/**
 * The linked in-memory database: it links each close approach to the
 * near-Earth object whose designation it carries, answers memoised lookups by
 * designation and by name, and streams the approaches that pass a list of filters.
 */
module Database {
  import opened Wrappers
  import opened Records
  import opened Filters

  /** The first object in `neos` whose designation is exactly `d`, or `null` when there is none. */
  function FirstWithDesignation(neos: seq<NearEarthObject>, d: string): (r: NearEarthObject?)
    ensures r != null ==> r in neos && r.designation == d
    ensures r == null <==> forall n :: n in neos ==> n.designation != d
  {
    if neos == [] then null
    else if neos[0].designation == d then neos[0]
    else FirstWithDesignation(neos[1..], d)
  }

  /** The lookup picks the earliest object of that designation, not merely one of them. */
  lemma {:induction false} FirstWithDesignationIsFirst(neos: seq<NearEarthObject>, d: string, i: nat)
    requires i < |neos| && neos[i].designation == d
    requires forall j :: 0 <= j < i ==> neos[j].designation != d
    ensures FirstWithDesignation(neos, d) == neos[i]
  {
    if i > 0 {
      FirstWithDesignationIsFirst(neos[1..], d, i - 1);
    }
  }

  /** The first object in `neos` whose name is exactly `q`, or `null` when there is none. */
  function FirstWithName(neos: seq<NearEarthObject>, q: Option<string>): (r: NearEarthObject?)
    ensures r != null ==> r in neos && r.name == q
    ensures r == null <==> forall n :: n in neos ==> n.name != q
  {
    if neos == [] then null
    else if neos[0].name == q then neos[0]
    else FirstWithName(neos[1..], q)
  }

  lemma {:induction false} FirstWithNameIsFirst(neos: seq<NearEarthObject>, q: Option<string>, i: nat)
    requires i < |neos| && neos[i].name == q
    requires forall j :: 0 <= j < i ==> neos[j].name != q
    ensures FirstWithName(neos, q) == neos[i]
  {
    if i > 0 {
      FirstWithNameIsFirst(neos[1..], q, i - 1);
    }
  }

  /**
   * The name lookup has no guard for the empty name or the absent name: it
   * finds no object for them only when no stored name is equal to them, and
   * an unnamed object is found by the query for the absent name.
   */
  lemma UnnamedQueries(neos: seq<NearEarthObject>, n: NearEarthObject)
    requires n in neos && n.name == None
    ensures FirstWithName(neos, None) != null && FirstWithName(neos, None).name == None
    ensures FirstWithName(neos, Some("")) == null <==> forall m :: m in neos ==> m.name != Some("")
  {
  }

  /** The object that linking attaches approach `a` to. */
  function Owner(neos: seq<NearEarthObject>, a: CloseApproach): (r: NearEarthObject?) {
    FirstWithDesignation(neos, a.designationKey)
  }

  /** The designation keys that the approaches of `s` carry. */
  function Keys(s: seq<CloseApproach>): (r: set<string>) {
    if s == [] then {} else Keys(s[..|s| - 1]) + {s[|s| - 1].designationKey}
  }

  /** A key is in `Keys(s)` exactly when some approach of `s` carries it. */
  lemma {:induction false} KeysMeaning(s: seq<CloseApproach>)
    ensures forall a :: a in s ==> a.designationKey in Keys(s)
    ensures forall d :: d in Keys(s) ==> exists a :: a in s && a.designationKey == d
  {
    if s != [] {
      var init, last := s[..|s| - 1], s[|s| - 1];
      KeysMeaning(init);
      assert s == init + [last];
    }
  }

  /** `x` is `y` with some items left out, in the same order. */
  predicate Subsequence<T(==)>(x: seq<T>, y: seq<T>)
    decreases |y|
  {
    x == []
    || (y != []
        && ((x[|x| - 1] == y[|y| - 1] && Subsequence(x[..|x| - 1], y[..|y| - 1]))
            || Subsequence(x, y[..|y| - 1])))
  }

  /** A subsequence of a prefix of `y` is a subsequence of `y`. */
  lemma {:induction false} SubsequenceOfPrefix<T>(x: seq<T>, y: seq<T>, k: nat)
    requires k <= |y| && Subsequence(x, y[..k])
    ensures Subsequence(x, y)
    decreases |y| - k
  {
    if k < |y| {
      var init := y[..|y| - 1];
      assert init[..k] == y[..k];
      SubsequenceOfPrefix(x, init, k);
    } else {
      assert y[..k] == y;
    }
  }

  /** The approaches of `s` that linking attaches to `n`, in the order of `s`. */
  function LinkedTo(neos: seq<NearEarthObject>, s: seq<CloseApproach>, n: NearEarthObject): (r: seq<CloseApproach>) {
    if s == [] then []
    else
      var init := LinkedTo(neos, s[..|s| - 1], n);
      if Owner(neos, s[|s| - 1]) == n then init + [s[|s| - 1]] else init
  }

  /** An object's linked approaches are the approaches of `s` attached to it, kept in order. */
  lemma {:induction false} LinkedToSelects(neos: seq<NearEarthObject>, s: seq<CloseApproach>, n: NearEarthObject)
    ensures Subsequence(LinkedTo(neos, s, n), s)
    ensures forall a :: a in LinkedTo(neos, s, n) ==> a in s
    ensures forall a :: a in s ==> (a in LinkedTo(neos, s, n) <==> Owner(neos, a) == n)
  {
    if s != [] {
      var init, last := s[..|s| - 1], s[|s| - 1];
      var r := LinkedTo(neos, init, n);
      LinkedToSelects(neos, init, n);
      assert s == init + [last];
      if Owner(neos, last) == n {
        assert (r + [last])[..|r|] == r;
      }
    }
  }

  /**
   * Each approach occurs in an object's linked list as often as it occurs in
   * `s` when it belongs to that object, and never otherwise.
   */
  lemma {:induction false} LinkedToCounts(neos: seq<NearEarthObject>, s: seq<CloseApproach>, n: NearEarthObject)
    ensures forall a :: multiset(LinkedTo(neos, s, n))[a] == if Owner(neos, a) == n then multiset(s)[a] else 0
  {
    if s != [] {
      var init, last := s[..|s| - 1], s[|s| - 1];
      LinkedToCounts(neos, init, n);
      assert s == init + [last];
      assert multiset(s) == multiset(init) + multiset{last};
    }
  }

  /** Linking one more approach extends the list of its own object only. */
  lemma LinkedToSnoc(neos: seq<NearEarthObject>, s: seq<CloseApproach>, a: CloseApproach)
    ensures forall n: NearEarthObject ::
      LinkedTo(neos, s + [a], n) == if Owner(neos, a) == n then LinkedTo(neos, s, n) + [a] else LinkedTo(neos, s, n)
  {
  }

  /** The approaches of `s` that carry designation `d`, in the order of `s`. */
  function WithDesignation(s: seq<CloseApproach>, d: string): (r: seq<CloseApproach>) {
    if s == [] then []
    else
      var init := WithDesignation(s[..|s| - 1], d);
      if s[|s| - 1].designationKey == d then init + [s[|s| - 1]] else init
  }

  /** No two objects share a designation. */
  predicate UniqueDesignations(neos: seq<NearEarthObject>) {
    forall i, j :: 0 <= i < j < |neos| ==> neos[i].designation != neos[j].designation
  }

  lemma OwnerByDesignation(neos: seq<NearEarthObject>, n: NearEarthObject, a: CloseApproach)
    requires UniqueDesignations(neos) && n in neos
    ensures Owner(neos, a) == n <==> a.designationKey == n.designation
  {
  }

  /**
   * With unique designations, an object's linked approaches are exactly the
   * approaches that carry its designation.
   */
  lemma {:induction false} LinkedToByDesignation(neos: seq<NearEarthObject>, s: seq<CloseApproach>, n: NearEarthObject)
    requires UniqueDesignations(neos) && n in neos
    ensures LinkedTo(neos, s, n) == WithDesignation(s, n.designation)
  {
    if s != [] {
      LinkedToByDesignation(neos, s[..|s| - 1], n);
      OwnerByDesignation(neos, n, s[|s| - 1]);
    }
  }

  /** How often `x` occurs in `ns`. */
  function Occurrences(ns: seq<NearEarthObject>, x: NearEarthObject?): (r: nat) {
    if ns == [] then 0 else (if ns[0] == x then 1 else 0) + Occurrences(ns[1..], x)
  }

  /** No object occurs twice. */
  predicate Distinct(ns: seq<NearEarthObject>) {
    forall i, j :: 0 <= i < j < |ns| ==> ns[i] != ns[j]
  }

  lemma {:induction false} OccursOnce(ns: seq<NearEarthObject>, x: NearEarthObject)
    requires Distinct(ns) && x in ns
    ensures Occurrences(ns, x) == 1
  {
    if ns[0] == x {
      OccursNever(ns[1..], x);
    } else {
      OccursOnce(ns[1..], x);
    }
  }

  lemma {:induction false} OccursNever(ns: seq<NearEarthObject>, x: NearEarthObject?)
    requires x !in ns
    ensures Occurrences(ns, x) == 0
  {
    if ns != [] {
      OccursNever(ns[1..], x);
    }
  }

  /** The total length of the linked lists of the objects in `ns`. */
  function TotalLinked(neos: seq<NearEarthObject>, ns: seq<NearEarthObject>, s: seq<CloseApproach>): (r: nat) {
    if ns == [] then 0 else |LinkedTo(neos, s, ns[0])| + TotalLinked(neos, ns[1..], s)
  }

  lemma {:induction false} TotalLinkedEmpty(neos: seq<NearEarthObject>, ns: seq<NearEarthObject>)
    ensures TotalLinked(neos, ns, []) == 0
  {
    if ns != [] {
      TotalLinkedEmpty(neos, ns[1..]);
    }
  }

  lemma {:induction false} TotalLinkedSnoc(neos: seq<NearEarthObject>, ns: seq<NearEarthObject>, s: seq<CloseApproach>, a: CloseApproach)
    ensures TotalLinked(neos, ns, s + [a]) == TotalLinked(neos, ns, s) + Occurrences(ns, Owner(neos, a))
  {
    if ns != [] {
      assert (s + [a])[..|s|] == s;
      TotalLinkedSnoc(neos, ns[1..], s, a);
    }
  }

  /** The total length of the approach lists stored in the objects of `ns`. */
  function Listed(ns: seq<NearEarthObject>): (r: nat)
    reads ns
  {
    if ns == [] then 0 else |ns[0].approaches| + Listed(ns[1..])
  }

  /** When every object of `ns` stores its linked list, the stored lists add up to the linked ones. */
  lemma {:induction false} ListedIsTotalLinked(neos: seq<NearEarthObject>, ns: seq<NearEarthObject>, s: seq<CloseApproach>)
    requires forall n :: n in ns ==> n.approaches == LinkedTo(neos, s, n)
    ensures Listed(ns) == TotalLinked(neos, ns, s)
  {
    if ns != [] {
      ListedIsTotalLinked(neos, ns[1..], s);
    }
  }

  /**
   * When every approach is attached to an object of `neos` and no object is
   * listed twice, the linked lists together hold each approach exactly once.
   */
  lemma {:induction false} TotalLinkedIsAll(neos: seq<NearEarthObject>, s: seq<CloseApproach>)
    requires Distinct(neos)
    requires forall a :: a in s ==> Owner(neos, a) != null
    ensures TotalLinked(neos, neos, s) == |s|
  {
    if s == [] {
      TotalLinkedEmpty(neos, neos);
    } else {
      var init, last := s[..|s| - 1], s[|s| - 1];
      assert s == init + [last];
      TotalLinkedIsAll(neos, init);
      TotalLinkedSnoc(neos, neos, init, last);
      OccursOnce(neos, Owner(neos, last));
    }
  }

  /** What a query produces: the approaches it yielded and, if it stopped early, the error raised. */
  datatype Outcome = Outcome(items: seq<CloseApproach>, error: Option<FilterError>)

  /** The approaches of `s` that pass every filter, in the order of `s`. */
  function Matching(s: seq<CloseApproach>, filters: seq<Filter>): (r: seq<CloseApproach>)
    reads s
  {
    if s == [] then []
    else
      var init := Matching(s[..|s| - 1], filters);
      if Passes(filters, s[|s| - 1]) then init + [s[|s| - 1]] else init
  }

  /** The matching approaches are the approaches of `s` that pass every filter, kept in order. */
  lemma {:induction false} MatchingSelects(s: seq<CloseApproach>, filters: seq<Filter>)
    ensures Subsequence(Matching(s, filters), s)
    ensures forall a :: a in Matching(s, filters) ==> a in s
    ensures forall a :: a in s ==> (a in Matching(s, filters) <==> Passes(filters, a))
  {
    if s != [] {
      var init, last := s[..|s| - 1], s[|s| - 1];
      var r := Matching(init, filters);
      MatchingSelects(init, filters);
      assert s == init + [last];
      if Passes(filters, last) {
        assert (r + [last])[..|r|] == r;
      }
    }
  }

  /**
   * Each approach occurs among the matching ones as often as it occurs in `s`
   * when it passes every filter, and never otherwise.
   */
  lemma {:induction false} MatchingCounts(s: seq<CloseApproach>, filters: seq<Filter>)
    ensures forall a :: multiset(Matching(s, filters))[a] == if Passes(filters, a) then multiset(s)[a] else 0
  {
    if s != [] {
      var init, last := s[..|s| - 1], s[|s| - 1];
      MatchingCounts(init, filters);
      assert s == init + [last];
      assert multiset(s) == multiset(init) + multiset{last};
    }
  }

  lemma {:induction false} MatchingNoFilters(s: seq<CloseApproach>)
    ensures Matching(s, []) == s
  {
    if s != [] {
      MatchingNoFilters(s[..|s| - 1]);
    }
  }

  /**
   * The position of the first approach of `s` on which evaluating the filters
   * raises, or `|s|` when none does.
   */
  function FirstFailure(s: seq<CloseApproach>, filters: seq<Filter>): (k: nat)
    reads s
    ensures k <= |s|
    ensures forall j :: 0 <= j < k ==> AllHold(filters, s[j]).Ok?
    ensures k < |s| ==> AllHold(filters, s[k]).Err?
  {
    if s == [] then 0
    else
      var init := s[..|s| - 1];
      var k := FirstFailure(init, filters);
      assert forall j :: 0 <= j < |init| ==> init[j] == s[j];
      if k < |init| then k
      else if AllHold(filters, s[|s| - 1]).Err? then |init|
      else |s|
  }

  /**
   * The stream that the query produces over `s`: each approach in turn is
   * yielded when every filter holds of it, and a filter that raises ends the
   * stream with that error.
   */
  function Select(s: seq<CloseApproach>, filters: seq<Filter>): (r: Outcome)
    reads s
    ensures r.items == Matching(s[..FirstFailure(s, filters)], filters)
    ensures r.error.Some? <==> FirstFailure(s, filters) < |s|
    ensures r.error.Some? ==> AllHold(filters, s[FirstFailure(s, filters)]) == Err(r.error.value)
  {
    if s == [] then Outcome([], None)
    else
      var r := Select(s[..|s| - 1], filters);
      FirstFailureSnoc(s, filters);
      if r.error.Some? then r
      else match AllHold(filters, s[|s| - 1])
        case Err(e) => Outcome(r.items, Some(e))
        case Ok(keep) => Outcome(if keep then r.items + [s[|s| - 1]] else r.items, None)
  }

  /** How the first failure and the matching prefix of `s` follow from those of `s` without its last approach. */
  lemma FirstFailureSnoc(s: seq<CloseApproach>, filters: seq<Filter>)
    requires s != []
    ensures var init, last := s[..|s| - 1], s[|s| - 1];
      var k := FirstFailure(init, filters);
      && s[..k] == init[..k]
      && (k < |init| ==> FirstFailure(s, filters) == k && s[k] == init[k])
      && (k == |init| && AllHold(filters, last).Err? ==> FirstFailure(s, filters) == k)
      && (k == |init| && AllHold(filters, last).Ok? ==>
            && FirstFailure(s, filters) == |s|
            && Matching(s[..|s|], filters)
               == if AllHold(filters, last).value then Matching(init[..k], filters) + [last] else Matching(init[..k], filters))
  {
    var init, last := s[..|s| - 1], s[|s| - 1];
    var k := FirstFailure(init, filters);
    assert s[..|s|] == s;
    assert init[..|init|] == init;
    assert s == init + [last];
  }

  /** What the stream means: a subsequence, all of the matching approaches when nothing raises, and all approaches without filters. */
  lemma SelectFacts(s: seq<CloseApproach>, filters: seq<Filter>)
    ensures Subsequence(Select(s, filters).items, s)
    ensures Select(s, filters).error.None? <==> forall a :: a in s ==> AllHold(filters, a).Ok?
    ensures Select(s, filters).error.None? ==> Select(s, filters).items == Matching(s, filters)
    ensures filters == [] ==> Select(s, filters) == Outcome(s, None)
  {
    var k := FirstFailure(s, filters);
    assert s[..|s|] == s;
    MatchingSelects(s[..k], filters);
    SubsequenceOfPrefix(Matching(s[..k], filters), s, k);
    if filters == [] {
      assert k == |s|;
      MatchingNoFilters(s);
    }
    if k < |s| {
      assert s[k] in s;
    }
    if k == |s| {
      forall a | a in s
        ensures AllHold(filters, a).Ok?
      {
        var j :| 0 <= j < |s| && s[j] == a;
      }
    }
  }

  /** The database: the two collections, linked, and the two lookup caches. */
  class NEODatabase {
    const neos: seq<NearEarthObject>
    const approaches: seq<CloseApproach>
    /** Designation lookups done so far; a miss is cached as `null`. */
    var neoByDes: map<string, NearEarthObject?>
    /** Name lookups done so far; a miss is cached as `null`. */
    var neoByName: map<Option<string>, NearEarthObject?>

    /** Every cached lookup result is what a fresh scan would return. */
    ghost predicate CachesAgree()
      reads this
    {
      && (forall d :: d in neoByDes ==> neoByDes[d] == FirstWithDesignation(neos, d))
      && (forall q :: q in neoByName ==> neoByName[q] == FirstWithName(neos, q))
    }

    /** Each approach points at its object, and each object lists its approaches in storage order. */
    ghost predicate Linked()
      reads neos, approaches
    {
      && (forall a :: a in approaches ==> Owner(neos, a) != null && a.neo == Owner(neos, a))
      && (forall n :: n in neos ==> n.approaches == LinkedTo(neos, approaches, n))
    }

    ghost predicate Valid()
      reads this, neos, approaches
    {
      CachesAgree() && Linked()
    }

    /**
     * Link the records: attach every approach, in storage order, to the
     * object the designation lookup finds for its key.
     */
    constructor (neos: seq<NearEarthObject>, approaches: seq<CloseApproach>)
      requires forall n :: n in neos ==> n.approaches == []
      requires forall a :: a in approaches ==> FirstWithDesignation(neos, a.designationKey) != null
      modifies neos, approaches
      ensures this.neos == neos && this.approaches == approaches
      ensures Valid()
      ensures forall a :: a in approaches ==> a.neo != null && a.neo in neos && a.neo.designation == a.designationKey
      ensures forall n :: n in neos ==> n.approaches == LinkedTo(neos, approaches, n)
      ensures neoByDes.Keys == Keys(approaches)
      ensures neoByName == map[]
    {
      this.neos := neos;
      this.approaches := approaches;
      neoByDes := map[];
      neoByName := map[];
      new;
      LinkAll();
    }

    /**
     * The links after attaching the run `linked`: the caches agree, every
     * attached approach points at its owner, and every object lists the
     * attached approaches it owns, in order.
     */
    ghost predicate Attached(linked: seq<CloseApproach>)
      reads this, neos, linked
    {
      && CachesAgree()
      && (forall b :: b in linked ==> b.neo == Owner(neos, b))
      && (forall n :: n in neos ==> n.approaches == LinkedTo(neos, linked, n))
    }

    /** The linking loop of the constructor: attach every approach in storage order. */
    method LinkAll()
      requires CachesAgree()
      requires forall n :: n in neos ==> n.approaches == []
      requires forall a :: a in approaches ==> FirstWithDesignation(neos, a.designationKey) != null
      modifies this`neoByDes, neos, approaches
      ensures Attached(approaches)
      ensures neoByDes.Keys == old(neoByDes).Keys + Keys(approaches)
    {
      var i := 0;
      ghost var linked: seq<CloseApproach> := [];
      while i < |approaches|
        invariant 0 <= i <= |approaches| && linked == approaches[..i]
        invariant Attached(linked)
        invariant neoByDes.Keys == old(neoByDes).Keys + Keys(linked)
      {
        Attach(approaches[i], linked);
        assert (linked + [approaches[i]])[..|linked|] == linked;
        linked := linked + [approaches[i]];
        i := i + 1;
        assert linked == approaches[..i];
      }
      assert linked == approaches;
    }

    /**
     * One step of linking: look up the owner of `a` by its key, append `a` to
     * the owner's approaches and point `a` back at the owner.
     */
    method Attach(a: CloseApproach, ghost linked: seq<CloseApproach>)
      requires Attached(linked)
      requires FirstWithDesignation(neos, a.designationKey) != null
      modifies this`neoByDes, FirstWithDesignation(neos, a.designationKey), a
      ensures Attached(linked + [a])
      ensures neoByDes == old(neoByDes)[a.designationKey := Owner(neos, a)]
    {
      var neo := GetNeoByDesignation(a.designationKey);
      LinkedToSnoc(neos, linked, a);
      neo.approaches := neo.approaches + [a];
      a.neo := neo;
    }

    /**
     * The object whose designation is exactly `d`, or `null`. The first call
     * for `d` scans the objects and caches the result, a miss included; a
     * later call returns the cached result and leaves the cache as it is.
     */
    method GetNeoByDesignation(d: string) returns (r: NearEarthObject?)
      requires CachesAgree()
      modifies this`neoByDes
      ensures CachesAgree()
      ensures r == FirstWithDesignation(neos, d)
      ensures neoByDes == old(neoByDes)[d := r]
      ensures old(d in neoByDes) ==> neoByDes == old(neoByDes)
    {
      if d !in neoByDes {
        var i := 0;
        while i < |neos|
          invariant 0 <= i <= |neos|
          invariant FirstWithDesignation(neos[i..], d) == FirstWithDesignation(neos, d)
          invariant neoByDes == old(neoByDes)
        {
          assert neos[i..][1..] == neos[i + 1..];
          if neos[i].designation == d {
            neoByDes := neoByDes[d := neos[i]];
            return neoByDes[d];
          }
          i := i + 1;
        }
        neoByDes := neoByDes[d := null];
        return neoByDes[d];
      } else {
        return neoByDes[d];
      }
    }

    /**
     * The object whose name is exactly `q`, or `null`; memoised like the
     * designation lookup.
     */
    method GetNeoByName(q: Option<string>) returns (r: NearEarthObject?)
      requires CachesAgree()
      modifies this`neoByName
      ensures CachesAgree()
      ensures r == FirstWithName(neos, q)
      ensures neoByName == old(neoByName)[q := r]
      ensures old(q in neoByName) ==> neoByName == old(neoByName)
    {
      if q !in neoByName {
        var i := 0;
        while i < |neos|
          invariant 0 <= i <= |neos|
          invariant FirstWithName(neos[i..], q) == FirstWithName(neos, q)
          invariant neoByName == old(neoByName)
        {
          assert neos[i..][1..] == neos[i + 1..];
          if neos[i].name == q {
            neoByName := neoByName[q := neos[i]];
            return neoByName[q];
          }
          i := i + 1;
        }
        neoByName := neoByName[q := null];
        return neoByName[q];
      } else {
        return neoByName[q];
      }
    }

    /**
     * The approaches, in storage order, that pass every filter; with no filter, all of them.
     */
    function Query(filters: seq<Filter>): (r: Outcome)
      reads approaches
      ensures filters == [] ==> r == Outcome(approaches, None)
      ensures r.error.None? <==> forall a :: a in approaches ==> AllHold(filters, a).Ok?
      ensures r.error.None? ==> r.items == Matching(approaches, filters)
      ensures Subsequence(r.items, approaches)
    {
      SelectFacts(approaches, filters);
      Select(approaches, filters)
    }
  }

  /** After linking, the links agree in both directions. */
  lemma LinksAgree(db: NEODatabase)
    requires db.Linked()
    ensures forall a :: a in db.approaches ==> a.neo != null && a.neo in db.neos && a in a.neo.approaches
    ensures forall n, a :: n in db.neos && a in n.approaches ==> a in db.approaches && a.neo == n
  {
    forall n | n in db.neos {
      LinkedToSelects(db.neos, db.approaches, n);
    }
  }

  /**
   * After linking, with each object listed once, the objects' approach lists
   * together are exactly as long as the approach collection.
   */
  lemma LinkedListsCoverAll(db: NEODatabase)
    requires db.Linked() && Distinct(db.neos)
    ensures TotalLinked(db.neos, db.neos, db.approaches) == |db.approaches|
    ensures Listed(db.neos) == |db.approaches|
  {
    TotalLinkedIsAll(db.neos, db.approaches);
    ListedIsTotalLinked(db.neos, db.neos, db.approaches);
  }

  /**
   * On a linked database, the query for the filters built from criteria `c`
   * never raises and yields exactly the approaches that satisfy `c`.
   */
  lemma QueryByCriteria(db: NEODatabase, c: Criteria)
    requires db.Linked()
    ensures db.Query(CreateFilters(c)).error == None
    ensures forall a :: a in db.approaches ==>
      a.neo != null && (a in db.Query(CreateFilters(c)).items <==> Satisfies(c, a))
  {
    var fs := CreateFilters(c);
    forall a | a in db.approaches
      ensures AllHold(fs, a) == Ok(Satisfies(c, a))
    {
      CreateFiltersMeaning(c, a);
    }
    MatchingSelects(db.approaches, fs);
  }
}
