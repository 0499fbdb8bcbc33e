/** Stacked page locks: a count per page of the ranges that keep it locked.

    Pages are numbered by address divided by the page size, which is a power of two, so that masking an
    address and dividing it name the same page.  Ranges do not wrap around the address space. */
module LockedPages {
  import opened Basics

  datatype Range = Range(start: nat, size: nat)

  type Histogram = map<nat, nat>

  predicate Touches(r: Range, pageSize: nat, page: nat)
    requires pageSize > 0
  {
    r.size > 0 && r.start / pageSize <= page <= LastPage(r, pageSize)
  }

  function LastPage(r: Range, pageSize: nat): nat
    requires pageSize > 0 && r.size > 0
  {
    (r.start + r.size - 1) / pageSize
  }

  /** How many of the ranges touch a page. */
  function Count(ranges: seq<Range>, pageSize: nat, page: nat): nat
    requires pageSize > 0
  {
    if ranges == [] then 0
    else Count(Front(ranges), pageSize, page) + if Touches(Last(ranges), pageSize, page) then 1 else 0
  }

  function CountIn(h: Histogram, page: nat): nat { if page in h then h[page] else 0 }

  function Without(ranges: seq<Range>, i: nat): seq<Range>
    requires i < |ranges|
  {
    ranges[..i] + ranges[i + 1..]
  }

  lemma {:induction false} CountWithout(ranges: seq<Range>, i: nat, pageSize: nat, page: nat)
    requires i < |ranges| && pageSize > 0
    ensures Count(Without(ranges, i), pageSize, page) + (if Touches(ranges[i], pageSize, page) then 1 else 0)
            == Count(ranges, pageSize, page)
  {
    if i < |ranges| - 1 {
      assert Front(Without(ranges, i)) == Without(Front(ranges), i) && Last(Without(ranges, i)) == Last(ranges);
      CountWithout(Front(ranges), i, pageSize, page);
    } else {
      assert Without(ranges, i) == Front(ranges);
    }
  }

  /** The pages the operating system keeps in memory. */
  class Locker {
    var locked: set<nat>

    constructor ()
      ensures locked == {}
    {
      locked := {};
    }

    method Lock(page: nat)
      modifies this
      ensures locked == old(locked) + {page}
    {
      locked := locked + {page};
    }

    method Unlock(page: nat)
      modifies this
      ensures locked == old(locked) - {page}
    {
      locked := locked - {page};
    }
  }

  class LockedPageManager {
    const pageSize: nat
    const locker: Locker
    var histogram: Histogram
    ghost var outstanding: seq<Range>

    /** The histogram counts the outstanding ranges on each page; exactly the counted pages are locked. */
    ghost predicate Valid()
      reads this, locker
    {
      && pageSize > 0
      && (forall page: nat :: CountIn(histogram, page) == Count(outstanding, pageSize, page))
      && (forall page :: page in histogram ==> histogram[page] > 0)
      && locker.locked == histogram.Keys
    }

    constructor (pageSize: nat)
      requires pageSize > 0
      ensures Valid() && outstanding == [] && this.pageSize == pageSize && fresh(locker)
    {
      locker := new Locker();
      this.pageSize, histogram, outstanding := pageSize, map[], [];
    }

    method LockPage(page: nat)
      modifies this`histogram, locker
      ensures histogram == old(histogram)[page := CountIn(old(histogram), page) + 1]
      ensures old(locker.locked == histogram.Keys) ==> locker.locked == histogram.Keys
    {
      if page !in histogram {
        locker.Lock(page);
        histogram := histogram[page := 1];
      } else {
        histogram := histogram[page := histogram[page] + 1];
      }
    }

    method UnlockPage(page: nat)
      requires page in histogram && histogram[page] > 0
      modifies this`histogram, locker
      ensures var n := old(histogram)[page];
        histogram == if n == 1 then old(histogram) - {page} else old(histogram)[page := n - 1]
      ensures old(locker.locked == histogram.Keys) ==> locker.locked == histogram.Keys
    {
      histogram := histogram[page := histogram[page] - 1];
      if histogram[page] == 0 {
        locker.Unlock(page);
        histogram := histogram - {page};
      }
    }

    method LockRange(start: nat, size: nat)
      requires Valid()
      modifies this, locker
      ensures Valid() && outstanding == old(outstanding) + [Range(start, size)]
    {
      ghost var r, before := Range(start, size), outstanding;
      outstanding := outstanding + [r];
      assert Front(outstanding) == before;
      if size == 0 { return; }
      var page, endPage := start / pageSize, LastPage(Range(start, size), pageSize);
      while page <= endPage
        invariant outstanding == before + [r]
        invariant forall k: nat :: CountIn(histogram, k)
                                   == Count(before, pageSize, k) + if Touches(r, pageSize, k) && k < page then 1 else 0
        invariant forall k :: k in histogram ==> histogram[k] > 0
        invariant locker.locked == histogram.Keys
        decreases endPage + 1 - page
      {
        LockPage(page);
        page := page + 1;
      }
    }

    /** Undoes a lock that is outstanding: every page of the range is in the histogram. */
    method UnlockRange(start: nat, size: nat, ghost i: nat)
      requires Valid() && i < |outstanding| && outstanding[i] == Range(start, size)
      modifies this, locker
      ensures Valid() && outstanding == Without(old(outstanding), i)
    {
      ghost var r, before := Range(start, size), outstanding;
      outstanding := Without(outstanding, i);
      forall k: nat
        ensures Count(outstanding, pageSize, k) + (if Touches(r, pageSize, k) then 1 else 0)
                == Count(before, pageSize, k)
      {
        CountWithout(before, i, pageSize, k);
      }
      if size == 0 { return; }
      var page, endPage := start / pageSize, LastPage(Range(start, size), pageSize);
      while page <= endPage
        invariant start / pageSize <= page && outstanding == Without(before, i)
        invariant forall k: nat ::
          CountIn(histogram, k)
          == Count(outstanding, pageSize, k) + if Touches(r, pageSize, k) && k >= page then 1 else 0
        invariant forall k :: k in histogram ==> histogram[k] > 0
        invariant locker.locked == histogram.Keys
        decreases endPage + 1 - page
      {
        assert CountIn(histogram, page) > 0;
        UnlockPage(page);
        page := page + 1;
      }
    }

    /** A page is locked exactly while an outstanding range touches it. */
    lemma LockedIffTouched(page: nat)
      requires Valid()
      ensures page in locker.locked <==> exists i :: 0 <= i < |outstanding| && Touches(outstanding[i], pageSize, page)
    {
      TouchedIffCounted(outstanding, pageSize, page);
      assert CountIn(histogram, page) == Count(outstanding, pageSize, page);
    }
  }

  lemma {:induction false} TouchedIffCounted(ranges: seq<Range>, pageSize: nat, page: nat)
    requires pageSize > 0
    ensures Count(ranges, pageSize, page) > 0 <==> exists i :: 0 <= i < |ranges| && Touches(ranges[i], pageSize, page)
  {
    if ranges != [] {
      var n := |ranges| - 1;
      TouchedIffCounted(Front(ranges), pageSize, page);
      assert forall i :: 0 <= i < n ==> Front(ranges)[i] == ranges[i];
      assert Touches(Last(ranges), pageSize, page) ==> Touches(ranges[n], pageSize, page);
    }
  }
}
