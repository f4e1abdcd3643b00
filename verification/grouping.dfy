/**
 * Plain JavaScript objects used as dictionaries of `{ count, totalDays }`
 * tallies, keyed by a name. Keys keep their order of first insertion, as
 * `Object.keys`/`Object.values` list non-numeric keys.
 */
module Grouping {
  import opened Collections

  /** One element to tally: the key it is grouped under and the days it adds. */
  datatype Entry = Entry(key: string, days: int)

  /** One dictionary slot: `dict[key] = { count, totalDays }`. */
  datatype Bucket = Bucket(key: string, count: nat, totalDays: int)

  function Keys(bs: seq<Bucket>): (r: seq<string>)
    ensures |r| == |bs| && forall i :: 0 <= i < |bs| ==> r[i] == bs[i].key
  {
    MapSeq(bs, (b: Bucket) => b.key)
  }

  function CountOf(b: Bucket): int { b.count }

  function DaysOf(b: Bucket): int { b.totalDays }

  /** The sum of the counts of all slots. */
  function Counts(bs: seq<Bucket>): int {
    SumOf(bs, CountOf)
  }

  /** The sum of the totalDays of all slots. */
  function Days(bs: seq<Bucket>): int {
    SumOf(bs, DaysOf)
  }

  /** The slot for `key`, or a zero tally when the key was never inserted. */
  function Lookup(bs: seq<Bucket>, key: string): (b: Bucket)
    ensures b.key == key
  {
    if bs == [] then Bucket(key, 0, 0)
    else if bs[0].key == key then bs[0]
    else Lookup(bs[1..], key)
  }

  /** A key that was inserted is read from its slot; any other reads as a zero tally. */
  lemma {:induction false} LookupFound(bs: seq<Bucket>, key: string)
    ensures key in Keys(bs) ==> Lookup(bs, key) in bs
    ensures key !in Keys(bs) ==> Lookup(bs, key) == Bucket(key, 0, 0)
  {
    if bs != [] && bs[0].key != key {
      assert Keys(bs) == [bs[0].key] + Keys(bs[1..]);
      LookupFound(bs[1..], key);
    }
  }

  /**
   * Tallies one element under `key`: a new key gets a zero slot at the end
   * first, then the slot's count grows by one and its totalDays by `days`.
   */
  function Add(bs: seq<Bucket>, key: string, days: int): (r: seq<Bucket>)
    ensures key in Keys(bs) ==> Keys(r) == Keys(bs)
    ensures key !in Keys(bs) ==> Keys(r) == Keys(bs) + [key]
  {
    if bs == [] then [Bucket(key, 1, days)]
    else if bs[0].key == key then [bs[0].(count := bs[0].count + 1, totalDays := bs[0].totalDays + days)] + bs[1..]
    else [bs[0]] + Add(bs[1..], key, days)
  }

  /** The summed tallies grow by exactly the one element added. */
  lemma {:induction false} AddSums(bs: seq<Bucket>, key: string, days: int)
    ensures Counts(Add(bs, key, days)) == Counts(bs) + 1
    ensures Days(Add(bs, key, days)) == Days(bs) + days
  {
    var r := Add(bs, key, days);
    SumOfCons(r, CountOf);
    SumOfCons(r, DaysOf);
    if bs != [] {
      SumOfCons(bs, CountOf);
      SumOfCons(bs, DaysOf);
      if bs[0].key != key {
        assert r[1..] == Add(bs[1..], key, days);
        AddSums(bs[1..], key, days);
      } else {
        assert r[1..] == bs[1..];
      }
    }
  }

  /** Adding under `key` bumps that slot's tally and no other. */
  lemma {:induction false} AddLookup(bs: seq<Bucket>, key: string, days: int, k: string)
    ensures Lookup(Add(bs, key, days), k) ==
      if k == key then Lookup(bs, k).(count := Lookup(bs, k).count + 1, totalDays := Lookup(bs, k).totalDays + days)
      else Lookup(bs, k)
  {
    if bs != [] && bs[0].key != key {
      AddLookup(bs[1..], key, days, k);
    }
  }

  /** Tallying a whole sequence, first element first. */
  function GroupAll(es: seq<Entry>): seq<Bucket> {
    if es == [] then [] else Add(GroupAll(es[..|es| - 1]), es[|es| - 1].key, es[|es| - 1].days)
  }

  /** Every key is listed once. */
  lemma {:induction false} GroupAllDistinct(es: seq<Entry>)
    ensures Distinct(Keys(GroupAll(es)))
  {
    if es != [] {
      GroupAllDistinct(es[..|es| - 1]);
    }
  }

  /** The listed keys are exactly the keys of the elements. */
  lemma {:induction false} GroupAllKeys(es: seq<Entry>, k: string)
    ensures k in Keys(GroupAll(es)) <==> exists i :: 0 <= i < |es| && es[i].key == k
  {
    if es != [] {
      var init := es[..|es| - 1];
      GroupAllKeys(init, k);
      if exists i :: 0 <= i < |init| && init[i].key == k {
        var i :| 0 <= i < |init| && init[i].key == k;
        assert es[i].key == k;
      }
      if exists i :: 0 <= i < |es| && es[i].key == k {
        var i :| 0 <= i < |es| && es[i].key == k;
        if i < |init| {
          assert init[i].key == k;
        }
      }
    }
  }

  /** Every element is tallied once: the counts sum to the length and the days to the day sum. */
  lemma {:induction false} GroupAllSums(es: seq<Entry>)
    ensures Counts(GroupAll(es)) == |es|
    ensures Days(GroupAll(es)) == SumOf(es, (e: Entry) => e.days)
  {
    if es != [] {
      var init := es[..|es| - 1];
      GroupAllSums(init);
      AddSums(GroupAll(init), es[|es| - 1].key, es[|es| - 1].days);
    }
  }

  function EntryDays(e: Entry): int { e.days }

  /** The test picking the elements keyed `k`. */
  function KeyIs(k: string): Entry -> bool {
    (e: Entry) => e.key == k
  }

  /** Tallying one more element moves only the slot of its key. */
  lemma GroupAllSnoc(init: seq<Entry>, last: Entry, k: string)
    ensures var before, after := Lookup(GroupAll(init), k), Lookup(GroupAll(init + [last]), k);
      after.count == before.count + (if last.key == k then 1 else 0) &&
      after.totalDays == before.totalDays + (if last.key == k then last.days else 0)
  {
    assert (init + [last])[..|init|] == init;
    AddLookup(GroupAll(init), last.key, last.days, k);
  }

  /** The elements keyed `k` gain at most the one element added. */
  lemma KeyedSnoc(init: seq<Entry>, last: Entry, k: string)
    ensures Count(init + [last], KeyIs(k)) == Count(init, KeyIs(k)) + (if last.key == k then 1 else 0)
    ensures SumOf(Filter(init + [last], KeyIs(k)), EntryDays) ==
      SumOf(Filter(init, KeyIs(k)), EntryDays) + (if last.key == k then last.days else 0)
  {
    FilterSnocSums(init, last, KeyIs(k), EntryDays);
    assert KeyIs(k)(last) == (last.key == k);
  }

  /** The slot of `k` counts the elements keyed `k` and sums exactly their days. */
  lemma {:induction false} GroupAllLookup(es: seq<Entry>, k: string)
    ensures Lookup(GroupAll(es), k).count == Count(es, KeyIs(k))
    ensures Lookup(GroupAll(es), k).totalDays == SumOf(Filter(es, KeyIs(k)), EntryDays)
  {
    if es != [] {
      var init, last := es[..|es| - 1], es[|es| - 1];
      assert es == init + [last];
      GroupAllLookup(init, k);
      GroupAllSnoc(init, last, k);
      KeyedSnoc(init, last, k);
    }
  }
}
