/** The field-mapping panel of `handleGeocode`: the example rotation built
    by `showExample` and the selection-change handler `onChosen`, with the
    interval timers they start and clear. */
module Chooser {
  import opened Base
  import opened Rows

  const GeocodeLabel := "Geocode"
  const NeedFieldLabel := "At least one field required to geocode"

  /** One step of `showExample`'s counter: `if (++i > list.length) i = 0`. */
  function NextIndex(i: int, n: nat): int
  {
    if i + 1 > n then 0 else i + 1
  }

  /** The counter after `k` calls, starting from 0. */
  ghost function IndexAfter(k: nat, n: nat): int
  {
    if k == 0 then 0 else NextIndex(IndexAfter(k - 1, n), n)
  }

  /** The example text for `list[i]`; an index past the end reads
      `undefined`, which has no entries, so the text is empty. */
  function ExampleText(fields: seq<string>, list: seq<Row>, i: int): string
  {
    if 0 <= i < |list| then TransformRow(fields, list[i]) else ""
  }

  /** The counter always lies in `0..n`, one more value than there are rows. */
  lemma {:induction false} IndexInRange(k: nat, n: nat)
    ensures 0 <= IndexAfter(k, n) <= n
  {
    if k > 0 {
      IndexInRange(k - 1, n);
    }
  }

  /** The first lap visits 1, 2, …, n: the `k`-th call reads `list[k]`. */
  lemma {:induction false} FirstLap(k: nat, n: nat)
    requires k <= n
    ensures IndexAfter(k, n) == k
  {
    if k > 0 {
      FirstLap(k - 1, n);
    }
  }

  /** After n + 1 calls the counter is back where it started: it cycles
      through the n + 1 values 1, …, n, 0. */
  lemma {:induction false} IndexPeriodic(k: nat, n: nat)
    ensures IndexAfter(k + n + 1, n) == IndexAfter(k, n)
  {
    if k == 0 {
      FirstLap(n, n);
    } else {
      IndexPeriodic(k - 1, n);
    }
  }

  /** The n-th call of every lap reads one past the end of the list and shows
      an empty example. */
  lemma ReadsPastEnd(fields: seq<string>, list: seq<Row>, lap: nat)
    ensures IndexAfter(lap * (|list| + 1) + |list|, |list|) == |list|
    ensures ExampleText(fields, list, IndexAfter(lap * (|list| + 1) + |list|, |list|)) == ""
  {
    var n := |list|;
    var k := 0;
    FirstLap(n, n);
    while k < lap
      invariant k <= lap
      invariant IndexAfter(k * (n + 1) + n, n) == n
    {
      IndexPeriodic(k * (n + 1) + n, n);
      assert (k + 1) * (n + 1) + n == k * (n + 1) + n + n + 1;
      k := k + 1;
    }
  }

  /** The corrected counter: starting from -1, `if (++i >= n) i = 0`
      visits 0, 1, …, n - 1. */
  function FixedNextIndex(i: int, n: nat): int
  {
    if i + 1 >= n then 0 else i + 1
  }

  ghost function FixedIndexAfter(k: nat, n: nat): int
  {
    if k == 0 then -1 else FixedNextIndex(FixedIndexAfter(k - 1, n), n)
  }

  /** With the corrected counter every call reads a row of a non-empty list,
      and the first lap shows rows 0, 1, …, n - 1. */
  lemma {:induction false} FixedIndexInRange(k: nat, n: nat)
    requires n > 0 && k > 0
    ensures 0 <= FixedIndexAfter(k, n) < n
    ensures k <= n ==> FixedIndexAfter(k, n) == k - 1
  {
    if k > 1 {
      FixedIndexInRange(k - 1, n);
    }
  }

  /** The corrected counter shows a real row's address at every call. */
  lemma FixedNeverBlank(fields: seq<string>, list: seq<Row>, k: nat)
    requires |list| > 0 && k > 0
    ensures 0 <= FixedIndexAfter(k, |list|) < |list|
      && ExampleText(fields, list, FixedIndexAfter(k, |list|)) ==
        TransformRow(fields, list[FixedIndexAfter(k, |list|)])
  {
    FixedIndexInRange(k, |list|);
  }

  /** The closure `showExample(fields)` returns: its counter `i` and what it
      captured. */
  class Rotation {
    const fields: seq<string>
    const list: seq<Row>
    var i: int
    ghost var ticks: nat

    ghost predicate Valid()
      reads this
    {
      i == IndexAfter(ticks, |list|)
    }

    constructor (fields: seq<string>, list: seq<Row>)
      ensures Valid() && this.fields == fields && this.list == list && i == 0 && ticks == 0
    {
      this.fields := fields;
      this.list := list;
      i := 0;
      ticks := 0;
    }

    /** One call of the closure: advance the counter and return the text it
        writes into the example element. */
    method Tick() returns (text: string)
      requires Valid()
      modifies this
      ensures Valid() && ticks == old(ticks) + 1
      ensures i == NextIndex(old(i), |list|) && 0 <= i <= |list|
      ensures text == ExampleText(fields, list, i)
    {
      i := i + 1;
      if i > |list| {
        i := 0;
      }
      ticks := ticks + 1;
      IndexInRange(ticks, |list|);
      text := ExampleText(fields, list, i);
    }
  }

  /** The state `handleGeocode` keeps for its lifetime: the link's state and
      click handler, the example text, the handle `ti` and the intervals
      that are set and not cleared, each with its rotation. */
  class Panel {
    const list: seq<Row>
    var example: string
    var linkEnabled: bool
    var linkText: string
    var onClick: Option<seq<string>>   // the fields the link's click handler geocodes with
    var ti: Option<nat>                // undefined until the first interval is set
    var live: map<nat, Rotation>       // handle -> the rotation it calls every 2 seconds
    var nextHandle: nat                // setInterval's next handle; handles are positive

    ghost predicate Valid()
      reads this, live.Values
    {
      && 0 < nextHandle
      && (ti.Some? ==> 0 < ti.value < nextHandle)
      && (forall h :: h in live ==> ti == Some(h))
      && (forall h :: h in live ==> live[h].list == list && live[h].Valid() && onClick == Some(live[h].fields))
    }

    constructor (list: seq<Row>)
      ensures Valid() && this.list == list
      ensures !linkEnabled && linkText == NeedFieldLabel && example == "" && onClick == None
      ensures ti == None && live == map[]
    {
      this.list := list;
      example := "";
      linkEnabled := false;
      linkText := NeedFieldLabel;
      onClick := None;
      ti := None;
      live := map[];
      nextHandle := 1;
    }

    /** `onChosen(fields)`: clear the interval in `ti`, then either enable the
        link and start a new rotation, or disable it and blank the example. */
    method OnChosen(fields: seq<string>)
      requires Valid()
      modifies this
      ensures Valid()
      ensures old(ti).Some? ==> old(ti).value !in live
      ensures |fields| > 0 ==>
        && linkEnabled && linkText == GeocodeLabel && onClick == Some(fields)
        && ti == Some(old(nextHandle)) && nextHandle == old(nextHandle) + 1
        && live.Keys == {old(nextHandle)} && fresh(live[old(nextHandle)])
        && live[old(nextHandle)].fields == fields && live[old(nextHandle)].ticks == 1
        && example == ExampleText(fields, list, NextIndex(0, |list|))
      ensures |fields| == 0 ==>
        && !linkEnabled && linkText == NeedFieldLabel && example == ""
        && live == map[] && ti == old(ti) && onClick == old(onClick) && nextHandle == old(nextHandle)
    {
      if ti.Some? {
        live := live - {ti.value};
      }
      assert live == map[];
      if |fields| > 0 {
        linkEnabled := true;
        linkText := GeocodeLabel;
        onClick := Some(fields);
        var se := new Rotation(fields, list);
        var text := se.Tick();
        example := text;
        ti := Some(nextHandle);
        live := live[nextHandle := se];
        nextHandle := nextHandle + 1;
      } else {
        linkEnabled := false;
        linkText := NeedFieldLabel;
        example := "";
      }
    }

    /** The interval `h` fires: its rotation advances and writes the example. */
    method Fire(h: nat)
      requires Valid() && h in live
      modifies this`example, live[h]
      ensures Valid()
      ensures live[h].ticks == old(live[h].ticks) + 1
      ensures live[h].i == NextIndex(old(live[h].i), |list|)
      ensures example == ExampleText(live[h].fields, list, live[h].i)
    {
      var text := live[h].Tick();
      example := text;
    }
  }

  /** At most one rotation timer is ever live, and it is the one in `ti`. */
  lemma AtMostOneTimer(c: Panel)
    requires c.Valid()
    ensures |c.live.Keys| <= 1
    ensures c.live != map[] ==> c.ti.Some? && c.live.Keys == {c.ti.value}
  {
    if c.live != map[] {
      var h :| h in c.live;
      assert c.live.Keys == {h};
    }
  }
}
