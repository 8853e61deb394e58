/** `fetchWithProxy` reduced to its effect on the shared accumulator: a source
    either appends exactly its normalised records or leaves the accumulator as
    it was. The transport is replaced by the outcome it produced. */
module Fetcher {
  import opened JsValues
  import opened Normalise

  /** How one request through the relay ended. */
  datatype Attempt =
    | NetworkError           // `fetch` or `response.text()` rejected
    | HttpError(status: int) // `response.ok` was false
    | InvalidJson            // `JSON.parse` threw on the body
    | Received(data: Value)  // the body parsed to `data`

  /** One source whose fetch has run to its end. */
  datatype Settled = Settled(source: Source, attempt: Attempt)

  /** The records the fetch of one source pushes onto the accumulator. Every
      exception, including one thrown while normalising, is caught inside the
      fetch, so a failure contributes nothing; what a payload contributes is
      objects stamped with the source they came from. */
  function Contribution(s: Settled): (r: seq<Value>)
    ensures |r| > 0 ==> s.attempt.Received? && NormaliseData(s.attempt.data, s.source).Ok?
    ensures s.attempt.Received? && NormaliseData(s.attempt.data, s.source).Ok? ==>
              r == NormaliseData(s.attempt.data, s.source).value
    ensures forall i :: 0 <= i < |r| ==>
              r[i].Obj? && "source" in r[i].fields && r[i].fields["source"] == SourceValue(s.source)
  {
    match s.attempt
    case Received(data) =>
      (match NormaliseData(data, s.source)
       case Ok(records) => records
       case Err(_) => [])
    case _ => []
  }

  /** The accumulator after the fetches in `cycle` settle, in that order, each
      pushing onto what the previous ones left. */
  function Collect(acc: seq<Value>, cycle: seq<Settled>): (r: seq<Value>)
    ensures |r| >= |acc| && r[..|acc|] == acc
    decreases |cycle|
  {
    if |cycle| == 0 then acc
    else Collect(acc + Contribution(cycle[0]), cycle[1..])
  }

  /** The records of a cycle concatenated in settling order: a reference for
      `Collect` that does not thread an accumulator. */
  function Gathered(cycle: seq<Settled>): (r: seq<Value>)
    decreases |cycle|
  {
    if |cycle| == 0 then [] else Contribution(cycle[0]) + Gathered(cycle[1..])
  }

  /** How many records a cycle adds. */
  function Added(cycle: seq<Settled>): (n: nat)
    decreases |cycle|
  {
    if |cycle| == 0 then 0 else |Contribution(cycle[0])| + Added(cycle[1..])
  }

  /** Concatenation is associative. */
  lemma ConcatAssoc(a: seq<Value>, b: seq<Value>, c: seq<Value>)
    ensures (a + b) + c == a + (b + c)
  {
  }

  /** The accumulator after a cycle is what it held before followed by the
      cycle's records: nothing that was there is reset, reordered or lost. */
  lemma {:induction false} CollectAppends(acc: seq<Value>, cycle: seq<Settled>)
    ensures Collect(acc, cycle) == acc + Gathered(cycle)
    decreases |cycle|
  {
    if |cycle| > 0 {
      var first := Contribution(cycle[0]);
      var rest := Gathered(cycle[1..]);
      CollectAppends(acc + first, cycle[1..]);
      ConcatAssoc(acc, first, rest);
    }
  }

  /** Where one source's records land: after everything the sources that
      ended before it left, and before the records of those that ended after. */
  lemma RecordsLandInOrder(acc: seq<Value>, before: seq<Settled>, s: Settled, after: seq<Settled>)
    ensures Collect(acc, before + [s] + after) == Collect(acc, before) + Contribution(s) + Gathered(after)
  {
    assert before + [s] + after == before + ([s] + after);
    CollectTwoCycles(acc, before, [s] + after);
    var mid := Collect(acc, before);
    CollectAppends(mid, [s] + after);
    assert ([s] + after)[1..] == after;
    assert Gathered([s] + after) == Contribution(s) + Gathered(after);
    ConcatAssoc(mid, Contribution(s), Gathered(after));
  }

  /** The gathered records number the sum of the sources' contributions. */
  lemma {:induction false} GatheredLength(cycle: seq<Settled>)
    ensures |Gathered(cycle)| == Added(cycle)
    decreases |cycle|
  {
    if |cycle| > 0 {
      GatheredLength(cycle[1..]);
    }
  }

  /** The length added by a cycle is the sum of the sources' record counts. */
  lemma CollectLength(acc: seq<Value>, cycle: seq<Settled>)
    ensures |Collect(acc, cycle)| == |acc| + Added(cycle)
  {
    CollectAppends(acc, cycle);
    GatheredLength(cycle);
  }

  /** Running two cycles one after the other is one cycle over both. */
  lemma {:induction false} CollectTwoCycles(acc: seq<Value>, first: seq<Settled>, second: seq<Settled>)
    ensures Collect(Collect(acc, first), second) == Collect(acc, first + second)
    decreases |first|
  {
    if |first| > 0 {
      assert (first + second)[0] == first[0];
      assert (first + second)[1..] == first[1..] + second;
      CollectTwoCycles(acc + Contribution(first[0]), first[1..], second);
    } else {
      assert first + second == second;
    }
  }

  /** A cycle whose every source failed leaves the accumulator unchanged. */
  lemma {:induction false} AllFailedAddsNothing(acc: seq<Value>, cycle: seq<Settled>)
    requires forall i :: 0 <= i < |cycle| ==> !cycle[i].attempt.Received?
    ensures Collect(acc, cycle) == acc
    decreases |cycle|
  {
    if |cycle| > 0 {
      assert acc + Contribution(cycle[0]) == acc;
      AllFailedAddsNothing(acc, cycle[1..]);
    }
  }

  /** The count of a concatenation is the sum of the counts. */
  lemma {:induction false} AddedConcat(a: seq<Settled>, b: seq<Settled>)
    ensures Added(a + b) == Added(a) + Added(b)
    decreases |a|
  {
    if |a| > 0 {
      assert (a + b)[0] == a[0];
      assert (a + b)[1..] == a[1..] + b;
      AddedConcat(a[1..], b);
    } else {
      assert a + b == b;
    }
  }

  /** Removing one settled source from a cycle removes its records from the count. */
  lemma AddedWithout(cycle: seq<Settled>, i: nat)
    requires i < |cycle|
    ensures Added(cycle) == |Contribution(cycle[i])| + Added(cycle[..i] + cycle[i + 1..])
  {
    assert cycle == cycle[..i] + ([cycle[i]] + cycle[i + 1..]);
    AddedConcat(cycle[..i], [cycle[i]] + cycle[i + 1..]);
    AddedConcat([cycle[i]], cycle[i + 1..]);
    AddedConcat(cycle[..i], cycle[i + 1..]);
  }

  /** Taking the same element out of two permutations of each other leaves
      permutations of each other. */
  lemma RemoveMatching<T>(a: seq<T>, b: seq<T>, i: nat)
    requires multiset(a) == multiset(b) && |a| > 0 && i < |b| && b[i] == a[0]
    ensures multiset(a[1..]) == multiset(b[..i] + b[i + 1..])
  {
    assert a == [a[0]] + a[1..];
    assert multiset(a[1..]) == multiset(a) - multiset{a[0]};
    assert b == b[..i] + [b[i]] + b[i + 1..];
    assert multiset(b) == multiset(b[..i]) + multiset{b[i]} + multiset(b[i + 1..]);
  }

  /** The number of records a cycle adds does not depend on the order in which
      its sources settle. */
  lemma {:induction false} AddedOrderIndependent(a: seq<Settled>, b: seq<Settled>)
    requires multiset(a) == multiset(b)
    ensures Added(a) == Added(b)
    decreases |a|
  {
    if |a| > 0 {
      assert a[0] in multiset(a);
      var i :| 0 <= i < |b| && b[i] == a[0];
      RemoveMatching(a, b, i);
      AddedWithout(b, i);
      AddedOrderIndependent(a[1..], b[..i] + b[i + 1..]);
    } else {
      assert |b| == |multiset(b)| == 0;
    }
  }
}
