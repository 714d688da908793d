/**
 * The estimate's earlier books (internal/api/handlers_bridge_estimate.go:189-230): the books of a
 * series before this one, searched nearest first, a chunk at a time, with a bound on how many are
 * found and another on how many are looked at.
 */
module Earlier {
  import opened Basics

  const MAX_EARLIER: nat := 10
  const MAX_EARLIER_CHECKED: nat := 30

  datatype Ids = Ids(asin: string, isbn: string)

  datatype Member = Member(path: string, ids: Ids, duration: int)

  /** What the community service knows of a book's ids. */
  datatype Coverage = Coverage(known: bool, recaps: bool)

  /** A book is offered with metadata off, else when it is known to have no recaps. */
  predicate Qualifies(m: Member, metadataOn: bool, coverage: Ids -> Coverage) {
    !metadataOn || (coverage(m.ids).known && !coverage(m.ids).recaps)
  }

  /** The members that qualify, in their order. */
  function Offered(members: seq<Member>, metadataOn: bool, coverage: Ids -> Coverage): seq<Member> {
    if members == [] then []
    else
      var n := |members| - 1;
      var before := Offered(members[..n], metadataOn, coverage);
      if Qualifies(members[n], metadataOn, coverage) then before + [members[n]] else before
  }

  /** The last n of s, all of it when it is shorter. */
  function Last<T>(s: seq<T>, n: nat): seq<T> {
    s[Max(0, |s| - n)..]
  }

  function Reverse<T>(s: seq<T>): (r: seq<T>)
    ensures |r| == |s|
  {
    if s == [] then [] else [s[|s| - 1]] + Reverse(s[..|s| - 1])
  }

  lemma {:induction false} ReverseAt<T>(s: seq<T>, i: nat)
    requires i < |s|
    ensures Reverse(s)[i] == s[|s| - 1 - i]
  {
    if i > 0 {
      ReverseAt(s[..|s| - 1], i - 1);
    }
  }

  lemma {:induction false} ReverseAppend<T>(x: T, s: seq<T>)
    ensures Reverse([x] + s) == Reverse(s) + [x]
  {
    var t := [x] + s;
    forall i | 0 <= i < |t| ensures Reverse(t)[i] == (Reverse(s) + [x])[i] {
      ReverseAt(t, i);
      if i < |s| {
        ReverseAt(s, i);
      }
    }
  }

  lemma {:induction false} ReverseTwice<T>(s: seq<T>)
    ensures Reverse(Reverse(s)) == s
  {
    forall i | 0 <= i < |s| ensures Reverse(Reverse(s))[i] == s[i] {
      ReverseAt(Reverse(s), i);
      ReverseAt(s, |s| - 1 - i);
    }
  }

  lemma {:induction false} OfferedConcat(a: seq<Member>, b: seq<Member>, on: bool, coverage: Ids -> Coverage)
    ensures Offered(a + b, on, coverage) == Offered(a, on, coverage) + Offered(b, on, coverage)
  {
    if b == [] {
      assert a + b == a;
    } else {
      var n := |b| - 1;
      OfferedConcat(a, b[..n], on, coverage);
      assert (a + b)[..|a + b| - 1] == a + b[..n];
    }
  }

  /** One member more, in front of those already looked at. */
  lemma {:induction false} OfferedCons(members: seq<Member>, i: nat, end: nat, on: bool, coverage: Ids -> Coverage)
    requires i < end <= |members|
    ensures Offered(members[i..end], on, coverage) ==
      (if Qualifies(members[i], on, coverage) then [members[i]] else []) + Offered(members[i + 1..end], on, coverage)
  {
    assert members[i..end] == [members[i]] + members[i + 1..end];
    assert [members[i]][..0] == [];
    assert Offered([members[i]], on, coverage) == if Qualifies(members[i], on, coverage) then [members[i]] else [];
    OfferedConcat([members[i]], members[i + 1..end], on, coverage);
  }

  /** Looking backwards as far as members[i], what has been kept: nearest first, MAX_EARLIER at most. */
  function Kept(members: seq<Member>, i: nat, on: bool, coverage: Ids -> Coverage): (r: seq<Member>)
    requires i <= |members|
    ensures |r| <= MAX_EARLIER
    decreases |members| - i
  {
    if i == |members| then []
    else
      var r := Kept(members, i + 1, on, coverage);
      if |r| < MAX_EARLIER && Qualifies(members[i], on, coverage) then r + [members[i]] else r
  }

  /** One member further from the end of a chunk, by the coverage asked for the chunk. */
  lemma {:induction false} KeptOneMore(members: seq<Member>, start: nat, end: nat, i: nat, cov: seq<Coverage>,
                                             was: seq<Member>, on: bool, coverage: Ids -> Coverage)
    requires start <= end <= |members| && i < end - start
    requires cov == if on then Coverages(members[start..end], coverage) else []
    requires was == Kept(members, start + i + 1, on, coverage) && |was| < MAX_EARLIER
    ensures (if on && (cov[i].recaps || !cov[i].known) then was else was + [members[start..end][i]])
      == Kept(members, start + i, on, coverage)
  {
  }

  /** Once enough are found, looking further finds nothing nearer. */
  lemma {:induction false} KeptEnough(members: seq<Member>, j: nat, i: nat, on: bool, coverage: Ids -> Coverage)
    requires j <= i <= |members| && |Kept(members, i, on, coverage)| == MAX_EARLIER
    ensures Kept(members, j, on, coverage) == Kept(members, i, on, coverage)
    decreases i - j
  {
    if j < i {
      KeptEnough(members, j + 1, i, on, coverage);
    }
  }

  lemma LastCons<T>(x: T, s: seq<T>, n: nat)
    ensures Last([x] + s, n) == if |s| < n then [x] + Last(s, n) else Last(s, n)
  {
  }

  /** What is kept is the nearest of all that is offered, the other way round. */
  lemma {:induction false} KeptIsNearest(members: seq<Member>, i: nat, on: bool, coverage: Ids -> Coverage)
    requires i <= |members|
    ensures Kept(members, i, on, coverage) == Reverse(Last(Offered(members[i..], on, coverage), MAX_EARLIER))
    decreases |members| - i
  {
    if i < |members| {
      KeptIsNearest(members, i + 1, on, coverage);
      OfferedCons(members, i, |members|, on, coverage);
      assert members[i..|members|] == members[i..] && members[i + 1..|members|] == members[i + 1..];
      var o := Offered(members[i + 1..], on, coverage);
      if Qualifies(members[i], on, coverage) {
        LastCons(members[i], o, MAX_EARLIER);
        ReverseAppend(members[i], Last(o, MAX_EARLIER));
      } else {
        assert [] + o == o;
      }
    }
  }

  /** The first member that may be looked at. */
  function Furthest(members: seq<Member>): nat {
    Max(0, |members| - MAX_EARLIER_CHECKED)
  }

  /** Where the search may stop: enough found, or every member that may be looked at. */
  lemma {:induction false} KeptAll(members: seq<Member>, end: nat, on: bool, coverage: Ids -> Coverage)
    requires Furthest(members) <= end <= |members|
    requires |Kept(members, end, on, coverage)| == MAX_EARLIER || end == Furthest(members)
    ensures Reverse(Kept(members, end, on, coverage)) ==
      Last(Offered(Last(members, MAX_EARLIER_CHECKED), on, coverage), MAX_EARLIER)
  {
    var first := Furthest(members);
    if end > first {
      KeptEnough(members, first, end, on, coverage);
    }
    KeptIsNearest(members, first, on, coverage);
    ReverseTwice(Last(Offered(members[first..], on, coverage), MAX_EARLIER));
  }

  /** The coverage of a chunk's books, asked for at once. */
  function Coverages(chunk: seq<Member>, coverage: Ids -> Coverage): (cov: seq<Coverage>)
    ensures |cov| == |chunk| && forall i :: 0 <= i < |chunk| ==> cov[i] == coverage(chunk[i].ids)
  {
    seq(|chunk|, i requires 0 <= i < |chunk| => coverage(chunk[i].ids))
  }

  /** One chunk, members[start..end], searched from its end. */
  method SearchChunk(members: seq<Member>, start: nat, end: nat, found: seq<Member>, metadataOn: bool,
                     coverage: Ids -> Coverage)
    returns (out: seq<Member>)
    requires start <= end <= |members| && found == Kept(members, end, metadataOn, coverage)
    ensures out == Kept(members, start, metadataOn, coverage)
  {
    var chunk := members[start..end];
    var cov := if metadataOn then Coverages(chunk, coverage) else [];
    out := found;
    var i := |chunk|;
    while i > 0 && |out| < MAX_EARLIER
      invariant 0 <= i <= |chunk|
      invariant out == Kept(members, start + i, metadataOn, coverage)
    {
      i := i - 1;
      KeptOneMore(members, start, end, i, cov, out, metadataOn, coverage);
      if !(metadataOn && (cov[i].recaps || !cov[i].known)) {
        out := out + [chunk[i]];
      }
    }
    if i > 0 {
      KeptEnough(members, start, start + i, metadataOn, coverage);
    }
  }

  /**
   * earlierWithoutRecaps: whatever the number of members, the result is, in reading order, exactly
   * the nearest 10 of those that qualify among the last 30 members.
   */
  method EarlierWithoutRecaps(members: seq<Member>, metadataOn: bool, coverage: Ids -> Coverage)
    returns (out: seq<Member>)
    ensures out == Last(Offered(Last(members, 30), metadataOn, coverage), 10)
  {
    out := [];
    var end: int, checked: nat := |members|, 0;
    while end > 0 && |out| < MAX_EARLIER && checked < MAX_EARLIER_CHECKED
      invariant end <= |members| && checked <= MAX_EARLIER_CHECKED
      invariant end > 0 ==> end + checked == |members| && checked % MAX_EARLIER == 0
      invariant end <= 0 ==> |members| <= MAX_EARLIER_CHECKED
      invariant out == Kept(members, Max(0, end), metadataOn, coverage)
      decreases end
    {
      var start := Max(0, end - MAX_EARLIER);
      checked := checked + (end - start);
      out := SearchChunk(members, start, end, out, metadataOn, coverage);
      end := end - MAX_EARLIER;
    }
    KeptAll(members, Max(0, end), metadataOn, coverage);
    out := Reverse(out);
  }

  // --------------------------------------------------------------- what that is

  /** The places from first up to n of the members that qualify. */
  function Places(members: seq<Member>, first: nat, n: nat, on: bool, coverage: Ids -> Coverage): seq<nat>
    requires n <= |members|
  {
    if n <= first then []
    else
      var before := Places(members, first, n - 1, on, coverage);
      if Qualifies(members[n - 1], on, coverage) then before + [n - 1] else before
  }

  ghost predicate Increasing(at: seq<nat>) {
    forall i, j :: 0 <= i < j < |at| ==> at[i] < at[j]
  }

  /** at lists, in order, exactly the places from first up to n of the members that qualify. */
  ghost predicate ArePlaces(at: seq<nat>, members: seq<Member>, first: nat, n: nat, on: bool, coverage: Ids -> Coverage)
    requires n <= |members|
  {
    && Increasing(at)
    && (forall k <- at :: first <= k < n && Qualifies(members[k], on, coverage))
    && (forall k: nat :: first <= k < n && Qualifies(members[k], on, coverage) ==> k in at)
  }

  lemma OnePlaceMore(at: seq<nat>, members: seq<Member>, first: nat, n: nat, on: bool, coverage: Ids -> Coverage)
    requires first < n <= |members| && ArePlaces(at, members, first, n - 1, on, coverage)
    ensures var more := if Qualifies(members[n - 1], on, coverage) then at + [n - 1] else at;
      ArePlaces(more, members, first, n, on, coverage)
  {
    var last: nat := n - 1;
    var more := at + [last];
    assert more[|at|] == last;
    assert forall i :: 0 <= i < |at| ==> more[i] == at[i] && at[i] in at;
    assert forall k :: k in more <==> k in at || k == last;
  }

  lemma {:induction false} PlacesAreExact(members: seq<Member>, first: nat, n: nat, on: bool, coverage: Ids -> Coverage)
    requires n <= |members|
    ensures ArePlaces(Places(members, first, n, on, coverage), members, first, n, on, coverage)
  {
    if n > first {
      PlacesAreExact(members, first, n - 1, on, coverage);
      OnePlaceMore(Places(members, first, n - 1, on, coverage), members, first, n, on, coverage);
    }
  }

  lemma {:induction false} PlacesAreOffered(members: seq<Member>, first: nat, n: nat, on: bool,
                                            coverage: Ids -> Coverage)
    requires first <= n <= |members|
    ensures var at, offered := Places(members, first, n, on, coverage), Offered(members[first..n], on, coverage);
      |at| == |offered| && forall i :: 0 <= i < |at| ==> at[i] < |members| && members[at[i]] == offered[i]
  {
    if n > first {
      PlacesAreOffered(members, first, n - 1, on, coverage);
      assert members[first..n][..n - first - 1] == members[first..n - 1];
    }
  }

  /** out is what stands at those places of members, in their order; they are at most 10, among
      the last 30, and qualify; and none that qualifies there was passed over
      for one further away. */
  ghost predicate NearestAt(out: seq<Member>, at: seq<nat>, members: seq<Member>, on: bool, coverage: Ids -> Coverage) {
    && |at| == |out| <= 10 && Increasing(at)
    && (forall i :: 0 <= i < |at| ==>
          Furthest(members) <= at[i] < |members| && members[at[i]] == out[i] && Qualifies(members[at[i]], on, coverage))
    && (forall k :: Furthest(members) <= k < |members| && Qualifies(members[k], on, coverage) && k !in at ==>
          |at| == 10 && k < at[0])
  }

  lemma {:induction false} LastIsLast(at: seq<nat>, n: nat)
    requires Increasing(at) && n > 0
    ensures Increasing(Last(at, n)) && |Last(at, n)| <= n
    ensures forall k <- at :: k in Last(at, n) || (|Last(at, n)| == n && k < Last(at, n)[0])
  {
    var cut := |at| - |Last(at, n)|;
    assert Last(at, n) == at[cut..];
    forall k <- at ensures k in Last(at, n) || (|Last(at, n)| == n && k < Last(at, n)[0]) {
      var i :| 0 <= i < |at| && at[i] == k;
      assert i >= cut ==> Last(at, n)[i - cut] == k;
    }
  }

  lemma LastPlaces(members: seq<Member>, places: seq<nat>, offered: seq<Member>, n: nat)
    requires |places| == |offered| && forall i :: 0 <= i < |places| ==>
      places[i] < |members| && members[places[i]] == offered[i]
    ensures var at, out := Last(places, n), Last(offered, n);
      |at| == |out| && forall i :: 0 <= i < |at| ==> at[i] in places && at[i] < |members| && members[at[i]] == out[i]
  {
    var at, out := Last(places, n), Last(offered, n);
    forall i | 0 <= i < |at| ensures at[i] in places && at[i] < |members| && members[at[i]] == out[i] {
      assert at[i] == places[|places| - |at| + i] && out[i] == offered[|places| - |at| + i];
    }
  }

  lemma LastAreNearest(members: seq<Member>, places: seq<nat>, offered: seq<Member>, on: bool,
                       coverage: Ids -> Coverage)
    requires ArePlaces(places, members, Furthest(members), |members|, on, coverage)
    requires |places| == |offered| && forall i :: 0 <= i < |places| ==>
      places[i] < |members| && members[places[i]] == offered[i]
    ensures NearestAt(Last(offered, MAX_EARLIER), Last(places, MAX_EARLIER), members, on, coverage)
  {
    LastIsLast(places, MAX_EARLIER);
    LastPlaces(members, places, offered, MAX_EARLIER);
  }

  /** What EarlierWithoutRecaps returns, said of the members' places. */
  lemma {:induction false} EarlierIsExact(members: seq<Member>, on: bool, coverage: Ids -> Coverage)
    ensures exists at ::
      NearestAt(Last(Offered(Last(members, 30), on, coverage), 10), at, members, on, coverage)
  {
    var first, n := Furthest(members), |members|;
    assert members[first..n] == Last(members, MAX_EARLIER_CHECKED);
    PlacesAreExact(members, first, n, on, coverage);
    PlacesAreOffered(members, first, n, on, coverage);
    var places, offered := Places(members, first, n, on, coverage), Offered(members[first..n], on, coverage);
    LastAreNearest(members, places, offered, on, coverage);
  }
}
