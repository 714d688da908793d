/**
 * The list cache of internal/api/listcache.go: a bounded, generation-keyed LRU of
 * encoded answers. `Lru` is the pure cache; the class `ListCache` keeps the list,
 * the map and the byte count in place, as the server does, and is proved to be it.
 */
module ListCache {
  import opened Basics

  const LIST_CACHE_BYTES: int := 0x80_0000
  const LIST_CACHE_MAX_ENTRY: int := 0x10_0000
  const LIST_ENTRY_COST: int := 256

  /** A request's SHA-256 key, read as a number. */
  type Key = int

  /** A Go byte slice: nil, or contents with spare capacity behind them. */
  datatype Slice = Nil | Slice(bytes: Bytes, spare: nat) {
    function Len(): nat { if Nil? then 0 else |bytes| }
    function Cap(): nat { if Nil? then 0 else |bytes| + spare }
  }

  datatype Entry = Entry(key: Key, body: Slice, gz: Slice) {
    function Cost(): nat { body.Cap() + gz.Cap() + LIST_ENTRY_COST }
  }

  function Total(order: seq<Entry>): nat {
    if order == [] then 0 else Total(order[..|order| - 1]) + order[|order| - 1].Cost()
  }

  ghost predicate Distinct(order: seq<Entry>) {
    forall i, j :: 0 <= i < j < |order| ==> order[i].key != order[j].key
  }

  /** Where key is in order, |order| when it is not there. */
  function Find(order: seq<Entry>, key: Key): (i: nat)
    ensures i <= |order|
    ensures i < |order| ==> order[i].key == key
    ensures forall j :: 0 <= j < i ==> order[j].key != key
  {
    if order == [] || order[0].key == key then 0 else 1 + Find(order[1..], key)
  }

  /** order with its i-th entry moved to the front. */
  function Touch(order: seq<Entry>, i: nat): seq<Entry>
    requires i < |order|
  {
    [order[i]] + order[..i] + order[i + 1..]
  }

  /** How many entries, counted from the front, fit in room bytes (FittingIsMost). */
  function Fitting(order: seq<Entry>, room: int): (n: nat)
    ensures n <= |order|
  {
    if order == [] || Total(order) <= room then |order| else Fitting(order[..|order| - 1], room)
  }

  /** It is the most that fit: those do, and one more would not. */
  lemma {:induction false} FittingIsMost(order: seq<Entry>, room: int)
    ensures var n := Fitting(order, room);
      && (n > 0 ==> Total(order[..n]) <= room)
      && (n < |order| ==> Total(order[..n + 1]) > room)
  {
    assert order[..|order|] == order;
    if order != [] && Total(order) > room {
      var rest := order[..|order| - 1];
      FittingIsMost(rest, room);
      var n := Fitting(rest, room);
      assert rest[..n] == order[..n];
      if n < |rest| {
        assert rest[..n + 1] == order[..n + 1];
      }
    }
  }

  // ---------------------------------------------------------------- pure cache

  datatype Hit = Hit(body: Slice, gz: Slice)

  datatype Lru = Lru(gen: nat, order: seq<Entry>) {

    /** The cache moved forward to gen, without the entries of an older generation. */
    function At(gen: nat): Lru {
      if gen > this.gen then Lru(gen, []) else this
    }

    function Get(gen: nat, key: Key): (Lru, Option<Hit>) {
      var c := At(gen);
      if gen != c.gen then (c, None)
      else
        var i := Find(c.order, key);
        if i == |c.order| then (c, None)
        else (c.(order := Touch(c.order, i)), Some(Hit(c.order[i].body, c.order[i].gz)))
    }

    function Put(gen: nat, e: Entry): Lru {
      if e.body.Len() > LIST_CACHE_MAX_ENTRY then this
      else
        var c := At(gen);
        if gen != c.gen then c
        else
          var i := Find(c.order, e.key);
          if i < |c.order| then c.(order := Touch(c.order, i))
          else c.(order := [e] + c.order[..Fitting(c.order, LIST_CACHE_BYTES - e.Cost())])
    }
  }

  /** What every state of the cache keeps. */
  ghost predicate WellKept(c: Lru) {
    && Distinct(c.order)
    && (Total(c.order) <= 8 * 1024 * 1024 || |c.order| == 1)
  }

  lemma {:induction false} TotalConcat(a: seq<Entry>, b: seq<Entry>)
    ensures Total(a + b) == Total(a) + Total(b)
  {
    if b == [] {
      assert a + b == a;
    } else {
      var n := |b| - 1;
      TotalConcat(a, b[..n]);
      assert (a + b)[..|a + b| - 1] == a + b[..n];
    }
  }

  /** What Touch puts where. */
  lemma {:induction false} TouchAt(order: seq<Entry>, i: nat)
    requires i < |order|
    ensures |Touch(order, i)| == |order| && Touch(order, i)[0] == order[i]
    ensures forall j :: 0 < j <= i ==> Touch(order, i)[j] == order[j - 1]
    ensures forall j :: i < j < |order| ==> Touch(order, i)[j] == order[j]
  {
  }

  lemma {:induction false} TouchDistinct(order: seq<Entry>, i: nat)
    requires i < |order| && Distinct(order)
    ensures Distinct(Touch(order, i))
  {
    TouchAt(order, i);
    var t := Touch(order, i);
    forall a, b | 0 <= a < b < |t| ensures t[a].key != t[b].key {
      var a' := if a == 0 then i else if a <= i then a - 1 else a;
      var b' := if b <= i then b - 1 else b;
      assert t[a] == order[a'] && t[b] == order[b'] && a' != b';
    }
  }

  lemma {:induction false} TouchMembers(order: seq<Entry>, i: nat, e: Entry)
    requires i < |order|
    ensures e in Touch(order, i) <==> e in order
  {
    assert order == order[..i] + [order[i]] + order[i + 1..];
  }

  lemma {:induction false} TouchTotal(order: seq<Entry>, i: nat)
    requires i < |order|
    ensures Total(Touch(order, i)) == Total(order)
  {
    var front, e, back := order[..i], [order[i]], order[i + 1..];
    assert order == front + e + back;
    TotalOfThree(front, e, back);
    TotalOfThree(e, front, back);
  }

  lemma {:induction false} TotalOfThree(a: seq<Entry>, b: seq<Entry>, c: seq<Entry>)
    ensures Total(a + b + c) == Total(a) + Total(b) + Total(c)
  {
    TotalConcat(a + b, c);
    TotalConcat(a, b);
  }

  lemma {:induction false} PushTotal(e: Entry, order: seq<Entry>)
    ensures Total([e] + order) == e.Cost() + Total(order)
  {
    TotalConcat([e], order);
    assert [e][..0] == [];
  }

  lemma {:induction false} TouchKeeps(c: Lru, i: nat)
    requires WellKept(c) && i < |c.order|
    ensures WellKept(c.(order := Touch(c.order, i)))
  {
    TouchDistinct(c.order, i);
    TouchTotal(c.order, i);
  }

  /** A lookup keeps the cache well kept, whatever it is given. */
  lemma {:induction false} GetKeepsBound(c: Lru, gen: nat, key: Key)
    requires WellKept(c)
    ensures WellKept(c.Get(gen, key).0)
  {
    var a := c.At(gen);
    var i := Find(a.order, key);
    if gen == a.gen && i < |a.order| {
      TouchKeeps(a, i);
    }
  }

  lemma {:induction false} PushKeeps(c: Lru, e: Entry)
    requires Distinct(c.order) && forall i :: 0 <= i < |c.order| ==> c.order[i].key != e.key
    ensures WellKept(c.(order := [e] + c.order[..Fitting(c.order, LIST_CACHE_BYTES - e.Cost())]))
  {
    var room := LIST_CACHE_BYTES - e.Cost();
    FittingIsMost(c.order, room);
    var kept := c.order[..Fitting(c.order, room)];
    PushTotal(e, kept);
    assert |kept| == 0 || Total(kept) <= room;
    assert Distinct(kept);
  }

  /** So does a store: past 8 MiB the cache holds one entry, which alone costs more. */
  lemma {:induction false} PutKeepsBound(c: Lru, gen: nat, e: Entry)
    requires WellKept(c)
    ensures WellKept(c.Put(gen, e))
  {
    var a := c.At(gen);
    var i := Find(a.order, e.key);
    if gen == a.gen && e.body.Len() <= LIST_CACHE_MAX_ENTRY {
      if i < |a.order| {
        TouchKeeps(a, i);
      } else {
        PushKeeps(a, e);
      }
    }
  }

  /** A request that read an older generation than one already seen neither reads nor stores. */
  lemma {:induction false} OlderGenerationIsInert(c: Lru, gen: nat, key: Key, e: Entry)
    ensures gen < c.gen ==> c.Get(gen, key) == (c, None) && c.Put(gen, e) == c
    ensures gen > c.gen ==> c.Get(gen, key) == (Lru(gen, []), None)
    ensures gen > c.gen && e.body.Len() <= LIST_CACHE_MAX_ENTRY ==> c.Put(gen, e).order == [e]
  {
  }

  /** The newest entry always survives its own store, at the front, and is what a lookup then finds. */
  lemma {:induction false} NewEntrySurvives(c: Lru, gen: nat, e: Entry)
    requires gen >= c.gen && e.body.Len() <= 1024 * 1024
    ensures var o := c.Put(gen, e).order; o != [] && o[0].key == e.key
    ensures c.Put(gen, e).Get(gen, e.key).1.Some?
    ensures c.Get(gen, e.key).1.None? ==> c.Put(gen, e).Get(gen, e.key).1 == Some(Hit(e.body, e.gz))
  {
    assert c.Put(gen, e).order[0].key == e.key;
  }

  // ------------------------------------------------------------ runs of the cache

  datatype Op = Lookup(gen: nat, key: Key) | Store(gen: nat, entry: Entry) {
    function KeyOf(): Key { if Lookup? then key else entry.key }

    /** An answer too big for the cache is turned away before anything is looked at. */
    predicate Counts() { Store? ==> entry.body.Len() <= LIST_CACHE_MAX_ENTRY }

    predicate Uses(g: nat, k: Key) { gen == g && KeyOf() == k && Counts() }
  }

  function Apply(c: Lru, op: Op): Lru {
    match op
    case Lookup(gen, key) => c.Get(gen, key).0
    case Store(gen, e) => c.Put(gen, e)
  }

  function Exec(ops: seq<Op>): Lru {
    if ops == [] then Lru(0, []) else Apply(Exec(ops[..|ops| - 1]), ops[|ops| - 1])
  }

  /** The last operation of generation gen on key, -1 for none: when key was last used. */
  function LastUse(ops: seq<Op>, gen: nat, key: Key): (i: int)
    ensures -1 <= i < |ops|
    ensures i >= 0 ==> ops[i].Uses(gen, key)
  {
    if ops == [] then -1
    else
      var last := |ops| - 1;
      if ops[last].Uses(gen, key) then last else LastUse(ops[..last], gen, key)
  }

  /** order runs from the most to the least recently used of generation gen. */
  ghost predicate ByRecency(order: seq<Entry>, ops: seq<Op>, gen: nat) {
    && (forall i :: 0 <= i < |order| ==> LastUse(ops, gen, order[i].key) >= 0)
    && (forall i, j :: 0 <= i < j < |order| ==>
          LastUse(ops, gen, order[i].key) > LastUse(ops, gen, order[j].key))
  }

  /** One more operation: only the key it uses is used later than before. */
  lemma {:induction false} LastUseStep(ops: seq<Op>, op: Op, gen: nat, k: Key)
    ensures LastUse(ops + [op], gen, k) == if op.Uses(gen, k) then |ops| else LastUse(ops, gen, k)
  {
    assert (ops + [op])[..|ops|] == ops;
  }

  /** An operation on no key of the list leaves its order. */
  lemma {:induction false} IdleByRecency(order: seq<Entry>, ops: seq<Op>, op: Op, gen: nat)
    requires ByRecency(order, ops, gen)
    requires forall i :: 0 <= i < |order| ==> !op.Uses(gen, order[i].key)
    ensures ByRecency(order, ops + [op], gen)
  {
    forall i | 0 <= i < |order|
      ensures LastUse(ops + [op], gen, order[i].key) == LastUse(ops, gen, order[i].key)
    {
      LastUseStep(ops, op, gen, order[i].key);
    }
  }

  /** Putting a new entry, used last, in front of a list keeps the order. */
  lemma {:induction false} PushByRecency(e: Entry, rest: seq<Entry>, ops: seq<Op>, op: Op, gen: nat)
    requires ByRecency(rest, ops, gen) && op.Uses(gen, e.key)
    requires forall i :: 0 <= i < |rest| ==> rest[i].key != e.key
    ensures ByRecency([e] + rest, ops + [op], gen)
  {
    IdleByRecency(rest, ops, op, gen);
    LastUseStep(ops, op, gen, e.key);
    forall i | 0 <= i < |rest| ensures LastUse(ops + [op], gen, rest[i].key) < |ops| {
      LastUseStep(ops, op, gen, rest[i].key);
    }
  }

  /** So does moving an entry used last to the front. */
  lemma {:induction false} TouchByRecency(order: seq<Entry>, i: nat, ops: seq<Op>, op: Op, gen: nat)
    requires i < |order| && Distinct(order) && ByRecency(order, ops, gen) && op.Uses(gen, order[i].key)
    ensures ByRecency(Touch(order, i), ops + [op], gen)
  {
    var rest := order[..i] + order[i + 1..];
    RestByRecency(order, i, ops, gen);
    PushByRecency(order[i], rest, ops, op, gen);
    assert Touch(order, i) == [order[i]] + rest;
  }

  /** With one entry taken out, the others keep theirs, and none has its key. */
  lemma {:induction false} RestByRecency(order: seq<Entry>, i: nat, ops: seq<Op>, gen: nat)
    requires i < |order| && Distinct(order) && ByRecency(order, ops, gen)
    ensures var rest := order[..i] + order[i + 1..];
      ByRecency(rest, ops, gen) && forall j :: 0 <= j < |rest| ==> rest[j].key != order[i].key
  {
    var rest := order[..i] + order[i + 1..];
    assert forall j :: 0 <= j < |rest| ==> rest[j] == if j < i then order[j] else order[j + 1];
  }

  /** Where op finds its key in c moved forward to its generation. */
  function PlaceOf(c: Lru, op: Op): nat {
    Find(c.At(op.gen).order, op.KeyOf())
  }

  /** op is turned away, or looks up what is not there. */
  predicate Idles(c: Lru, op: Op) {
    !op.Counts() || op.gen < c.gen || (op.Lookup? && PlaceOf(c, op) == |c.At(op.gen).order|)
  }

  lemma {:induction false} IdleStep(ops: seq<Op>, op: Op, c: Lru)
    requires ByRecency(c.order, ops, c.gen) && Idles(c, op)
    ensures ByRecency(Apply(c, op).order, ops + [op], Apply(c, op).gen)
  {
    IdleByRecency(Apply(c, op).order, ops, op, Apply(c, op).gen);
  }

  lemma {:induction false} TouchStep(ops: seq<Op>, op: Op, c: Lru)
    requires Distinct(c.order) && ByRecency(c.order, ops, c.gen)
    requires !Idles(c, op) && PlaceOf(c, op) < |c.At(op.gen).order|
    ensures ByRecency(Apply(c, op).order, ops + [op], Apply(c, op).gen)
  {
    TouchByRecency(c.At(op.gen).order, PlaceOf(c, op), ops, op, op.gen);
  }

  lemma {:induction false} PushStep(ops: seq<Op>, op: Op, c: Lru)
    requires ByRecency(c.order, ops, c.gen)
    requires !Idles(c, op) && PlaceOf(c, op) == |c.At(op.gen).order|
    ensures ByRecency(Apply(c, op).order, ops + [op], Apply(c, op).gen)
  {
    var a := c.At(op.gen);
    var n := Fitting(a.order, LIST_CACHE_BYTES - op.entry.Cost());
    PushByRecency(op.entry, a.order[..n], ops, op, a.gen);
  }

  lemma {:induction false} StepByRecency(ops: seq<Op>, op: Op, c: Lru)
    requires Distinct(c.order) && ByRecency(c.order, ops, c.gen)
    ensures ByRecency(Apply(c, op).order, ops + [op], Apply(c, op).gen)
  {
    if Idles(c, op) {
      IdleStep(ops, op, c);
    } else if PlaceOf(c, op) < |c.At(op.gen).order| {
      TouchStep(ops, op, c);
    } else {
      PushStep(ops, op, c);
    }
  }

  /** After any run the list is in order of last use, so its tail is the least recently used. */
  lemma {:induction false} RunIsByRecency(ops: seq<Op>)
    ensures WellKept(Exec(ops)) && ByRecency(Exec(ops).order, ops, Exec(ops).gen)
  {
    if ops != [] {
      var n := |ops| - 1;
      var op := ops[n];
      RunIsByRecency(ops[..n]);
      StepByRecency(ops[..n], op, Exec(ops[..n]));
      assert ops[..n] + [op] == ops;
      if op.Lookup? {
        GetKeepsBound(Exec(ops[..n]), op.gen, op.key);
      } else {
        PutKeepsBound(Exec(ops[..n]), op.gen, op.entry);
      }
    }
  }

  /** What a store drops lies behind everything it keeps. */
  lemma {:induction false} StoreDropsATail(c: Lru, e: Entry, i: nat, j: nat)
    requires Distinct(c.order) && i < |c.order| && j < |c.order|
    requires var d := c.Put(c.gen, e); c.order[i] in d.order && c.order[j] !in d.order
    ensures i < j
  {
    var at := Find(c.order, e.key);
    if at < |c.order| {
      TouchMembers(c.order, at, c.order[j]);
    } else {
      var n := Fitting(c.order, LIST_CACHE_BYTES - e.Cost());
      var kept := c.order[..n];
      assert forall k :: 0 <= k < n ==> c.order[k] in kept;
      assert c.order[i] in kept;
      var k :| 0 <= k < n && kept[k] == c.order[i];
    }
  }

  /** After any run, a store evicts only entries used less recently than every older one it keeps. */
  lemma {:induction false} EvictsLeastRecentlyUsed(ops: seq<Op>, e: Entry, i: nat, j: nat)
    requires var c := Exec(ops); i < |c.order| && j < |c.order|
    requires var c := Exec(ops); var d := c.Put(c.gen, e); c.order[i] in d.order && c.order[j] !in d.order
    ensures var c := Exec(ops); LastUse(ops, c.gen, c.order[i].key) > LastUse(ops, c.gen, c.order[j].key)
  {
    RunIsByRecency(ops);
    StoreDropsATail(Exec(ops), e, i, j);
  }

  /** A store that evicts was forced to: one entry more would not have fitted. */
  lemma {:induction false} EvictsNoMoreThanNeeded(c: Lru, e: Entry)
    requires WellKept(c) && e.body.Len() <= 1024 * 1024
    requires Find(c.order, e.key) == |c.order|
    ensures var d := c.Put(c.gen, e);
      var n := |d.order| - 1;
      && 0 <= n <= |c.order| && d.order[1..] == c.order[..n]
      && (n < |c.order| ==> Total(c.order[..n + 1]) + e.Cost() > 8 * 1024 * 1024)
  {
    FittingIsMost(c.order, LIST_CACHE_BYTES - e.Cost());
  }

  lemma {:induction false} MembersComeFromBefore(c: Lru, op: Op, e: Entry)
    requires e in Apply(c, op).order && op != Store(Apply(c, op).gen, e)
    ensures e in c.order && Apply(c, op).gen == c.gen
  {
    var a := c.At(op.gen);
    var j := Find(a.order, op.KeyOf());
    if op.Counts() && j < |a.order| {
      TouchMembers(a.order, j, e);
    }
  }

  /** Every entry the cache holds was stored under the generation it is at. */
  lemma {:induction false} EntriesAreOfThisGeneration(ops: seq<Op>, e: Entry)
    requires e in Exec(ops).order
    ensures exists i :: 0 <= i < |ops| && ops[i] == Store(Exec(ops).gen, e)
  {
    var n := |ops| - 1;
    var c, op := Exec(ops[..n]), ops[n];
    if op == Store(Exec(ops).gen, e) {
    } else {
      MembersComeFromBefore(c, op, e);
      EntriesAreOfThisGeneration(ops[..n], e);
      var i :| 0 <= i < n && ops[..n][i] == Store(c.gen, e);
      assert ops[i] == Store(Exec(ops).gen, e);
    }
  }

  /** No entry it holds is bigger than one may be. */
  lemma {:induction false} EntriesFit(ops: seq<Op>, e: Entry)
    requires e in Exec(ops).order
    ensures e.body.Len() <= LIST_CACHE_MAX_ENTRY
  {
    var n := |ops| - 1;
    if e in Exec(ops[..n]).order {
      EntriesFit(ops[..n], e);
    } else if ops[n] != Store(Exec(ops).gen, e) {
      MembersComeFromBefore(Exec(ops[..n]), ops[n], e);
    }
  }

  lemma {:induction false} GetFinds(c: Lru, key: Key)
    requires Distinct(c.order)
    ensures forall e <- c.order :: e.key == key ==> c.Get(c.gen, key).1 == Some(Hit(e.body, e.gz))
    ensures c.Get(c.gen, key).1.Some? <==> exists e :: e in c.order && e.key == key
  {
    var i := Find(c.order, key);
    assert i < |c.order| ==> c.order[i] in c.order;
  }

  lemma {:induction false} OtherGenerationsMiss(c: Lru, gen: nat, key: Key)
    requires gen != c.gen
    ensures c.Get(gen, key).1.None?
  {
  }

  /** In any run a look-up finds exactly what is held under its key, of the present generation. */
  lemma {:induction false} HeldIsFound(ops: seq<Op>, gen: nat, key: Key)
    ensures var c, got := Exec(ops), Exec(ops).Get(gen, key).1;
      && (forall e <- c.order :: gen == c.gen && e.key == key ==> got == Some(Hit(e.body, e.gz)))
      && (got.Some? <==> gen == c.gen && exists e :: e in c.order && e.key == key)
  {
    var c := Exec(ops);
    if gen == c.gen {
      RunIsByRecency(ops);
      GetFinds(c, key);
    } else {
      OtherGenerationsMiss(c, gen, key);
    }
  }

  /** The bytes the entries' buffers take, capacity to spare included. */
  function Buffers(order: seq<Entry>): nat {
    if order == [] then 0
    else
      var e := order[|order| - 1];
      Buffers(order[..|order| - 1]) + e.body.Len() + e.gz.Len()
        + (if e.body.Nil? then 0 else e.body.spare) + (if e.gz.Nil? then 0 else e.gz.spare)
  }

  /** What the entries cost is their buffers, and LIST_ENTRY_COST for each entry. */
  lemma {:induction false} CostsItsBuffers(order: seq<Entry>)
    ensures Total(order) == Buffers(order) + 256 * |order|
  {
    if order != [] {
      CostsItsBuffers(order[..|order| - 1]);
    }
  }

  /** In any run the buffers held take at most 8 MiB, unless a single entry is all there is. */
  lemma {:induction false} BuffersAreBounded(ops: seq<Op>)
    ensures Buffers(Exec(ops).order) + 256 * |Exec(ops).order| <= 8 * 1024 * 1024 || |Exec(ops).order| == 1
  {
    RunIsByRecency(ops);
    CostsItsBuffers(Exec(ops).order);
  }

  // ---------------------------------------------------------- the server's object

  /** The map holds exactly the list's entries, each under its key. */
  ghost predicate Agree(order: seq<Entry>, entries: map<Key, Entry>) {
    && Distinct(order)
    && (forall i :: 0 <= i < |order| ==> order[i].key in entries && entries[order[i].key] == order[i])
    && (forall k <- entries :: Find(order, k) < |order|)
  }

  lemma {:induction false} AgreeFind(order: seq<Entry>, entries: map<Key, Entry>, key: Key)
    requires Agree(order, entries)
    ensures key in entries <==> Find(order, key) < |order|
    ensures key in entries ==> order[Find(order, key)] == entries[key]
  {
  }

  lemma {:induction false} FindAny(order: seq<Entry>, i: nat)
    requires i < |order|
    ensures Find(order, order[i].key) < |order|
  {
  }

  lemma {:induction false} AgreeTouch(order: seq<Entry>, entries: map<Key, Entry>, i: nat)
    requires Agree(order, entries) && i < |order|
    ensures Agree(Touch(order, i), entries)
  {
    TouchDistinct(order, i);
    TouchAt(order, i);
    var t := Touch(order, i);
    forall j | 0 <= j < |t| ensures t[j].key in entries && entries[t[j].key] == t[j] {
      assert t[j] == order[if j == 0 then i else if j <= i then j - 1 else j];
    }
    forall k <- entries ensures Find(t, k) < |t| {
      var f := Find(order, k);
      var j := if f == i then 0 else if f < i then f + 1 else f;
      assert t[j] == order[f];
      FindAny(t, j);
    }
  }

  lemma {:induction false} AgreeDropLast(order: seq<Entry>, entries: map<Key, Entry>)
    requires Agree(order, entries) && order != []
    ensures Agree(order[..|order| - 1], entries - {order[|order| - 1].key})
  {
    var rest, last := order[..|order| - 1], order[|order| - 1];
    forall k <- entries - {last.key} ensures Find(rest, k) < |rest| {
      var f := Find(order, k);
      assert rest[f] == order[f];
      FindAny(rest, f);
    }
  }

  lemma {:induction false} AgreePush(e: Entry, order: seq<Entry>, entries: map<Key, Entry>)
    requires Agree(order, entries) && e.key !in entries
    ensures Agree([e] + order, entries[e.key := e])
  {
    var t, m := [e] + order, entries[e.key := e];
    assert forall j :: 0 < j < |t| ==> t[j] == order[j - 1];
    forall k <- m ensures Find(t, k) < |t| {
      var j := if k == e.key then 0 else Find(order, k) + 1;
      assert t[j].key == k;
      FindAny(t, j);
    }
  }

  class ListCache {
    var gen: nat                  // the generation the entries belong to
    var size: int                 // bytes held
    var order: seq<Entry>         // the list, most recently used first
    var entries: map<Key, Entry>  // the map beside it

    ghost predicate Valid()
      reads this
    {
      size == Total(order) && Agree(order, entries)
    }

    ghost function View(): Lru
      reads this
    {
      Lru(gen, order)
    }

    constructor ()
      ensures Valid() && View() == Exec([])
    {
      gen, size, order, entries := 0, 0, [], map[];
    }

    method At(gen: nat) returns (ok: bool)
      requires Valid()
      modifies this
      ensures Valid() && View() == old(View()).At(gen)
      ensures ok <==> gen >= old(this.gen)
    {
      if gen > this.gen {
        this.gen, size := gen, 0;
        order := [];
        entries := map[];
      }
      ok := gen == this.gen;
    }

    /** MoveToFront of the element the map holds for key. */
    method MoveToFront(key: Key)
      requires Valid() && key in entries
      modifies this`order
      ensures Valid()
      ensures Find(old(order), key) < |old(order)| && order == Touch(old(order), Find(old(order), key))
    {
      AgreeFind(order, entries, key);
      var i := Find(order, key);
      var moved := [order[i]] + order[..i] + order[i + 1..];
      AgreeTouch(order, entries, i);
      TouchTotal(order, i);
      assert moved == Touch(order, i);
      order := moved;
    }

    method Get(gen: nat, key: Key) returns (hit: Option<Hit>)
      requires Valid()
      modifies this
      ensures Valid() && (View(), hit) == old(View()).Get(gen, key)
    {
      var ok := At(gen);
      if !ok {
        return None;
      }
      AgreeFind(order, entries, key);
      if key !in entries {
        return None;
      }
      MoveToFront(key);
      var e := entries[key];
      hit := Some(Hit(e.body, e.gz));
    }

    method DropLast()
      requires Valid() && order != []
      modifies this`size, this`order, this`entries
      ensures Valid() && order == old(order)[..|old(order)| - 1] && entries.Keys <= old(entries.Keys)
    {
      AgreeDropLast(order, entries);
      var last := order[|order| - 1];
      order := order[..|order| - 1];
      entries := entries - {last.key};
      size := size - last.Cost();
    }

    /** The eviction loop: drop from the back until cost more bytes fit. */
    method Evict(cost: int)
      requires Valid()
      modifies this`size, this`order, this`entries
      ensures Valid() && entries.Keys <= old(entries.Keys)
      ensures order == old(order)[..Fitting(old(order), LIST_CACHE_BYTES - cost)]
    {
      while size + cost > LIST_CACHE_BYTES && |order| > 0
        invariant Valid() && entries.Keys <= old(entries.Keys)
        invariant order <= old(order)
        invariant Fitting(order, LIST_CACHE_BYTES - cost) == Fitting(old(order), LIST_CACHE_BYTES - cost)
        decreases |order|
      {
        DropLast();
      }
      assert order[..|order|] == order;
    }

    method Put(gen: nat, key: Key, body: Slice, gz: Slice)
      requires Valid()
      modifies this
      ensures Valid() && View() == old(View()).Put(gen, Entry(key, body, gz))
    {
      if body.Len() > LIST_CACHE_MAX_ENTRY {
        return;
      }
      var ok := At(gen);
      if !ok {
        return;
      }
      AgreeFind(order, entries, key);
      if key in entries {
        MoveToFront(key);
      } else {
        PushNew(Entry(key, body, gz));
      }
    }

    /** Room made, the new entry goes to the front of the list and into the map. */
    method PushNew(e: Entry)
      requires Valid() && e.key !in entries
      modifies this`size, this`order, this`entries
      ensures Valid()
      ensures order == [e] + old(order)[..Fitting(old(order), LIST_CACHE_BYTES - e.Cost())]
    {
      Evict(e.Cost());
      AgreePush(e, order, entries);
      PushTotal(e, order);
      entries := entries[e.key := e];
      order := [e] + order;
      size := size + e.Cost();
    }
  }
}
